/**
 * The application-state store (store/useStore.ts): one state object that every
 * action replaces. The list and record operations the actions compute are
 * functions here, with their properties as lemmas; class AppStore holds the
 * state and its actions are methods tied to those functions.
 */
module Store {
  import opened Types
  import Constants

  // ---------------------------------------------------------------- state at start

  /** The state the store is created with: the defaults of store/useStore.ts:10-22. */
  function InitialState(): AppState {
    AppState(
      Preferences(true, false, false, true, "Traveler"),
      Constants.DefaultShortcuts,
      Constants.DefaultEngines,
      Theme(ThemeColors(None, None)),
      Onboarding(false))
  }

  lemma InitialStateFacts()
    ensures InitialState().prefs.use24h && !InitialState().prefs.showWeather
    ensures !InitialState().prefs.showSeconds && InitialState().prefs.showGreeting
    ensures InitialState().prefs.userName == "Traveler"
    ensures |InitialState().shortcuts| == 4 && DistinctIds(InitialState().shortcuts)
    ensures |InitialState().searchEngines| == 7
    ensures InitialState().theme.customColors == ThemeColors(None, None)
    ensures !InitialState().onboarding.hasSeenBangHint
  {
    Constants.DefaultShortcutIds();
  }

  // ---------------------------------------------------------------- setPreference

  /** Reads one preference field by its key. */
  function PreferenceOf(p: Preferences, key: PreferenceKey): (v: PreferenceValue)
    ensures WellTyped(key, v)
  {
    match key
    case Use24h => Flag(p.use24h)
    case ShowWeather => Flag(p.showWeather)
    case ShowSeconds => Flag(p.showSeconds)
    case ShowGreeting => Flag(p.showGreeting)
    case UserName => Text(p.userName)
  }

  /** `{ ...state, [key]: value }`: the preferences with one field replaced. */
  function WithPreference(p: Preferences, key: PreferenceKey, value: PreferenceValue): (r: Preferences)
    requires WellTyped(key, value)
    ensures PreferenceOf(r, key) == value
    ensures forall k :: k != key ==> PreferenceOf(r, k) == PreferenceOf(p, k)
  {
    match key
    case Use24h => p.(use24h := value.flag)
    case ShowWeather => p.(showWeather := value.flag)
    case ShowSeconds => p.(showSeconds := value.flag)
    case ShowGreeting => p.(showGreeting := value.flag)
    case UserName => p.(userName := value.text)
  }

  /** A preference record is determined by what its five keys read. */
  lemma PreferencesByKeys(p: Preferences, q: Preferences)
    requires forall k :: PreferenceOf(p, k) == PreferenceOf(q, k)
    ensures p == q
  {
    assert PreferenceOf(p, Use24h) == PreferenceOf(q, Use24h);
    assert PreferenceOf(p, ShowWeather) == PreferenceOf(q, ShowWeather);
    assert PreferenceOf(p, ShowSeconds) == PreferenceOf(q, ShowSeconds);
    assert PreferenceOf(p, ShowGreeting) == PreferenceOf(q, ShowGreeting);
    assert PreferenceOf(p, UserName) == PreferenceOf(q, UserName);
  }

  /** Writing a key its current value changes nothing; a second write to the same key wins. */
  lemma WithPreferenceLaws(p: Preferences, key: PreferenceKey, v: PreferenceValue, w: PreferenceValue)
    requires WellTyped(key, v) && WellTyped(key, w)
    ensures WithPreference(p, key, PreferenceOf(p, key)) == p
    ensures WithPreference(WithPreference(p, key, v), key, w) == WithPreference(p, key, w)
  {
    PreferencesByKeys(WithPreference(p, key, PreferenceOf(p, key)), p);
    PreferencesByKeys(WithPreference(WithPreference(p, key, v), key, w), WithPreference(p, key, w));
  }

  /** Writes to two different keys commute. */
  lemma WithPreferenceCommutes(p: Preferences, k1: PreferenceKey, v1: PreferenceValue,
                               k2: PreferenceKey, v2: PreferenceValue)
    requires k1 != k2 && WellTyped(k1, v1) && WellTyped(k2, v2)
    ensures WithPreference(WithPreference(p, k1, v1), k2, v2)
         == WithPreference(WithPreference(p, k2, v2), k1, v1)
  {
    var a := WithPreference(WithPreference(p, k1, v1), k2, v2);
    var b := WithPreference(WithPreference(p, k2, v2), k1, v1);
    forall k ensures PreferenceOf(a, k) == PreferenceOf(b, k) {
      if k == k1 {
        assert PreferenceOf(a, k) == v1 == PreferenceOf(b, k);
      } else if k == k2 {
        assert PreferenceOf(a, k) == v2 == PreferenceOf(b, k);
      } else {
        assert PreferenceOf(a, k) == PreferenceOf(p, k) == PreferenceOf(b, k);
      }
    }
    PreferencesByKeys(a, b);
  }

  // ---------------------------------------------------------------- updateTheme

  /** `{ ...customColors, ...colors }`: a supplied field (null included) replaces, an omitted one stays. */
  function MergeColors(c: ThemeColors, colors: ThemePatch): (r: ThemeColors)
    ensures colors.base.Some? ==> r.base == colors.base.value
    ensures colors.base.None? ==> r.base == c.base
    ensures colors.accent.Some? ==> r.accent == colors.accent.value
    ensures colors.accent.None? ==> r.accent == c.accent
  {
    ThemeColors(colors.base.GetOr(c.base), colors.accent.GetOr(c.accent))
  }

  /** The patch that results from spreading `first` and then `second`. */
  function ThenPatch(first: ThemePatch, second: ThemePatch): ThemePatch {
    ThemePatch(if second.base.Some? then second.base else first.base,
               if second.accent.Some? then second.accent else first.accent)
  }

  /** Resetting both colours; the empty patch; applying a patch twice; two patches in a row. */
  lemma MergeColorsLaws(c: ThemeColors, p: ThemePatch, q: ThemePatch)
    ensures MergeColors(c, ThemePatch(Some(None), Some(None))) == ThemeColors(None, None)
    ensures MergeColors(c, ThemePatch(None, None)) == c
    ensures MergeColors(MergeColors(c, p), p) == MergeColors(c, p)
    ensures MergeColors(MergeColors(c, p), q) == MergeColors(c, ThenPatch(p, q))
  {
  }

  // ---------------------------------------------------------------- addShortcut

  /** `{ ...data, id }`. */
  function WithId(data: ShortcutData, id: string): (r: Shortcut)
    ensures r.id == id && r.title == data.title && r.url == data.url && r.icon == data.icon
  {
    Shortcut(id, data.title, data.url, data.icon)
  }

  /** Appending a shortcut whose id is fresh keeps the ids distinct. */
  lemma AddKeepsDistinct(s: seq<Shortcut>, data: ShortcutData, id: string)
    requires DistinctIds(s) && id !in Ids(s)
    ensures DistinctIds(s + [WithId(data, id)])
  {
    var t := s + [WithId(data, id)];
    forall i, j | 0 <= i < j < |t| ensures t[i].id != t[j].id {
      if j == |s| {
        assert Ids(s)[i] == t[i].id;
      }
    }
  }

  // ---------------------------------------------------------------- editShortcut

  /** `{ ...s, ...data }`: supplied fields overwrite, omitted ones stay. */
  function ApplyPatch(s: Shortcut, data: ShortcutPatch): Shortcut {
    Shortcut(data.id.GetOr(s.id), data.title.GetOr(s.title), data.url.GetOr(s.url), data.icon.GetOr(s.icon))
  }

  /** `shortcuts.map(s => s.id === id ? { ...s, ...data } : s)`. */
  function EditById(s: seq<Shortcut>, id: string, data: ShortcutPatch): (r: seq<Shortcut>)
    ensures |r| == |s|
    ensures forall i :: 0 <= i < |s| ==>
              r[i] == if s[i].id == id then ApplyPatch(s[i], data) else s[i]
  {
    if s == [] then []
    else [if s[0].id == id then ApplyPatch(s[0], data) else s[0]] + EditById(s[1..], id, data)
  }

  /** Field by field: a matching shortcut takes each supplied field and keeps each omitted one. */
  lemma EditFields(s: seq<Shortcut>, id: string, data: ShortcutPatch, i: nat)
    requires i < |s| && s[i].id == id
    ensures var e := EditById(s, id, data)[i];
      && e.id == (if data.id.Some? then data.id.value else s[i].id)
      && e.title == (if data.title.Some? then data.title.value else s[i].title)
      && e.url == (if data.url.Some? then data.url.value else s[i].url)
      && e.icon == (if data.icon.Some? then data.icon.value else s[i].icon)
  {
  }

  /** Editing an id that no shortcut has is a no-op. */
  lemma EditAbsentIsNoOp(s: seq<Shortcut>, id: string, data: ShortcutPatch)
    requires id !in Ids(s)
    ensures EditById(s, id, data) == s
  {
    var r := EditById(s, id, data);
    forall i | 0 <= i < |s| ensures r[i] == s[i] {
      assert Ids(s)[i] == s[i].id;
    }
  }

  /** An edit that supplies no id keeps the ids, and so keeps them distinct. */
  lemma EditKeepsIds(s: seq<Shortcut>, id: string, data: ShortcutPatch)
    requires data.id.None?
    ensures Ids(EditById(s, id, data)) == Ids(s)
    ensures DistinctIds(s) ==> DistinctIds(EditById(s, id, data))
  {
  }

  // ---------------------------------------------------------------- removeShortcut

  /** `shortcuts.filter(s => s.id !== id)`. */
  function RemoveById(s: seq<Shortcut>, id: string): (r: seq<Shortcut>)
    ensures |r| <= |s|
  {
    if s == [] then []
    else (if s[0].id == id then [] else [s[0]]) + RemoveById(s[1..], id)
  }

  /** A shortcut survives the removal exactly when it was in the list and has another id. */
  lemma {:induction false} RemoveByIdMembers(s: seq<Shortcut>, id: string)
    ensures forall x :: x in RemoveById(s, id) <==> x in s && x.id != id
  {
    if s != [] {
      RemoveByIdMembers(s[1..], id);
      assert s == [s[0]] + s[1..];
    }
  }

  /** Removing distributes over concatenation. */
  lemma {:induction false} RemoveSplit(a: seq<Shortcut>, b: seq<Shortcut>, id: string)
    ensures RemoveById(a + b, id) == RemoveById(a, id) + RemoveById(b, id)
  {
    if a != [] {
      assert (a + b)[1..] == a[1..] + b;
      RemoveSplit(a[1..], b, id);
    } else {
      assert a + b == b;
    }
  }

  /** Removing an id that no shortcut has is a no-op. */
  lemma {:induction false} RemoveAbsentIsNoOp(s: seq<Shortcut>, id: string)
    requires id !in Ids(s)
    ensures RemoveById(s, id) == s
  {
    if s != [] {
      assert Ids(s)[0] == s[0].id;
      assert id !in Ids(s[1..]) by {
        forall k | 0 <= k < |s| - 1 ensures Ids(s[1..])[k] != id {
          assert Ids(s[1..])[k] == Ids(s)[k + 1];
        }
      }
      RemoveAbsentIsNoOp(s[1..], id);
      assert s == [s[0]] + s[1..];
    }
  }

  /** Adding a shortcut with a fresh id and then removing that id restores the list. */
  lemma AddThenRemove(s: seq<Shortcut>, data: ShortcutData, id: string)
    requires id !in Ids(s)
    ensures RemoveById(s + [WithId(data, id)], id) == s
  {
    RemoveSplit(s, [WithId(data, id)], id);
    RemoveAbsentIsNoOp(s, id);
    assert [WithId(data, id)][1..] == [];
  }

  /** The positions, in increasing order, of the shortcuts whose id is not `id`. */
  function KeptPositions(s: seq<Shortcut>, id: string): (p: seq<nat>)
    ensures forall k :: 0 <= k < |p| ==> p[k] < |s|
    decreases |s|
  {
    if s == [] then []
    else KeptPositions(s[..|s| - 1], id) + (if s[|s| - 1].id != id then [|s| - 1] else [])
  }

  /** The kept positions increase strictly and are exactly those whose id differs. */
  lemma {:induction false} KeptPositionsExact(s: seq<Shortcut>, id: string)
    ensures var p := KeptPositions(s, id);
      && (forall k, l :: 0 <= k < l < |p| ==> p[k] < p[l])
      && (forall i :: 0 <= i < |s| ==> (i in p <==> s[i].id != id))
    decreases |s|
  {
    if s != [] {
      var n := |s| - 1;
      var init := s[..n];
      KeptPositionsExact(init, id);
      var p0 := KeptPositions(init, id);
      var p := KeptPositions(s, id);
      assert p == p0 + (if s[n].id != id then [n] else []);
      forall k, l | 0 <= k < l < |p| ensures p[k] < p[l] {
        if l < |p0| {
          assert p[k] == p0[k] && p[l] == p0[l];
        } else {
          assert p[k] == p0[k];
        }
      }
      forall i | 0 <= i < |s| ensures i in p <==> s[i].id != id {
        if i < n {
          assert s[i] == init[i];
          assert i in p <==> i in p0;
        }
      }
    }
  }

  /**
   * Removing keeps exactly the shortcuts with another id, in their original order:
   * the result is `s` read at strictly increasing positions, which are all and only
   * the positions whose id differs.
   */
  lemma {:induction false} RemoveKeepsOrder(s: seq<Shortcut>, id: string)
    ensures var r, p := RemoveById(s, id), KeptPositions(s, id);
      && |p| == |r|
      && (forall k :: 0 <= k < |p| ==> r[k] == s[p[k]])
    decreases |s|
  {
    if s != [] {
      var n := |s| - 1;
      var init := s[..n];
      RemoveKeepsOrder(init, id);
      RemoveLast(s, id);
      ExtendReading(init, s[n], RemoveById(init, id), KeptPositions(init, id), s[n].id != id);
      assert s == init + [s[n]];
    }
  }

  /** Removing from a non-empty list: remove from all but the last, then keep the last unless it has the id. */
  lemma RemoveLast(s: seq<Shortcut>, id: string)
    requires s != []
    ensures RemoveById(s, id) == RemoveById(s[..|s| - 1], id) + (if s[|s| - 1].id != id then [s[|s| - 1]] else [])
  {
    var n := |s| - 1;
    assert s == s[..n] + [s[n]];
    RemoveSplit(s[..n], [s[n]], id);
    assert [s[n]][1..] == [];
  }

  /** Appending one element, read or not at the new last position, keeps "r is s read at p". */
  lemma ExtendReading(init: seq<Shortcut>, last: Shortcut, r0: seq<Shortcut>, p0: seq<nat>, keep: bool)
    requires |p0| == |r0| && forall k :: 0 <= k < |p0| ==> p0[k] < |init| && r0[k] == init[p0[k]]
    ensures var s, r, p := init + [last], r0 + (if keep then [last] else []), p0 + (if keep then [|init|] else []);
      |p| == |r| && forall k :: 0 <= k < |p| ==> p[k] < |s| && r[k] == s[p[k]]
  {
  }

  /** Removing keeps the remaining ids distinct. */
  lemma RemoveKeepsDistinct(s: seq<Shortcut>, id: string)
    requires DistinctIds(s)
    ensures DistinctIds(RemoveById(s, id))
  {
    RemoveKeepsOrder(s, id);
    KeptPositionsExact(s, id);
    var r, p := RemoveById(s, id), KeptPositions(s, id);
    forall k, l | 0 <= k < l < |r| ensures r[k].id != r[l].id {
      assert p[k] < p[l];
    }
  }

  /** With distinct ids, removing the id of the shortcut at `i` removes exactly that shortcut. */
  lemma RemovePresentIsRemoveAt(s: seq<Shortcut>, id: string, i: nat)
    requires DistinctIds(s) && i < |s| && s[i].id == id
    ensures RemoveById(s, id) == RemoveAt(s, i)
  {
    UniqueIdPosition(s, i);
    RemoveOnlyAt(s[..i], s[i], s[i + 1..], id);
    assert s == s[..i] + [s[i]] + s[i + 1..];
  }

  /** Under distinct ids, the id at `i` occurs neither before nor after `i`. */
  lemma UniqueIdPosition(s: seq<Shortcut>, i: nat)
    requires DistinctIds(s) && i < |s|
    ensures s[i].id !in Ids(s[..i]) && s[i].id !in Ids(s[i + 1..])
  {
    var a, b := s[..i], s[i + 1..];
    forall k | 0 <= k < |a| ensures Ids(a)[k] != s[i].id {
      assert a[k] == s[k];
    }
    forall k | 0 <= k < |b| ensures Ids(b)[k] != s[i].id {
      assert b[k] == s[i + 1 + k];
    }
  }

  /** Removing the id of a shortcut that no other shortcut shares leaves the shortcuts around it. */
  lemma RemoveOnlyAt(a: seq<Shortcut>, x: Shortcut, b: seq<Shortcut>, id: string)
    requires x.id == id && id !in Ids(a) && id !in Ids(b)
    ensures RemoveById(a + [x] + b, id) == a + b
  {
    calc {
      RemoveById(a + [x] + b, id);
    == { RemoveSplit(a + [x], b, id); }
      RemoveById(a + [x], id) + RemoveById(b, id);
    == { RemoveSplit(a, [x], id); }
      RemoveById(a, id) + RemoveById([x], id) + RemoveById(b, id);
    == { assert [x][1..] == []; }
      RemoveById(a, id) + RemoveById(b, id);
    == { RemoveAbsentIsNoOp(a, id); RemoveAbsentIsNoOp(b, id); }
      a + b;
    }
  }

  // ---------------------------------------------------------------- reorderShortcuts

  /** `list.splice(i, 1)`: the list without its element at `i`. */
  function RemoveAt<T>(s: seq<T>, i: nat): (r: seq<T>)
    requires i < |s|
    ensures |r| == |s| - 1
    ensures forall k :: 0 <= k < i ==> r[k] == s[k]
    ensures forall k :: i <= k < |r| ==> r[k] == s[k + 1]
  {
    s[..i] + s[i + 1..]
  }

  /** `list.splice(i, 0, x)`: the list with `x` inserted before position `i`. */
  function InsertAt<T>(s: seq<T>, i: nat, x: T): (r: seq<T>)
    requires i <= |s|
    ensures |r| == |s| + 1 && r[i] == x
    ensures forall k :: 0 <= k < i ==> r[k] == s[k]
    ensures forall k :: i < k < |r| ==> r[k] == s[k - 1]
  {
    s[..i] + [x] + s[i..]
  }

  /** Remove the element at `from`, then insert it at `to` of the shortened list. */
  function Reordered<T>(s: seq<T>, from: nat, to: nat): seq<T>
    requires from < |s| && to < |s|
  {
    InsertAt(RemoveAt(s, from), to, s[from])
  }

  /** Where the element at position `k` of the reordered list comes from. */
  function ReorderSource(from: nat, to: nat, k: nat): nat {
    if k == to then from
    else if from <= k < to then k + 1
    else if to < k <= from then k - 1
    else k
  }

  /** Element by element: the moved element lands at `to`, the ones between shift by one. */
  lemma ReorderedAt<T>(s: seq<T>, from: nat, to: nat)
    requires from < |s| && to < |s|
    ensures |Reordered(s, from, to)| == |s|
    ensures forall k :: 0 <= k < |s| ==>
              ReorderSource(from, to, k) < |s| && Reordered(s, from, to)[k] == s[ReorderSource(from, to, k)]
  {
    var r := Reordered(s, from, to);
    var m := RemoveAt(s, from);
    forall k | 0 <= k < |s| ensures r[k] == s[ReorderSource(from, to, k)] {
      if k < to {
        assert r[k] == m[k];
      } else if k > to {
        assert r[k] == m[k - 1];
      }
    }
  }

  /** Reordering permutes: same length, same elements with the same multiplicities. */
  lemma ReorderedIsPermutation<T>(s: seq<T>, from: nat, to: nat)
    requires from < |s| && to < |s|
    ensures |Reordered(s, from, to)| == |s|
    ensures Reordered(s, from, to)[to] == s[from]
    ensures multiset(Reordered(s, from, to)) == multiset(s)
  {
    var m := RemoveAt(s, from);
    assert s == s[..from] + [s[from]] + s[from + 1..];
    assert m[..to] + m[to..] == m;
    calc {
      multiset(Reordered(s, from, to));
      multiset(m[..to]) + multiset([s[from]]) + multiset(m[to..]);
      multiset(m) + multiset([s[from]]);
      multiset(s[..from]) + multiset(s[from + 1..]) + multiset([s[from]]);
      multiset(s);
    }
  }

  /** Moving the element back from `to` to `from` undoes the move. */
  lemma ReorderedInverse<T>(s: seq<T>, from: nat, to: nat)
    requires from < |s| && to < |s|
    ensures Reordered(Reordered(s, from, to), to, from) == s
  {
    var r := Reordered(s, from, to);
    ReorderedAt(s, from, to);
    ReorderedAt(r, to, from);
    var b := Reordered(r, to, from);
    forall k | 0 <= k < |s| ensures b[k] == s[k] {
      var j := ReorderSource(to, from, k);
      assert b[k] == r[j];
      assert ReorderSource(from, to, j) == k;
    }
    assert |b| == |s|;
  }

  /** The target index counts in the shortened list: [a,b,c,d] moved (0, 2) is [b,c,a,d]. */
  lemma ReorderedExample()
    ensures Reordered(['a', 'b', 'c', 'd'], 0, 2) == ['b', 'c', 'a', 'd']
  {
    assert RemoveAt(['a', 'b', 'c', 'd'], 0) == ['b', 'c', 'd'];
  }

  /** Reordering keeps the ids distinct. */
  lemma ReorderKeepsDistinct(s: seq<Shortcut>, from: nat, to: nat)
    requires from < |s| && to < |s| && DistinctIds(s)
    ensures DistinctIds(Reordered(s, from, to))
  {
    ReorderedAt(s, from, to);
    var r := Reordered(s, from, to);
    forall k, l | 0 <= k < l < |r| ensures r[k].id != r[l].id {
      assert ReorderSource(from, to, k) != ReorderSource(from, to, l);
    }
  }

  // ---------------------------------------------------------------- the store

  /** The store object; each action replaces part of its state, as `set` does. */
  class AppStore {
    var use24h: bool
    var showWeather: bool
    var showSeconds: bool
    var showGreeting: bool
    var userName: string
    var shortcuts: seq<Shortcut>
    var searchEngines: seq<SearchEngine>
    var theme: Theme
    var onboarding: Onboarding

    /** The whole state as one value. */
    function State(): AppState
      reads this
    {
      AppState(Preferences(use24h, showWeather, showSeconds, showGreeting, userName),
               shortcuts, searchEngines, theme, onboarding)
    }

    /** The invariant every id-preserving action keeps: shortcut ids are unique. */
    predicate Valid()
      reads this
    {
      DistinctIds(shortcuts)
    }

    constructor ()
      ensures State() == InitialState()
      ensures Valid()
    {
      use24h, showWeather, showSeconds, showGreeting, userName := true, false, false, true, "Traveler";
      shortcuts := Constants.DefaultShortcuts;
      searchEngines := Constants.DefaultEngines;
      theme := Theme(ThemeColors(None, None));
      onboarding := Onboarding(false);
      Constants.DefaultShortcutIds();
    }

    method SetPreference(key: PreferenceKey, value: PreferenceValue)
      requires WellTyped(key, value)
      modifies this
      ensures State() == old(State()).(prefs := WithPreference(old(State().prefs), key, value))
    {
      match key
      case Use24h => use24h := value.flag;
      case ShowWeather => showWeather := value.flag;
      case ShowSeconds => showSeconds := value.flag;
      case ShowGreeting => showGreeting := value.flag;
      case UserName => userName := value.text;
    }

    method UpdateTheme(colors: ThemePatch)
      modifies this
      ensures State() == old(State()).(theme := Theme(MergeColors(old(theme.customColors), colors)))
    {
      theme := Theme(MergeColors(theme.customColors, colors));
    }

    /** `freshId` stands for `crypto.randomUUID()`, which never repeats an id in use. */
    method AddShortcut(data: ShortcutData, freshId: string)
      requires freshId !in Ids(shortcuts)
      modifies this
      ensures State() == old(State()).(shortcuts := old(shortcuts) + [WithId(data, freshId)])
      ensures old(Valid()) ==> Valid()
    {
      if Valid() {
        AddKeepsDistinct(shortcuts, data, freshId);
      }
      shortcuts := shortcuts + [WithId(data, freshId)];
    }

    method EditShortcut(id: string, data: ShortcutPatch)
      modifies this
      ensures State() == old(State()).(shortcuts := EditById(old(shortcuts), id, data))
      ensures old(Valid()) && data.id.None? ==> Valid()
    {
      if data.id.None? {
        EditKeepsIds(shortcuts, id, data);
      }
      shortcuts := EditById(shortcuts, id, data);
    }

    method RemoveShortcut(id: string)
      modifies this
      ensures State() == old(State()).(shortcuts := RemoveById(old(shortcuts), id))
      ensures old(Valid()) ==> Valid()
      ensures old(Valid()) && id in Ids(old(shortcuts)) ==> |shortcuts| == |old(shortcuts)| - 1
    {
      if Valid() {
        RemoveKeepsDistinct(shortcuts, id);
        if id in Ids(shortcuts) {
          var i :| 0 <= i < |shortcuts| && Ids(shortcuts)[i] == id;
          RemovePresentIsRemoveAt(shortcuts, id, i);
        }
      }
      shortcuts := RemoveById(shortcuts, id);
    }

    /** Copies the list, splices the element out at `fromIndex` and back in at `toIndex`. */
    method ReorderShortcuts(fromIndex: nat, toIndex: nat)
      requires fromIndex < |shortcuts| && toIndex < |shortcuts|
      modifies this
      ensures State() == old(State()).(shortcuts := Reordered(old(shortcuts), fromIndex, toIndex))
      ensures old(Valid()) ==> Valid()
    {
      if Valid() {
        ReorderKeepsDistinct(shortcuts, fromIndex, toIndex);
      }
      var newList := shortcuts;
      var movedItem := newList[fromIndex];
      newList := RemoveAt(newList, fromIndex);
      newList := InsertAt(newList, toIndex, movedItem);
      shortcuts := newList;
    }

    method SetHasSeenBangHint()
      modifies this
      ensures State() == old(State()).(onboarding := Onboarding(true))
      ensures old(Valid()) ==> Valid()
    {
      onboarding := onboarding.(hasSeenBangHint := true);
    }
  }

  /** Setting the latch twice leaves the same state as setting it once. */
  method LatchIsIdempotent(store: AppStore)
    modifies store
    ensures store.State() == old(store.State()).(onboarding := Onboarding(true))
  {
    store.SetHasSeenBangHint();
    ghost var once := store.State();
    store.SetHasSeenBangHint();
    assert store.State() == once;
  }
}
