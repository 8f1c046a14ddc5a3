/**
 * The search bar (components/Search.tsx): the resolver that turns a query into
 * a navigation target, with the string and array primitives it is built from,
 * and the component state (query text, selected engine) with its key actions.
 *
 * `encodeURIComponent` and `new URL(u).origin` are parameters: `encode`, and
 * `origin`, which answers None where the URL constructor would throw.
 */
module Search {
  import opened Types
  import Store
  import Constants

  // ---------------------------------------------------------------- String.prototype.trim

  /** ECMAScript WhiteSpace and LineTerminator code points, the ones `trim` strips. */
  predicate IsWhitespace(c: char) {
    ('\t' <= c <= '\r') || c == ' ' || c == '\U{A0}' || c == '\U{1680}'
    || ('\U{2000}' <= c <= '\U{200A}') || c == '\U{2028}' || c == '\U{2029}'
    || c == '\U{202F}' || c == '\U{205F}' || c == '\U{3000}' || c == '\U{FEFF}'
  }

  predicate AllWhitespace(s: string) {
    forall i :: 0 <= i < |s| ==> IsWhitespace(s[i])
  }

  /** The number of blanks `trimStart` strips: a blank prefix followed by a non-blank or by nothing. */
  function LeadingBlanks(s: string): (n: nat)
    ensures n <= |s|
    ensures forall i :: 0 <= i < n ==> IsWhitespace(s[i])
    ensures n == |s| || !IsWhitespace(s[n])
  {
    if s != [] && IsWhitespace(s[0]) then
      var m := LeadingBlanks(s[1..]);
      assert forall i :: 1 <= i < |s| ==> s[1..][i - 1] == s[i];
      m + 1
    else 0
  }

  /** The number of blanks `trimEnd` strips: a blank suffix that follows a non-blank or nothing. */
  function TrailingBlanks(s: string): (n: nat)
    ensures n <= |s|
    ensures forall i :: |s| - n <= i < |s| ==> IsWhitespace(s[i])
    ensures n == |s| || !IsWhitespace(s[|s| - n - 1])
  {
    if s != [] && IsWhitespace(s[|s| - 1]) then
      var m := TrailingBlanks(s[..|s| - 1]);
      assert forall i :: 0 <= i < |s| - 1 ==> s[..|s| - 1][i] == s[i];
      m + 1
    else 0
  }

  /** `s.trimStart()`: the text after its leading blanks. */
  function TrimStart(s: string): string {
    s[LeadingBlanks(s)..]
  }

  /** `s.trimEnd()`: the text before its trailing blanks. */
  function TrimEnd(s: string): string {
    s[..|s| - TrailingBlanks(s)]
  }

  /** `s.trim()`: empty exactly when the text is all blank, and otherwise starting and ending with a non-blank. */
  function Trim(s: string): (r: string)
    ensures r == [] <==> AllWhitespace(s)
    ensures r == [] || (!IsWhitespace(r[0]) && !IsWhitespace(r[|r| - 1]))
  {
    TrimBlank(s);
    TrimEnd(TrimStart(s))
  }

  /** What both trims leave is empty exactly when the text is all blank, and otherwise has non-blank ends. */
  lemma TrimBlank(s: string)
    ensures var r := TrimEnd(TrimStart(s));
      && (r == [] <==> AllWhitespace(s))
      && (r == [] || (!IsWhitespace(r[0]) && !IsWhitespace(r[|r| - 1])))
  {
    var a := LeadingBlanks(s);
    var t := s[a..];
    var b := TrailingBlanks(t);
    var r := t[..|t| - b];
    assert TrimEnd(TrimStart(s)) == r;
    if AllWhitespace(s) {
      assert a == |s|;
    }
    if r == [] {
      BlankPrefixAndRest(s, a);
    } else {
      assert r[0] == s[a];
      assert r[|r| - 1] == t[|t| - b - 1];
    }
  }

  /** A text whose part before `k` and part from `k` are blank is blank. */
  lemma BlankPrefixAndRest(s: string, k: nat)
    requires k <= |s| && AllWhitespace(s[..k]) && AllWhitespace(s[k..])
    ensures AllWhitespace(s)
  {
    forall i | 0 <= i < |s| ensures IsWhitespace(s[i]) {
      if i < k {
        assert s[i] == s[..k][i];
      } else {
        assert s[i] == s[k..][i - k];
      }
    }
  }

  lemma AllWhitespaceConcat(a: string, b: string)
    ensures AllWhitespace(a + b) <==> AllWhitespace(a) && AllWhitespace(b)
  {
    var ab := a + b;
    if AllWhitespace(ab) {
      forall i | 0 <= i < |a| ensures IsWhitespace(a[i]) {
        assert a[i] == ab[i];
      }
      forall i | 0 <= i < |b| ensures IsWhitespace(b[i]) {
        assert b[i] == ab[|a| + i];
      }
    }
    if AllWhitespace(a) && AllWhitespace(b) {
      forall i | 0 <= i < |ab| ensures IsWhitespace(ab[i]) {
        if i < |a| { assert ab[i] == a[i]; } else { assert ab[i] == b[i - |a|]; }
      }
    }
  }

  /** The leading blanks are the only blank prefix followed by a non-blank or by nothing. */
  lemma LeadingBlanksUnique(x: string, k: nat)
    requires k <= |x| && AllWhitespace(x[..k])
    requires k == |x| || !IsWhitespace(x[k])
    ensures LeadingBlanks(x) == k
  {
    assert forall i :: 0 <= i < k ==> IsWhitespace(x[i]);
  }

  /** The trailing blanks are the only blank suffix that follows a non-blank or nothing. */
  lemma TrailingBlanksUnique(x: string, k: nat)
    requires k <= |x| && AllWhitespace(x[|x| - k..])
    requires k == |x| || !IsWhitespace(x[|x| - k - 1])
    ensures TrailingBlanks(x) == k
  {
    assert forall i :: |x| - k <= i < |x| ==> IsWhitespace(x[i]);
  }

  /** `trimStart` strips exactly a blank prefix that is followed by a non-blank or by nothing. */
  lemma TrimStartOf(lead: string, rest: string)
    requires AllWhitespace(lead)
    requires rest == [] || !IsWhitespace(rest[0])
    ensures TrimStart(lead + rest) == rest
  {
    var x := lead + rest;
    assert x[..|lead|] == lead;
    assert rest != [] ==> x[|lead|] == rest[0];
    LeadingBlanksUnique(x, |lead|);
    assert x[|lead|..] == rest;
  }

  /** `trimEnd` strips exactly a blank suffix that follows a non-blank or nothing. */
  lemma TrimEndOf(mid: string, trail: string)
    requires AllWhitespace(trail)
    requires mid == [] || !IsWhitespace(mid[|mid| - 1])
    ensures TrimEnd(mid + trail) == mid
  {
    var x := mid + trail;
    assert x[|mid|..] == trail;
    assert mid != [] ==> x[|mid| - 1] == mid[|mid| - 1];
    TrailingBlanksUnique(x, |trail|);
    assert x[..|mid|] == mid;
  }

  /** `trim` strips exactly the blank margins: a text between blank margins that starts and ends with non-blanks is what remains. */
  lemma TrimOf(lead: string, mid: string, trail: string)
    requires AllWhitespace(lead) && AllWhitespace(trail)
    requires mid == [] || (!IsWhitespace(mid[0]) && !IsWhitespace(mid[|mid| - 1]))
    ensures Trim(lead + mid + trail) == mid
  {
    if mid == [] {
      AllWhitespaceConcat(lead, trail);
      assert lead + mid + trail == lead + trail + [];
      TrimStartOf(lead + trail, []);
    } else {
      assert lead + mid + trail == lead + (mid + trail);
      TrimStartOf(lead, mid + trail);
      TrimEndOf(mid, trail);
    }
  }

  // ---------------------------------------------------------------- split(" ") and join(" ")

  /** `parts.join(sep)`. */
  function Join(parts: seq<string>, sep: char): string {
    if parts == [] then []
    else if |parts| == 1 then parts[0]
    else parts[0] + [sep] + Join(parts[1..], sep)
  }

  lemma JoinConsChar(c: char, head: string, tail: seq<string>, sep: char)
    ensures Join([[c] + head] + tail, sep) == [c] + Join([head] + tail, sep)
  {
    var a, b := [[c] + head] + tail, [head] + tail;
    if tail != [] {
      assert a[1..] == tail == b[1..];
    }
  }

  /** `s.split(sep)`: the pieces between separators; joining them back gives `s`. */
  function Split(s: string, sep: char): (parts: seq<string>)
    ensures |parts| >= 1
    ensures forall k :: 0 <= k < |parts| ==> sep !in parts[k]
    ensures Join(parts, sep) == s
  {
    if s == [] then [[]]
    else
      var rest := Split(s[1..], sep);
      if s[0] == sep then
        assert ([[]] + rest)[1..] == rest;
        [[]] + rest
      else
        JoinConsChar(s[0], rest[0], rest[1..], sep);
        assert [rest[0]] + rest[1..] == rest;
        [[s[0]] + rest[0]] + rest[1..]
  }

  /** The first piece runs up to the first separator; the others join to what follows it. */
  lemma SplitFirst(s: string, sep: char)
    ensures var parts := Split(s, sep);
      && (sep !in s <==> |parts| == 1)
      && (sep !in s ==> parts == [s])
      && (sep in s ==> s == parts[0] + [sep] + Join(parts[1..], sep))
  {
    var parts := Split(s, sep);
    if |parts| == 1 {
      assert s == parts[0];
    } else {
      assert s == parts[0] + [sep] + Join(parts[1..], sep);
      assert s[|parts[0]|] == sep;
    }
  }

  /** Splitting a text with a separator-free first piece: that piece comes first, the rest joins to what follows. */
  lemma SplitAt(head: string, rest: string, sep: char)
    requires sep !in head
    ensures Split(head, sep) == [head]
    ensures Split(head + [sep] + rest, sep)[0] == head
    ensures Join(Split(head + [sep] + rest, sep)[1..], sep) == rest
  {
    SplitFirst(head, sep);
    var s := head + [sep] + rest;
    SplitFirst(s, sep);
    var parts := Split(s, sep);
    var p0, tail := parts[0], Join(parts[1..], sep);
    assert s[|head|] == sep;
    assert s == p0 + [sep] + tail;
    assert s[|p0|] == sep;
    assert forall i :: 0 <= i < |head| ==> s[i] == head[i];
    assert forall i :: 0 <= i < |p0| ==> s[i] == p0[i];
    assert |p0| == |head|;
    assert p0 == s[..|head|] == head;
    assert tail == s[|head| + 1..] == rest;
  }

  // ---------------------------------------------------------------- Array.prototype.findIndex

  /** `s.findIndex(p)`: the first position whose element satisfies `p` (None for -1). */
  function FindIndex<T>(s: seq<T>, p: T -> bool): (r: Option<nat>)
    ensures r.Some? ==> r.value < |s| && p(s[r.value]) && forall j :: 0 <= j < r.value ==> !p(s[j])
    ensures r.None? ==> forall j :: 0 <= j < |s| ==> !p(s[j])
  {
    if s == [] then None
    else if p(s[0]) then Some(0)
    else
      match FindIndex(s[1..], p)
      case None => None
      case Some(i) => Some(i + 1)
  }

  /** A position that satisfies `p`, with none before it, is what `findIndex` returns. */
  lemma FindIndexIsFirst<T>(s: seq<T>, p: T -> bool, i: nat)
    requires i < |s| && p(s[i])
    requires forall j :: 0 <= j < i ==> !p(s[j])
    ensures FindIndex(s, p) == Some(i)
  {
  }

  // ---------------------------------------------------------------- performSearch

  datatype Failure =
    | InvalidEngineUrl   // `new URL(bangEngine.url)` throws
    | NoActiveEngine     // `searchEngines[currentEngineIndex]` is undefined

  datatype SearchResult =
    | NoAction
    | Navigate(url: string, setLatch: bool)
    | Failed(reason: Failure)

  /** The bang the trimmed text names: its first space-separated token, without the leading '!'. */
  function BangCandidate(t: string): Option<string> {
    var first := Split(t, ' ')[0];
    if |first| > 0 && first[0] == '!' then Some(first[1..]) else None
  }

  /** The tokens of the trimmed text after the first, re-joined with single spaces. */
  function SearchTerms(t: string): string {
    Join(Split(t, ' ')[1..], ' ')
  }

  /** `e => e.bang === potentialBang`: an engine without a bang never equals `null`. */
  function BangIs(candidate: Option<string>): SearchEngine -> bool {
    (e: SearchEngine) => candidate.Some? && e.bang == candidate
  }

  /** The engine the bang of the trimmed text selects: the first in list order with exactly that bang. */
  function BangEngine(t: string, engines: seq<SearchEngine>): Option<nat> {
    FindIndex(engines, BangIs(BangCandidate(t)))
  }

  /** `performSearch`, with the assignment to `window.location.href` returned as the target. */
  function Resolve(query: string, engines: seq<SearchEngine>, active: int,
                   encode: string -> string, origin: string -> Option<string>): (r: SearchResult)
    ensures r.NoAction? <==> AllWhitespace(query)
    ensures r.Navigate? ==> (r.setLatch <==> BangEngine(Trim(query), engines).Some?)
    ensures r.Failed? ==> (r.reason == InvalidEngineUrl <==> BangEngine(Trim(query), engines).Some?)
  {
    var t := Trim(query);
    if t == [] then NoAction
    else
      match BangEngine(t, engines)
      case Some(i) =>
        var terms := SearchTerms(t);
        if terms == [] then
          match origin(engines[i].url)
          case Some(o) => Navigate(o, true)
          case None => Failed(InvalidEngineUrl)
        else Navigate(engines[i].url + encode(terms), true)
      case None =>
        if 0 <= active < |engines| then Navigate(engines[active].url + encode(query), false)
        else Failed(NoActiveEngine)
  }

  /** Engine `i` is the first with bang `b`. */
  predicate FirstWithBang(engines: seq<SearchEngine>, i: nat, b: string) {
    i < |engines| && engines[i].bang == Some(b)
    && forall j :: 0 <= j < i ==> engines[j].bang != Some(b)
  }

  /** When the text names bang `b`, the first engine with that bang is the one selected. */
  lemma BangEngineIs(t: string, engines: seq<SearchEngine>, i: nat, b: string)
    requires BangCandidate(t) == Some(b) && FirstWithBang(engines, i, b)
    ensures BangEngine(t, engines) == Some(i)
  {
    var p := BangIs(Some(b));
    forall j | 0 <= j < i ensures !p(engines[j]) {
    }
    FindIndexIsFirst(engines, p, i);
  }

  /** When no engine has bang `b`, a text naming `b` selects none. */
  lemma NoBangEngine(t: string, engines: seq<SearchEngine>, b: string)
    requires BangCandidate(t) == Some(b)
    requires forall j :: 0 <= j < |engines| ==> engines[j].bang != Some(b)
    ensures BangEngine(t, engines) == None
  {
    var p := BangIs(Some(b));
    forall j | 0 <= j < |engines| ensures !p(engines[j]) {
    }
  }

  /** `'!' + bang`, then nothing or a space and `rest`: the text of a bang query. */
  function BangText(bang: string, rest: Option<string>): string {
    ['!'] + bang + (if rest.Some? then [' '] + rest.value else [])
  }

  /** A bang text names `bang`, and its search terms are `rest` (empty when absent). */
  lemma BangParts(bang: string, rest: Option<string>)
    requires ' ' !in bang
    ensures BangCandidate(BangText(bang, rest)) == Some(bang)
    ensures SearchTerms(BangText(bang, rest)) == rest.GetOr([])
  {
    var head := ['!'] + bang;
    assert ' ' !in head;
    SplitAt(head, rest.GetOr([]), ' ');
    if rest.Some? {
      assert BangText(bang, rest) == head + [' '] + rest.value;
    } else {
      assert BangText(bang, rest) == head;
    }
  }

  /** Blank margins around a bang text that ends in a non-blank trim away to that text. */
  lemma TrimBangQuery(lead: string, bang: string, rest: Option<string>, trail: string)
    requires AllWhitespace(lead) && AllWhitespace(trail)
    requires var t := BangText(bang, rest); !IsWhitespace(t[|t| - 1])
    ensures Trim(lead + BangText(bang, rest) + trail) == BangText(bang, rest)
  {
    var t := BangText(bang, rest);
    assert t[0] == '!';
    TrimOf(lead, t, trail);
  }

  /** A query `!bang terms` (blank margins allowed) whose bang an engine has searches that engine for the terms. */
  lemma ResolveBangSearch(query: string, lead: string, bang: string, terms: string, trail: string,
                          engines: seq<SearchEngine>, i: nat, active: int,
                          encode: string -> string, origin: string -> Option<string>)
    requires query == lead + ['!'] + bang + [' '] + terms + trail
    requires AllWhitespace(lead) && AllWhitespace(trail) && ' ' !in bang
    requires terms != [] && !IsWhitespace(terms[|terms| - 1])
    requires FirstWithBang(engines, i, bang)
    ensures Resolve(query, engines, active, encode, origin) == Navigate(engines[i].url + encode(terms), true)
  {
    var t := BangText(bang, Some(terms));
    assert t[|t| - 1] == terms[|terms| - 1];
    assert query == lead + t + trail;
    TrimBangQuery(lead, bang, Some(terms), trail);
    BangParts(bang, Some(terms));
    BangEngineIs(t, engines, i, bang);
  }

  /** A bare `!bang` whose bang an engine has visits the origin of that engine's URL. */
  lemma ResolveBangVisit(query: string, lead: string, bang: string, trail: string,
                         engines: seq<SearchEngine>, i: nat, active: int,
                         encode: string -> string, origin: string -> Option<string>)
    requires query == lead + ['!'] + bang + trail
    requires AllWhitespace(lead) && AllWhitespace(trail) && ' ' !in bang
    requires bang == [] || !IsWhitespace(bang[|bang| - 1])
    requires FirstWithBang(engines, i, bang)
    ensures Resolve(query, engines, active, encode, origin) ==
      match origin(engines[i].url)
      case Some(o) => Navigate(o, true)
      case None => Failed(InvalidEngineUrl)
  {
    var t := BangText(bang, None);
    assert t == ['!'] + bang + [];
    assert t[|t| - 1] == if bang == [] then '!' else bang[|bang| - 1];
    assert query == lead + t + trail;
    TrimBangQuery(lead, bang, None, trail);
    BangParts(bang, None);
    BangEngineIs(t, engines, i, bang);
  }

  /** A query whose first non-blank is not '!' searches the active engine for the whole, untrimmed query. */
  lemma ResolvePlain(query: string, engines: seq<SearchEngine>, active: int,
                     encode: string -> string, origin: string -> Option<string>)
    requires Trim(query) != [] && Trim(query)[0] != '!'
    ensures Resolve(query, engines, active, encode, origin) ==
      if 0 <= active < |engines| then Navigate(engines[active].url + encode(query), false)
      else Failed(NoActiveEngine)
  {
    var t := Trim(query);
    var parts := Split(t, ' ');
    SplitFirst(t, ' ');
    if |parts[0]| > 0 {
      assert parts[0][0] == t[0];
    }
  }

  /** A bang no engine has falls back to the active engine with the whole query, '!' included. */
  lemma ResolveUnknownBang(query: string, lead: string, bang: string, rest: Option<string>, trail: string,
                           engines: seq<SearchEngine>, active: int,
                           encode: string -> string, origin: string -> Option<string>)
    requires query == lead + BangText(bang, rest) + trail
    requires AllWhitespace(lead) && AllWhitespace(trail) && ' ' !in bang
    requires var t := BangText(bang, rest); !IsWhitespace(t[|t| - 1])
    requires forall j :: 0 <= j < |engines| ==> engines[j].bang != Some(bang)
    ensures Resolve(query, engines, active, encode, origin) ==
      if 0 <= active < |engines| then Navigate(engines[active].url + encode(query), false)
      else Failed(NoActiveEngine)
  {
    TrimBangQuery(lead, bang, rest, trail);
    BangParts(bang, rest);
    NoBangEngine(BangText(bang, rest), engines, bang);
  }

  // ---------------------------------------------------------------- engine selection

  /** `(prev + 1) % searchEngines.length`: one place on, from the last back to the first. */
  function NextEngineIndex(i: nat, n: nat): (r: nat)
    requires n > 0
    ensures r < n
    ensures i < n ==> r == if i + 1 < n then i + 1 else 0
  {
    (i + 1) % n
  }

  /** The index after `k` presses of Tab. */
  function Cycled(i: nat, n: nat, k: nat): nat
    requires n > 0
  {
    if k == 0 then i else NextEngineIndex(Cycled(i, n, k - 1), n)
  }

  /** `a + b` presses are `a` presses followed by `b` presses. */
  lemma {:induction false} CycledAdd(i: nat, n: nat, a: nat, b: nat)
    requires n > 0
    ensures Cycled(i, n, a + b) == Cycled(Cycled(i, n, a), n, b)
  {
    if b > 0 {
      CycledAdd(i, n, a, b - 1);
    }
  }

  /** Before the end of the list is reached, `k` presses move `k` places. */
  lemma {:induction false} CycledForward(i: nat, n: nat, k: nat)
    requires n > 0 && i + k < n
    ensures Cycled(i, n, k) == i + k
  {
    if k > 0 {
      CycledForward(i, n, k - 1);
    }
  }

  /** n presses of Tab over n engines come back to the start. */
  lemma CycleReturns(i: nat, n: nat)
    requires i < n
    ensures Cycled(i, n, n) == i
  {
    var a := n - 1 - i;
    CycledForward(i, n, a);
    CycledAdd(i, n, a, 1 + i);
    assert Cycled(n - 1, n, 1) == 0;
    CycledAdd(n - 1, n, 1, i);
    CycledForward(0, n, i);
  }

  /** `e => e.isDefault`. */
  function IsDefaultEngine(): SearchEngine -> bool {
    (e: SearchEngine) => e.isDefault
  }

  /** The built-in list selects its first engine, Google. */
  lemma DefaultSelectionIsFirst()
    ensures FindIndex(Constants.DefaultEngines, IsDefaultEngine()) == Some(0)
  {
  }

  // ---------------------------------------------------------------- the component state

  /** The search bar's state: the typed query and the selected engine. */
  class SearchBox {
    var query: string
    var currentEngineIndex: nat

    constructor ()
      ensures query == [] && currentEngineIndex == 0
    {
      query := [];
      currentEngineIndex := 0;
    }

    /** The input's change handler. */
    method SetQuery(text: string)
      modifies this
      ensures query == text && currentEngineIndex == old(currentEngineIndex)
    {
      query := text;
    }

    /** The effect run when the engine list changes: select the first default engine, if any. */
    method SelectDefault(engines: seq<SearchEngine>)
      modifies this
      ensures query == old(query)
      ensures currentEngineIndex ==
        match FindIndex(engines, IsDefaultEngine())
        case Some(i) => i
        case None => old(currentEngineIndex)
    {
      var defaultIdx := FindIndex(engines, IsDefaultEngine());
      if defaultIdx.Some? {
        currentEngineIndex := defaultIdx.value;
      }
    }

    /** Tab: select the next engine, wrapping round. */
    method CycleEngine(engines: seq<SearchEngine>)
      requires |engines| > 0
      modifies this
      ensures currentEngineIndex == NextEngineIndex(old(currentEngineIndex), |engines|)
      ensures currentEngineIndex < |engines| && query == old(query)
    {
      currentEngineIndex := (currentEngineIndex + 1) % |engines|;
    }

    /** Escape: clear a non-empty query; on an empty one, blur the input instead. */
    method PressEscape() returns (blur: bool)
      modifies this
      ensures blur <==> old(query) == []
      ensures query == [] && currentEngineIndex == old(currentEngineIndex)
    {
      blur := query == [];
      if !blur {
        query := [];
      }
    }

    /** Enter: resolve the query against the store's engines; a bang use sets the store's latch. */
    method Submit(store: Store.AppStore, encode: string -> string, origin: string -> Option<string>)
      returns (r: SearchResult)
      modifies store
      ensures r == Resolve(query, old(store.searchEngines), currentEngineIndex, encode, origin)
      ensures store.State() ==
        if r.Navigate? && r.setLatch then old(store.State()).(onboarding := Onboarding(true))
        else old(store.State())
    {
      r := Resolve(query, store.searchEngines, currentEngineIndex, encode, origin);
      if r.Navigate? && r.setLatch {
        store.SetHasSeenBangHint();
      }
    }
  }

  // ---------------------------------------------------------------- on the built-in engines

  /** On the built-in engines, `!yt cat` searches YouTube for "cat". */
  lemma BangSearchExample(encode: string -> string, origin: string -> Option<string>)
    ensures Resolve("!yt cat", Constants.DefaultEngines, 0, encode, origin)
         == Navigate(Constants.Https + "www.youtube.com/results?search_query=" + encode("cat"), true)
  {
    assert FirstWithBang(Constants.DefaultEngines, 1, "yt");
    ResolveBangSearch("!yt cat", [], "yt", "cat", [], Constants.DefaultEngines, 1, 0, encode, origin);
  }

  /** On the built-in engines, a bare `!gh` visits the origin of GitHub's search URL. */
  lemma BangVisitExample(encode: string -> string, origin: string -> Option<string>)
    ensures Resolve("!gh", Constants.DefaultEngines, 0, encode, origin)
         == match origin(Constants.Https + "github.com/search?q=")
            case Some(o) => Navigate(o, true)
            case None => Failed(InvalidEngineUrl)
  {
    assert FirstWithBang(Constants.DefaultEngines, 4, "gh");
    ResolveBangVisit("!gh", [], "gh", [], Constants.DefaultEngines, 4, 0, encode, origin);
  }

  /** None of the built-in engines answers to the bang `zz`. */
  lemma NoEngineHasBangZz()
    ensures forall j :: 0 <= j < |Constants.DefaultEngines| ==> Constants.DefaultEngines[j].bang != Some("zz")
  {
  }

  /** On the built-in engines, the unknown bang in `!zz cat` searches Google for the whole text. */
  lemma UnknownBangExample(encode: string -> string, origin: string -> Option<string>)
    ensures Resolve("!zz cat", Constants.DefaultEngines, 0, encode, origin)
         == Navigate(Constants.Https + "www.google.com/search?q=" + encode("!zz cat"), false)
  {
    NoEngineHasBangZz();
    assert BangText("zz", Some("cat")) == "!zz cat";
    ResolveUnknownBang("!zz cat", [], "zz", Some("cat"), [], Constants.DefaultEngines, 0, encode, origin);
  }
}
