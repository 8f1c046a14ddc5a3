/** The records of the start page's application state (lib/types.ts). */
module Types {

  datatype Option<+T> = None | Some(value: T) {
    function GetOr(default: T): T {
      match this
      case Some(v) => v
      case None => default
    }
  }

  /** A shortcut tile; identity is `id`, order in the list is display order. */
  datatype Shortcut = Shortcut(id: string, title: string, url: string, icon: string)

  /** `Omit<Shortcut, "id">`: what the add form submits. */
  datatype ShortcutData = ShortcutData(title: string, url: string, icon: string)

  /** `Partial<Shortcut>`: None is an omitted field, Some a supplied one. */
  datatype ShortcutPatch = ShortcutPatch(
    id: Option<string>, title: Option<string>, url: Option<string>, icon: Option<string>)

  /** A search engine (`name` is the source's `label`, a Dafny keyword); `url` is a prefix to which the encoded query is appended. */
  datatype SearchEngine = SearchEngine(
    id: string, name: string, url: string, isDefault: bool, bang: Option<string>)

  /** Colour overrides; None stands for `null` (use the theme's default). */
  datatype ThemeColors = ThemeColors(base: Option<string>, accent: Option<string>)

  /** `Partial<ThemeColors>`: the outer None is an omitted field, Some(None) a supplied `null`. */
  datatype ThemePatch = ThemePatch(base: Option<Option<string>>, accent: Option<Option<string>>)

  datatype Theme = Theme(customColors: ThemeColors)

  /** The one-way onboarding latch. */
  datatype Onboarding = Onboarding(hasSeenBangHint: bool)

  /** The five preference fields of the state. */
  datatype Preferences = Preferences(
    use24h: bool, showWeather: bool, showSeconds: bool, showGreeting: bool, userName: string)

  /** `PreferenceKey`. */
  datatype PreferenceKey = Use24h | ShowWeather | ShowSeconds | ShowGreeting | UserName

  /** A value that can stand in a preference field. */
  datatype PreferenceValue = Flag(flag: bool) | Text(text: string)

  /** The type the state declares for each key: `AppState[K]`. */
  predicate WellTyped(key: PreferenceKey, value: PreferenceValue) {
    if key == UserName then value.Text? else value.Flag?
  }

  /** The data part of `AppState` (its actions are the methods of Store.AppStore). */
  datatype AppState = AppState(
    prefs: Preferences,
    shortcuts: seq<Shortcut>,
    searchEngines: seq<SearchEngine>,
    theme: Theme,
    onboarding: Onboarding)

  /** The ids of a shortcut list, in order. */
  function Ids(s: seq<Shortcut>): (r: seq<string>)
    ensures |r| == |s|
    ensures forall i :: 0 <= i < |s| ==> r[i] == s[i].id
  {
    seq(|s|, i requires 0 <= i < |s| => s[i].id)
  }

  /** No two shortcuts share an id. */
  predicate DistinctIds(s: seq<Shortcut>) {
    forall i, j :: 0 <= i < j < |s| ==> s[i].id != s[j].id
  }
}
