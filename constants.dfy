/** The built-in engines and shortcuts the store starts from (lib/constants.ts). */
module Constants {
  import opened Types

  /** The scheme every built-in URL starts with; each URL below is this followed by the rest of its text. */
  const Https := "https://"

  const DefaultEngines: seq<SearchEngine> := [
    SearchEngine("google", "Google", Https + "www.google.com/search?q=", true, None),
    SearchEngine("youtube", "YouTube", Https + "www.youtube.com/results?search_query=", false, Some("yt")),
    SearchEngine("ddg", "DuckDuckGo", Https + "duckduckgo.com/?q=", false, None),
    SearchEngine("brave", "Brave", Https + "search.brave.com/search?q=", false, None),
    SearchEngine("github", "GitHub", Https + "github.com/search?q=", false, Some("gh")),
    SearchEngine("reddit", "Reddit", Https + "www.reddit.com/search/?q=", false, Some("r")),
    SearchEngine("wiki", "Wikipedia", Https + "en.wikipedia.org/wiki/Special:Search?search=", false, Some("w"))
  ]

  const DefaultShortcuts: seq<Shortcut> := [
    Shortcut("1", "GitHub", Https + "github.com", "\U{1F419}"),
    Shortcut("2", "YouTube", Https + "youtube.com", "\U{1F4FA}"),
    Shortcut("3", "Reddit", Https + "reddit.com", "\U{1F47D}"),
    Shortcut("4", "Twitter", Https + "twitter.com", "\U{1F426}")
  ]

  /** Seven engines whose ids are pairwise distinct. */
  lemma DefaultEngineIds()
    ensures |DefaultEngines| == 7
    ensures forall i, j :: 0 <= i < j < |DefaultEngines| ==> DefaultEngines[i].id != DefaultEngines[j].id
  {
  }

  /** Google, at index 0, is the one and only default engine. */
  lemma OnlyGoogleIsDefault()
    ensures forall i :: 0 <= i < |DefaultEngines| ==> (DefaultEngines[i].isDefault <==> i == 0)
    ensures DefaultEngines[0].id == "google"
  {
  }

  /** The bangs are yt, gh, r and w, pairwise distinct; google, ddg and brave have none. */
  lemma DefaultBangs()
    ensures DefaultEngines[1].bang == Some("yt") && DefaultEngines[4].bang == Some("gh")
    ensures DefaultEngines[5].bang == Some("r") && DefaultEngines[6].bang == Some("w")
    ensures DefaultEngines[0].bang.None? && DefaultEngines[2].bang.None? && DefaultEngines[3].bang.None?
    ensures forall i, j :: 0 <= i < j < |DefaultEngines| && DefaultEngines[i].bang.Some? ==>
              DefaultEngines[i].bang != DefaultEngines[j].bang
  {
  }

  /** Every built-in engine URL is an https URL. */
  lemma DefaultEnginesUseHttps()
    ensures forall i :: 0 <= i < |DefaultEngines| ==> "https://" <= DefaultEngines[i].url
  {
  }

  /** Four shortcuts with the ids "1" to "4", in that order. */
  lemma DefaultShortcutIds()
    ensures Ids(DefaultShortcuts) == ["1", "2", "3", "4"]
    ensures DistinctIds(DefaultShortcuts)
  {
  }
}
