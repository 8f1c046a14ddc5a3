# Nook start page: store, search resolver, clock and defaults in Dafny

Nook is a browser start page. This project models four of its parts.

- **The application-state store** (`store/useStore.ts`). It is one state object holding the preferences, the shortcut tiles, the search engines, the theme colour overrides and an onboarding latch. Every action replaces part of that object. Class `Store.AppStore` holds the state, and each action is a method whose whole new state is pinned to a pure function on the old one. The lemmas about those functions state what the actions promise. Adding appends exactly one tile. Editing touches only matching ids and keeps omitted fields. Removing is an order-preserving filter. Reordering is a permutation. Shortcut ids stay unique under every id-preserving action.
- **The search bar** (`components/Search.tsx`). `Search.Resolve` is `performSearch`. It trims the query, splits it on spaces, and reads a `!bang` from the first token. It then either visits the origin of the bang engine's URL, searches that engine for the remaining terms, or searches the active engine for the whole query. `Search.Resolve` also says whether the onboarding latch is set. Class `Search.SearchBox` holds the component's query text and selected-engine index. Its methods are the default-engine effect, Tab cycling, Escape and Enter.
- **The clock text** (`components/Clock.tsx`). This covers the two-digit `format` helper, the 12h/24h hour conversion `hours % 12 || 12`, and the optional seconds field.
- **The built-in defaults** (`lib/constants.ts`). These are the seven engines and four shortcuts the store starts with, together with facts about them.

The records of `lib/types.ts` are the datatypes of module `Types`. A shortcut is `Shortcut`. A search engine is `SearchEngine`; its `label` field is named `name`, because `label` is a Dafny keyword. Colour overrides are `ThemeColors`, and `None` stands for `null`. The data part of the state is `AppState`. A `Partial<…>` argument is a patch whose `None` fields are omitted.

JavaScript behaviour the model spells out:
- `trim` strips exactly the ECMAScript WhiteSpace and LineTerminator code points.
- `split(" ")` always yields at least one piece, and `join` reassembles the text.
- `findIndex` and `find` return the first match.
- `e.bang === potentialBang` is never true for an engine without a bang, even when there is no candidate bang: `undefined === null` is false.
- `hours % 12 || 12` turns a zero remainder into 12.
- `padStart(2, "0")` pads on the left.

Three behaviours of the component that the model keeps as the code has them:
- When no engine is marked as default, the selected index is left unchanged (components/Search.tsx:20-21). It is not reset to the first engine.
- Tab cycling only moves forward (components/Search.tsx:28-31). No key moves it backward.
- The onboarding latch is set on every successful bang use, not only on the first (components/Search.tsx:67).

Files: `types.dfy`, `constants.dfy`, `store.dfy`, `search.dfy`, `clock.dfy`.

## Model

| member | source | states |
|---|---|---|
| Store.InitialState | store/useStore.ts:10-22 | the initial state; it has no contract of its own, and Store.InitialStateFacts states its values |
| Store.InitialStateFacts | store/useStore.ts:10-22 | the store starts with 24h time on, weather and seconds off, greeting on, user name "Traveler", the four default shortcuts with distinct ids, the seven default engines, both colours null and the latch clear |
| Store.PreferenceOf | lib/types.ts:29-35 | reading a preference key yields a value of the type the state declares for that key |
| Store.WithPreference | store/useStore.ts:24-25 | `{ ...state, [key]: value }` makes `key` read `value`, and every other key reads what it read before |
| Store.PreferencesByKeys | lib/types.ts:22-35 | two preference records that agree on all five keys are equal |
| Store.WithPreferenceLaws | store/useStore.ts:24-25 | writing a key its current value changes nothing, and a second write to the same key overrides the first |
| Store.WithPreferenceCommutes | store/useStore.ts:24-25 | writes to two different keys can be done in either order |
| Store.MergeColors | store/useStore.ts:27-30 | a supplied colour (null included) replaces the old one, and an omitted colour keeps it |
| Store.MergeColorsLaws | store/useStore.ts:27-30 | supplying both nulls resets both colours, the empty patch is a no-op, a patch applied twice equals it applied once, and two updates equal one update with the combined patch |
| Store.WithId | store/useStore.ts:34 | the new tile has the given title, url and icon, and the generated id |
| Store.AddKeepsDistinct | store/useStore.ts:32-35 | appending a tile with an id no tile has keeps the ids distinct |
| Store.EditById | store/useStore.ts:37-42 | same length; a tile whose id matches gets the patch applied, and every other tile is unchanged |
| Store.ApplyPatch | store/useStore.ts:40 | `{ ...s, ...data }` on one tile; it has no contract of its own, and Store.EditFields states what it does to each field |
| Store.EditFields | store/useStore.ts:39-41 | on a matching tile, each supplied field takes the patch's value and each omitted field keeps its own |
| Store.EditAbsentIsNoOp | store/useStore.ts:37-42 | editing an id that no tile has leaves the list as it was |
| Store.EditKeepsIds | store/useStore.ts:37-42 | a patch without an id keeps every id in place, so distinct ids stay distinct |
| Store.RemoveById | store/useStore.ts:44-47 | the filtered list is never longer than the list |
| Store.RemoveByIdMembers | store/useStore.ts:46 | a tile is in the result exactly when it was in the list and its id differs |
| Store.RemoveSplit | store/useStore.ts:46 | the filter distributes over concatenation |
| Store.RemoveAbsentIsNoOp | store/useStore.ts:44-47 | removing an id that no tile has leaves the list as it was |
| Store.RemoveLast | store/useStore.ts:46 | filtering a non-empty list is filtering all but its last tile, then keeping the last unless it has the id |
| Store.AddThenRemove | store/useStore.ts:32-47 | adding a tile with a fresh id and then removing that id restores the list |
| Store.KeptPositionsExact | store/useStore.ts:46 | the kept positions increase strictly and are exactly those whose id differs |
| Store.RemoveKeepsOrder | store/useStore.ts:44-47 | the k-th remaining tile is the tile at the k-th kept position, so the filter keeps the relative order |
| Store.RemoveKeepsDistinct | store/useStore.ts:44-47 | removing keeps the remaining ids distinct |
| Store.RemovePresentIsRemoveAt | store/useStore.ts:44-47 | with distinct ids, removing the id of the tile at position i drops exactly that tile, the same as `splice(i, 1)` |
| Store.RemoveOnlyAt | store/useStore.ts:46 | filtering out the id of a tile that no other tile shares leaves the tiles before and after it, in order |
| Store.RemoveAt | store/useStore.ts:53 | `splice(i, 1)` on an index inside the list drops the element at `i`: the ones before keep their places and the ones after move one place forward |
| Store.InsertAt | store/useStore.ts:54 | `splice(i, 0, x)` on an index up to the length puts `x` at `i`: the ones before keep their places and the ones from `i` move one place back |
| Store.Reordered | store/useStore.ts:50-56 | both splices together; it has no contract of its own, and Store.ReorderedAt, Store.ReorderedIsPermutation and Store.ReorderedInverse state its properties |
| Store.ReorderedAt | store/useStore.ts:50-56 | element by element: the moved tile ends up at `toIndex`, the tiles between the two indices shift by one place, and the others stay put |
| Store.ReorderedIsPermutation | store/useStore.ts:50-56 | reordering keeps the length and the multiset of tiles, and the tile at `fromIndex` ends up at `toIndex` |
| Store.ReorderedInverse | store/useStore.ts:50-56 | moving the tile back from `toIndex` to `fromIndex` restores the list |
| Store.ReorderedExample | store/useStore.ts:52-54 | `toIndex` counts in the shortened list: [a,b,c,d] moved from 0 to 2 is [b,c,a,d] |
| Store.ReorderKeepsDistinct | store/useStore.ts:50-56 | reordering keeps the ids distinct |
| Store.AppStore.constructor | store/useStore.ts:9-22 | the store is created in the initial state, with distinct shortcut ids |
| Store.AppStore.SetPreference | store/useStore.ts:24-25 | only the preferences change, to the one-key update |
| Store.AppStore.UpdateTheme | store/useStore.ts:27-30 | only the colour overrides change, to the merge of the old ones with the patch |
| Store.AppStore.AddShortcut | store/useStore.ts:32-35 | only the shortcuts change, to the old list plus one tile at the end; distinct ids stay distinct |
| Store.AppStore.EditShortcut | store/useStore.ts:37-42 | only the shortcuts change, to the mapped edit; a patch without an id keeps the ids distinct |
| Store.AppStore.RemoveShortcut | store/useStore.ts:44-47 | only the shortcuts change, to the filtered list; distinct ids stay distinct; with distinct ids, removing an id some tile has makes the list exactly one tile shorter |
| Store.AppStore.ReorderShortcuts | store/useStore.ts:50-56 | the list is copied, and the two splices leave exactly the reordered list while nothing else changes; distinct ids stay distinct |
| Store.AppStore.SetHasSeenBangHint | store/useStore.ts:59-62 | only the latch changes, and it becomes true |
| Store.LatchIsIdempotent | store/useStore.ts:59-62 | setting the latch twice leaves the same state as setting it once |
| Search.LeadingBlanks | components/Search.tsx:46 | the leading-whitespace count of `trim`: every character before it is blank, and the one at it, if any, is not |
| Search.TrailingBlanks | components/Search.tsx:46 | the trailing-whitespace count of `trim`: every character in the last that many is blank, and the one before them, if any, is not |
| Search.LeadingBlanksUnique | components/Search.tsx:46 | any blank prefix followed by a non-blank or by nothing has exactly the leading count |
| Search.TrailingBlanksUnique | components/Search.tsx:46 | any blank suffix after a non-blank or nothing has exactly the trailing count |
| Search.TrimStart | components/Search.tsx:46 | the text after the leading blanks; it has no contract of its own, and Search.TrimStartOf states what it strips |
| Search.TrimEnd | components/Search.tsx:46 | the text before the trailing blanks; it has no contract of its own, and Search.TrimEndOf states what it strips |
| Search.TrimStartOf | components/Search.tsx:46 | a blank prefix followed by a non-blank or by nothing is stripped exactly |
| Search.TrimEndOf | components/Search.tsx:46 | a blank suffix after a non-blank or nothing is stripped exactly |
| Search.Trim | components/Search.tsx:46 | the trimmed text is empty exactly when the query is all blank; otherwise it starts and ends with a non-blank |
| Search.TrimBlank | components/Search.tsx:46 | both passes together leave nothing exactly when the text is all blank, and otherwise a text with non-blank ends |
| Search.TrimOf | components/Search.tsx:46-49 | blank margins around a text that starts and ends with non-blanks are removed exactly |
| Search.Join | components/Search.tsx:57 | `join(" ")`; it has no contract of its own, and Search.Split and Search.SplitAt state that it undoes `split` |
| Search.Split | components/Search.tsx:49 | at least one piece, no piece holds the separator, and joining the pieces with it gives back the text |
| Search.SplitAt | components/Search.tsx:49-57 | a first piece free of the separator comes first, and the remaining pieces join to what follows it |
| Search.FindIndex | components/Search.tsx:20 | `findIndex`: the position found satisfies the predicate and none before it does; None means no position does |
| Search.FindIndexIsFirst | components/Search.tsx:20 | the first satisfying position is the one `findIndex` returns |
| Search.BangCandidate | components/Search.tsx:49-52 | the text after '!' in the first piece, or null; it has no contract of its own, and Search.BangParts states it |
| Search.SearchTerms | components/Search.tsx:57 | the pieces after the first, joined; it has no contract of its own, and Search.BangParts states it |
| Search.BangIs | components/Search.tsx:54 | `e.bang === potentialBang`; it has no contract of its own, and Search.BangEngineIs and Search.NoBangEngine state which engine it selects |
| Search.BangEngine | components/Search.tsx:54 | the first engine with the candidate bang; it has no contract of its own, and Search.BangEngineIs and Search.NoBangEngine state it |
| Search.Resolve | components/Search.tsx:45-72 | an all-blank query does nothing; the latch is set exactly on a navigation made through a bang engine; a failure is an invalid URL exactly when a bang engine was found, and a missing active engine otherwise |
| Search.BangEngineIs | components/Search.tsx:54 | when the text names bang b, the first engine whose bang is b is the one selected |
| Search.NoBangEngine | components/Search.tsx:54 | when no engine has bang b, a text naming b selects no engine |
| Search.TrimBangQuery | components/Search.tsx:46-49 | blank margins around a bang text that ends in a non-blank are trimmed away |
| Search.BangParts | components/Search.tsx:49-57 | a trimmed text `!bang` or `!bang rest` (bang without spaces) yields the candidate `bang` and the search terms `rest`, empty when absent |
| Search.ResolveBangSearch | components/Search.tsx:56-67 | `!bang terms` with a known bang navigates to that engine's URL plus the encoded terms and sets the latch |
| Search.ResolveBangVisit | components/Search.tsx:56-62 | a bare known `!bang` navigates to the origin of that engine's URL, or fails when the URL is invalid; it sets the latch exactly when it navigates |
| Search.ResolvePlain | components/Search.tsx:68-70 | a query whose first non-blank is not '!' searches the active engine for the whole untrimmed query, without setting the latch; a missing active engine is a failure |
| Search.ResolveUnknownBang | components/Search.tsx:54-70 | a bang text (blank margins allowed) whose bang no engine has falls back to the active engine with the whole untrimmed query, '!' included, without setting the latch; a missing active engine is a failure |
| Search.NextEngineIndex | components/Search.tsx:30 | the next index stays inside the list: one place on, and from the last engine back to the first |
| Search.CycledAdd | components/Search.tsx:28-31 | a + b presses of Tab equal a presses followed by b presses |
| Search.CycledForward | components/Search.tsx:28-31 | before the end of the list, k presses move k places |
| Search.CycleReturns | components/Search.tsx:28-31 | n presses over n engines come back to the starting engine |
| Search.DefaultSelectionIsFirst | components/Search.tsx:19-22 | on the built-in engines, default selection gives index 0 (Google) |
| Search.SearchBox.constructor | components/Search.tsx:8-9 | the query starts empty and the index starts at 0 |
| Search.SearchBox.SetQuery | components/Search.tsx:8 | the query becomes the typed text, and the index is unchanged |
| Search.SearchBox.SelectDefault | components/Search.tsx:19-22 | the index becomes the first engine with `isDefault`, and is unchanged when there is none |
| Search.SearchBox.CycleEngine | components/Search.tsx:28-31 | the index moves to the next engine, wrapping round, and stays inside the list |
| Search.SearchBox.PressEscape | components/Search.tsx:33-37 | a non-empty query is cleared; on an empty query the input is blurred instead |
| Search.SearchBox.Submit | components/Search.tsx:39-41 | Enter returns the resolver's target for the current query and engine; the store's latch is set exactly when the target is a bang navigation, and the store is otherwise unchanged |
| Search.BangSearchExample | components/Search.tsx:56-67 | on the built-in engines, `!yt cat` searches YouTube for "cat" and sets the latch |
| Search.BangVisitExample | components/Search.tsx:59-62 | on the built-in engines, a bare `!gh` visits the origin of GitHub's URL |
| Search.UnknownBangExample | components/Search.tsx:68-70 | on the built-in engines, `!zz cat` searches Google for the whole text without setting the latch |
| Clock.DecimalString | components/Clock.tsx:21 | `num.toString()` gives decimal digits, at least one, with no leading zero |
| Clock.DecimalRoundTrip | components/Clock.tsx:21 | the decimal text reads back as the number; it has one digit exactly below 10 and two exactly from 10 to 99 |
| Clock.PadStart | components/Clock.tsx:21 | `padStart` fills on the left up to the width, and the original text ends the result |
| Clock.Format | components/Clock.tsx:21 | `format`; it has no contract of its own, and Clock.FormatFacts and Clock.TwoDigitField state its text |
| Clock.FormatFacts | components/Clock.tsx:21-24 | below 10 `format` gives "0" and the digit; from 10 it gives the plain decimal; below 100 it is exactly two digits that read back as the number |
| Clock.DisplayHour | components/Clock.tsx:26 | in 24h mode the hour is unchanged; in 12h mode it lies in 1..12 and agrees with the hour modulo 12 |
| Clock.TwelveHourClock | components/Clock.tsx:26 | in 12h mode, 0 and 12 show 12, 1..11 show themselves, and 13..23 show h - 12 |
| Clock.ClockText | components/Clock.tsx:38-41 | the heading text; it has no contract of its own, and Clock.ClockTextShape and Clock.SecondsSegment state its shape |
| Clock.HoursMinutes | components/Clock.tsx:38 | `{format(hours)}:{minutes}`; it has no contract of its own, and Clock.ClockTextShape states its fields |
| Clock.ClockTextShape | components/Clock.tsx:21-41 | for a time of day the text is HH:MM, or HH:MM:SS with seconds on, and each field reads back as the hour shown, the minutes and the seconds |
| Clock.TwoDigitField | components/Clock.tsx:21-24 | a field below 100 formats to two digits that read back as its value |
| Clock.SecondsSegment | components/Clock.tsx:39-41 | with seconds off the text does not depend on the seconds; with seconds on it is that text followed by ":" and the formatted seconds |
| Constants.DefaultEngines | lib/constants.ts:3-50 | the seven built-in engines; a constant, whose facts Constants.DefaultEngineIds, Constants.OnlyGoogleIsDefault, Constants.DefaultBangs and Constants.DefaultEnginesUseHttps state |
| Constants.DefaultShortcuts | lib/constants.ts:52-57 | the four built-in shortcuts; a constant, whose facts Constants.DefaultShortcutIds states |
| Constants.DefaultEngineIds | lib/constants.ts:3-50 | there are seven built-in engines, with pairwise distinct ids |
| Constants.OnlyGoogleIsDefault | lib/constants.ts:4-9 | Google, at index 0, is the only engine marked as default |
| Constants.DefaultBangs | lib/constants.ts:3-50 | the bangs are yt, gh, r and w, pairwise distinct; google, ddg and brave have none |
| Constants.DefaultEnginesUseHttps | lib/constants.ts:7-46 | every built-in engine URL starts with `https://` |
| Constants.DefaultShortcutIds | lib/constants.ts:52-57 | the four shortcuts have the ids "1" to "4", in that order, so they are distinct |

## Left out

- Persistence: the zustand `persist` middleware, localStorage and JSON serialisation (store/useStore.ts:8, 64-67) are I/O. Rehydrating a stored state is not modelled.
- `crypto.randomUUID()` is randomness. It becomes the `freshId` parameter of `Store.AppStore.AddShortcut`, which must differ from every id in use.
- `encodeURIComponent` and `new URL(u).origin` are platform functions. They become the parameters `encode` and `origin`, and `origin` answers None where the URL constructor would throw. That exception, and the `TypeError` raised when `searchEngines[currentEngineIndex]` is undefined, are the `Failed` results.
- The assignment to `window.location.href` is the navigation side effect. `Search.Resolve` returns the target instead.
- Focus, blur and help popover state, `preventDefault`, and all rendering are UI. `Search.SearchBox.PressEscape` reports the blur as a result.
- The clock's `setInterval` ticking and the `toLocaleDateString` date line are locale and timer I/O. The Date object's fields are parameters of `Clock.ClockText`.
- components/Weather.tsx is not part of this model. It does not use the store: it checks `navigator.onLine` (line 23) and fetches a forecast with `fetch` (lines 27-31), which is network I/O.
- components/Settings.tsx is not part of this model. It calls `setPreference` and `updateTheme`, which are modelled, and it also writes the colour overrides into CSS variables on the document (lines 25-31), which is DOM output.
- components/Shortcuts.tsx is not part of this model. It calls `addShortcut`, `editShortcut` and `removeShortcut`, which are modelled; its form and editing state are UI.
- app/page.tsx and app/layout.tsx are not part of this model. The page only reads `userName` and `showGreeting` from the store (app/page.tsx:12) and lays out the components. Tailwind configuration is styling.
- Strings: Dafny's `string` is a sequence of Unicode code points, while a JavaScript string is a sequence of UTF-16 code units. The model cannot represent a lone surrogate, so it leaves out the `URIError` that `encodeURIComponent` throws on one. `encode` stands for `encodeURIComponent` on well-formed text.
- Store.AppStore.UpdateTheme: an explicit `undefined` in a `Partial` patch is treated as an omitted field. The spread in the source would copy `undefined` over the old colour.
- Store.AppStore.EditShortcut: the same holds for an explicit `undefined` in a shortcut patch.
- Store.AppStore.EditShortcut: it keeps ids distinct only for patches without an id. A patch that sets an id may duplicate one, as in the source.
- Store.AppStore.ReorderShortcuts: it requires both indices to lie inside the list. The action has no caller in this source, so nothing bounds its arguments; the model takes indices inside the list. JavaScript's `splice` counts a negative index from the end, clamps an index past the end, and with `fromIndex` out of range removes nothing and inserts `undefined`.
- Search.SearchBox.CycleEngine: it requires at least one engine. With an empty engine list, `(prev + 1) % searchEngines.length` is `NaN` in the source.
- Search.SearchBox.Submit: the active index is the component's state when Enter is pressed. The React render and commit timing between state updates is not modelled.
- Clock.ClockTextShape: it holds for hours below 24 and minutes and seconds below 60, the ranges a `Date` returns. The text is the concatenated text content of the heading and its seconds span.
