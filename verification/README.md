# PathFinder data layer, modelled in Dafny

PathFinder is a static site that helps students browse academic streams,
entrance exams and careers. Its data layer is the `CareerData` manager
(`career-data.js`). The manager loads three JSON documents: the career
dataset, the streams dataset keyed by stream id, and the exams dataset with
its categories and per-level lists. It falls back to an empty default for
any document that fails to load. Once all three have settled it sets its
`loaded` flag. It then serves read accessors and `searchData`, a
case-insensitive substring search over both stream sources and the exam
categories. The page script (`script.js`) adds a few pure helpers next to
its DOM code:

- a fallback search over a fixed five-item table, used before the manager
  is ready;
- the gates in front of the Enter search and the two live-search
  listeners;
- three fixed lookup tables.

The model treats the loaded documents as immutable values:

- `optional.dfy`, module `Optional`: the `Option` type used for absent
  properties and "not found".
- `text.dfy`, module `Text`: `toLowerCase` restricted to ASCII, `includes`
  as "occurs at some position", and `trim` over the ECMAScript white-space
  and line-terminator characters.
- `datasets.dfy`, module `Datasets`: the entities (stream, exam, exam
  category, the three datasets). The streams dataset is a sequence of
  key/value pairs in the object's enumeration order, with distinct keys.
  Loosely structured records such as career paths and job listings are a
  small `Json` value type.
- `store.dfy`, module `Store`: the manager state, with the load modelled
  as a pure settle step per document. The state after any completion order
  of the three loads is `LoadState`. This module also holds the accessors
  `getAllStreams`, `getStream`, `getExamsByCategory`, `getExamsByLevel`,
  `getCareerRecommendations`, `getJobsByStream`, `getExamsByStream` and
  `getExamCategories`.
- `search.dfy`, module `Search`: `searchData`. The method `SearchData`
  follows the source's three push loops. `Results` states what the search
  returns, phase by phase:
  - the matching career-dataset streams, in order;
  - each matching streams-dataset stream whose name is not yet a stream
    result;
  - the matching exams, category by category.

  The proof connects the loop method to that statement, and lemmas about
  `Results` give soundness, completeness, case-insensitivity, phase order
  and the dedup rule.
- `page.dfy`, module `Page`: the page-script helpers:
  - `performFallbackSearch`;
  - `searchCareers`;
  - the live-search listeners with `performLiveSearch`;
  - `getNotificationColor`;
  - `handleStreamSelectionFromSearch`'s name-to-id table;
  - `getFallbackRecommendations`.

## Model

| member | source | states |
|---|---|---|
| `Store.SettleCareer` | career-data.js:29-38 | a failed career load leaves `{streams:[], exams:[], careers:[]}`; a successful one leaves the parsed document |
| `Store.SettleStreams` | career-data.js:41-50 | a failed streams load leaves `{streams:{}}`; a successful one leaves the parsed document |
| `Store.SettleExams` | career-data.js:53-62 | a failed exams load leaves `{examCategories:[], examLevels:{}}`; a successful one leaves the parsed document |
| `Store.SettleInOrderFields` | career-data.js:13-19 | after any sequence of settled loads, a dataset is present exactly when its own load has settled, and is then the parsed document or its default; settling never sets the flag |
| `Store.EveryOrderReady` | career-data.js:13-20 | whatever order the three loads finish in, the manager ends in the same ready state with `loaded` true |
| `Store.NotReadyWhileLoading` | career-data.js:5-20 | while any load is outstanding, `loaded` is false and exactly the settled datasets are present |
| `Store.ReadyStaysReady` | career-data.js:20 | once ready, further completions change nothing, so `loaded` never goes back to false |
| `Store.AllStreams` | career-data.js:90-92 | `getAllStreams` returns the career dataset's stream list once that load has settled, even when it is empty, and `[]` before; `Store.AllFailedLoadIsEmpty` and `Store.EmptyStoreAnswersEmpty` give its empty cases |
| `Store.AllFailedLoadIsEmpty` | career-data.js:90-92 | a load in which every fetch fails still ends ready, holds only the defaults, and `getAllStreams` returns `[]` |
| `Store.FirstWithId` | career-data.js:96 | `Array.find` by id: the position of the first stream with that id, or none when no stream has it |
| `Datasets.Lookup` | career-data.js:97 | an own-property lookup: absent exactly when no key matches, otherwise the value stored under the key |
| `Store.GetStream` | career-data.js:95-101 | the first career-dataset stream with the id wins even when the streams dataset also has the id; only without one is the streams-dataset entry (or nothing) returned; the records are never merged |
| `Store.FirstCategory` | career-data.js:105-107 | the position of the first category whose lower-cased name equals the key, or none |
| `Store.GetExamsByCategory` | career-data.js:104-109 | the exams of the first category whose name equals the argument ignoring case, and `[]` when no category matches |
| `Store.CategoryLookupIgnoresCase` | career-data.js:106 | `getExamsByCategory(c)` equals `getExamsByCategory(c.toLowerCase())` |
| `Store.GetExamsByLevel` | career-data.js:112-114 | the level's list when `examLevels` has the level, otherwise `[]` |
| `Store.GetCareerRecommendations` | career-data.js:182-193 | null exactly when `getStream` finds nothing; otherwise it carries the found stream, and each of the four lists equals the stream's list, or `[]` when the stream lacks it |
| `Store.StreamAccessorsAgree` | career-data.js:196-205 | `getJobsByStream` and `getExamsByStream` return the recommendation record's job and government-exam lists, or `[]` when the stream is unknown |
| `Store.EmptyStoreAnswersEmpty` | career-data.js:89-114 | on a manager holding only empty or absent datasets, every accessor returns `[]` or not-found |
| `Text.Lower` | career-data.js:121 | lower-casing keeps the length and maps each character on its own |
| `Text.LowerIdempotent` | career-data.js:121 | lower-casing an already lower-cased string changes nothing |
| `Text.UpperNeverInLower` | script.js:214 | a needle holding an upper-case letter never occurs in a lower-cased string |
| `Text.SkipSpace` | script.js:171 | the first position from `i` on that does not hold white space (or the end); everything skipped is white space |
| `Text.SkipSpaceBack` | script.js:171 | the end of a range once its trailing white space is dropped; everything dropped is white space and the last kept character is not |
| `Text.Trim` | script.js:171 | `trim` returns an inner slice of the input; everything cut off on either side is white space, and the result neither starts nor ends with white space |
| `Text.TrimEmptyIff` | script.js:171-176 | trimming leaves the empty string exactly when the input is all white space |
| `Datasets.Values` | career-data.js:141 | `Object.values` returns every value, in the object's enumeration order |
| `Search.StreamHits` | career-data.js:124-137 | the first pass adds at most one result per stream |
| `Search.StreamHitsExact` | career-data.js:124-137 | every first-pass result is a stream result, with icon `fas fa-stream` and no category, for a listed stream whose lower-cased name or description contains the term; every such stream is represented |
| `Search.StreamHitsInOrder` | career-data.js:125 | the first pass keeps source order: the hits of `a + b` are the hits of `a` followed by those of `b` |
| `Search.NewStreamHits` | career-data.js:140-156 | the second pass adds at most one result per streams-dataset entry |
| `Search.NewStreamHitsSound` | career-data.js:140-156 | every second-pass result is a stream result for a matching streams-dataset entry |
| `Search.CategoryHits` | career-data.js:161-174 | the exam pass adds at most one result per exam of a category |
| `Search.CategoryHitsInOrder` | career-data.js:161 | within a category, exams are visited in listed order: the hits of `a + b` are the hits of `a` followed by those of `b` |
| `Search.CategoryHitsExact` | career-data.js:161-174 | within a category, the results are exam results for the exams whose name, present non-empty `fullForm`, or purpose contains the term. Each has description = purpose, the category's name and icon `fas fa-file-alt`; every matching exam appears |
| `Search.ExamHits` | career-data.js:159-176 | the exam pass adds at most one result per listed exam |
| `Search.ExamHitsExact` | career-data.js:159-176 | every exam-pass result is a matching exam labelled with a category that lists it; every matching exam of every category appears with that category's name |
| `Search.ExamHitsInOrder` | career-data.js:160 | the exam pass keeps category order |
| `Search.NamesSoFar` | career-data.js:145 | during the second pass, a stream result of a given name has been collected exactly when one existed before the pass or an entry already visited matches and has that name |
| `Search.KeptIffNoNamesake` | career-data.js:140-155 | a streams-dataset entry is appended iff it matches and no result collected so far is a stream of the same name |
| `Search.TableNamesCovered` | career-data.js:140-155 | after the second pass, every matching streams-dataset entry's name is among the stream results |
| `Search.NewHitsAvoidPrior` | career-data.js:145 | no second-pass result has the name of a stream result collected before the pass |
| `Search.NewNamesDistinct` | career-data.js:144-153 | the second pass never adds the same stream name twice |
| `Search.NewNamesFresh` | career-data.js:144-153 | the second pass never adds a name that a career-dataset result already has, and never adds a name twice |
| `Search.SearchData` | career-data.js:117-179 | the three push loops return exactly the phase-by-phase results. An absent or empty term gives `[]`, and every result is a stream hit or an exam hit for the lower-cased term |
| `Search.PushStreamMatches` | career-data.js:124-137 | the first loop appends exactly the first-pass hits to the list |
| `Search.PushNewStreams` | career-data.js:140-156 | the second loop, checking the list built so far, appends exactly the deduplicated second-pass hits |
| `Search.PushExamMatches` | career-data.js:159-176 | the nested exam loops append exactly the exam-pass hits |
| `Search.PushCategoryMatches` | career-data.js:161-174 | the inner exam loop appends exactly one category's hits |
| `Search.PhasesExact` | career-data.js:124-176 | each phase's results come from its own source and match; matching career streams and matching exams are all present |
| `Search.ResultsSound` | career-data.js:121-176 | every result is a matching stream from one of the two stream sources, or a matching exam labelled with a category that lists it |
| `Search.ResultsComplete` | career-data.js:121-176 | every matching career stream and every matching exam, with its category, is in the output; every matching streams-dataset stream's name is among the stream results |
| `Search.SearchIgnoresCase` | career-data.js:121 | `searchData(t)` equals `searchData(t.toLowerCase())` |
| `Search.PhaseOrder` | career-data.js:124-176 | the output is three consecutive blocks: career-dataset stream hits, then streams-dataset stream hits, then exam hits |
| `Search.TableHitNameIsNew` | career-data.js:145 | a streams-dataset hit never shares its name with an earlier stream result |
| `Search.StreamNamesetsDisjoint` | career-data.js:140-155 | two stream results with the same name both come from the career dataset, which is never deduplicated |
| `Search.EmptyStoreFindsNothing` | career-data.js:124-176 | with empty or absent datasets the search finds nothing |
| `Page.ItemHits` | script.js:213-222 | the fallback scan adds at most one result per table item |
| `Page.ItemHitsExact` | script.js:213-222 | a table item's result is present exactly when its lower-cased name or description contains the term, and nothing else is present |
| `Page.ItemHitsNone` | script.js:213-222 | when no table item matches, the fallback scan returns nothing |
| `Page.ItemHitsInOrder` | script.js:213 | the fallback scan keeps table order |
| `Page.ItemHitsIndexed` | script.js:213-222 | item `i` of the table has a result exactly when it matches; every result belongs to a matching item and carries no category and no record, with the stream icon iff it is a stream |
| `Page.FallbackSearchExact` | script.js:200-225 | `performFallbackSearch` returns at most five results, exactly those of the matching items. Name, description and type are copied; the icon is `fas fa-stream` iff the type is `stream` |
| `Page.FallbackNeedsLowerCaseTerm` | script.js:214 | the fallback search does not lower-case its term: a term with an upper-case letter finds nothing |
| `Page.SearchCareers` | script.js:167-189 | the input is trimmed and lower-cased. An all-white-space input only warns. Otherwise the results are `searchData` of the trimmed input when the manager is loaded, and the fallback search of the lower-cased term when it is not |
| `Page.FallbackDisplayIsSmall` | script.js:183-186 | before the manager is ready, an Enter search shows at most five results |
| `Page.QuickResults` | script.js:191-198 | live quick results exist iff the value is longer than two characters, the manager is loaded and the search finds something; they are the first `min(5, n)` results |
| `Page.LiveDisplay` | script.js:92-100 | the second listener displays the full results for the trimmed value iff it is longer than two characters and the manager is loaded |
| `Page.LiveAgreesWithEnter` | script.js:92-100 | once loaded, the live listener and an Enter search show the same results for the same input |
| `Page.NotificationColor` | script.js:556-564 | success, error and warning get their own colours; info and every other type get `#5ac8fa` |
| `Page.NotificationColorTotal` | script.js:556-564 | every type gets one of the four colours, and an unknown type looks like `info` |
| `Page.NotificationColorIsTableLookup` | script.js:556-564 | the colour equals looking the type up in the four-entry `colors` object, with `#5ac8fa` when the type is not a key |
| `Page.StreamIdForName` | script.js:288-300 | "Science Stream" selects `science`, "Commerce Stream" `commerce`, "Arts Stream" `arts` and "Vocational Courses" `vocational`; every other name selects nothing |
| `Page.StreamIdsDistinct` | script.js:289-294 | distinct display names select distinct stream ids |
| `Page.FallbackRecommendations` | script.js:333-410 | `science`, `commerce` and `arts` each get their own fixed record (the science, commerce and arts entries of `fallbackData`), each with career paths and job opportunities; every other id gets the empty object |
| `Page.FallbackStreamsHaveRecommendations` | script.js:205-208 | every stream in the fallback table maps, through its display name, to a stream id that has fallback recommendations |
| `Page.VocationalHasNoFallback` | script.js:293 | "Vocational Courses" selects `vocational`, for which the fallback record is empty |

`getExamCategories` (career-data.js:248-250) is `Store.ExamCategories`. It
is the category list the exam-phase and category-lookup lemmas quantify
over, and `Store.EmptyStoreAnswersEmpty` covers its empty case.
`getAllStreams` is `Store.AllStreams`, which has its own row.
`getJobsByStream` and `getExamsByStream` are `Store.GetJobsByStream` and
`Store.GetExamsByStream`; `Store.StreamAccessorsAgree` states their
contract.

## Left out

- Fetching, `response.json()`, `async`/`Promise.all` and console logging (career-data.js:13-62): each fetch's outcome is a parameter (`Fetched`), and a failure of any kind is `None`.
- The moment between the last load settling and the `Promise.all` continuation setting `loaded` (career-data.js:20): in the model the flag is set with the third settle. The `catch` in `loadAllData` can only be reached through `initializeWebsite`, which runs after the flag is set, so it changes nothing modelled.
- All DOM work and presentation: `initializeWebsite`, `showLoadingComplete`, `updateQuickStats`, `populateStreamOptions`, `displaySearchResults`, `showQuickResults`, `selectStream`, `showRecommendations`, the HTML builders, `showNotification` and animations.
- Timers and browser events: readiness polling with `setInterval`, `debounce`/`throttle`, `IntersectionObserver` and the online/offline/error listeners.
- Fixed display tables with no logic (`getTrendingCareers`, `updateTrendingCareers`, `updateExamHighlights`), and `getPreparationResources`, which nothing in the modelled code calls.
- `Text.Lower`: ASCII only. JavaScript's `toLowerCase` also folds non-ASCII letters and can change a string's length. The search properties need only a length-preserving, idempotent lower-casing.
- `Page.QuickResults` and `Page.LiveDisplay` count length in Unicode scalar values. The source's `.length` counts UTF-16 code units, so the two differ for characters outside the Basic Multilingual Plane.
- Plain-object lookups are own-property lookups. In the source, a key that names an `Object.prototype` member (`constructor`, `toString`, ...) finds an inherited function, in `getStream`, `getExamsByLevel`, `getNotificationColor`, `getFallbackRecommendations` and the `streamMap` table.
- Documents lacking a field. The datasets are typed, so every top-level field and every stream/exam name, description and purpose is present. The stated intent is that a parsed document without an expected field gives empty answers. The code does not do that: `getStream` calls `.find` on `careerData.streams` without a guard (career-data.js:96) and throws when that field is missing, and `searchData` throws on a stream without a `name` (career-data.js:126). The model follows the code by assuming well-formed documents.
- JSON numbers inside the loosely structured records are integers. Nothing in the data layer reads them.
- Non-string search terms. `searchData` is modelled for an absent term (`None`) or a string.
