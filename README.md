# DLF Insights Manager — a verified model of its core logic

The DLF Insights Manager is a single-page dashboard of residential real-estate
intelligence. Its content comes from five calls to a generative-AI service
(market intelligence, competitive intelligence, share prices, India news,
international news), cached in the browser for the rest of the calendar day.
This project models in Dafny the parts of the dashboard that are logic rather
than markup, and proves what they promise:

- **`App`** (App.tsx) models the daily snapshot cache and its refresh protocol (`fetchData`) and the choice of what the content panel shows (`renderPage`).
  - The component is the class `Dashboard`. Its method `FetchData` updates the state fields and `localStorage` in place.
  - `FetchData` is proved equal to the pure specification `Refresh`, and lemmas about `Refresh` state the protocol.
  - The cache is reused only on the same calendar day.
  - A stale or missing record leads to exactly the five calls, the two that take a geography both for India, whatever is selected.
  - All five calls succeeding publishes the results and persists them under the one key.
  - Any call failing shows a fixed message and leaves storage and content as they were.
  - Repeating a refresh on the same day is idempotent.
- **`Sources`** (components/Sources.tsx) models the "Live Data Sources" list: five source lists, concatenated, de-duplicated through a JavaScript `Map` keyed by uri, then filtered.
  - JavaScript `Map` semantics are modelled exactly: a repeated key keeps its first position and takes its last value.
  - The list has at most one entry per uri, ordered by first occurrence.
  - Each entry is the last entry for its uri.
  - A uri is listed exactly when its last entry has a uri and a title.
- **`BoldMarkup`** models `renderWithBold`, the `**bold**` markup renderer shared by the market synopsis and the SWOT cards.
  - `String.prototype.split` with the capturing pattern `/(\*\*.*?\*\*)/g` is modelled as the ECMAScript split loop, with a hand-written matcher for the lazy pattern. `.` does not match the four line terminators.
  - Joining the parts gives back the text, and the parts alternate between text and whole matches.
  - Split takes the leftmost match, and matched runs render bold without their markers.
  - The bold test is only a prefix and suffix check.
- **`MarketIntelligence`** and **`SWOTCard`** (components/MarketIntelligence.tsx, components/SWOTCard.tsx) model the two uses of the renderer with their CSS classes. The synopsis shows a message when there is no market data, and a SWOT card has one entry per item.
- **`ExportControls`** (components/ExportControls.tsx) models the export buttons.
  - The class `Exporter` holds `isExporting` and the exported `Element`, whose `className` is rewritten and restored in place.
  - A busy call changes nothing.
  - During the capture the class has the first `bg-slate-800/50` replaced and the first `backdrop-blur-sm` removed.
  - On success and on failure alike, the class and `isExporting` are restored, and a failure becomes an alert.
  - Only the exporting format's button pulses, and every button is disabled while an export runs.
- **`Types`** (types.ts) holds the records the core reads: `GroundingSource`, `MarketData`, `Geography`, `Page` and the section records.

Modelling choices:
- **Time:** a timestamp is a pair of a local calendar day (what `toDateString` prints) and an instant. `fetchData` reads the clock twice: `now` for the freshness check (App.tsx:44) and `resolvedAt` after the five calls resolve (App.tsx:77), which stamps the new record and the last update.
- **The five service calls:** one oracle, `FetchOutcome`, that yields all five results or a rejection.
- **Whether `localStorage.setItem` completes:** the parameter `storageAccepts`.
- **Whether the image or PDF step completes:** the parameter `captureSucceeds`.
- **Storage:** each stored item is one of:
  - the empty text (falsy, so a miss);
  - text `JSON.parse` rejects;
  - a snapshot record.
- **The twelve state slots** that `fetchData` always sets together are one field, `content`.

A stored text that `JSON.parse` rejects is not a cache miss: the parse runs outside the `try` (App.tsx:40-42, 66), so `fetchData` rejects. The spinner then stays on, no error is shown and nothing is fetched (`App.MalformedRecordAbandons`).

## Model

| member | source | states |
|---|---|---|
| App.Dashboard.constructor | App.tsx:16-31 | the initial state: market page, India, no data, empty source lists, loading on, no error, last update now |
| App.Dashboard.FetchData | App.tsx:35-117 | the new state fields, the new storage and the calls issued are exactly those of `Refresh` on the state and storage before the call and the two clock readings |
| App.Refresh | App.tsx:35-117 | on every path the page is kept; either no call or exactly the five calls are issued; loading stays on only when the call was abandoned; the fixed error shows exactly on a failed call or write; no key but the cache key is ever touched |
| App.CacheReusedIffSameDay | App.tsx:40-46 | a stored record is served, with no call issued, if and only if its calendar day is today's |
| App.YesterdayIsStale | App.tsx:43-46 | a record from 23:59:59 yesterday is not reused at 00:00:01 today; all five calls are issued |
| App.CacheHitRepublishes | App.tsx:46-61 | on a fresh record every data and source slot, the geography and the last update come from it unchanged; loading ends, no error, the page is kept, nothing is fetched or written |
| App.MissFetchesForIndia | App.tsx:66-75 | on a missing or stale record exactly five calls are issued, market and competitive intelligence both for India |
| App.SuccessPublishesAndPersists | App.tsx:77-109 | when all calls succeed the record is stamped with the instant the calls resolved and is for India, each field comes from its result, the state is published from that same record, and only the cache key is overwritten |
| App.FailureKeepsStorageAndContent | App.tsx:36-116 | when a call fails storage is untouched, the page and published content are as before, the fixed message is shown and loading ends |
| App.MalformedRecordAbandons | App.tsx:36-42 | text that is not JSON leaves loading on, the error cleared, storage untouched and nothing fetched |
| App.LoadingEndsUnlessMalformed | App.tsx:60-116 | loading is off after the call if and only if the stored text was not malformed |
| App.StorageWrittenOnlyOnSuccess | App.tsx:108-109 | storage changes only when all calls succeed and the write completes, and then only the cache key, to the new record |
| App.SameDayRefreshIsIdempotent | App.tsx:40-109 | after a successful refresh, another one on the day its calls resolved is served from the cache and leaves state and storage exactly as they were |
| App.RecordDatedWhenCallsResolve | App.tsx:44-80 | a refresh checked at 23:59:59 whose calls resolve after midnight stores a record of the new day, so a refresh later that new day is served from the cache |
| App.RenderPage | App.tsx:123-152 | the spinner exactly while loading; otherwise the error exactly when it is non-empty, with its text; otherwise the view of the current page over that page's slots: the market data and its synopsis, the launches, the share prices, each news list with its title, or the sources view of the five source lists in order |
| App.ViewAfterRefresh | App.tsx:111-128 | after a refresh the spinner shows exactly when the refresh was abandoned, and the error exactly when a call or the write failed |
| Sources.AllSources | components/Sources.tsx:27-33 | the concatenation keeps every entry: its length is the sum, and each of the five lists is the block of it at its place, in the order market, competitive, share price, India news, international news |
| Sources.CitableOnly | components/Sources.tsx:35 | an entry is kept if and only if it is in the input and has a truthy uri and title |
| Sources.FirstIndex | components/Sources.tsx:34 | the first position whose key is the given one |
| Sources.LastIndex | components/Sources.tsx:34 | the last position whose key is the given one |
| Sources.MapSet | components/Sources.tsx:34 | `set` grows the Map by at most one entry (the exact effect on every entry is `MapSetEffect`) |
| Sources.MapValues | components/Sources.tsx:34 | a non-empty input gives a non-empty Map with no more values than entries (the exact content is `MapValuesSpec`) |
| Sources.MapSetEffect | components/Sources.tsx:34 | `Map.set` on distinct keys: an existing key keeps its place and takes the new value; a new key is appended |
| Sources.FirstKeysSpec | components/Sources.tsx:34 | the keys at their first occurrences are distinct and are exactly the keys of the input |
| Sources.MapValuesSpec | components/Sources.tsx:34 | the Map's values, in order, carry the input's keys at their first occurrence, exactly the input's keys, each holding the last entry with that key |
| Sources.FirstKeysOrdered | components/Sources.tsx:27-34 | the Map's keys are ordered by where each first occurs in the concatenation |
| Sources.CitableOnlyKeepsOrder | components/Sources.tsx:35 | the filter keeps the relative order of the entries it keeps |
| Sources.UniqueAreLastCitable | components/Sources.tsx:34-35 | every listed entry has a truthy uri and title, is an entry of the input, and is the last one with its uri |
| Sources.UniqueHaveDistinctUris | components/Sources.tsx:34-35 | no uri is listed twice |
| Sources.UniqueInFirstOccurrenceOrder | components/Sources.tsx:27-35 | listed uris are in the order of their first occurrence across the five lists |
| Sources.UniqueListsUriIffLastCitable | components/Sources.tsx:34-35 | a uri is listed if and only if its last entry is citable, whatever its earlier entries are |
| Sources.UniqueSources | components/Sources.tsx:27-35 | every listed entry is citable, comes from the five lists and is the last entry for its uri; no uri is listed twice |
| Sources.ViewSources | components/Sources.tsx:44-72 | the table is shown only with at least one row; its rows are exactly the de-duplicated, filtered list of the five lists in spread order (the list `UniqueInFirstOccurrenceOrder` and `UniqueListsUriIffLastCitable` are about), each row citable, an entry of the five lists and the last entry for its uri, and no uri twice |
| Sources.NoSourcesMessageSpec | components/Sources.tsx:44-72 | the "no sources" message shows if and only if no uri's last entry is citable |
| BoldMarkup.CloseFrom | components/MarketIntelligence.tsx:14 | a close found by the lazy part ends just after a `**` |
| BoldMarkup.CloseFromSpec | components/MarketIntelligence.tsx:14 | the close is the first `**` reachable without a line terminator; there is none exactly when a line terminator precedes every later `**` |
| BoldMarkup.MatchEnd | components/MarketIntelligence.tsx:14 | a match is at least four characters long and lies within the text |
| BoldMarkup.MatchIsBoldRun | components/MarketIntelligence.tsx:14 | a match is `**`, then characters that are not line terminators and start no `**`, then `**` |
| BoldMarkup.Search | components/MarketIntelligence.tsx:14 | the leftmost position at which the pattern matches, or none at any position |
| BoldMarkup.SplitFromShape | components/MarketIntelligence.tsx:14 | the split loop `SplitFrom` emits an odd number of parts, the first of them the text from where the pending piece starts (its full characterisation is `SplitLeftmost`) |
| BoldMarkup.Split | components/MarketIntelligence.tsx:14 | an odd number of parts, the first a prefix of the text (the round trip and the alternation are `SplitRoundTrip` and `SplitAlternates`) |
| BoldMarkup.SkipNonMatches | components/MarketIntelligence.tsx:14 | split passes over positions where the pattern does not match without emitting anything |
| BoldMarkup.SplitFromSuffix | components/MarketIntelligence.tsx:14 | continuing the split at a position is splitting the rest of the text |
| BoldMarkup.SplitLeftmost | components/MarketIntelligence.tsx:14 | split gives the text whole when nothing matches, otherwise the text before the leftmost match, the match, and the split of the rest |
| BoldMarkup.SplitRoundTrip | components/MarketIntelligence.tsx:14 | joining the parts gives back the text |
| BoldMarkup.SplitAlternates | components/MarketIntelligence.tsx:14 | an odd number of parts, every odd-numbered one a whole lazy `**…**` match |
| BoldMarkup.SplitWithoutMarker | components/MarketIntelligence.tsx:14 | text with no `**` splits into itself alone |
| BoldMarkup.Slice | components/MarketIntelligence.tsx:16 | `slice` with indices inside the string is that substring; a negative end counts from the end; an empty or out-of-range window, with a non-negative or a negative end, gives the empty string |
| BoldMarkup.RenderPart | components/MarketIntelligence.tsx:15-18 | bold if and only if the part starts and ends with `**`; bold text is the part without two characters at each end (empty below four); other parts unchanged |
| BoldMarkup.BoldRunRendersBold | components/MarketIntelligence.tsx:15-16 | a whole match renders bold with its two markers removed, and the bold text has no line terminator and no `**` |
| BoldMarkup.RenderWithBold | components/MarketIntelligence.tsx:13-20 | an odd number of segments, each the part test applied to its split part, in order; a segment is bold exactly when its part starts and ends with `**`; every match renders bold without its markers, with no line terminator and no `**` inside; other parts stay plain and unchanged; text with no `**` is one plain segment equal to it |
| BoldMarkup.BoldTestIsPrefixSuffixOnly | components/MarketIntelligence.tsx:14-16 | `***` and `**a\nb**` match nothing yet render bold, as `` and `a\nb` |
| BoldMarkup.SearchMarkedPhrase | components/MarketIntelligence.tsx:14 | in `Prices **rose** 5%` the leftmost match is `**rose**` |
| BoldMarkup.SplitMarkedPhrase | components/MarketIntelligence.tsx:14 | `Prices **rose** 5%` splits into `Prices `, `**rose**`, ` 5%` |
| BoldMarkup.RendersMarkedPhrase | components/MarketIntelligence.tsx:13-20 | `Prices **rose** 5%` renders as plain `Prices `, bold `rose`, plain ` 5%` |
| MarketIntelligence.RenderOverview | components/MarketIntelligence.tsx:13-29 | each segment is the part test, with the violet class, applied to its split part; an odd number of parts; every odd-numbered part is bold in `font-bold text-violet-400` and is a split match with its markers removed; text without `**` is one plain part |
| MarketIntelligence.ViewSynopsis | components/MarketIntelligence.tsx:23-29 | the "no market data" message exactly when there is no data; otherwise the part test with the violet class applied to each split part of the overview: an odd number of segments, the matches of the overview in violet bold without their markers, the text between them unchanged |
| SWOTCard.RenderItems | components/SWOTCard.tsx:12-31 | one entry per item, in order; each entry renders its item's split parts one by one, with an odd count |
| SWOTCard.SameTransformationAsOverview | components/SWOTCard.tsx:12-19 | a card item renders into the same parts as the synopsis, plain and bold alike with the same text; only the bold class differs |
| ExportControls.IndexOf | components/ExportControls.tsx:21 | `indexOf`: the first occurrence at or after the start, or none at all |
| ExportControls.ReplaceFirst | components/ExportControls.tsx:21 | `replace` with a string pattern: unchanged without an occurrence, otherwise only the first occurrence replaced |
| ExportControls.ExportClassName | components/ExportControls.tsx:21 | a class list with neither `bg-slate-800/50` nor `backdrop-blur-sm` is left as it is (the rewrites are `ReplaceFirst`'s) |
| ExportControls.ButtonClass | components/ExportControls.tsx:75-84 | the base and colour classes come first; the class ends with `animate-pulse` if and only if this format is exporting |
| ExportControls.ButtonLabel | components/ExportControls.tsx:94-110 | the busy caption exactly while this format exports, `Capturing...` only for the capture button |
| ExportControls.ViewButton | components/ExportControls.tsx:88-110 | a button is disabled exactly while any export runs; it pulses and shows the busy caption exactly while its own format exports; its class starts with the base and its format's colours |
| ExportControls.OnlyExportingButtonPulses | components/ExportControls.tsx:82-106 | while one format exports every button is disabled and only that format's button pulses |
| ExportControls.Exporter.constructor | components/ExportControls.tsx:12 | no export is running at first |
| ExportControls.Exporter.HandleExport | components/ExportControls.tsx:14-73 | without an element, or while busy, nothing changes. Otherwise the capture sees the format marked busy and the class with both rewrites. The outcome is the saved file or the alert. Afterwards the class is the original and no export is running |

## Left out

- The generative-AI service (services/geminiService.ts) is not part of this model: its prompts, schemas and network calls are the oracle `FetchOutcome` and the requests `FetchData` returns.
- The `console` output of `fetchData` (App.tsx:47, 65, 112) is not modelled; it changes no state.
- The concurrency of `Promise.all` is reduced to one step that yields all five results or a rejection.
- `Date`, time zones and `toDateString` are reduced to a timestamp's calendar-day field. Records whose timestamp does not parse are not modelled.
- Stored records of any shape other than the snapshot `fetchData` writes (missing fields, other JSON values) are not modelled.
- The image and PDF generation of `handleExport` (components/ExportControls.tsx:30-65) are calls into unseen libraries and become the flag `captureSucceeds`. The PDF pagination loop works in floating-point millimetres and is not modelled, and neither are `console` output and the alert dialog itself.
- `isExporting` inside `handleExport` is read from React state. A second click before React re-renders sees the stale value, but the model treats the state update as immediate.
- The presentational components are not part of this model:
  - CompetitiveIntelligence, SharePriceIndex and News;
  - KPICard, DemandProfile and TrendsChart, whose floating-point chart scaling is left out;
  - LoadingSpinner, a timer animation;
  - Header and Navigation.
  The views in `RenderPage` name which data each page receives.
- Geography selection in the header and page navigation are not modelled as operations. `MissFetchesForIndia` states that the selected geography does not affect what is fetched.
- Strings are sequences of characters, so UTF-16 surrogate pairs count as one character here and two in JavaScript. This affects `slice` and `indexOf` only for text outside the Basic Multilingual Plane.
- `renderWithBold` is modelled as the list of parts it returns. React keys and element identity are left out.
- Sources.MapSet: its own contract states only the size of the result, because a membership clause on this recursive function made the proofs that unfold it too costly; its exact effect is stated by `MapSetEffect`.
- Sources.MapValues: its own contract states only the size of the result, for the same reason; its exact content is stated by `MapValuesSpec`.
- ExportControls.ExportClassName: its own contract states only that a class list with neither class is unchanged; the two rewrites are stated by `ReplaceFirst`'s contract.
- ExportControls.ReplaceFirst: replacement strings with `$` patterns are not interpreted; the two replacements in the source contain none.
