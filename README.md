# Live Iranian price dashboard — a Dafny model of its normaliser and refresh cycle

The dashboard asks a generative-AI service with web search for ten current
prices: five financial-market prices and five consumer staples. It turns the
free-text reply into a fixed record and shows that record in two tabbed card
grids, together with the time of the last update and the cited web sources.

Two parts of it have behaviour worth stating precisely, and this project
models both.

- **The response normaliser inside `fetchLivePrices`** (module `GeminiService`).
  - It finds a JSON payload in the model's text with three fixed patterns,
    tried in order: a fenced block tagged `json`, a plain fenced block, and a
    greedy span from the first `{` to the last `}`. The first pattern that
    matches decides.
  - It parses the payload and treats any parse failure as `{}`.
  - It fills each of the ten fields with JavaScript `||` semantics, using the
    sentinel `"نامشخص"` ("unknown").
  - It collects the truthy `web.uri` values of the first candidate's grounding
    chunks with a loop, then de-duplicates them in first-seen order, as
    `[...new Set(...)]` does.
  - A provider error is rethrown unchanged. A payload that parses to `null`
    makes `parsedData.market` throw, and that error is rethrown as well.
- **The `App` component** (module `App`).
  - The class `Dashboard` holds the four state fields `data`, `status`,
    `error` and `activeTab`.
  - Its methods are the refresh cycle: `BeginFetch`, then `FetchSucceeded` or
    `FetchFailed` as the awaited call settles. `FetchData` runs the whole
    cycle for a given provider outcome. There are also the refresh button
    (disabled while loading) and the two tab buttons.
  - Pure functions give what the page shows for a state: card prices, the
    last-updated text, the sources box and the error banner.

Foreign parts become inputs:
- the provider call becomes a `ProviderOutcome` (a reply, or the error it threw);
- `JSON.parse` becomes a parameter `parse: string -> Option<Json>`, with `None` where it throws;
- the localised clock reading becomes a `lastUpdated` string.

The model follows the code in these places:
- **Field values.** A filled field is whatever truthy value the parsed reply held, so it can be
  a number, an array or an object as well as a non-empty string. The fields
  are therefore of type `Json`, and the invariant proved is that every field is truthy.
  The record type in `types.ts` declares them as strings, but nothing checks this at run time.
- **A `null` payload.** The normaliser can fail when the payload parses to `null`. In that
  case `fetchLivePrices` throws and no snapshot is produced.
- **The brace pattern.** It is greedy: it runs from the first `{` to the last `}`, not over a balanced span.
- **A failed refresh.** It keeps the previous snapshot (`data` is not touched), so its
  timestamp and sources stay on screen under the error banner.

Module layout: `wrappers.dfy` (Option and Result), `js_values.dfy` (JSON
values, truthiness, `||`, property reads), `types.dfy` (the record shapes of
`types.ts`), `gemini_service.dfy` and `app.dfy`.

## Model

| member | source | states |
|---|---|---|
| `JsValues.Or` | services/geminiService.ts:72-73 | JavaScript's logical or is the left operand when it is truthy and the right one otherwise; a truthy fallback makes the result truthy |
| `JsValues.Member` | services/geminiService.ts:72-73 | for the property names the normaliser reads, `v.key` of a non-null value gives a value exactly when `v` is an object holding `key`, and then that member; otherwise `undefined` |
| `GeminiService.FindFrom` | services/geminiService.ts:60 | the substring search returns the first position at or after `from` where the pattern occurs, or none when it occurs nowhere there |
| `GeminiService.FindLastBefore` | services/geminiService.ts:60 | returns the last position before `upto` holding the character, or none when no such position exists |
| `GeminiService.MatchFence` | services/geminiService.ts:60 | a fence pattern matches exactly when an opener is followed by a closer; the match starts at the leftmost opener, and its lazy body ends at the first closer after it |
| `GeminiService.MatchBraces` | services/geminiService.ts:60 | the brace pattern matches exactly when some `}` follows some `{`; the match runs from the first `{` to the last `}` and has no capture group |
| `GeminiService.ExtractJson` | services/geminiService.ts:60 | some match exists iff one of the three patterns matches; the `json` fence wins, the plain fence is used only when the `json` fence fails, and the brace span only when both fences fail |
| `GeminiService.Payload` | services/geminiService.ts:65 | the parser gets capture group 1 when it is non-empty, and otherwise the whole match |
| `GeminiService.CategoryObject` | services/geminiService.ts:72-73 | the category object, or `{}` in its place, is always truthy |
| `GeminiService.Fill` | services/geminiService.ts:86-100 | every filled field is truthy |
| `GeminiService.CollectSources` | services/geminiService.ts:76-84 | the loop pushes exactly the chunk URIs (`ChunkUris`) in chunk order, and gives `[]` when the chunk list is absent |
| `GeminiService.Dedup` | services/geminiService.ts:102 | `[...new Set(s)]` has no duplicates, holds the same elements as `s`, and is no longer than `s` |
| `GeminiService.FetchLivePrices` | services/geminiService.ts:57-108 | a provider failure is rethrown unchanged; a reply gives exactly `Normalise` of it; every returned snapshot is complete |
| `GeminiService.NormaliseComplete` | services/geminiService.ts:86-102 | a successful normalisation has all ten fields truthy and a present, duplicate-free source list |
| `GeminiService.NormaliseFailsOnlyOnNull` | services/geminiService.ts:62-108 | normalisation fails iff the parsed payload is `null`, and then with the error of reading `market`; parse failures never escape |
| `GeminiService.SnapshotFieldFollowsReply` | services/geminiService.ts:86-100 | a field is the reply's `category.field` value when that value is truthy, and the sentinel otherwise |
| `GeminiService.FieldsFollowReply` | services/geminiService.ts:72-100 | for a non-null payload normalisation succeeds, and each of the ten fields follows the reply as above |
| `GeminiService.MissingCategoryAllSentinel` | services/geminiService.ts:72-73 | a missing or falsy category makes all five of its fields the sentinel, whatever the other category holds |
| `GeminiService.UnparsableReplyAllSentinel` | services/geminiService.ts:60-73 | when no pattern matches or the payload does not parse, a snapshot is still returned, with all ten fields the sentinel |
| `GeminiService.PlainTextMatchesNothing` | services/geminiService.ts:60 | text with no backtick and no `{` matches none of the three patterns |
| `GeminiService.ProseReplyAllSentinel` | services/geminiService.ts:57-100 | the reply text `not json at all` gives a snapshot whose ten fields are all the sentinel |
| `GeminiService.FencePreferredOverBraces` | services/geminiService.ts:60 | when a plain fenced block is present, the chosen match is a fence match (it has a capture group), never the brace span |
| `GeminiService.BracePayloadIsSpan` | services/geminiService.ts:60-65 | when only the brace pattern matches, the parser receives exactly the text from the first `{` to the last `}` |
| `GeminiService.EmptyFencePayloadIsWholeMatch` | services/geminiService.ts:65 | a fence with an empty body hands the parser the opener followed by the closer |
| `GeminiService.ChunkUrisAppend` | services/geminiService.ts:79-83 | the URIs of two chunk lists in sequence are those of the first followed by those of the second, so chunk order is kept |
| `GeminiService.ChunkUrisMembership` | services/geminiService.ts:76-84 | a URI is collected iff some chunk carries it as a truthy `web.uri` |
| `GeminiService.DedupFirstSeenOrder` | services/geminiService.ts:102 | the de-duplicated list is ordered by each element's first occurrence in the input |
| `GeminiService.DedupOfDistinct` | services/geminiService.ts:102 | a list without duplicates is returned unchanged |
| `GeminiService.RepeatedCitationsCollapse` | services/geminiService.ts:102 | citations `[A, B, A, C]` give sources `[A, B, C]` |
| `GeminiService.SnapshotSources` | services/geminiService.ts:76-102 | a snapshot's sources are duplicate-free and in first-seen order; they are exactly the truthy URIs of the first candidate's chunks, or `[]` when there are no chunks |
| `App.Dashboard.constructor` | App.tsx:14-17 | initial state: no data, status `idle`, no error, the market tab |
| `App.Dashboard.BeginFetch` | App.tsx:20-21 | status becomes `loading` and the error is cleared; data and tab are unchanged |
| `App.Dashboard.FetchSucceeded` | App.tsx:23-25 | data becomes the result and status becomes `success`, with the error still cleared; the tab is unchanged |
| `App.Dashboard.FetchFailed` | App.tsx:26-29 | data is unchanged, the error becomes the fixed message, and status becomes `error` |
| `App.Dashboard.FetchData` | App.tsx:19-31 | a full refresh leaves the new snapshot on success; on a provider error or a `null` payload it keeps the old data and shows the fixed message; the tab never changes |
| `App.Dashboard.PressRefresh` | App.tsx:53-55 | a click starts a refresh iff status is not `loading`; otherwise nothing changes |
| `App.Dashboard.ErrorBannerExactlyOnError` | App.tsx:64-69 | in every reachable state the banner is shown exactly in the `error` status, and it shows the fixed message |
| `App.Dashboard.RefreshFailsKeepingDisplay` | App.tsx:26-29 | a refresh that ends in an error shows the fixed message and leaves the previous snapshot's time, sources box and prices as they were |
| `App.Dashboard.SelectTab` | App.tsx:74-85 | a tab button sets only `activeTab` |
| `App.PriceText` | App.tsx:102-171 | a card is handed the snapshot's field when there is a snapshot and the field is truthy, and `---` otherwise; the value handed to the card is always truthy |
| `App.LastUpdatedText` | App.tsx:185 | shows `...` while loading, and otherwise the snapshot's time, or `---` when there is none |
| `App.SourcesPanel` | App.tsx:195-217 | shows the skeleton iff loading; shows the links iff not loading and the snapshot has a non-empty source list, and then exactly that list; otherwise the note |
| `App.ErrorBanner` | App.tsx:64-69 | the banner is shown iff the error is a non-empty string, and it shows that string |
| `App.VisibleFieldsOfTab` | App.tsx:98-177 | the selected tab shows exactly the five cards of its category, each once |
| `App.RefreshedCardsShowReply` | App.tsx:100-171 | after a successful refresh each card is handed the reply's truthy value, or the sentinel, never the `---` fallback |
| `App.RefreshedSourcesPanel` | App.tsx:195-217 | after a successful refresh, the sources box lists the de-duplicated citations iff some chunk carried a truthy URI, and shows the note otherwise |

## Left out

- The Gemini client, its API key and the network call (services/geminiService.ts:4, 49-55): the call's result is an input, either a reply or the error it threw.
- The model name and the prompt text (services/geminiService.ts:7-46): constants with no behaviour.
- The grammar of `JSON.parse`: the parser is a parameter, and the properties hold for every parser.
- General regular-expression matching: only the three fixed patterns are modelled, as substring searches.
- `new Date().toLocaleTimeString('fa-IR')` (services/geminiService.ts:101): it depends on the clock and the locale, so `lastUpdated` is an input string.
- `console.error` logging (services/geminiService.ts:67, 106; App.tsx:27): diagnostics only.
- React scheduling: `useCallback`, the mount-time `useEffect` (App.tsx:33-36) and batching of setter calls. The mount-time refresh is `FetchData` called on a freshly constructed `Dashboard`. A second `fetchData` started while one is in flight is not modelled.
- App.Dashboard.FetchSucceeded and App.Dashboard.FetchFailed: they require status `loading` and, on success, a complete snapshot. Each runs only after `fetchData` has set `loading`, and its result comes from `fetchLivePrices`. A completion arriving in any other state is not modelled.
- App.PriceText: the card renders the price as a React child (components/PriceCard.tsx:27), so a `true` or empty-array value shows nothing and an object value makes the render throw; this rendering is not modelled, and the contract states only the value handed to the card.
- JsValues.Member: properties of non-objects (`length` and the indices of strings and arrays) and prototype-inherited properties are not modelled; none of the twelve names the normaliser reads (`market`, `essentials` and the ten field names) is such a property.
- JSON numbers as doubles: `JSON.parse` rounds numbers to doubles (`1e400` gives `Infinity`, `1e-400` gives `0`); the parser parameter absorbs the rounding, and an infinity is stood for by some non-zero real, which keeps its truthiness but not its value; NaN cannot arise.
- The refresh button's label and spinner, the `loading` flag passed to each card, the card component (components/PriceCard.tsx), and all layout, CSS classes and icons: these are presentational only.
