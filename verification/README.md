# Proxy browser core, in Dafny

This project models the core of a browser-like web app in which every tab carries its own synthetic proxy identity (IP, country, city, ISP, latency) and plays video streams through it. It proves properties of that model. The core has four parts:

- **The tab store** (`App.tsx`), module `App`. The list of `BrowserTab` records is a field of the class `App.TabStore`. Its handlers `addTab`, `closeTab`, `switchTab` and `updateTabData` are methods. Each method replaces the list with a pure transform of the old list (`Added`, `Closed`, `Switched`, `Replaced`). The lemmas prove three things:
  - the list never becomes empty;
  - ids stay distinct;
  - adding, closing and switching to a present id keep exactly one tab active. A switch to an unknown id leaves no tab active.
  - `updateTabData` keeps exactly one tab active only when the update carries the flag of the tab it replaces.

  That last condition fails in the code. Every tab's content stays mounted, and `rotateIP` hands back, after its 800 ms delay, a copy of the tab taken when the button was pressed. If the user switched tabs in between, the copy still says `isActive: true`, and storing it leaves two tabs active. `App.StaleRotationLeavesTwoActive` proves this.

  The class invariant `Valid()` is a non-empty list with distinct ids.
- **The per-tab edits** (`components/TabContent.tsx`), module `TabContent`. `rotateIP`, `addVideo` and `removeVideo` are the record rebuilds a tab hands to the store. The component's own state is the class `TabSession`: the advice text, the rotation flag and the 20-sample traffic window.
- **The response extractor and the advisory gateway** (`services/geminiService.ts`), modules `Extractor` and `Gateway`. `extractJSON` tries three texts in order and returns the value of the first one that parses:
  1. the whole reply;
  2. the group of the first ```` ``` ```` / ```` ```json ```` fence;
  3. the span from the first `[`/`{` to the last closer of that kind.

  The fence regex is written out as a scan with the regex engine's leftmost-match rule. `getAIClient`, `getProxyAdvice` and `searchVideos` are total functions of the environment's key and of the provider's outcome (a response or a thrown error).
- **The identity generator** (`constants.tsx`), module `Identity`. `generateRandomIP` and `generateRandomProxy` are functions of the random draws, over the constant tables `COUNTRIES`, `ISPS` and `SAMPLE_VIDEOS`.

Supporting modules:
- `Types` holds the records of `types.ts` and the Option/Result wrappers.
- `Text` holds number-to-decimal conversion, decimal reading, and split and join on a character.
- `Lists` holds `filter`, `find` and `slice(-n)` on sequences.

External inputs become parameters:
- `JSON.parse` is a function `parse: string -> Option<J>` (None: it throws).
- `Math.random()` is a `Random` draw: a fraction `num/den` with `num < den`, so `Math.floor(Math.random() * n)` is `Identity.Scale(r, n)`.
- `Date.now()`, the generated video id, the sample's time label and `process.env.API_KEY` are all parameters.

The model follows the code as written:
- `extractJSON` throws the fixed message "Could not extract valid JSON from model response". It does not carry the reply text.
- Tab groups, bookmarks, tab reordering, in-tab search and per-video rotation have no code in these files, so they are not modelled.

`closeTab` is modelled exactly as written, including what it does when several tabs share an id:
- If every tab has the closed id, the filtered list is empty. When the closed tab was active, `newTabs[0]` is then undefined and the handler throws before `setTabs`, so `App.Closed` returns the list unchanged. Otherwise the list becomes empty.
- The store excludes both cases with its distinct-ids invariant. `App.ClosedKeepsIdsUnique` proves that the list then stays non-empty.

## Model

| member | source | states |
|---|---|---|
| App.TabStore.constructor | App.tsx:20-29 | the store starts with the single tab `tab-1`, "Global Hub 1", at the home URL, active, with no videos, on a proxy from `generateRandomProxy` |
| App.InitialTab | App.tsx:21-28 | the initial tab is active, has no videos, is at the home URL on the given proxy, and its id reads as "tab-" and the number 1 |
| App.NewTab | App.tsx:34-41 | the new tab is active, has no videos, is at the home URL on the given proxy; its id reads back as "tab-" and the time, and its title as "Proxy Node " and count + 1 |
| App.NewTabIds | App.tsx:35 | two added tabs share an id exactly when added at the same time, and an added tab shares the initial tab's id exactly when added at time 1 |
| App.InitialStateValid | App.tsx:20-29 | the initial list has exactly one active tab, distinct ids, no streams, and the active-tab view is that tab |
| App.ActiveTabOf | App.tsx:31 | the active-tab view is the first active tab of the list, or the first tab when none is active |
| App.TabStore.ActiveTab | App.tsx:31 | the store's `activeTab` is the first active tab, or the first tab when none is active |
| App.ActiveTabIsTheActiveOne | App.tsx:31 | with exactly one active tab, the active-tab view is that tab |
| App.Deactivated | App.tsx:42 | same length; every tab is kept in place with only `isActive` set to false |
| App.Added | App.tsx:42 | `addTab`'s list is one longer, ends with the new tab, and keeps every earlier tab in place with only `isActive` cleared |
| App.AddedActivatesNewTab | App.tsx:33-43 | after `addTab` the new tab is the only active tab and the active-tab view; its title is "Proxy Node n+1" and it has no videos |
| App.AddedKeepsStreamCount | App.tsx:33-43 | adding a tab leaves the stream total unchanged |
| App.AddedKeepsIdsUnique | App.tsx:33-43 | adding a tab with a fresh id keeps the ids distinct |
| App.TabStore.AddTab | App.tsx:33-43 | the store's new list is `Added` of the old one with a tab numbered after the old count on a proxy from `generateRandomProxy`; the stream total is unchanged; the invariant is kept |
| App.TabsWithout | App.tsx:48 | the filter keeps only tabs whose id differs, drops none of them, and changes nothing when the id is absent |
| App.ClosingActive | App.tsx:49 | the test holds exactly when the first tab with the id is active |
| App.FirstActivated | App.tsx:49-51 | the first tab becomes active; no other field and no other tab changes |
| App.Closed | App.tsx:45-53 | a single tab is never closed; closing an absent id changes nothing; the list never grows |
| App.WithoutUniqueId | App.tsx:48 | with distinct ids, the filter removes exactly the one tab with that id and keeps the others in order |
| App.ClosingActiveIsClosedTab | App.tsx:49 | with distinct ids, the `find(...)?.isActive` test holds exactly when the closed tab is active |
| App.ClosedShape | App.tsx:47-52 | with distinct ids and two or more tabs, closing removes exactly that tab; if it was active, the first remaining tab becomes active, otherwise the flags are unchanged |
| App.ClosedKeepsIdsUnique | App.tsx:45-53 | with distinct ids, closing never empties the list and keeps the ids distinct |
| App.ClosedRemovesOneTab | App.tsx:45-53 | with distinct ids, closing a present tab leaves one tab fewer and subtracts exactly its videos from the stream total |
| App.ClosedKeepsOneActive | App.tsx:45-53 | closing keeps exactly one active tab: the first remaining tab if the active one was closed, otherwise the same active tab |
| App.TabStore.CloseTab | App.tsx:45-53 | the store's new list is `Closed` of the old one, computed step by step as in the handler; with two or more tabs, closing a present tab leaves one tab fewer and subtracts exactly its videos from the stream total; the invariant is kept |
| App.Switched | App.tsx:56 | same length; each tab keeps its place, with `isActive` set exactly when its id is the chosen one |
| App.SwitchedActivatesExactly | App.tsx:55-57 | only the flags change and a tab is active iff it has the id; with distinct ids, that tab is the only active one; with an unknown id no tab is active and the active-tab view falls back to the first tab; the stream total is unchanged |
| App.TabStore.SwitchTab | App.tsx:55-57 | the store's new list is `Switched` of the old one; the stream total is unchanged; the invariant is kept |
| App.Replaced | App.tsx:60 | same length; each tab whose id matches is the update, every other tab is unchanged |
| App.ReplacedKeepsIds | App.tsx:59-61 | every id stays in place, so distinct ids stay distinct; an unknown id changes nothing |
| App.ReplacedKeepsActiveTab | App.tsx:59-61 | an update that carries the flag of the tab it replaces keeps the same tab as the only active one |
| App.ReplacedAt | App.tsx:59-61 | with distinct ids, an update of tab k that keeps its id replaces position k and nothing else |
| App.TabStore.UpdateTabData | App.tsx:59-61 | the store's new list is `Replaced` of the old one; the invariant is kept |
| App.StaleRotationLeavesTwoActive | components/TabContent.tsx:44-50 | storing a rotated copy of a tab taken while it was active, after the user switched to another tab, leaves both tabs active, so exactly-one-active fails |
| App.StreamCount | App.tsx:152 | the footer's stream total bounds every tab's video count, and it is zero exactly when no tab has a video |
| App.StreamCountConcat | App.tsx:152 | the stream total of a concatenation is the sum of the totals |
| App.StreamCountOfSameVideos | App.tsx:152 | the total depends only on the tabs' video lists |
| App.StreamCountUpdate | App.tsx:152 | replacing one tab changes the total by the difference of its video counts |
| App.StreamCountWithout | App.tsx:152 | removing one tab subtracts its video count from the total |
| App.VideoEditsChangeStreamCount | App.tsx:152 | with distinct ids, a tab's `addVideo` edit, stored through `updateTabData`, raises the total by exactly one; its `removeVideo` edit never raises it |
| TabContent.RotateIP | components/TabContent.tsx:45-49 | only `proxy.ip` changes, to a freshly generated IP; the country, city, ISP, latency, id, title, URL, videos and active flag are kept |
| TabContent.NewVideo | components/TabContent.tsx:56-63 | the new video has the given id, a URL from the sample list, the title "Stream Source k+1", status playing, and the tab's IP |
| TabContent.AddVideo | components/TabContent.tsx:64-67 | exactly one video is appended; the earlier videos and every other field are unchanged |
| TabContent.VideosWithout | components/TabContent.tsx:73 | a video is kept iff it was there and its id differs; nothing changes when the id is absent |
| TabContent.RemoveVideo | components/TabContent.tsx:70-75 | every video with the id is gone, the others stay, no other field changes, and an absent id is a no-op |
| TabContent.RemoveVideoKeepsOrder | components/TabContent.tsx:73 | removal distributes over concatenation, so the survivors keep their order |
| TabContent.RemoveUndoesAdd | components/TabContent.tsx:55-75 | adding a video with a fresh id and then removing that id gives the tab back |
| TabContent.NextWindow | components/TabContent.tsx:30-35 | after a tick the window has min(old+1, 20) samples, the new one last, after the newest old ones in order |
| TabContent.TabSession.constructor | components/TabContent.tsx:16-18 | the advice starts as the placeholder, no rotation runs, and the window is empty |
| TabContent.TabSession.ReceiveAdvice | components/TabContent.tsx:22-24 | the advice is replaced by whatever `getProxyAdvice` returns, and nothing else changes |
| TabContent.TabSession.Tick | components/TabContent.tsx:29-37 | the window becomes `NextWindow` of the old one with a sample in 0..99; the window stays within 20 samples in 0..99 |
| TabContent.TabSession.BeginRotation | components/TabContent.tsx:43 | the rotation flag is set and nothing else changes |
| TabContent.TabSession.CompleteRotation | components/TabContent.tsx:44-52 | the edit handed to the store is `RotateIP` of the tab and the flag is cleared |
| Lists.Filter | components/TabContent.tsx:73 | the filter keeps exactly the elements that pass, drops none that pass, and is the identity when all pass |
| Lists.FilterConcat | components/TabContent.tsx:73 | filtering distributes over concatenation, so order is kept |
| Lists.FindIndex | App.tsx:31 | `find` yields the first element that satisfies the test, or none when no element does |
| Lists.LastN | components/TabContent.tsx:34 | `slice(-n)` keeps min(length, n) elements and they are the last ones |
| Text.NatToDecimal | constants.tsx:21 | a number's decimal text is non-empty, all digits, has no leading zero, and has one digit exactly below ten |
| Text.DecimalRoundTrip | constants.tsx:21 | reading a number's decimal text gives the number back |
| Text.Split | constants.tsx:21 | splitting gives one piece more than there are separators, and no piece holds the separator |
| Text.SplitJoin | constants.tsx:21 | splitting a join of separator-free pieces gives the pieces back, with one separator fewer than pieces |
| Identity.Scale | constants.tsx:25-31 | `Math.floor(r*n)` is the floor of the product, and so it lies in 0..n-1: no table lookup is out of bounds |
| Identity.Octets | constants.tsx:21 | four octets, each in 0..255 |
| Identity.FormatIP | constants.tsx:21 | splitting the joined text on '.' gives back each number's decimal field, so it holds one dot fewer than there are numbers |
| Identity.GenerateRandomIP | constants.tsx:20-22 | a generated IP has exactly three dots, and reading its fields gives back the four drawn octets, each in 0..255 |
| Identity.FormatIPRoundTrip | constants.tsx:20-22 | a dotted quad of four numbers has three dots and splits back into those four numbers |
| Identity.GenerateRandomProxy | constants.tsx:24-33 | the country is the name of a `COUNTRIES` entry and the city comes from that same entry; the ISP is from `ISPS`; the latency lies in 10..159; the IP is a generated IP |
| Extractor.SkipSpaces | services/geminiService.ts:20 | `\s*` (whitespace as `IsSpace` defines JavaScript's `\s` class) consumes exactly the maximal run of whitespace |
| Extractor.NextFence | services/geminiService.ts:20 | finds the first fence at or after a position, or reports that there is none |
| Extractor.TrimSpacesBefore | services/geminiService.ts:20 | backs over exactly the whitespace run that ends at a position |
| Extractor.GroupStart | services/geminiService.ts:20 | the group starts at the end of the whitespace run that follows the fence and its optional `json` tag, with no backtick skipped |
| Extractor.MatchAt | services/geminiService.ts:20 | at an opening fence, gives a match of the pattern (`IsFenceMatch`: tag, spaces, lazy group, spaces, closing fence), or there is no later fence |
| Extractor.FindFence | services/geminiService.ts:20 | gives the leftmost match of the pattern, or there is no pair of fences |
| Extractor.FenceCapture | services/geminiService.ts:20 | a group is captured iff the text holds two non-overlapping fences; the captured group is that of a match opening at the first fence |
| Extractor.FenceCandidate | services/geminiService.ts:20-21 | the fenced text is offered exactly when a group was captured and is non-empty, and it is that group |
| Extractor.FirstOpener | services/geminiService.ts:29 | `search(/[\[\{]/)` finds the first `[` or `{`, or there is none |
| Extractor.LastIndexOf | services/geminiService.ts:30 | `lastIndexOf` finds the last occurrence, or there is none |
| Extractor.BoundarySpan | services/geminiService.ts:29-31 | the span satisfies 0 <= start < end < length; it starts at the first opener and ends at the last closer of the same kind; it is absent only when no such pair exists |
| Extractor.BoundaryCandidate | services/geminiService.ts:29-33 | the boundary text is offered exactly when the boundary span exists, it is that inclusive span of the reply, and it begins with an opener and ends with the matching closer |
| Extractor.Candidates | services/geminiService.ts:15-33 | the whole reply is the first of at most three texts to try |
| Extractor.ExtractJSON | services/geminiService.ts:14-39 | a whole reply that parses is returned as is; the only error is the fixed message, and only when the whole reply does not parse |
| Extractor.FirstParsed | services/geminiService.ts:14-39 | the first text that parses gives the value; the fixed error comes only when none parses |
| Extractor.ExtractJSONTakesFirstSuccess | services/geminiService.ts:14-39 | `extractJSON` returns the first success in the order whole reply, fenced group, boundary span, and throws exactly when none parses |
| Extractor.ExtractedFromSlice | services/geminiService.ts:14-39 | a whole reply that parses is returned as is; any value returned is the parse of a piece of the reply; a throw means the whole reply did not parse |
| Extractor.FenceCandidateIsSlice | services/geminiService.ts:20-21 | the fenced text is a piece of the reply |
| Extractor.BoundaryCandidateIsSlice | services/geminiService.ts:33 | the boundary text is a piece of the reply |
| Extractor.CandidatesAreSlices | services/geminiService.ts:15-33 | every text offered to the parser is a piece of the reply |
| Extractor.TaggedFenceYieldsBody | services/geminiService.ts:20-23 | a ```` ```json ```` block with whitespace around a backtick-free body yields exactly that body |
| Extractor.FencedExample | services/geminiService.ts:20-23 | a fenced JSON array yields the array text |
| Extractor.BoundaryExample | services/geminiService.ts:29-33 | prose around an object has no fence and yields the object through the boundary span |
| Extractor.PlainTextExample | services/geminiService.ts:15-38 | text with no fence and no bracket offers only itself to the parser |
| Gateway.GetAIClient | services/geminiService.ts:4-9 | a client is made iff the key is set and non-empty; otherwise the error is "API Key is missing" |
| Gateway.GetProxyAdvice | services/geminiService.ts:42-59 | the advice is never empty, and it is the fallback, the canned text or the provider's own text |
| Gateway.ProxyAdviceOutcomes | services/geminiService.ts:42-59 | the advice is never empty: non-empty provider text verbatim, the canned text when the provider returns none, and the fallback on a missing key or a thrown call |
| Gateway.SearchVideos | services/geminiService.ts:61-94 | anything other than empty results and sources needs a key and a provider response, and any sources are exactly the response's grounding chunks |
| Gateway.SearchVideosOutcomes | services/geminiService.ts:61-94 | a missing key, a thrown call or an extraction failure gives empty results and sources; otherwise the results are exactly the extracted value, unfiltered, which is the parse of a piece of the text (`"[]"` when absent), and the sources are the grounding chunks or none |
| Gateway.EmptyReplySearchesEmptyList | services/geminiService.ts:86 | an absent or empty reply text is searched as `"[]"` and gives no results |

## Left out

- App.TabStore.AddTab: requires the new id to be fresh. The handler assumes this. By `App.NewTabIds`, it holds when `Date.now()` differs from the times of the earlier added tabs and from 1. Two tabs added in the same millisecond would share an id.
- App.TabStore: the invariant is a non-empty list with distinct ids, not "exactly one active". Two things break exactly-one-active in the code: `switchTab` with an unknown id, and a stale `rotateIP` copy (`App.StaleRotationLeavesTwoActive`). The exactly-one-active property is proved per handler by the lemmas, under the conditions each one needs.
- `closeTab` sets `newTabs[0].isActive` in place. That object is shared with the old list. Only the new list is modelled, so that aliasing is not captured.
- Rendering: the JSX, styles, icons, the traffic chart and components/VideoPlayer.tsx are presentation only.
- The provider: the client, the prompts, the model configuration, the response schema, and the arguments of `getProxyAdvice` and `searchVideos` (the location, IP and query only shape the prompt). The provider's outcome is an input, and the grounding chunks are opaque.
- `JSON.parse`: its grammar is not modelled; it is a parameter.
- Math.random: its floating-point value is not modelled. A draw is a fraction below one, and `Math.floor(r*n)` is its exact floor.
- The ids and the clock: `Date.now()`, the video id from `Math.random().toString(36).substr(2, 9)` and `toLocaleTimeString()` are parameters.
- Timing and concurrency: the 800 ms rotation delay, the 2 s sampling interval, the effect's re-run when the proxy changes, and the interleaving of async calls are left out. Each handler is one atomic step.
- `console.warn` logging.
- Strings are sequences of Unicode scalar values, not UTF-16 code units. The two agree on every character the scanning looks at.
- `NetworkStats` in types.ts is declared but never used.
- Tab groups, proxy bookmarks, tab reordering, in-tab search, per-video IP rotation and latest-request-wins search have no code in these files.
