# Golden keywords: a Dafny model

This project models the keyword-mining service of the *golden keywords*
Next.js application and proves properties of the model.

- **The analyze route** (`POST /api/analyze`). It reads a list of seed keywords. For each seed it collects Google suggestions, tagging the seed as rank 0 and the n-th suggestion as rank n. It merges the suggestions into a JavaScript `Map` keyed by the normalised term (whitespace removed, lower-cased), where the best rank wins. It asks the Naver keyword tool for search volumes five terms at a time and joins the answers back to the map. It scores each row from its volume, competition and rank, keeps the last row per keyword and sorts by descending score. It answers 400 for an empty list and 500 for an unreadable body.
- **The two page components.** `app/page.tsx` is the current page and `src/app/page.tsx` is an older copy. Both parse the input box into keywords, send them and show the reply. The current page also enforces a three-keyword limit, controls the button's enabled state and classifies each result row into display badges.
- **The access gate** (`proxy.ts`). It decides from the path and the `Referer` header whether a request passes or is redirected.

Module layout:

- `Text`: the JavaScript string built-ins the code relies on (`\s`, `trim`, `split`, `join`, `includes`, `startsWith`, `toLowerCase`).
- `OrderedMaps`: a JS `Map` with insertion order.
- `Keys`: `normalize`.
- `Suggestions`: tagging and the candidate merge.
- `Metrics`: chunks, the hint string, volume and the join.
- `Scoring`: the score formula.
- `Results`: deduplication and the stable descending sort, done in place on an array.
- `AnalyzeRoute`: `POST`, with its loops as methods proved against the functional description `Handle`.
- `Client`: the parse and message rotation that both pages share.
- `Page`: `app/page.tsx`.
- `LegacyPage`: `src/app/page.tsx`.
- `Proxy`: `proxy.ts`.

How the outside world is represented:

- **The two external services** are function parameters: `suggest` answers a seed and `metrics` answers a hint string. `None` stands for a failed request. `POST` also returns the list of calls it made, so "no fetch on a 400" can be stated.
- **`Math.log10`** is a parameter. The score lemmas assume only that it is monotone on [1, ∞) and that log10(1) = 0.
- **In the page handlers**, the route's reply and the number of 800 ms timer ticks before it arrives are parameters.

The hint string sent to the Naver tool joins the terms with `,`, and a Google suggestion is passed on unchanged, so a suggestion that contains a comma reaches the tool as two hint keywords: the round trip `Metrics.HintRoundTrip` holds only for comma-free terms.

One consequence the model makes explicit: the competition badge shows 높음 for any label it does not recognise, while the score treats such a label as uncontested (factor 1). This is `Page.CompetitionBadgeVsFactor`.

## Model

| member | source | states |
|---|---|---|
| Text.RemoveWhitespace | src/app/api/analyze/route.ts:16 | `replace(/\s+/g, '')` leaves no whitespace character and never lengthens the string |
| Text.RemoveWhitespaceAppend | src/app/api/analyze/route.ts:16 | removing whitespace distributes over concatenation |
| Text.ToLower | src/app/api/analyze/route.ts:16 | `toLowerCase` keeps the length and lowers each character in place |
| Keys.NormalizeShape | src/app/api/analyze/route.ts:16 | a normalised key holds no whitespace and no upper-case letter |
| Keys.NormalizeIdempotent | src/app/api/analyze/route.ts:16 | normalising a key again changes nothing |
| Keys.NormalizeIgnoresSpacing | src/app/api/analyze/route.ts:16 | inserting a run of whitespace anywhere does not change the key |
| Keys.NormalizeIgnoresCase | src/app/api/analyze/route.ts:16 | strings that agree up to letter case have the same key |
| Suggestions.Tag | src/app/api/analyze/route.ts:35-41 | on success the seed comes first at rank 0 and the i-th suggestion has rank i; on failure the list is empty |
| Suggestions.TagRankZero | src/app/api/analyze/route.ts:35-38 | rank 0 belongs to the seed alone |
| OrderedMaps.OrderedMap.Set | src/app/api/analyze/route.ts:89 | `Map.set` keeps the map well formed; a present key keeps its position, a new key goes last |
| OrderedMaps.OrderedMap.Values | src/app/api/analyze/route.ts:96 | `values()` lists the entries in key-insertion order |
| Suggestions.MergeStep | src/app/api/analyze/route.ts:86-90 | one merge step keeps the map well formed |
| Suggestions.MergeStepKeys | src/app/api/analyze/route.ts:86-90 | one merge step adds only the item's key, at the end when new, and leaves every other entry alone |
| Suggestions.Candidates | src/app/api/analyze/route.ts:83-91 | the merged map is well formed |
| Suggestions.CandidateKeys | src/app/api/analyze/route.ts:83-91 | a key is in the map exactly when some merged item normalises to it |
| Suggestions.CandidateBest | src/app/api/analyze/route.ts:88-89 | each key holds the item with the lowest rank for that key, and on a tie the first one seen |
| Suggestions.CandidateKeysGrow | src/app/api/analyze/route.ts:83-91 | merging more items never removes or reorders keys: the old key list is a prefix of the new one |
| Suggestions.CandidateOrder | src/app/api/analyze/route.ts:83-91 | keys are listed in the order in which they first occur |
| AnalyzeRoute.FetchGoogleSuggestions | src/app/api/analyze/route.ts:28-43 | one suggestion request per seed, answered by the tagged list |
| AnalyzeRoute.MergeResults | src/app/api/analyze/route.ts:85-91 | the `forEach` merge loop leaves the map of all items merged so far |
| AnalyzeRoute.CollectCandidates | src/app/api/analyze/route.ts:83-94 | the seed loop builds the candidate map of all seeds' suggestions and calls the suggestion source once per seed, in order |
| AnalyzeRoute.CollectedFrom | src/app/api/analyze/route.ts:83-85 | every merged item is one of the tagged suggestions of some seed |
| Metrics.AllKeys | src/app/api/analyze/route.ts:96 | the term list has one original term per key, in key order |
| Metrics.Chunks | src/app/api/analyze/route.ts:100-103 | there are ⌈n/5⌉ chunks |
| Metrics.ChunkSizes | src/app/api/analyze/route.ts:100-103 | every chunk holds between one and five terms |
| Metrics.FlattenChunksPrefix | src/app/api/analyze/route.ts:102-103 | the first c chunks concatenate to the first 5c terms |
| Metrics.ChunksFlatten | src/app/api/analyze/route.ts:102-103 | the chunks concatenate back to the term list, in order |
| AnalyzeRoute.ChunkAt | src/app/api/analyze/route.ts:102-103 | the loop's slice at i = 5c is chunk c, and it exists exactly while i is inside the list |
| Metrics.HintRoundTrip | src/app/api/analyze/route.ts:49 | for a non-empty chunk whose terms contain no comma, splitting the hint on `,` gives back the whitespace-stripped terms |
| Metrics.HintNoWhitespace | src/app/api/analyze/route.ts:49 | the hint string holds no whitespace |
| AnalyzeRoute.FetchNaverMetrics | src/app/api/analyze/route.ts:46-68 | an empty chunk makes no request; otherwise one request with the hint string, and a failure yields no records |
| Metrics.VolumeNonNegative | src/app/api/analyze/route.ts:111-113 | volume is never negative for non-negative counts, and a count that is not a number contributes 0 |
| Metrics.RowsExactly | src/app/api/analyze/route.ts:107-133 | a row is pushed exactly for each record whose normalised term is a key, carrying that key's rank |
| AnalyzeRoute.JoinRecords | src/app/api/analyze/route.ts:107-134 | the join loop pushes exactly the rows of the matched records |
| AnalyzeRoute.ProcessChunk | src/app/api/analyze/route.ts:103-104 | one chunk's round: at most one metrics request, then its matched rows |
| Metrics.EnrichedRowsMatched | src/app/api/analyze/route.ts:102-137 | every pushed row comes from a matched record of one requested chunk |
| AnalyzeRoute.EnrichCandidates | src/app/api/analyze/route.ts:99-137 | the chunk loop `i += 5` requests each chunk once, in order, and collects all their rows |
| Scoring.CompetitionFactor | src/app/api/analyze/route.ts:119-120 | the competition factor lies in (0, 1] |
| Scoring.Round | src/app/api/analyze/route.ts:131 | `Math.round` returns an integer within one half of its argument |
| Scoring.RoundMonotone | src/app/api/analyze/route.ts:131 | rounding preserves order |
| Scoring.RoundShift | src/app/api/analyze/route.ts:131 | rounding commutes with adding a whole number |
| Scoring.VolumePartNonNegative | src/app/api/analyze/route.ts:118 | the logarithmic part is never negative |
| Scoring.ScoreCompetitionOrder | src/app/api/analyze/route.ts:118-131 | with volume and rank fixed, LOW scores at least MID, which scores at least HIGH |
| Scoring.ScoreVolumeMonotone | src/app/api/analyze/route.ts:118-131 | with competition and rank fixed, a larger volume never lowers the score |
| Scoring.SeedBonus | src/app/api/analyze/route.ts:122-124 | the seed gets exactly 15 more points than an otherwise identical candidate of rank 4 or more, before and after rounding |
| Scoring.RankBonusOrder | src/app/api/analyze/route.ts:122-124 | rank 1 earns 25 bonus points, the seed 15, ranks 2 and 3 earn 5, and the rest earn nothing |
| Scoring.ZeroVolumeScore | src/app/api/analyze/route.ts:118-131 | a volume of 0 scores its rank bonus alone |
| Results.ByKeyword | src/app/api/analyze/route.ts:140-141 | the keyword-to-row map is well formed |
| Results.ByKeywordEntries | src/app/api/analyze/route.ts:140-141 | a keyword is present exactly when some row carries it, and it maps to the last such row |
| Results.DedupUnique | src/app/api/analyze/route.ts:140-142 | no keyword occurs twice after deduplication |
| Results.DedupContents | src/app/api/analyze/route.ts:140-142 | exactly the input's keywords survive, each as its last pushed row |
| Results.DedupOrder | src/app/api/analyze/route.ts:140-142 | surviving rows keep the order of their keywords' first occurrences |
| Results.InsertElements | src/app/api/analyze/route.ts:143 | one insertion step adds exactly the new row |
| Results.InsertSortedDesc | src/app/api/analyze/route.ts:143 | one insertion step keeps the list ordered by descending score |
| Results.InsertStable | src/app/api/analyze/route.ts:143 | one insertion step puts the new row after all earlier rows of the same score |
| Results.SortDescCorrect | src/app/api/analyze/route.ts:143 | the sort result is ordered by descending score, is a permutation, and keeps the relative order of equal scores |
| Results.InsertLast | src/app/api/analyze/route.ts:143 | one in-place insertion pass over the array |
| Results.SortByScore | src/app/api/analyze/route.ts:143 | the in-place array sort leaves the stable descending order |
| Results.RankedFrom | src/app/api/analyze/route.ts:140-143 | the final list holds only pushed rows |
| Results.RankedUnique | src/app/api/analyze/route.ts:140-143 | the final list is ordered by descending score and unique by keyword |
| AnalyzeRoute.Post | src/app/api/analyze/route.ts:71-150 | the handler answers `Handle` and makes exactly the calls `HandleCalls` lists |
| AnalyzeRoute.HandleStatus | src/app/api/analyze/route.ts:72-78 | a 500 is sent exactly for an unreadable body and a 400 exactly for an empty list; neither makes a call; a result costs one call per seed plus one per chunk |
| AnalyzeRoute.HandleEmpty | src/app/api/analyze/route.ts:74-78 | a missing or empty list gets the 400 message without any fetching |
| AnalyzeRoute.PipelineRanked | src/app/api/analyze/route.ts:140-145 | the returned list is ordered by descending score and unique by keyword |
| AnalyzeRoute.PipelineRowEnriched | src/app/api/analyze/route.ts:140-143 | every returned row was pushed by the chunk loop |
| AnalyzeRoute.PipelineRowOrigin | src/app/api/analyze/route.ts:83-131 | every returned row comes from a metrics record of a requested chunk that matches a seed's suggestion; it carries that suggestion's best rank and the score of its own volume, competition and rank |
| Text.TrimStartShape | app/page.tsx:71 | `trimStart` removes exactly the leading whitespace |
| Text.TrimEndShape | app/page.tsx:71 | `trimEnd` removes exactly the trailing whitespace |
| Text.TrimShape | app/page.tsx:71 | `trim` removes exactly the surrounding whitespace and leaves none at either end |
| Text.TrimEmpty | app/page.tsx:77 | `trim` gives the empty string exactly for whitespace-only input |
| Text.Split | app/page.tsx:71 | `split` yields at least one piece, and no piece holds a separator |
| Text.SplitAtSeparator | app/page.tsx:71 | splitting at a separator gives the left pieces followed by the right pieces |
| Text.SplitJoin | src/app/api/analyze/route.ts:49 | for a non-empty list, provided no part contains the separator, splitting the joined list on the separator gives the list back |
| Client.NonEmpty | app/page.tsx:71 | `filter(k => k)` keeps only non-empty pieces of the list |
| Client.KeywordsShape | app/page.tsx:71 | every keyword is non-empty, trimmed and free of `,` and newlines |
| Client.KeywordsConcat | app/page.tsx:71 | the keywords keep input order: those before a separator, then those after it |
| Client.KeywordsSingle | app/page.tsx:71 | a piece without separators gives its trimmed self, or nothing when it is blank |
| Client.KeywordsNone | app/page.tsx:71 | input made only of whitespace and separators gives no keywords |
| Client.KeywordsBlank | app/page.tsx:77 | blank input gives no keywords |
| Client.RotateMessages | app/page.tsx:87-92 | `msgIndex` stays below the number of messages: after t ticks it is t mod 6, and the messages shown cycle through the list |
| Client.RouteReplyAlert | app/page.tsx:101-106 | for the route's replies an alert is raised exactly when no result came back, and it shows the route's message |
| Page.Home.constructor | app/page.tsx:54-57 | the initial state of the page |
| Page.Home.SetInput | app/page.tsx:144 | typing changes only the input |
| Page.Home.HandleAnalyze | app/page.tsx:75-113 | blank input does nothing; over the limit only the limit alert is raised; otherwise the request carries the parsed keywords, and afterwards the page is idle, shows the reply's rows and shows the message the rotation reached |
| Page.Home.Settle | app/page.tsx:101-112 | a `result` is shown, an `error` is alerted, a failure raises the fixed alert, and loading ends in every case |
| Page.OverLimitStays | app/page.tsx:72-73 | adding more text after a separator never lifts the limit |
| Page.EnabledPassesGuards | app/page.tsx:160 | an enabled button implies the click passes both guards and sends one to three keywords |
| Page.EnabledRequestAccepted | app/page.tsx:160 | keywords sent from an enabled button are never refused with the 400 answer |
| Page.RankBadgeMatchesBonus | app/page.tsx:194-200 | SEED is shown exactly for rank 0, and a rank is highlighted or SEED exactly when the score gives it a rank bonus |
| Page.SeedBadgeIsSeed | app/page.tsx:194-195 | a result row with the SEED badge is, up to spacing and case, one of the seeds |
| Page.CompetitionBadgeVsFactor | app/page.tsx:205-211 | low and mid badges agree with the score's factor; the high badge also covers unrecognised labels, which score as uncontested |
| Page.ScoreTierMonotone | app/page.tsx:216-217 | a higher score never gets a lower colour tier |
| Page.RankedTiers | app/page.tsx:213-217 | down a score-ranked list the colour tiers never rise |
| LegacyPage.Home.constructor | src/app/page.tsx:53-58 | the initial state of the older page |
| LegacyPage.Home.SetInput | src/app/page.tsx:128 | typing changes only the input |
| LegacyPage.Home.HandleAnalyze | src/app/page.tsx:69-104 | blank input does nothing; otherwise every parsed keyword is sent, with no limit, and afterwards the page is idle, shows the reply's rows and shows the message the rotation reached |
| LegacyPage.Home.Settle | src/app/page.tsx:92-103 | a `result` is shown, an `error` is alerted, a failure raises the fixed alert, and loading ends in every case |
| LegacyPage.SendsBeyondLimit | src/app/page.tsx:70-132 | input of more than three keywords is blocked by the current page (over the limit, button disabled) but passes the older page's blank guard with its button enabled, so the older page's `HandleAnalyze` sends all of it |
| LegacyPage.SeparatorsOnlyRejected | src/app/page.tsx:70 | separator-only input such as ",," passes the blank guard and sends an empty list, which the route answers with its 400 message |
| Text.Contains | proxy.ts:29 | `includes` holds exactly when the text occurs at some position |
| Proxy.Decide | proxy.ts:21-36 | a redirect goes to the fixed destination, and happens exactly for the root path without a referer naming the allowed origin |
| Proxy.VipPasses | proxy.ts:21-24 | every `/vip` path passes, whatever the referer |
| Proxy.RootWithoutReferer | proxy.ts:27-31 | the root path without a referer is redirected |
| Proxy.RootForeignReferer | proxy.ts:29-31 | the root path with a referer that never mentions the allowed origin is redirected |
| Proxy.RootAllowedReferer | proxy.ts:29-36 | the root path passes when the allowed origin occurs anywhere in the referer |
| Proxy.OtherPathsPass | proxy.ts:36 | every path other than the root passes |

## Left out

- The HTTP requests to Google and Naver are left out: their URLs, query parameters and headers, and the `axios` error types (src/app/api/analyze/route.ts:30-33, 50-62). They are external I/O, so each service is a function parameter and a failed request is `None`.
- The HMAC-SHA256 request signature and its base64 digest are left out (src/app/api/analyze/route.ts:19-25), because they are library cryptography. The header timestamp and the signed timestamp come from two separate `Date.now()` calls and may differ; that clock behaviour is not modelled.
- The `delay(100)` pauses, the timers, `async`/`await` and console logging are left out. They are timing and I/O, and the model keeps only the order of the calls.
- Scoring.Score: `Math.log10` is an abstract monotone function and the factors are exact reals, so the model does not reproduce IEEE double values. The score properties are ordering facts that hold under this abstraction.
- Text.ToLower: only the ASCII letters A–Z are lowered, not the full Unicode case mapping of `toLowerCase`. Korean, which the service targets, has no case.
- Runtime type errors other than an unreadable request body are left out. For example, a seed that is not a string would make `normalize` throw and produce a 500. The model's types rule such inputs out, so the only 500 path is `Malformed`.
- Metrics.Volume: counts are whole numbers. A fractional count from the service is not represented.
- A suggestion reply without its list (`data[1] || []`) is not distinguished: the service parameter then answers `Some([])`, which gives the same tagged list.
- The JSX rendering, CSS classes, animations, `toLocaleString` and the text of the counter and warning labels are left out. So are `alert`'s UI effects: the model returns the alert text instead.
- In the page handlers, `loading` is true and the list is cleared while the request is in flight. The model states only the state after the reply is handled, plus the messages the rotation shows.
- app/layout.tsx and next.config.ts are not part of this model. They hold metadata, fonts, the layout wrapper and a static CORS header table, with no logic.
- The `config.matcher` pattern of proxy.ts:6 is left out, because the Next.js router applies it before the gate runs. The gate is modelled for every path it receives.
