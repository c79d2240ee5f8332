# EntrePrepare AI back end, modelled in Dafny

EntrePrepare is a planning aid for small-business founders. A serverless
endpoint (`api/ai.js`) asks a hosted language model for business ideas,
solutions to a problem, milestone breakdowns, search results and financial
plans. It coerces whatever the model answers into bounded shapes, and when
the model fails it falls back to deterministic heuristics. A Firebase
callable (`functions/index.js`) activates licence keys and extracts preview
text from web pages. A Cloudflare Worker (`cloudflare_worker/ai_worker.js`)
is a smaller copy of the ideas, solutions and milestone pipeline.

This project models that core and proves what the code promises: caps,
trimming, order, clamping, first-index searches, precedence, round trips
through JSON, and the state changes of the rate-limit table and the licence
records.

Modules, one per concern:

| module | file | models |
|---|---|---|
| `Strings` | strings.dfy | `trim`, ASCII case mapping, `indexOf`, `includes`, `slice`, `replace(/…/g)` |
| `Json` | json.dfy | JSON values, truthiness, `String(v)`, `parseInt`, `Number` |
| `Limits` | limits.dfy | `sanitizeLimit` |
| `Lists` | lists.dfy | the `map(String).trim().filter(Boolean)` chains |
| `Normalize` | normalize.dfy | `normalizeIdeas`, `normalizeSolutions`, `normalizeMilestone` |
| `Search` | search.dfy | `normalizeSearch`, including its stable sort |
| `Plan` | plan.dfy | `normalizePlan` |
| `Projection` | projection.dfy | `addPlanDerived`, with its loops as methods |
| `Salvage` | salvage.dfy | `truncate`, `safeParse`, `enhancedParse` |
| `Fallbacks` | fallbacks.dfy | the four heuristic fallbacks, `composeIdea`, `capitalize` |
| `RateLimit` | rate_limit.dfy | `pruneRateBuckets` and `incrementRate` on a class holding the bucket map |
| `Orchestration` | orchestration.dfy | type detection, `forcedOrigin`, `callGroqWithRetry`, the model-candidate chain, the one-shot repair |
| `License` | license.dfy | `activateLicense` as a record transition and as a class over the records and the audit log |
| `Preview` | preview.dfy | `makeSample`, `stripHtml`, `normalizeSpaces`, `decodeEntities`, `extractPreview` |
| `Worker` | worker.dfy | the Worker's `fetch`, `runModel`, its three handlers and `fallbackParseSolutions` |

Modelling choices:

- `JSON.parse` is a parameter `parse: string -> Option<Json>` that the model never looks inside.
- The model's replies, the clock (`Date.now()`, `new Date()`), the caller's identity and the upstream HTTP responses are parameters too.
- JSON `null` and a missing property are the same value `JNull`: the core treats them alike everywhere.
- Reading a property of a `null` array element, or calling `trim` on a value that is not a string, throws in the source. That is the `TypeError` case of a `Result` here.
- Amounts of money are exact reals. `+(x).toFixed(2)` is `Projection.Round2`: rounding to cents, half away from zero.

## Model

| member | source | states |
|---|---|---|
| `Strings.Trim` | api/ai.js:644 | `trim` gives a string with no white-space ends, no longer than its input |
| `Strings.TrimIsInfix` | api/ai.js:644 | `trim` removes white space from the two ends and nothing else |
| `Strings.TrimIdempotent` | api/ai.js:644 | trimming twice is trimming once |
| `Strings.IndexOf` | api/ai.js:590 | `indexOf(c)` is the first index holding `c`, or -1 when there is none |
| `Strings.LastIndexOf` | api/ai.js:591 | `lastIndexOf(c)` is the last index holding `c`, or -1 when there is none |
| `Strings.IndexOfSub` | functions/index.js:228 | `indexOf(p)` is the first index where `p` starts, or -1 when `p` occurs nowhere |
| `Strings.Includes` | api/ai.js:825 | `includes(p)` holds exactly when `p` occurs in the string |
| `Strings.Take` | api/ai.js:644 | `slice(0, n)` is the prefix of length `min(n, len)` |
| `Strings.ReplaceAllShrinks` | functions/index.js:293-301 | replacing every match by text no longer than the pattern never lengthens the string |
| `Strings.ReplaceAll` | functions/index.js:293-301 | replacing a pattern by itself leaves the text alone |
| `Json.StrOr` | api/ai.js:650 | `String(v \|\| '')` is empty for every falsy value and the text itself for a string |
| `Json.DigitsRoundTrip` | api/ai.js:834 | the decimal digits of `n` read back as `n` |
| `Json.ParseIntOfInt` | api/ai.js:834 | `parseInt(String(k), 10)` is `k` for every integer `k` |
| `Json.ParseIntOrZeroOfInt` | api/ai.js:681 | `parseInt(k \|\| 0, 10)` is `k` for every integer `k`, zero included |
| `Limits.SanitizeParsed` | api/ai.js:833-838 | the result is at most `max`; NaN and non-positive values give `min(def, max)`; values in `1..max` are kept; larger ones give `max` |
| `Limits.SanitizeLimit` | api/ai.js:833-838 | the result is at most `max`, and at least 1 when `def` and `max` are |
| `Limits.SanitizeInt` | api/ai.js:833-838 | on an integer, a value in `1..max` is kept and every result is within the bounds |
| `Limits.SanitizeIntIsSanitizeLimit` | api/ai.js:833-838 | `SanitizeInt` agrees with `sanitizeLimit` applied to the number |
| `Limits.SanitizeLimitIdempotent` | api/ai.js:833-838 | sanitising an already sanitised limit changes nothing |
| `Limits.SanitizeLimitOfInRange` | api/ai.js:833-838 | every positive integer up to the cap passes through unchanged |
| `Lists.KeepNonEmpty` | api/ai.js:644 | `.filter(Boolean)` keeps non-empty members of its input only |
| `Lists.KeepNonEmptyMembers` | api/ai.js:644 | a string survives `.filter(Boolean)` exactly when it is in the input and non-empty |
| `Lists.KeepNonEmptyAppend` | api/ai.js:644 | the filter distributes over concatenation, so input order is kept |
| `Lists.Clean` | api/ai.js:644 | trimming and filtering gives a clean list no longer than the input |
| `Lists.CleanMembers` | api/ai.js:644 | the cleaned list holds exactly the non-empty trimmed entries |
| `Lists.CleanIdempotent` | api/ai.js:644 | cleaning twice is cleaning once |
| `Lists.CleanOfClean` | api/ai.js:644 | a clean list is its own cleaning |
| `Lists.CleanStrings` | api/ai.js:644 | `map(x => String(x).trim()).filter(Boolean)` yields a clean list no longer than its input |
| `Lists.CleanStringsOr` | api/ai.js:678 | the same for `String(x \|\| '')` |
| `Lists.CleanStringsOfPayload` | api/ai.js:659 | a clean list survives the trip through a JSON array of strings and back |
| `Lists.TakeClean` | api/ai.js:644 | a prefix of a clean list is clean |
| `Lists.JoinEndsWithLast` | api/ai.js:827 | a joined list ends with its last entry |
| `Normalize.NormalizeIdeas` | api/ai.js:640-645 | at most `sanitizeLimit(limit)` ≤ 12 ideas, trimmed and non-empty, a prefix of the cleaned input in its order |
| `Normalize.NormalizeIdeasIdempotent` | api/ai.js:640-645 | normalising the normaliser's own output under the same limit gives it back |
| `Normalize.SolutionOf` | api/ai.js:649-652 | each mapped solution has a trimmed title and rationale and at most 8 clean steps |
| `Normalize.KeepSolutions` | api/ai.js:653 | the kept solutions have a title and a step and are members of the input |
| `Normalize.KeepSolutionsMembers` | api/ai.js:653 | a solution survives exactly when it is in the input and has a title and a step |
| `Normalize.KeepSolutionsAppend` | api/ai.js:653 | the filter distributes over concatenation, so input order is kept |
| `Normalize.ShapeSolutions` | api/ai.js:647-654 | it fails exactly when an element is `null`; otherwise every kept solution has a title and 1 to 8 clean steps |
| `Normalize.ShapeSolutionsMembers` | api/ai.js:647-654 | a solution is kept exactly when it is the mapped form of some input element and has a title and a step |
| `Normalize.ShapeSolutionsAppend` | api/ai.js:647-654 | shaping distributes over concatenation, so the kept solutions are in input order |
| `Normalize.NormalizeSolutions` | api/ai.js:647-654 | the same for the reply object's `solutions` array |
| `Normalize.SolutionOfJson` | api/ai.js:649-652 | a valid solution read back from its JSON form is itself |
| `Normalize.KeepValidSolutions` | api/ai.js:653 | the filter keeps every valid solution |
| `Normalize.NormalizeSolutionsRoundTrip` | api/ai.js:647-654 | valid solutions survive JSON and the normaliser unchanged |
| `Normalize.NormalizeMilestone` | api/ai.js:656-661 | a trimmed definition and a prefix of at most seven of the cleaned steps |
| `Normalize.NormalizeMilestoneRoundTrip` | api/ai.js:656-661 | a normalised milestone survives JSON and the normaliser unchanged |
| `Search.Clamp` | api/ai.js:669 | `Math.max(0, Math.min(100, v))` is in `[0, 100]`, and is `v` when `v` already is |
| `Search.RowOf` | api/ai.js:667-669 | the title is the trimmed title cut to its first `min(120, len)` characters, the snippet the trimmed snippet cut to `min(320, len)`, the relevance `parseInt(r.relevance \|\| 0, 10)` |
| `Search.Clip` | api/ai.js:667 | `String(x \|\| '').trim().slice(0, n)` is the first `min(n, len)` characters of the trimmed text |
| `Search.Candidates` | api/ai.js:666-670 | the kept rows are non-empty, bounded and of clamped relevance, no more than the input |
| `Search.CandidateOf` | api/ai.js:666-669 | a kept row becomes a valid result with its title, snippet and clamped relevance |
| `Search.CandidatesMembers` | api/ai.js:666-670 | a result is a candidate exactly when it is the clamped form of some row with a title and a snippet |
| `Search.CandidatesAppend` | api/ai.js:670 | the filter distributes over concatenation, so candidates keep the rows' order |
| `Search.SortByRelevance` | api/ai.js:670 | the sort is a permutation of its input |
| `Search.SortSorted` | api/ai.js:670 | the sort orders by non-increasing relevance |
| `Search.SortStable` | api/ai.js:670 | equally relevant results keep their input order, as `Array.prototype.sort` guarantees |
| `Search.SortOfSorted` | api/ai.js:670 | results already in non-increasing relevance are not reordered |
| `Search.NormalizeSearch` | api/ai.js:663-671 | it fails exactly when a row is `null`; otherwise the result is the candidates ranked and cut to `sanitizeLimit(limit, 8, 12)`, so at most that many valid results, sorted by non-increasing relevance |
| `Search.Rank` | api/ai.js:670 | sort then slice gives `min(n, len)` sorted results drawn from the candidates |
| `Search.NormalizeSearchTopK` | api/ai.js:663-671 | no dropped candidate is more relevant than a returned result |
| `Search.RowOfResultJson` | api/ai.js:667-669 | a clean result read back from its JSON row is itself |
| `Search.NormalizeSearchRoundTrip` | api/ai.js:663-671 | clean, sorted results within the limit survive JSON and `normalizeSearch` unchanged |
| `Plan.Num` | api/ai.js:675-677 | a number is read as itself and a falsy value as 0 |
| `Plan.Text` | api/ai.js:692 | the first `min(max, len)` characters of the trimmed text, which start with no white space |
| `Plan.StringList` | api/ai.js:678 | the first `min(max, len)` entries of the cleaned list |
| `Plan.KeepItems` | api/ai.js:683 | every kept inventory row has a name and a positive quantity |
| `Plan.KeepItemsMembers` | api/ai.js:683 | an inventory row is kept exactly when it comes from an input row with a name and a positive quantity |
| `Plan.KeepItemsAppend` | api/ai.js:683 | the filter distributes over concatenation, so row order is kept |
| `Plan.NormalizeItems` | api/ai.js:679-683 | it fails exactly when a row is `null`; otherwise the first six rows, in input order, that keep a name and a positive quantity after the row map, all valid |
| `Plan.KeepExpenses` | api/ai.js:687 | every kept expense has a name and a cost that is not negative |
| `Plan.KeepExpensesMembers` | api/ai.js:687 | an expense is kept exactly when it is in the input with a name and a cost that is not negative |
| `Plan.KeepExpensesAppend` | api/ai.js:687 | the filter distributes over concatenation, so row order is kept |
| `Plan.NormalizeExpenses` | api/ai.js:684-687 | it fails exactly when a row is `null`; otherwise the first eight rows, in input order, that keep a name and a cost that is not negative after the row map, all valid |
| `Plan.NormalizeSales` | api/ai.js:698-702 | the units are the integer parse of `estMonthlyUnits`, the assumptions are the string list of `assumptions` cut to six (clean), the growth is `num(growthPctMonth)` |
| `Plan.NormalizePlan` | api/ai.js:673-713 | a non-object gives `null`; an object fails exactly on a `null` inventory or expense row, and otherwise gives a plan within every bound whose every field is the normaliser of the field of the same name (title cut to 120, summary to 240, milestones to 8, innovations to 6) |
| `Plan.NormalizeItemsRoundTrip` | api/ai.js:679-683 | valid inventory rows survive JSON and `items(a, 6)` |
| `Plan.NormalizeExpensesRoundTrip` | api/ai.js:684-687 | valid expense rows survive JSON and `expenses(a, 8)` |
| `Plan.NormalizePlanRoundTrip` | api/ai.js:673-713 | a plan within the bounds survives JSON and `normalizePlan` unchanged |
| `Projection.Round2` | api/ai.js:743-747 | `+(x).toFixed(2)` is a whole number of cents within half a cent of `x` |
| `Projection.Round2OfCents` | api/ai.js:743-747 | an amount already in cents is left alone |
| `Projection.Round2Idempotent` | api/ai.js:747 | rounding twice is rounding once |
| `Projection.ClampGrowth` | api/ai.js:724 | growth is clamped to `[0, 300]` and kept when inside |
| `Projection.InputsOf` | api/ai.js:719-733 | the growth the projection uses is within `[0, 300]` |
| `Projection.InventoryWarnings` | api/ai.js:727-730 | at most one warning per inventory row |
| `Projection.ExpenseWarnings` | api/ai.js:731-733 | at most one warning per expense row |
| `Projection.InventoryWarningsMembers` | api/ai.js:729 | the inventory warning appears exactly when some row has a negative cost |
| `Projection.ExpenseWarningsMembers` | api/ai.js:733 | the expense warning appears exactly when some row has a negative cost |
| `Projection.WarningsMembers` | api/ai.js:718-734 | each of the five warnings appears exactly when its check fails |
| `Projection.NoExpenseWarningOnValidPlan` | api/ai.js:687 | a normalised plan never draws the negative-expense warning |
| `Projection.ExtendStep` | api/ai.js:742-753 | one pass of the loop extends the four series by the next month's figures |
| `Projection.SeriesMonths` | api/ai.js:742-754 | the series after `n` months holds the figures of every month |
| `Projection.BreakevenStep` | api/ai.js:752 | the test on each running total keeps the first non-negative index |
| `Projection.BreakevenMonthOfIndex` | api/ai.js:755 | `breakevenIdx + 1`, or `null`, is the first month whose cumulative net profit is not negative |
| `Projection.BreakevenMonthUnique` | api/ai.js:752-755 | a series has at most one breakeven month |
| `Projection.UnitsNonDecreasing` | api/ai.js:753 | with non-negative units, growth never lowers the units sold |
| `Projection.ProjectMonths` | api/ai.js:735-754 | six months of revenue, gross, net and cumulative figures, `cumulative[i] = round2(cumulative[i-1] + net[i])` from 0, and the first non-negative index |
| `Projection.SumUnitCosts` | api/ai.js:727-730 | the `reduce` sums the unit costs and warns once per negative one |
| `Projection.SumMonthlyCosts` | api/ai.js:731-733 | the loop sums the monthly costs and warns once per negative one |
| `Projection.CheckAndSum` | api/ai.js:718-734 | the warnings in the order the checks run, and the projection's inputs |
| `Projection.AddPlanDerived` | api/ai.js:716-765 | plan version 4, the warnings, six months of every series, and the breakeven month |
| `Salvage.Truncate` | api/ai.js:628 | the string itself when short enough, else its first `n` characters and `…` |
| `Salvage.TruncateBound` | api/ai.js:628 | the result is at most one character over the bound |
| `Salvage.StripJsonFences` | api/ai.js:586 | stripping fences never lengthens the text |
| `Salvage.StripJsonFencesPlain` | api/ai.js:586 | text without a backtick has no fence to strip |
| `Salvage.CleanReply` | api/ai.js:584-586 | the text parsed is trimmed |
| `Salvage.CleanReplyOfPlain` | api/ai.js:584-586 | a trimmed reply without a backtick is parsed as it is |
| `Salvage.SafeParse` | api/ai.js:630-638 | a text that parses is returned as parsed; any other value returned is the parse of the suffix from the first `{` |
| `Salvage.EnhancedParse` | api/ai.js:582-598 | an empty reply gives `null` |
| `Salvage.ParseCleaned` | api/ai.js:587-597 | a result is truthy and the parse of some slice of the cleaned text |
| `Salvage.EnhancedParseDirect` | api/ai.js:587-588 | a cleaned reply that parses to a truthy value is returned as parsed |
| `Salvage.EnhancedParsePlain` | api/ai.js:582-588 | a bare JSON reply is read as it is |
| `Salvage.ParseCleanedSalvage` | api/ai.js:590-595 | when the whole text fails, the slice from the first `{` to the last `}` is tried |
| `Salvage.EnhancedParseNothing` | api/ai.js:582-598 | a reply with no parsable slice gives `null` |
| `Fallbacks.Capitalize` | api/ai.js:830 | the first character upper-cased and the rest unchanged |
| `Fallbacks.KeepAbsent` | api/ai.js:824-825 | the qualifiers kept are those the lower-cased seed does not already contain |
| `Fallbacks.KeepAbsentMembers` | api/ai.js:824-825 | a qualifier is kept exactly when it is in the input and the lower-cased seed does not contain it |
| `Fallbacks.KeepAbsentAppend` | api/ai.js:824-825 | the filter distributes over concatenation, so qualifier order is kept |
| `Fallbacks.ComposeIdea` | api/ai.js:817-828 | an empty topic gives the seed; otherwise the idea ends with the seed |
| `Fallbacks.Dedup` | api/ai.js:807-812 | `Array.from(new Set(xs))` has distinct entries and is no longer than the input |
| `Fallbacks.DedupMembers` | api/ai.js:807-812 | the set holds exactly the entries seen |
| `Fallbacks.DedupStep` | api/ai.js:810 | adding an entry appends it unless the set already holds it |
| `Fallbacks.DedupPrefix` | api/ai.js:808-811 | stopping the loop early gives a prefix of the full set |
| `Fallbacks.IdeasLimit` | api/ai.js:791 | the ideas limit is in `[1, 12]` |
| `Fallbacks.HeuristicIdeasFallback` | api/ai.js:789-815 | the first `sanitizeLimit(limit)` distinct composed ideas: never empty, pairwise distinct |
| `Fallbacks.CollectIdeas` | api/ai.js:807-814 | the Set loop collects the first `n` distinct ideas of the seeds, at least one |
| `Fallbacks.StockSolutionsValid` | api/ai.js:856-908 | the five stock solutions all have the shape `normalizeSolutions` keeps |
| `Fallbacks.SolutionsLimit` | api/ai.js:853 | the solutions limit is in `[1, 5]` |
| `Fallbacks.SolutionsLimitDefault` | api/ai.js:853 | the `\|\| 3` changes nothing: a falsy limit already sanitises to 3 |
| `Fallbacks.TrimOr` | api/ai.js:854-855 | `(x \|\| def).trim()` throws exactly on a truthy value that is not a string, and otherwise gives the trimmed text or default |
| `Fallbacks.HeuristicSolutionsFallback` | api/ai.js:852-910 | a `TypeError` exactly when the activity or the problem is truthy but not a string; otherwise the first `limit` stock solutions, one to five, all valid |
| `Fallbacks.SolutionsFallbackNormal` | api/ai.js:852-910 | the fallback's solutions, when it does not throw, pass through `normalizeSolutions` unchanged |
| `Fallbacks.MilestoneTopic` | api/ai.js:914 | `(title \|\| 'Core Milestone').trim()`: the default for a falsy title, the trimmed text of a string, a `TypeError` for any other title |
| `Fallbacks.HeuristicMilestoneFallback` | api/ai.js:913-925 | a `TypeError` exactly when the topic throws; otherwise the definition is the prefixed topic cut to 120 characters, and the five stock steps |
| `Fallbacks.StockMilestoneStepsClean` | api/ai.js:917-923 | the stock steps are five clean entries |
| `Fallbacks.MilestoneFallbackNormal` | api/ai.js:913-925 | the fallback milestone, when it does not throw, passes through `normalizeMilestone` unchanged |
| `Fallbacks.SearchBasesRanked` | api/ai.js:930-941 | ten stock results whose relevance never rises, within `[68, 96]` |
| `Fallbacks.SplitSpaceJoin` | api/ai.js:942 | splitting at white space loses nothing: joining with spaces gives the text back |
| `Fallbacks.LongWords` | api/ai.js:942 | the kept words are input words longer than three characters |
| `Fallbacks.LongWordsMembers` | api/ai.js:942 | a word is kept exactly when it is an input word longer than three characters |
| `Fallbacks.LongWordsAppend` | api/ai.js:942 | the filter distributes over concatenation, so word order is kept |
| `Fallbacks.SearchTokens` | api/ai.js:942 | at most two tokens, each a word longer than three characters |
| `Fallbacks.ResultAt` | api/ai.js:943-947 | result `i` has relevance `r - i`; with tokens its title is token `i mod n` capitalised, a space and the stock title, and its snippet is the stock snippet followed by ` Focus: `, the tokens joined by `, ` and a full stop; with none both texts are the stock ones |
| `Fallbacks.SearchFallbackOf` | api/ai.js:943-947 | `min(n, 10)` results, each built from its stock row |
| `Fallbacks.SearchFallbackRanked` | api/ai.js:943-947 | the results have strictly falling relevance, within the stock bounds less one per position |
| `Fallbacks.SearchFallbackPrefix` | api/ai.js:943 | a smaller limit gives a prefix of the same results |
| `Fallbacks.HeuristicSearchFallbackRanked` | api/ai.js:927-949 | `min(sanitizeLimit(limit, 8, 12), 10)` results, of strictly falling relevance within `[59, 96]` |
| `Fallbacks.HeuristicSearchFallback` | api/ai.js:927-949 | never more results than `sanitizeLimit(limit, 8, 12)`; the results are the first that many stock bases, each dressed by `ResultAt` with the query's tokens |
| `RateLimit.Live` | api/ai.js:773-777 | exactly the entries whose window is not stale survive, unchanged |
| `RateLimit.Bump` | api/ai.js:778-786 | a new window with count 1 when absent or stale, else one more in the window; other entries unchanged |
| `RateLimit.LiveIdempotent` | api/ai.js:773-777 | pruning twice at the same time drops nothing more |
| `RateLimit.LiveMonotone` | api/ai.js:773-777 | an entry that survives a later prune survives an earlier one |
| `RateLimit.BumpCounted` | api/ai.js:778-786 | every count stays positive |
| `RateLimit.ReplayCounts` | api/ai.js:41-44 | the `k`-th request in one window sees count `k` |
| `RateLimit.RateTable.Prune` | api/ai.js:773-777 | the map after the loop is the live part of the map before it |
| `RateLimit.RateTable.Increment` | api/ai.js:778-786 | the map is bumped and the new count returned |
| `RateLimit.RateTable.Admit` | api/ai.js:40-47 | prune, count, and refuse with 429 exactly when the count exceeds the limit |
| `Orchestration.DetectType` | api/ai.js:81-86 | an explicit type wins, lower-cased; else solutions, then milestone, then ideas |
| `Orchestration.DetectTypeExplicit` | api/ai.js:81-86 | with an explicit type the other fields do not matter |
| `Orchestration.ForcedOrigin` | api/ai.js:620-625 | forced > fallback > repaired > model, each exactly when the earlier ones are off |
| `Orchestration.OriginTagInjective` | api/ai.js:620-625 | the four tags are distinct |
| `Orchestration.Backoff` | api/ai.js:577 | every delay is between 200 and 1200 ms |
| `Orchestration.BackoffSchedule` | api/ai.js:577 | the delay is 200, 400, 800, then 1200 ms from the fourth attempt on |
| `Orchestration.ContentOr` | api/ai.js:567 | the content returned is never empty |
| `Orchestration.CallGroqWithRetry` | api/ai.js:555-580 | the loop's outcome is the retry schedule's outcome |
| `Orchestration.RetryFrom` | api/ai.js:555-580 | the attempts made stay within `maxAttempts`, and served content is never empty |
| `Orchestration.RetryFromShape` | api/ai.js:555-580 | at most `maxAttempts` calls; success returns the content; failure comes after the last attempt or a non-retryable status, with a delay after every retryable failure |
| `Orchestration.DefaultRetryWaits` | api/ai.js:555-580 | with three attempts the handler waits at most 1400 ms in all |
| `Orchestration.FallbackModels` | api/ai.js:116-121 | the configured model, when set, first, then the three built-in ones |
| `Orchestration.ModelChain` | api/ai.js:128-160 | the loop's outcome is the chain's outcome |
| `Orchestration.RunChain` | api/ai.js:128-160 | the same for any decommission test |
| `Orchestration.ChainFromShape` | api/ai.js:128-160 | candidates are tried in order; a decommissioned one moves on, any other error stops, a success stops |
| `Orchestration.ChainFrom` | api/ai.js:128-160 | no more candidates are tried than remain, and at least one when any remains |
| `Orchestration.RepairGuard.AttemptRepair` | api/ai.js:178-195 | a second call does nothing; the first sets `repaired` and asks the model exactly when the schema has a repair instruction; a served reply replaces the content and reports its parse, a `groq_failed` escapes with content and parse unchanged |
| `Orchestration.RepairTwice` | api/ai.js:178-195 | however often it is called, the repair asks the model at most once |
| `License.NormalizeKey` | functions/index.js:40 | the key is the trimmed text, upper-cased |
| `License.BlankKeyRefused` | functions/index.js:40-43 | a blank key is refused with `invalid-argument` and nothing changes |
| `License.KeyNormalised` | functions/index.js:40 | keys differing only in surrounding white space name the same licence |
| `License.KeyCaseInsensitive` | functions/index.js:40 | lower-case letters in a key do not matter |
| `License.RefusedChangesNothing` | functions/index.js:41-70 | a refused call leaves the records and the log as they were |
| `License.ExpiredRefused` | functions/index.js:63-65 | an expired licence is refused with `failed-precondition` |
| `License.OneTimeConsumed` | functions/index.js:68-87 | granting a one-time licence marks it inactive and activated by the caller, and every later activation is refused |
| `License.ReusableCounted` | functions/index.js:89-105 | a reusable licence's counter rises by one, the new count is returned, other licences are unchanged |
| `License.GrantLogged` | functions/index.js:79-86 | every grant appends exactly one audit entry for the key and the caller |
| `License.LicenseDb.ActivateLicense` | functions/index.js:39-109 | the transaction's reply, records and log are those of the transition, with `deviceInfo \|\| null` as the device |
| `License.LicenseDb.ActivateKey` | functions/index.js:55-107 | the same once the key is normalised |
| `License.Activate` | functions/index.js:39-109 | granted exactly for a non-blank key of a signed-in caller naming a licence that is neither expired nor a used one-time key; a refusal changes nothing; a grant keeps the key set, leaves other licences alone and appends one log entry |
| `Preview.HeadEnd` | functions/index.js:227-228 | the position of `</head>` in the page, or -1 |
| `Preview.MakeSample` | functions/index.js:226-237 | a prefix of the page exactly `min(len, headEnd + 7 + 50000)` long when `</head>` occurs, else `min(len, 150000)` |
| `Preview.MakeSampleShort` | functions/index.js:226-237 | a short page is kept whole |
| `Preview.MakeSampleKeepsHead` | functions/index.js:231-233 | the sample keeps `</head>` where the page has it |
| `Preview.StripHtml` | functions/index.js:291 | stripping tags never lengthens the text |
| `Preview.StripHtmlNoTags` | functions/index.js:291 | text without a tag is left alone |
| `Preview.StripHtmlTag` | functions/index.js:291 | a tag becomes exactly one space |
| `Preview.StripHtmlLeavesNoTags` | functions/index.js:291 | no tag is left |
| `Preview.StripHtmlIdempotent` | functions/index.js:291 | stripping twice is stripping once |
| `Preview.NormalizeSpacesSingle` | functions/index.js:292 | the result has plain single spaces only |
| `Preview.NormalizeSpacesFixed` | functions/index.js:292 | single-spaced text is left alone |
| `Preview.NormalizeSpacesIdempotent` | functions/index.js:292 | normalising twice is normalising once |
| `Preview.NormalizeSpaces` | functions/index.js:292 | the text never grows, and is empty exactly when its input is |
| `Preview.DecodeEntities` | functions/index.js:293-301 | decoding never lengthens the text |
| `Preview.DecodeEntitiesPlain` | functions/index.js:293-301 | text without `&` is left alone |
| `Preview.DecodeEntitiesTwice` | functions/index.js:293-301 | `&amp;` is decoded before `&lt;`, so `&amp;lt;` becomes `<` |
| `Preview.CleanShape` | functions/index.js:256 | cleaned text is trimmed and single-spaced |
| `Preview.FirstKeptIsFirst` | functions/index.js:258-268 | a paragraph pass picks the first paragraph it accepts |
| `Preview.FirstKeptNone` | functions/index.js:258-268 | a pass that accepts nothing finds nothing |
| `Preview.FirstKeptAllEmpty` | functions/index.js:258-268 | when every paragraph cleans to nothing, no pass finds one |
| `Preview.FirstTruthy` | functions/index.js:240-243 | the first of the four meta lookups that is not empty |
| `Preview.SentenceEndFrom` | functions/index.js:273 | the first match of `/[.!?]\s/`, or -1 |
| `Preview.CutLength` | functions/index.js:273-278 | a sentence end at 60 or later cuts just after it; else text over 220 characters becomes its first 220 characters trimmed, followed by `…` |
| `Preview.CutShort` | functions/index.js:273-278 | short text without a late sentence end is not cut |
| `Preview.Cut` | functions/index.js:273-278 | the cut text is no longer than its input |
| `Preview.MetaWins` | functions/index.js:240-252 | a meta description decides, whatever the rest of the page holds |
| `Preview.LdWins` | functions/index.js:244-251 | without a meta description, a JSON-LD description decides whatever the paragraphs hold |
| `Preview.GoodParagraphWins` | functions/index.js:253-265 | without a meta or JSON-LD description the first good paragraph is used |
| `Preview.NonEmptyParagraphWins` | functions/index.js:266-268 | with no good paragraph the first non-empty one is used |
| `Preview.FinishShaped` | functions/index.js:270-281 | a preview is single-spaced and never starts with white space |
| `Preview.DescribeShaped` | functions/index.js:239-282 | the same for every preview `extractPreview` returns |
| `Preview.Describe` | functions/index.js:239-282 | with no meta or JSON-LD description and only empty paragraphs there is no preview |
| `Preview.ExtractPreview` | functions/index.js:239-282 | the method returns the description the passes define |
| `Preview.Polish` | functions/index.js:270-281 | the tail of the method is the final cleaning and cut |
| `Preview.CutText` | functions/index.js:273-278 | the `if` statement computes `Cut`: a sentence end at 60 or later cuts just after it, else text over 220 characters becomes its first 220 trimmed plus `…` (the cases `Preview.CutLength` proves) |
| `Preview.ScanParagraphs` | functions/index.js:258-268 | each `for` loop finds the first paragraph its test accepts |
| `Worker.FromFirstBraceShape` | cloudflare_worker/ai_worker.js:44-45 | text before the first `{` is dropped only when that brace is past index 0 |
| `Worker.ReadText` | cloudflare_worker/ai_worker.js:47 | a reply that parses is read as parsed; one that does not becomes `{ _raw: raw }` with none of the reply fields |
| `Worker.RunModel` | cloudflare_worker/ai_worker.js:41-47 | the parsed model reply, or `{ _raw: text }` when it does not parse |
| `Worker.SliceTo` | cloudflare_worker/ai_worker.js:60 | `slice(0, end)` is a prefix: empty for NaN, `min(end, len)` long for a non-negative end, all but `-end` entries for a negative one |
| `Worker.LimitOf` | cloudflare_worker/ai_worker.js:52 | the limit is at most the cap |
| `Worker.LimitOfDefault` | cloudflare_worker/ai_worker.js:52 | with no limit in the request the default applies, capped |
| `Worker.LimitOfNumber` | cloudflare_worker/ai_worker.js:52 | a whole-number limit is read as itself, capped |
| `Worker.SplitLinesJoin` | cloudflare_worker/ai_worker.js:88 | splitting at line breaks loses nothing |
| `Worker.SplitAvoids` | cloudflare_worker/ai_worker.js:58 | a separator that cuts at every `c` leaves no piece containing `c` |
| `Worker.CleanPiece` | cloudflare_worker/ai_worker.js:58 | a cleaned piece is trimmed and does not open with a bullet or a digit |
| `Worker.RawPiecesShape` | cloudflare_worker/ai_worker.js:58 | every raw piece is non-empty, clean, and holds no line break or semicolon |
| `Worker.FieldText` | cloudflare_worker/ai_worker.js:51 | the field is trimmed, and empty when falsy |
| `Worker.KindOf` | cloudflare_worker/ai_worker.js:9-19 | a falsy type is ideas; `solutions` and `milestone` reach their handlers; anything else is unknown |
| `Worker.IdeasReply` | cloudflare_worker/ai_worker.js:53-60 | `missing_query` exactly when the query is blank; an `ai_error` exactly when nothing parsed or `_raw` is truthy but not a string; a non-negative limit bounds the ideas |
| `Worker.IdeasFromArray` | cloudflare_worker/ai_worker.js:56-60 | ideas from the reply's array are a prefix of its elements, rendered with `String` |
| `Worker.IdeasFromRaw` | cloudflare_worker/ai_worker.js:57-60 | the raw fallback serves a prefix of the raw pieces |
| `Worker.IdeasReplyArray` | cloudflare_worker/ai_worker.js:56-60 | with ideas in the reply, exactly `ideas.map(String).slice(0, limit)` is served |
| `Worker.IdeasReplyRaw` | cloudflare_worker/ai_worker.js:57-60 | with no ideas and a string `_raw`, exactly the raw pieces sliced to the limit, twice, are served |
| `Worker.HandleIdeasAsWritten` | cloudflare_worker/ai_worker.js:50-61 | the handler as written: refuses exactly a blank query |
| `Worker.HandleIdeasAsWrittenOverflow` | cloudflare_worker/ai_worker.js:52-60 | a request with a query and `limit: -1`, against a reply of n ≥ 14 ideas, serves n − 1 of them, more than the cap of 12 |
| `Worker.HandleIdeas` | cloudflare_worker/ai_worker.js:50-61 | never more than 12 ideas are served |
| `Worker.HandleIdeasDefault` | cloudflare_worker/ai_worker.js:52 | without a limit at most 8 ideas are served |
| `Worker.Filter` | cloudflare_worker/ai_worker.js:89 | the elements the test accepts, drawn from the input |
| `Worker.FilterMembers` | cloudflare_worker/ai_worker.js:89 | an element survives exactly when it is in the input and the test accepts it |
| `Worker.FilterAppend` | cloudflare_worker/ai_worker.js:89 | the filter distributes over concatenation, so input order is kept |
| `Worker.FallbackParseSolutions` | cloudflare_worker/ai_worker.js:84-92 | at most five solutions; of the first five blank-line blocks, every parsed block with a title and more than two steps is served, and nothing else is |
| `Worker.FallbackShape` | cloudflare_worker/ai_worker.js:84-92 | each has a clean title, an empty rationale, and three to six one-line steps longer than four characters |
| `Worker.ParseBlock` | cloudflare_worker/ai_worker.js:86-91 | the title is the block's first non-empty line without its leading bullets, trimmed (empty when there is none); the rationale is empty; the steps are the first `min(6, n)` of the `n` other non-empty lines longer than four characters once trimmed, in order, each a line of the block |
| `Worker.BlockSteps` | cloudflare_worker/ai_worker.js:89 | the first six of the lines after the title that are longer than four characters once trimmed, in order, each one of the block's lines |
| `Worker.Tidied` | cloudflare_worker/ai_worker.js:76-80 | tidying a solution keeps its title, its rationale and its number of steps |
| `Worker.SolutionOfFallback` | cloudflare_worker/ai_worker.js:76-80 | normalising a fallback solution only trims its steps |
| `Worker.FallbackSurvives` | cloudflare_worker/ai_worker.js:72-80 | every fallback solution survives the normaliser, steps trimmed |
| `Worker.ChosenSolutions` | cloudflare_worker/ai_worker.js:71-74 | it throws exactly when there are no solutions and `_raw` is truthy but not a string |
| `Worker.SolutionsReply` | cloudflare_worker/ai_worker.js:68-81 | `missing_fields` exactly when a field is blank; served solutions are valid and bounded by a non-negative limit |
| `Worker.SolutionsFromArray` | cloudflare_worker/ai_worker.js:71-81 | the reply's own solutions are normalised, then sliced |
| `Worker.SolutionsFromRaw` | cloudflare_worker/ai_worker.js:72-81 | the raw fallback serves its first `limit` solutions, tidied |
| `Worker.HandleSolutionsAsWritten` | cloudflare_worker/ai_worker.js:63-82 | the handler as written: refuses exactly a blank activity or problem |
| `Worker.HandleSolutionsAsWrittenOverflow` | cloudflare_worker/ai_worker.js:67-81 | a request with both fields and `limit: -1`, against a reply whose n ≥ 7 solutions all pass the shaping, serves n − 1 of them, more than the cap of 5 |
| `Worker.HandleSolutions` | cloudflare_worker/ai_worker.js:63-82 | never more than 5 solutions are served |
| `Worker.HandleSolutionsDefault` | cloudflare_worker/ai_worker.js:67 | without a limit at most 3 solutions are served |
| `Worker.RawSteps` | cloudflare_worker/ai_worker.js:101-103 | exactly the first `min(5, n)` of the raw text's `n` pieces, all clean |
| `Worker.Definition` | cloudflare_worker/ai_worker.js:99 | the definition is trimmed, and empty when falsy |
| `Worker.MilestoneSteps` | cloudflare_worker/ai_worker.js:100-104 | at most seven clean steps: the reply's first seven when it has any or `_raw` is falsy, else the raw fallback's steps; it throws exactly when there are none and `_raw` is truthy but not a string |
| `Worker.MilestoneReply` | cloudflare_worker/ai_worker.js:96-104 | `missing_title` exactly when the title is blank; at most seven clean steps |
| `Worker.MilestoneFromRaw` | cloudflare_worker/ai_worker.js:101-104 | with no steps, the raw text's first five pieces |
| `Worker.MilestoneKeepsSteps` | cloudflare_worker/ai_worker.js:100-104 | a reply's own clean steps, up to seven, are served as they are |
| `Worker.HandleMilestone` | cloudflare_worker/ai_worker.js:94-105 | refuses exactly a blank title; at most 7 steps |
| `Worker.Fetch` | cloudflare_worker/ai_worker.js:9-23 | each known type reaches its handler as written; any other type is `unknown_type` |
| `Worker.FetchBadRequest` | cloudflare_worker/ai_worker.js:9-23 | status 400 exactly for an unknown type or a missing field |
| `Worker.FetchServedBounded` | cloudflare_worker/ai_worker.js:9-23 | with a limit that is not negative, whatever is served is within twelve ideas, five solutions or seven steps |
| `Worker.FetchIdeasOverflow` | cloudflare_worker/ai_worker.js:52-60 | through `fetch`, an ideas request with `limit: -1` against fourteen or more ideas serves more than twelve |
| `Worker.FetchCorrected` | cloudflare_worker/ai_worker.js:9-23 | the same routing to the corrected ideas and solutions handlers |
| `Worker.HandleIdeasAgrees` | cloudflare_worker/ai_worker.js:50-61 | with a limit that is not negative, the corrected ideas handler answers as the one written |
| `Worker.HandleSolutionsAgrees` | cloudflare_worker/ai_worker.js:63-82 | with a limit that is not negative, the corrected solutions handler answers as the one written |
| `Worker.FetchCorrectedAgrees` | cloudflare_worker/ai_worker.js:9-23 | with a limit that is not negative, the corrected Worker answers as the one written |
| `Worker.FetchCorrectedServedBounded` | cloudflare_worker/ai_worker.js:9-23 | whatever the corrected Worker serves is within twelve ideas, five solutions or seven steps, for every limit |

## Left out

- HTTP plumbing is not modelled: CORS headers, `OPTIONS`/`GET` branches, environment reads, `res.status(...).json(...)`, the shared-secret check, debug logging and the `codeVersion`/`requestMeta` fields.
- The network calls to the model providers and to target pages, and `delay`, are not modelled. The upstream answers are parameters.
- `JSON.parse` is an abstract parameter.
- `buildPrompt` and the prompt texts are not modelled. Of `buildRepairInstruction` only which schemas have an instruction is kept.
- The per-schema branches of the handler and the second ideas repair (api/ai.js:197-330) are not modelled. They combine the modelled normalisers, fallbacks, repair and origin tag.
- Strings are sequences of characters, and lengths count those, not UTF-16 code units.
- `toLowerCase`/`toUpperCase` act on ASCII letters only.
- `String(number)` is positional; exponent notation is not modelled.
- `toFixed(2)` is exact decimal rounding, not IEEE-754 doubles. `Number` coercion covers integers and plain decimals only.
- Search.NormalizeSearch: requires that every relevance parses as an integer; a `NaN` relevance would make the sort order undefined.
- The `NaN` limit of the Worker (`parseInt` of junk) is modelled as `None`, which `slice` reads as 0.
- `hashId` (api/ai.js:841-849) is not modelled: it only names ideas.
- The rate-limit map is updated sequentially; concurrent requests are not modelled.
- Firestore transactions, `serverTimestamp` and document ids are not modelled. The audit entry has no timestamp.
- A licence `expiresAt` is a number of milliseconds. Records without `toDate` are treated as records without expiry.
- `activationCount` is an integer; a non-numeric stored count is not modelled.
- The `internal` error of `activateLicense` (an unexpected exception) cannot arise in the model.
- `extractMeta`, the JSON-LD match and the paragraph regex (functions/index.js:240-255, 284-289) are not implemented. Their results are inputs: the four meta lookups, the JSON-LD description and the paragraph bodies.
- In `addPlanDerived`, the `catch` branch (api/ai.js:766-768) is not modelled. The model takes a plan `normalizePlan` produced, and on such a plan nothing throws.
- The Worker's `405` for methods other than POST and the `invalid_json` reply are not modelled. A body that is not an object and the `goal` field (read but unused) are not modelled either.
- The Worker's `ai_error` detail (the exception message) and a throwing Workers AI call are not modelled; `AiError` stands for every error the handlers throw on the reply.
- Fallbacks.MilestoneFallbackNormal: requires, of a string title, a trimmed text short enough that the prefixed definition is not cut, and no title made only of white space (one the `|| 'Core Milestone'` default would not replace).
- Worker.SolutionsFromRaw: requires a non-negative limit; the negative limit is the finding below.
- `scripts/*.js` (administration scripts) are not part of this model.

## Findings

| source | as written | input that shows it | evidently intended | confidence | as-written member | corrected member |
|---|---|---|---|---|---|---|
| cloudflare_worker/ai_worker.js:52-60 | `Math.min(parseInt(body.limit \|\| 8, 10), 12)` caps the limit from above only, and `slice(0, limit)` with a negative limit counts back from the end | `{ "query": "x", "limit": -1 }` with a model reply of fourteen or more ideas serves all but the last, thirteen or more | at most 12 ideas, a negative limit serving none | not executed | `Worker.HandleIdeasAsWrittenOverflow` | `Worker.FetchCorrected` |
| cloudflare_worker/ai_worker.js:67-81 | `Math.min(parseInt(body.limit \|\| 3, 10), 5)` and `slice(0, limit)`, the same pattern | `{ "activity": "a", "problem": "p", "limit": -1 }` with a reply of seven or more valid solutions serves all but the last, six or more | at most 5 solutions | not executed | `Worker.HandleSolutionsAsWrittenOverflow` | `Worker.FetchCorrected` |

`Worker.Fetch` and `Worker.Dispatch` route to the handlers as written, so the overflow reaches the Worker's reply (`Worker.FetchIdeasOverflow`), and `Worker.FetchServedBounded` holds only for a limit that is not negative. `Worker.FetchCorrected` routes to `Worker.HandleIdeas` and `Worker.HandleSolutions`, which read a negative limit as 0. `Worker.FetchCorrectedServedBounded` proves the caps for every request. `Worker.FetchCorrectedAgrees` proves that the two Workers agree whenever the limit is not negative.
