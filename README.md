# Market-selection engine, modelled in Dafny

This project models the backend engine that tells a farmer which market
(mandi) to sell at. The engine takes a set of candidate markets with quoted
prices and works out a distance to each. If no market is within range, it
falls back to the five closest and tags those market objects in place. It
then prices the sale at every candidate: revenue, transport at a per-km
vehicle rate, and handling of 90 rupees per quintal. It ranks the
candidates by net profit, picks the best and the nearest ("local") market,
and judges whether the extra distance pays at 50 rupees per extra km. It
gives one of four recommendations and folds in the spoilage risk of the
crop. The project also models the recent-search list of the location box.

Modules follow the source files:

| module | models |
|---|---|
| `Common` | `Math.round` and one- and two-decimal rounding, `Math.trunc` and `%`, ASCII `toLowerCase`, `trim` |
| `Sorting` | `Array.prototype.sort` with a numeric comparator, as a stable insertion sort on sequences |
| `Market` | the market object, a class whose two tag fields the fallback writes |
| `Distance` | `backend/services/distance.service.js` |
| `Profit` | `backend/services/profit.service.js` |
| `Perishability` | `backend/services/perishability.service.js` |
| `Decision` | `backend/services/decision.service.js` |
| `Optimize` | the candidate pipeline of `optimizeTrip` in `backend/controllers/optimize.controller.js` |
| `SearchHistory` | the history update and clearing in `frontend/src/components/LocationSearch.js` |

Money and distances are `real`. `Math.round(x)` is `Floor(x + 0.5)`.
Rounding to one decimal is `Round(10x) / 10`, and to two decimals is
`Round(100x) / 100`.

The road-distance provider's reply is an input value (`ProviderReply`).
The great-circle formula is a function parameter `greatCircle`, so the
model never performs the call or the trigonometry. The fetched market list
and the `MAX_MANDI_DISTANCE_KM` setting are also inputs of `OptimizeTrip`.

Three behaviours of the code shape the model:

- **Local-market tie-break.** The local market is searched for in the list
  already sorted by profit (`decision.service.js:25,85`), not in the input
  list. Among equally near markets it is therefore the most profitable one.
  `Decision.FindLocalMandi` and `Decision.FindBestMandi` state this.
- **Zero extra distance.** `calculateWorthiness` divides by the extra
  distance without a guard (`decision.service.js:100-102`).
  `Decision.CalculateWorthiness` gives the unguarded case its JavaScript
  meaning: `Infinity >= 50` holds, while `-Infinity` and `NaN` compare
  false. `Decision.BestFartherThanLocal` proves the case cannot arise inside
  `findBestMandi`: because of the tie-break, a best market named differently
  from the local one is strictly farther away.
- **Market objects change.** The fallback writes `isFallback` and
  `originalDistance` onto the shared market objects
  (`optimize.controller.js:64-67`). `Optimize.SelectCandidates` models those
  writes.

## Model

| member | source | states |
|---|---|---|
| Common.Round | backend/services/profit.service.js:66-71 | `Math.round` lands within one half of its argument |
| Common.Round1 | backend/services/profit.service.js:64 | the result has one decimal and lies in the half-open band (x − 0.05, x + 0.05] |
| Common.Round1Unique | backend/services/profit.service.js:64 | any value with one decimal in that band is the rounded value |
| Common.Round1Monotone | backend/services/perishability.service.js:152 | one-decimal rounding preserves order |
| Common.Round2 | backend/services/distance.service.js:104 | the result has two decimals and lies in the half-open band (x − 0.005, x + 0.005] |
| Common.Round2Unique | backend/services/distance.service.js:104 | any value with two decimals in that band is the rounded value |
| Common.Round2NonNegative | backend/services/distance.service.js:104 | a non-negative value stays non-negative after two-decimal rounding |
| Common.JsRem | backend/services/perishability.service.js:133 | `%` keeps the dividend's sign, is smaller than the divisor, and truncated quotient plus remainder over divisor gives the exact quotient |
| Common.ToLower | backend/services/profit.service.js:40 | the lower-cased string has the same length, with each character lower-cased |
| Common.Trim | backend/services/perishability.service.js:102 | trimming never lengthens, leaves no white space at either end, and leaves a clean string unchanged |
| Common.TrimWindow | backend/services/perishability.service.js:102 | the trimmed string is one window of the input, with only white space before and after it |
| Common.TrimIgnoresPadding | backend/services/perishability.service.js:102 | trimming a word padded with white space on either side gives back the word |
| Common.ToLowerIdempotent | backend/services/perishability.service.js:102 | lower-casing twice is lower-casing once |
| Market.Mandi.constructor | backend/services/agmarknet.service.js:233-243 | a market carries its quoted name, location and prices and starts untagged |
| Sorting.SortBy | backend/services/decision.service.js:21 | the sort is a permutation of its input, in ascending key order |
| Sorting.InsertSorted | backend/services/decision.service.js:21 | inserting into a sorted sequence keeps it sorted |
| Sorting.SortByIsStable | backend/services/decision.service.js:21 | elements with equal keys keep their input order |
| Sorting.FirstMinIndex | backend/services/decision.service.js:85 | reference definition: the earliest position holding the smallest key |
| Sorting.SortByHead | backend/services/decision.service.js:85 | the head of the sort is the earliest element with the smallest key |
| Sorting.PrefixHoldsSmallest | backend/controllers/optimize.controller.js:51-52 | anything in a prefix of the sort has a key no larger than anything after it |
| Distance.HaversineDistance | backend/services/distance.service.js:87-105 | the fallback has two decimals and lies in (1.3g − 0.005, 1.3g + 0.005] for the great-circle distance g, which pins it to 1.3g rounded to two decimals; non-negative when g is |
| Distance.ProviderAnswered | backend/services/distance.service.js:49-51 | the per-element branch runs only for a top-level OK whose first row has an element per destination |
| Distance.ElementDistance | backend/services/distance.service.js:54-56 | an OK element gives meters / 1000; any other element gives the fallback |
| Distance.CalculateDistances | backend/services/distance.service.js:15-77 | one result per destination, in order, carrying that destination; per-element choice when the provider answered, fallback everywhere otherwise |
| Distance.AllFallbackWithoutProvider | backend/services/distance.service.js:16-29 | mock mode, a failed request, or a non-OK status gives every destination the fallback |
| Distance.DistancesNonNegative | backend/services/distance.service.js:49-58 | with non-negative provider and great-circle distances, every result is non-negative |
| Distance.FilterByMaxDistance | backend/services/distance.service.js:117-119 | keeps exactly the results within the limit, with their multiplicities, in their original order; the limit defaults to 100 km |
| Profit.GetVehicleRate | backend/services/profit.service.js:105-107 | the table rate of the lower-cased type; 25 (truck) for a type not in the table |
| Profit.EffectiveRate | backend/services/profit.service.js:38-40 | a custom rate, when given, is used whatever the vehicle type |
| Profit.PriceOf | backend/services/profit.service.js:34 | `price`, or `pricePerQuintal` when `price` is falsy |
| Profit.HandlingCost | backend/services/profit.service.js:44-48 | handling is (20 + 20 + 50) × quantity = 90 × quantity |
| Profit.ProfitShare | backend/services/profit.service.js:59-71 | the percentage is absent exactly for a zero revenue; between 0 and 100 when the net profit is between 0 and the revenue |
| Profit.CalculateProfit | backend/services/profit.service.js:32-80 | name and price, distance to one decimal, handling parts summing to 90 × quantity, net profit as the rounded exact difference, and the percentage as the exact net profit over the revenue to one decimal, absent exactly when the price is zero |
| Profit.ProfitPercentageAtMostHundred | backend/services/profit.service.js:59-71 | with a positive price, distance and rate not negative, the reported percentage is at most 100 |
| Profit.CalculateProfitAmounts | backend/services/profit.service.js:35-69 | revenue, transport, handling and total cost are the rounded exact amounts; the breakdown keeps the exact transport cost |
| Profit.CalculateProfitPerQuintal | backend/services/profit.service.js:57-71 | profit per quintal is the exact net profit over the quantity, rounded |
| Profit.RoundedDecomposition | backend/services/profit.service.js:51-70 | after rounding, total cost and net profit differ from the sums of their rounded parts by at most 1 |
| Profit.NetProfitFallsWithDistance | backend/services/profit.service.js:41-54 | with a positive rate, unrounded net profit strictly falls as distance grows |
| Profit.RoundedNetProfitNeverRises | backend/services/profit.service.js:41-70 | the rounded net profit never rises with distance |
| Profit.TruckWorkedExample | backend/services/profit.service.js:35-71 | 20 quintals at 1200, 10 km by truck: revenue 24000, transport 250, handling 1800, total 2050, net 21950, 1098 per quintal |
| Profit.CalculateMultipleProfits | backend/services/profit.service.js:90-100 | one result per item, in order, each the profit of that item's destination and distance |
| Profit.BreakEvenDistance | backend/services/profit.service.js:124-133 | the distance has one decimal and lies in (e − 0.05, e + 0.05] for the exact break-even distance e, which pins it to e rounded to one decimal; its transport cost at the table rate matches the revenue gained to within 0.05 km's worth |
| Profit.ScaledError | backend/services/profit.service.js:130-132 | a distance within 0.05 km of gain / rate costs within 0.05 km's worth of transport of the gain |
| Profit.BreakEvenBalancesProfit | backend/services/profit.service.js:124-133 | at the exact break-even distance the distant market nets what a local one at distance 0 would |
| Perishability.CropRating | backend/services/perishability.service.js:8-86 | every listed crop has a positive safe distance and spoilage rate |
| Perishability.LookupCrop | backend/services/perishability.service.js:103 | a key names a listed crop exactly when it is that crop's key |
| Perishability.NormalizeCrop | backend/services/perishability.service.js:102 | the key is no longer than the name, has no white space at either end and no capital letter |
| Perishability.GetPerishabilityRating | backend/services/perishability.service.js:101-104 | the rating of the crop named by the lower-cased, trimmed name, the default rating otherwise |
| Perishability.TomatoRating | backend/services/perishability.service.js:10-15 | tomato: high, safe to 50 km, 0.20 per 50 km |
| Perishability.LookupIgnoresCase | backend/services/perishability.service.js:102 | a name and its lower-cased form get the same rating |
| Perishability.LookupIgnoresPadding | backend/services/perishability.service.js:102 | white space around a name does not change its rating |
| Perishability.UnlistedCropGetsDefault | backend/services/perishability.service.js:88-104 | the unlisted crop "mango" gets the default rating: medium, 100 km, 0.12 (for every unlisted key this is `GetPerishabilityRating`'s second clause) |
| Perishability.RiskTier | backend/services/perishability.service.js:142-149 | high exactly from 15%, low exactly below 5%, medium between |
| Perishability.SpoilagePercentage | backend/services/perishability.service.js:127-135 | the step-wise percentage never exceeds the 50% cap |
| Perishability.SpoilageIsProportional | backend/services/perishability.service.js:131-135 | the whole steps plus the remainder give min(2 × rate × excess, 50) |
| Perishability.SpoilagePositiveBeyondSafeDistance | backend/services/perishability.service.js:132-135 | beyond the safe distance a positive rate spoils a positive share |
| Perishability.CalculateSpoilage | backend/services/perishability.service.js:113-159 | safe exactly within the safe distance; otherwise the tier of the unrounded percentage, the percentage to one decimal, and amount, adjusted profit and excess rounded from the unrounded values |
| Perishability.SafeZone | backend/services/perishability.service.js:116-124 | within the safe distance: 0%, nothing lost, profit kept, safe, low risk |
| Perishability.SpoilageWithinCap | backend/services/perishability.service.js:132-152 | the reported percentage lies between 0 and 50 |
| Perishability.TomatoAt120Km | backend/services/perishability.service.js:127-157 | tomato at 120 km: excess 70, 28%, high risk |
| Perishability.GeneratePerishabilityWarning | backend/services/perishability.service.js:171-198 | a warning, with a severity, exactly when not safe; the severity is the risk tier |
| Perishability.AnalyzePerishability | backend/services/perishability.service.js:223-232 | the spoilage of the result's distance and net profit, the warning generated from that spoilage (present exactly beyond the safe distance), and the original profit |
| Decision.SortByProfit | backend/services/decision.service.js:21 | a permutation of the input with net profit non-increasing |
| Decision.SortByProfitIsStable | backend/services/decision.service.js:21 | equal net profits keep their input order |
| Decision.FindLocalMandi | backend/services/decision.service.js:82-86 | none for no results; otherwise the earliest of the nearest results |
| Decision.CalculateWorthiness | backend/services/decision.service.js:92-116 | best-is-nearest exactly when there is no other local market; otherwise worth exactly when the extra profit is at least 50 per extra km, with the profit per extra km rounded and absent only for a zero extra distance |
| Decision.RatioThreshold | backend/services/decision.service.js:102-108 | comparing a ratio with the threshold equals comparing the multiplied-out amounts, by the divisor's sign |
| Decision.GenerateRecommendation | backend/services/decision.service.js:121-133 | the four-way ladder: same market, more than 500, more than 0, otherwise stay local |
| Decision.SliceEnd | backend/services/decision.service.js:141 | where `slice(0, n)` ends, for non-negative and negative `n` |
| Decision.GetTopOptions | backend/services/decision.service.js:138-142 | exactly the first n of the stable ranking by descending profit (ties in input order), each at least as profitable as any left out; n defaults to 3 |
| Decision.CompareMandis | backend/services/decision.service.js:147-163 | the first wins only on strictly higher profit, price or smaller distance; absolute differences |
| Decision.CompareMandisSwapped | backend/services/decision.service.js:147-163 | swapping keeps the differences and, unless profits tie, the winner; a tie goes to the second |
| Decision.CropGiven | backend/services/decision.service.js:38 | perishability is analysed only for a present, non-empty crop |
| Decision.ComparePerishability | backend/services/decision.service.js:37-51 | both analyses of the crop (the local one exactly when a local market exists); consider local exactly when best is high risk, local exists and local is not high risk |
| Decision.SummarizeBest | backend/services/decision.service.js:54-61 | the best market's name, net profit, distance, price, profit per quintal and percentage |
| Decision.SummarizeLocal | backend/services/decision.service.js:62-67 | the local market's name, net profit, distance and price |
| Decision.FindBestMandi | backend/services/decision.service.js:15-77 | an error exactly for no results; otherwise best, local, differences, worthiness, recommendation and ranking as the code assembles them; no perishability without a crop |
| Decision.SortedByProfitBounds | backend/services/decision.service.js:23-24 | the ranking's first and last bound every net profit |
| Decision.DecisionRanking | backend/services/decision.service.js:21-28 | the ranking is a reordering of the input, best first; the best is at least every option; the gap to the worst is non-negative |
| Decision.DecisionLocal | backend/services/decision.service.js:25-31 | the local market is a nearest one, and the extra profit is non-negative |
| Decision.BestFartherThanLocal | backend/services/decision.service.js:93-102 | a best market named differently from the local one is strictly farther away |
| Decision.WorthinessOfDecision | backend/services/decision.service.js:92-115 | in a decision the ratio never divides by zero; worth exactly when the gain is at least 50 per extra km |
| Decision.StickLocalOnlyOnTie | backend/services/decision.service.js:126-132 | stay-local advice comes only when local and best earn the same |
| Decision.FarMarketBelowThreshold | backend/services/decision.service.js:92-133 | 21950 at 10 km vs 25200 at 80 km: the far market is best, 3250 more, not worth it, yet travel advice |
| Optimize.CustomVehicleRate | backend/controllers/optimize.controller.js:19 | a missing or zero custom rate becomes none |
| Optimize.ReportedVehicleRate | backend/controllers/optimize.controller.js:131 | the custom rate if present, the table rate otherwise |
| Optimize.ReportedRateIsPricedRate | backend/controllers/optimize.controller.js:131 | the reported rate is the rate the profits were computed with |
| Optimize.MaxDistance | backend/controllers/optimize.controller.js:44 | the configured limit, or 100 when it is NaN or 0 |
| Optimize.ClosestCandidates | backend/controllers/optimize.controller.js:51-52 | exactly the first min(5, n) of the stable sort by distance, so a sub-multiset of the input; ascending, none farther than any left out |
| Optimize.Candidates | backend/controllers/optimize.controller.js:44-70 | the in-range results when any exist, the closest ones otherwise; empty exactly for an empty input |
| Optimize.LastDistance | backend/controllers/optimize.controller.js:64-67 | reference definition: absent exactly when the market is not visited; otherwise a visited entry's distance |
| Optimize.LastDistanceOfDistinct | backend/controllers/optimize.controller.js:64-67 | with distinct markets, each one records its own distance |
| Optimize.LastDistanceExtend | backend/controllers/optimize.controller.js:64-67 | one more loop step records the visited entry's distance and leaves other markets alone |
| Optimize.TagFallbacks | backend/controllers/optimize.controller.js:64-67 | every visited market is tagged and records its last visit's distance; every other market keeps its fields |
| Optimize.SelectCandidates | backend/controllers/optimize.controller.js:44-71 | failure exactly for no distances; otherwise the candidates; in the fallback the chosen markets are tagged and all others unchanged; with results in range nothing changes |
| Optimize.ProjectResults | backend/controllers/optimize.controller.js:116-127 | one row per option, in ranking order |
| Optimize.ProjectedRowsRanked | backend/controllers/optimize.controller.js:116-127 | the rows keep the descending net-profit order |
| Optimize.OptimizationOf | backend/controllers/optimize.controller.js:108-115 | the decision's best and local summaries, extra profit, recommendation, worthiness and perishability |
| Optimize.OptimizeTrip | backend/controllers/optimize.controller.js:16-136 | "no mandis" exactly for an empty list; otherwise the response of the decision over the candidates' profits, with the rate report and the fallback tags |
| SearchHistory.WithoutName | frontend/src/components/LocationSearch.js:87 | exactly the entries with another name, in their order |
| SearchHistory.WithoutNameCounts | frontend/src/components/LocationSearch.js:87 | each entry with another name is kept as often as it occurs; entries with the name are gone |
| SearchHistory.WithoutAbsentName | frontend/src/components/LocationSearch.js:87 | removing an absent name changes nothing |
| SearchHistory.WithoutNameKeepsDistinct | frontend/src/components/LocationSearch.js:87 | filtering keeps names distinct |
| SearchHistory.SelectLocation | frontend/src/components/LocationSearch.js:85-88 | the location first, no later entry with its name, at most 10, then the old list without that name, truncated to 9 |
| SearchHistory.SelectKeepsNamesDistinct | frontend/src/components/LocationSearch.js:85-88 | distinct names stay distinct after a selection |
| SearchHistory.SelectIdempotent | frontend/src/components/LocationSearch.js:85-88 | selecting the same location twice equals selecting it once |
| SearchHistory.ClearHistory | frontend/src/components/LocationSearch.js:114-117 | clearing leaves an empty list |
| SearchHistory.SelectAfterClear | frontend/src/components/LocationSearch.js:85-117 | after clearing, a selection leaves only that location |

## Left out

- The great-circle (Haversine) trigonometry is left out because it is floating-point trigonometry. It is the parameter `greatCircle`, assumed non-negative where a lemma needs it.
- HTTP calls to the price, road-distance and geocoding providers are left out because they are I/O. Their outcomes are inputs (`mandis`, `ProviderReply`); their timeouts are not modelled.
- The price provider's mock-market generation is left out because it uses `Math.random` and the clock. So is its response munging.
- IEEE floating point is not modelled. `NaN`, `Infinity` and binary rounding are absent; money and distance are exact reals.
- Profit.CalculateProfit: when the revenue is 0, the code's percentage is a non-finite number, and the model says None.
- Common.ToLower: lower-cases ASCII letters only, not the full Unicode case mapping of `toLowerCase`.
- Profit.PriceOf: a falsy `price` is modelled as 0.0. A market without either price (a `NaN` revenue) is not modelled.
- Lookups of prototype keys (a crop or vehicle named "constructor") are not modelled. They are JavaScript object quirks.
- Perishability.GetPerishabilityRating: the table key "default" is not a crop of its own, because looking it up yields the default rating either way.
- Message, reason, icon and recommendation strings, `toLocaleString` formatting, and the warning's `details` are not modelled. The branch taken is an enum or a field.
- Console logging is not modelled.
- The response's `success`/`message` wrapper, HTTP status codes, the 500 handler, the `query` echo, `customVehicle` echo and `timestamp` are not modelled. They are transport and clock concerns; a failure is a `Result`.
- The request validation and sanitising middleware are not modelled as such. They become the precondition `Optimize.ValidRequest`.
- Perishability.CalculateSpoilage: the net profit argument is an integer, because its only caller passes a rounded net profit.
- Decision.ComparePerishability: where the code's `&&` chain yields `null` (no local analysis), the model says false, which is equally falsy.
- Display-only market fields (state, district, data source) are not modelled, because nothing in the engine reads them.
- Distance.CalculateDistances: an OK element without a `distance` value is not modelled. It would throw and fall back for every destination.
- Decision.FindBestMandi: a `null` input list is not modelled; a sequence is never null. The empty list is the modelled error.
- Decision.GetTopOptions: a non-integer `n` is not modelled.
- Storing the search history in `localStorage`, the parent callback, and the UI state of the location box are left out. They are browser I/O and rendering.
- Bundled vehicle listing (`getAvailableVehicles`) and the React components are left out because they are display code.
