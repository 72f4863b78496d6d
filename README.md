# Airline agent: offer ranking, Qpoints estimate, search and display, in Dafny

This project models the core of a small airline-offer assistant whose backend
is written in TypeScript. A free-text prompt is turned into a travel *intent*.
The search then picks a mock catalog for the intent's goal and drops offers
over a set budget. Each remaining offer is enriched with an estimate of the
Qpoints it earns and its points per HKD. The offers are stably sorted under
one of four ranking modes, and the first ten are returned, each with a
rationale text. The frontend renders every returned item as a card. It
reads each field from whichever of several names is present, and shows the
duration as hours and minutes.

Modules (one per source file, plus two helpers):

- `Wrappers` (Wrappers.dfy): `Option`, standing for a field that may be `undefined`.
- `Schemas` (Schemas.dfy): the intent, segment and offer schemas, covering
  - their value constraints as predicates;
  - intent parsing as `ApplyIntentSchema`, which fills in the defaults.
- `Rewards` (Qpoints.dfy): the points estimator, covering
  - the distance table with its fallback;
  - the per-cabin rate table, with a fallback for unknown cabins;
  - the estimating loop (a method proved against `TotalPoints`);
  - rounding, and points per HKD.
- `Ranking` (Ranking.dfy): enrichment and the stable sort.
  - The sort is an in-place insertion sort on an array, proved equal to the functional `StableSort`.
  - `StableSort` is proved sorted, a permutation and stable, and the only sequence with these three properties.
- `Text` (Text.dfy): ASCII digits, the decimal text of an integer, and ASCII case folding.
- `Routes` (Routes.dfy): the search pipeline (budget filter, ranking, the first ten, rationale).
- `PromptParse` (Parse.dfy): the `/parse` heuristics, covering
  - the keyword test;
  - a dedicated scanner for the budget pattern, proved to agree with a declarative description of what the pattern matches, with the leftmost match;
  - the intent it builds.
- `OfferCards` (OfferCards.dfy): the hours-and-minutes text and each card's `??` field resolution.
- `MockOffers` (MockOffers.dfy): the two static catalogs as constants, with their points, their order in each mode and the budget filter worked out.

Numbers are exact `real`s. `Math.round(x)` is `Floor(x + 0.5)`, which is
what JavaScript computes for every finite `x`. The digits of
`String(number)` and `toFixed(3)` in the rationale texts are a `Formatter`
parameter. The catalogs are parameters of `Routes.Search`.

Where the code and the design description disagree, the model follows the code:

- A price may be zero or negative, and an itinerary may be empty.
  - The offer schema does not check either (`Schemas.OfferSchemaAdmitsDegenerate`).
  - The model admits negative prices and empty itineraries everywhere. Only a zero price is excluded from the ranking (`Ranking.Priced`); see "## Left out".

In one place the model follows the design instead of the code. In the code as
written, an absent `weekendFit` makes the weekend comparator inconsistent. The
model ranks it with `false`, as the design intends; see "## Findings".

## Model

| member | source | states |
|---|---|---|
| Schemas.ParseGoal | api/src/schemas.ts:4 | only the four goal names are accepted, and an accepted goal's name is the input string |
| Schemas.ParseGoalName | api/src/schemas.ts:4 | every goal's name parses back to that goal |
| Schemas.ParseCabin | api/src/schemas.ts:21 | only the four cabin names are accepted, and an accepted cabin's name is the input string |
| Schemas.ParseCabinName | api/src/schemas.ts:34 | every cabin's name parses back to that cabin |
| Schemas.ApplyIntentSchema | api/src/schemas.ts:3-23 | an intent is accepted iff its 3-letter origin and destinations, positive-integer trip bounds and enum goal and cabin hold; the accepted intent is valid; goal defaults to cheapest, currency to HKD, codeshare to true, cabin to ECONOMY; every other field passes through unchanged |
| Schemas.IntentSchemaRoundTrip | api/src/schemas.ts:3-23 | parsing an accepted intent written out in full gives it back |
| Schemas.IntentSchemaIdempotent | api/src/schemas.ts:3-23 | parsing the result of parsing changes nothing |
| Schemas.SegmentValid | api/src/schemas.ts:27-36 | the segment schema's value constraints: three-letter endpoints, a two-letter carrier and an enum cabin; the partner is `Rewards.RatePer100KmByCabin` |
| Schemas.OfferValid | api/src/schemas.ts:38-46 | the offer schema's value constraints: every segment valid and nothing else; the partner is `Schemas.OfferSchemaAdmitsDegenerate` |
| Schemas.OfferSchemaAdmitsDegenerate | api/src/schemas.ts:38-46 | the offer schema accepts a zero or negative price and an empty itinerary |
| Rewards.ApproxDistance | api/src/qpoints.ts:21-30 | the lookup of the key `from-to` in the eight-entry table, falling back to 2000 km; characterised by `Rewards.ApproxDistanceByPair` |
| Rewards.ApproxDistanceByPair | api/src/qpoints.ts:21-30 | the lookup through the string key `from-to` gives the table value for exactly the eight listed directed pairs and 2000 km for every other pair |
| Rewards.ApproxDistanceSymmetric | api/src/qpoints.ts:23-28 | the estimate is the same in both directions |
| Rewards.ApproxDistancePositive | api/src/qpoints.ts:23-29 | every estimate is positive |
| Rewards.RatePer100Km | api/src/qpoints.ts:14-19 | the rate table indexed by the cabin string, with 0.25 for a missing key (line 36); characterised by `Rewards.RatePer100KmByCabin` |
| Rewards.RatePer100KmByCabin | api/src/qpoints.ts:14-19 | each of the four cabins gets its own rate (0.25, 0.35, 0.6, 0.8); any other cabin string gets 0.25 |
| Rewards.SegmentPoints | api/src/qpoints.ts:35-37 | one segment's points: its own distance or the table's, over 100, times the cabin rate; its partner is `Rewards.OwnDistanceOverridesTable` |
| Rewards.OwnDistanceOverridesTable | api/src/qpoints.ts:35 | a segment's own distance is used, and its endpoints then do not matter |
| Rewards.TotalPoints | api/src/qpoints.ts:33-38 | the running total of the loop after the given segments, one segment's points added per step; `Rewards.EstimateQpoints` is proved against it, and `Rewards.TotalPointsAppend` and `Rewards.TotalPointsNonNegative` state its properties |
| Rewards.TotalPointsAppend | api/src/qpoints.ts:33-38 | the running total of two itineraries in a row is the sum of their totals |
| Rewards.TotalPointsNonNegative | api/src/qpoints.ts:33-38 | with no negative own distance, the total is non-negative |
| Rewards.Round | api/src/qpoints.ts:39 | the result is the integer within half of the input, with halves rounded up |
| Rewards.Qpoints | api/src/qpoints.ts:32-40 | the rounded sum of the segments' points; the source's loop is `Rewards.EstimateQpoints`, and `Rewards.QpointsIsRoundedSum` bounds it |
| Rewards.EstimateQpoints | api/src/qpoints.ts:32-40 | the loop returns the rounded sum of the segments' points |
| Rewards.QpointsIsRoundedSum | api/src/qpoints.ts:32-40 | the estimate is within half of the exact sum, and an empty itinerary earns 0 |
| Rewards.QpointsNonNegative | api/src/qpoints.ts:32-40 | with no negative own distance, the estimate is non-negative |
| Rewards.QpointsPerHKD | api/src/qpoints.ts:42-45 | for a non-zero price, ratio times price equals the rounded points |
| Rewards.QpointsPerHKDNonNegative | api/src/qpoints.ts:42-45 | with a positive price and no negative distance, the ratio is non-negative |
| Ranking.Enrich | api/src/ranking.ts:7-11 | an entry carries its offer, that offer's points and the ratio of points to price |
| Ranking.EnrichAll | api/src/ranking.ts:7-11 | enrichment maps position by position |
| Ranking.Key | api/src/ranking.ts:13-22 | the number each comparator subtracts: price, duration, minus the ratio, and minus one for a weekend fit; `Ranking.WeekendCompareIsKeyDifference` ties it to the weekend comparator |
| Ranking.StableSort | api/src/ranking.ts:13-22 | the stable sort by key, as insertion from the right; characterised by `Ranking.StableSortCharacterized` |
| Ranking.StableSortPermutation | api/src/ranking.ts:13-22 | sorting keeps exactly the input entries, each as often as in the input |
| Ranking.StableSortSorted | api/src/ranking.ts:13-22 | the sorted entries are in ascending key order |
| Ranking.StableSortStable | api/src/ranking.ts:13-22 | for every key value, the entries with that key keep their input order |
| Ranking.SortedUnique | api/src/ranking.ts:13-22 | two sorted sequences with the same entries in the same order under every key are equal |
| Ranking.StableSortCharacterized | api/src/ranking.ts:13-22 | any sorted sequence that agrees with the input key by key is the stable sort of the input |
| Ranking.Ranked | api/src/ranking.ts:6-23 | the ranking has one entry per offer |
| Ranking.RankedIsEnrichedPermutation | api/src/ranking.ts:6-23 | the ranking permutes the offers and their enrichments, and every entry carries its own offer's points and ratio |
| Ranking.RankedCheapest | api/src/ranking.ts:15 | `cheapest`: prices never decrease |
| Ranking.RankedShortest | api/src/ranking.ts:17 | `shortest`: total durations never decrease |
| Ranking.RankedByRatio | api/src/ranking.ts:19 | `qpoints_per_hkd`: the ratio never increases |
| Ranking.RankedWeekend | api/src/ranking.ts:21 | `weekend`: no weekend-fit offer comes after one that does not fit |
| Ranking.RankedStable | api/src/ranking.ts:13-22 | in every mode, offers with equal keys keep their input order |
| Ranking.WeekendCompareIsKeyDifference | api/src/ranking.ts:21 | on present flags, the weekend comparator equals the difference of the weekend keys |
| Ranking.WeekendCompareAsWritten | api/src/ranking.ts:21 | the weekend comparator as written: `Number` of an absent flag is NaN, and the sort reads a NaN result as 0, so any comparison with an absent flag is a tie; otherwise the second flag's number minus the first's. Its partners are `Ranking.WeekendCompareIsKeyDifference` and `Ranking.WeekendComparatorInconsistent` |
| Ranking.WeekendComparatorInconsistent | api/src/ranking.ts:21 | with absent flags, no numeric key orders offers the way the comparator as written does |
| Ranking.InsertAt | api/src/ranking.ts:13-22 | the insertion step puts an entry after the last one whose key is not greater |
| Ranking.InsertInPlace | api/src/ranking.ts:13-22 | shifting the sorted prefix right and dropping the entry in gives the insertion step, and the cells beyond are unchanged |
| Ranking.SortInPlace | api/src/ranking.ts:13-22 | the array ends up as the stable sort of its old contents |
| Ranking.RankOffers | api/src/ranking.ts:6-23 | enriching into a fresh array and sorting it gives the ranking |
| Text.NatToString | frontend/components/OfferCards.tsx:58 | the decimal text of a number is non-empty digits with no leading zero |
| Text.IntToString | frontend/components/OfferCards.tsx:58 | the `${}` text of a possibly negative integer: a minus sign before the digits of its magnitude; `OfferCards.MinutesNegative` shows it on a negative duration |
| Text.DigitsValue | api/src/routes.ts:29 | `Number` of the comma-free digit string, read exactly as a base-ten value; `Text.DigitsValueOfNatToString` is its inverse statement |
| Text.DigitsValueOfNatToString | api/src/routes.ts:29 | reading a number's decimal text back gives the number |
| Text.LowerAscii | api/src/routes.ts:25 | an ASCII capital maps to the lower-case letter 32 code points above it; a lower-case letter comes out exactly for ASCII letters; every other character is left alone |
| Routes.SelectCatalog | api/src/routes.ts:64 | the `status_run` goal gets the status-run catalog, and every other goal the HKG to London one; `Routes.Search` states the response in terms of it |
| Routes.BudgetSet | api/src/routes.ts:67 | a budget filters only when it is truthy: present and not zero; used by `Routes.Search` |
| Routes.WithinBudget | api/src/routes.ts:68 | the price filter; characterised by `Routes.WithinBudgetKeeps` and `Routes.WithinBudgetAppend` |
| Routes.Filtered | api/src/routes.ts:67-69 | the budget filter when a budget is set, otherwise the whole catalog; partner `Routes.FilteredPriced`: filtering a catalog with no zero price leaves every price non-zero |
| Routes.Rationale | api/src/routes.ts:79-90 | the four rationale texts by mode; characterised by `Routes.RationaleNamesMode` |
| Routes.WithinBudgetAppend | api/src/routes.ts:67-69 | the budget filter distributes over concatenation, so it keeps the input order |
| Routes.WithinBudgetKeeps | api/src/routes.ts:67-69 | exactly the offers priced at or under the budget survive, each as often as in the input |
| Routes.FilteredPriced | api/src/routes.ts:67-69 | filtering a catalog with no zero price leaves every price non-zero |
| Routes.FilteredRankingSound | api/src/routes.ts:63-74 | every ranked entry of the filtered catalog is a catalog offer within a set budget, with its own points and ratio |
| Routes.RationaleNamesMode | api/src/routes.ts:79-90 | each mode has its own rationale text whatever the number formatting; the weekend text is "Fits weekend pattern" iff the offer fits; the fallback text starts "Cheapest in set: " |
| Routes.Annotated | api/src/routes.ts:71-74 | a response entry keeps the ranked entry's offer, points and ratio |
| Routes.Search | api/src/routes.ts:61-76 | the response is the first min(10, n) entries of the ranking of the budget-filtered catalog for the goal, each with its rationale; no entry exceeds a set budget; with no budget (or a zero one) it is the head of the unfiltered ranking |
| PromptParse.IsStatusRun | api/src/routes.ts:25 | the keyword test; characterised by `PromptParse.StatusRunIffKeyword` |
| PromptParse.OccursFromSpec | api/src/routes.ts:25 | the scan finds a word iff it occurs case-insensitively at or after the start |
| PromptParse.StatusRunIffKeyword | api/src/routes.ts:25 | a prompt is a status run iff "qpoints", "status", "tier" or "gold" occurs in it, ignoring case |
| PromptParse.NumberEnd | api/src/routes.ts:28 | the greedy number is digits joined by single commas followed by digits, and it cannot be extended |
| PromptParse.NumberEndIsLongest | api/src/routes.ts:28 | no number at the same start reaches further |
| PromptParse.MatchAt | api/src/routes.ts:28 | the scanner at one start position: a number, then spaces, then "hd" or "hkd"; characterised by `PromptParse.MatchAtSpec` |
| PromptParse.MatchAtSpec | api/src/routes.ts:28 | at each start, the scanner captures `e` iff the pattern (number, white space, then "hd" or "hkd" in any case) matches with group `s[i..e]`, so the capture is unique |
| PromptParse.FirstMatch | api/src/routes.ts:28 | the scanner tried at each position from the left; characterised by `PromptParse.FirstMatchSpec` |
| PromptParse.FirstMatchSpec | api/src/routes.ts:28 | the first match found is a match, and the pattern matches nowhere before it; no result means no match anywhere |
| PromptParse.RemoveCommas | api/src/routes.ts:29 | the result has no comma; a single character is dropped iff it is a comma; digits and commas leave only digits |
| PromptParse.RemoveCommasAppend | api/src/routes.ts:29 | removal works piece by piece, so every non-comma character is kept in order |
| PromptParse.BudgetOf | api/src/routes.ts:28-29 | a budget is read iff the pattern matches somewhere in the prompt, and it is a non-negative whole number |
| PromptParse.BudgetOfWritten | api/src/routes.ts:28-29 | a number written after text without digits, then " HKD", is read back as the budget |
| PromptParse.BudgetWithSeparator | api/src/routes.ts:28-29 | "12,500hkd" gives a budget of 12500 |
| PromptParse.PromptIntent | api/src/routes.ts:32-42 | the raw intent the handler builds from the flag and the budget; partners `PromptParse.ParsePromptByFlag` and `PromptParse.ParsePromptDeterminedByFlagAndBudget` |
| PromptParse.ParsePrompt | api/src/routes.ts:24-44 | the built intent always passes the schema; the goal is status_run iff a keyword occurs, else cheapest; the budget is the parsed one; currency HKD, codeshare allowed, economy cabin |
| PromptParse.ParsePromptByFlag | api/src/routes.ts:32-42 | the status flag alone picks destinations (RUH versus LHR, LGW), trip length (absent versus 14 to 21 days) and weekend_only |
| PromptParse.ParsePromptDeterminedByFlagAndBudget | api/src/routes.ts:24-44 | two prompts with the same flag and budget give the same intent |
| OfferCards.JsRem | frontend/components/OfferCards.tsx:57 | the dividend is a whole multiple of the divisor plus the remainder; the remainder is smaller than the divisor in magnitude and has the sign of the dividend |
| OfferCards.MinutesToHhMm | frontend/components/OfferCards.tsx:54-59 | the text is empty exactly when no duration is given |
| OfferCards.MinutesRoundTrip | frontend/components/OfferCards.tsx:54-59 | for whole minutes n >= 0, the text is "h" hours and "m" minutes with 0 <= m < 60 and 60h + m = n, and reading the text back gives n |
| OfferCards.MinutesNegative | frontend/components/OfferCards.tsx:56-58 | a negative duration shows floored hours and a negative remainder: -30 gives "-1h -30m" |
| OfferCards.FirstPresent | frontend/components/OfferCards.tsx:72-78 | a `??` chain yields one of its operands or nothing |
| OfferCards.FirstPresentSpec | frontend/components/OfferCards.tsx:72-78 | the chain is absent iff every operand is, and otherwise it is the first present operand |
| OfferCards.Displayed | frontend/components/OfferCards.tsx:71 | the card reads the nested offer when present, otherwise the item itself |
| OfferCards.WeekendLabel | frontend/components/OfferCards.tsx:79 | the label is "Weekend fit" iff the flag is true, and empty otherwise |
| OfferCards.Render | frontend/components/OfferCards.tsx:64-70 | a missing or empty list gives the no-offers view; otherwise there is one card per item |
| OfferCards.RenderCards | frontend/components/OfferCards.tsx:70-79 | card k is the one item k resolves to |
| OfferCards.CardOf | frontend/components/OfferCards.tsx:71-112 | one card from the resolved fields; characterised by `OfferCards.CardIdentifier`, `OfferCards.CardPrice`, `OfferCards.CardRoute` and `OfferCards.CardDuration` |
| OfferCards.ResolvedId | frontend/components/OfferCards.tsx:72 | `id`, then `offerId`, then `_id`; see `OfferCards.CardIdentifier` |
| OfferCards.ResolvedAmount | frontend/components/OfferCards.tsx:73 | the nested amount, then `priceAmount`; see `OfferCards.CardPrice` |
| OfferCards.ResolvedCurrency | frontend/components/OfferCards.tsx:74 | the nested currency, then `currency`, then HKD; see `OfferCards.CardPrice` |
| OfferCards.ResolvedDuration | frontend/components/OfferCards.tsx:75 | `totalDurationMin`, then `durationMin`; see `OfferCards.CardDuration` |
| OfferCards.ResolvedCarrier | frontend/components/OfferCards.tsx:76 | `carrier`, then `airline`, then `marketingCarrier`, then "Airline"; see `OfferCards.CardRoute` |
| OfferCards.ResolvedFrom | frontend/components/OfferCards.tsx:77 | `origin`, then `from`, then the first segment's origin, then HKG; see `OfferCards.CardRoute` |
| OfferCards.ResolvedTo | frontend/components/OfferCards.tsx:78 | `destination`, then `to`, then the last segment's destination, then LON; see `OfferCards.CardRoute` |
| OfferCards.CardIdentifier | frontend/components/OfferCards.tsx:72-112 | the key is `id`, else `offerId`, else `_id`, else "idx-k"; the hold button needs a present, non-empty identifier |
| OfferCards.EmptyIdKept | frontend/components/OfferCards.tsx:72 | an empty `id` is kept as the key, not replaced, and the card cannot be held |
| OfferCards.CardPrice | frontend/components/OfferCards.tsx:73-74 | amount and currency come from the nested money when present, otherwise from the flat fields, with currency defaulting to HKD |
| OfferCards.CardRoute | frontend/components/OfferCards.tsx:76-78 | every operand of the three chains in turn: `origin`, `from`, the first segment's origin, HKG; `destination`, `to`, the last segment's destination, LON; `carrier`, `airline`, `marketingCarrier`, "Airline" |
| OfferCards.CardDuration | frontend/components/OfferCards.tsx:75 | the text is that of `totalDurationMin` when present, else that of `durationMin`, and it is empty iff both are absent |
| MockOffers.CatalogsWellFormed | api/src/mockOffers.ts:7-50 | every mock offer passes the offer schema and has a non-zero price |
| MockOffers.CatalogPoints | api/src/mockOffers.ts:7-50 | the three mock offers earn 29, 29 and 34 Qpoints |
| MockOffers.LhrPoints | api/src/mockOffers.ts:8-18 | HKG-DOH-LHR earns 15.75 + 13 = 28.75 points, rounded to 29 |
| MockOffers.LgwPoints | api/src/mockOffers.ts:19-29 | HKG-DOH-LGW earns 15.75 + 12.9 = 28.65 points, rounded to 29 |
| MockOffers.RuhPoints | api/src/mockOffers.ts:37-49 | the four status-run legs earn 33.95 points, rounded to 34 |
| Ranking.RankTwo | api/src/ranking.ts:13-22 | two offers keep their order when the first key is not greater, and swap otherwise |
| MockOffers.HkgLonRankings | api/src/mockOffers.ts:7-30 | London catalog: cheapest and points per HKD put LHR first; shortest and weekend put LGW first |
| MockOffers.HkgLonBudget | api/src/routes.ts:67-69 | a budget of 8000 keeps only the 7800 HKD offer, 10000 keeps both, and 7799 keeps neither |
| MockOffers.ParsedPromptSelects | api/src/routes.ts:61-69 | a London prompt stating 8000 HKD leaves only the LHR offer to rank; a status-run prompt with no budget, a zero budget or at least 4680 leaves only the RUH offer |

## Left out

- HTTP wiring is not modelled: the router, request and response objects, status 400 on a malformed body, logging, `/hold` and `/health`. The same goes for process startup in api/src/server.ts and the intent-tester page with its `fetch` calls.
- The React rendering, the `busyId` state and the asynchronous hold handler are not modelled. Only which identifier a card would hold is stated (`OfferCards.Card.holdable`).
- Zod's type errors are not modelled. Field types are fixed by Dafny's types, and only the value constraints and defaults are modelled.
- The search body's `mode` default (`cheapest`) is not modelled, because the mode is a parameter of `Routes.Search`.
- IEEE-754 arithmetic is replaced by exact reals: distances, rates, sums and ratios carry no rounding error.
- The digits that `String(x)` and `toFixed(3)` print are a `Formatter` parameter.
- Rewards.QpointsPerHKD: requires a non-zero price. A zero price gives Infinity (or NaN when the offer earns no points) in the source, and the model has no such values. A negative price gives a finite, negative ratio, and that is modelled.
- Ranking.Priced: the ranking requires every price to be non-zero, because every entry carries its ratio. This is stricter than the source in three of the four modes. In cheapest, shortest and weekend order the source never compares the ratios, so it ranks a free offer without trouble. The model leaves out only that case: a zero-priced offer in those modes.
- Schemas.ApplyIntentSchema: zod's `.length(3)` counts UTF-16 code units, while the model counts characters. A code with a character outside the Basic Multilingual Plane, which takes two code units, is therefore judged differently.
- Schemas.SegmentValid: the same difference applies to the three-letter endpoints and the two-letter carrier.
- Rewards.RatePer100Km: keys inherited from the object prototype (such as "toString") are not modelled as table hits.
- PromptParse.BudgetOf: `Number()` of a long digit string loses precision in the source. The model reads the digits exactly.
- OfferCards.MinutesToHhMm: durations are whole minutes. A fractional `min` (floating-point `%`) is not modelled.
- Rationale's `mode` is the ranking enum. Any other string would reach the "Cheapest in set" branch in the source but cannot occur after the body schema.
- `rankOffers(...) || []` is not modelled: that fallback is unreachable because `mode` is one of the four enum values.
- The regular expressions are not modelled by a general engine.
  - The keyword test is a scan for four fixed words.
  - The budget pattern is a dedicated scanner, proved against a declarative description of what the pattern matches.
  - Case-insensitive matching is ASCII folding. In non-unicode mode JavaScript never folds a non-ASCII character onto an ASCII letter, so this is exact for the pattern letters.

## Findings

| source | as written | input that shows it | evidently intended | confidence | as-written member | corrected member |
|---|---|---|---|---|---|---|
| api/src/ranking.ts:21 | the weekend comparator subtracts `Number` of the two flags, which is NaN when a flag is absent; the sort reads NaN as "equal" | three offers flagged true, absent and false: the absent one ties with both others, yet true sorts before false, so no consistent order exists and the engine may return any order | an absent flag ranks like `false`: weekend-fit offers first, input order kept otherwise | not executed | Ranking.WeekendComparatorInconsistent | Ranking.RankedWeekend |
