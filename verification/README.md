# Reflxy core, modelled in Dafny

Reflxy is a writing assistant. It scores a message for clarity, warmth and
emotional risk, turns those scores into suggestions, and over a user's
history looks for a recurring behavioural pattern to report as an "insight".
This project models the logic behind those features, together with the small
rules around them. Each source file has its own module:

- `PatternInsight` (`lib/pattern-insight.ts`) is the pattern-insight engine.
  - It counts words and projects risk one week out.
  - It aggregates a window of analyses into `PatternStats`.
  - It evaluates four hypotheses: temporal drift, message length, scenario
    divergence and score consistency.
  - It picks one candidate, avoiding a repeat of the previous pattern type.
- `Stats` holds that file's statistics helpers: mean, standard deviation,
  Pearson correlation, rounding to a step, and percentile.
- `PatternRoute` (`app/api/insights/pattern/route.ts`) is the endpoint's
  decision logic.
  - It covers the sample window, the strength floor and the normalisation of
    the cached type.
  - It covers the cache-replacement rule and the acceptance of a rewritten
    insight.
- `Analysis` (`lib/analysis.ts`) is the result sanitiser.
  - It covers score clamping, the fallback summary and suggestion softening,
    which always yield exactly three suggestions.
  - It also covers the per-scenario score weights and the keyword heuristic.
- `Ripple` (`components/app/ripple-visualization.tsx`) is the three-point time
  projection of the scores and the tone words.
- `WeeklyInsights` (`lib/weekly-insights.ts`) covers:
  - the UTC Monday that starts a week, including `Date.UTC`'s reading of the
    years 0 to 99 as 1900 to 1999, which moves the result of such a date into
    the twentieth century;
  - the 32-bit string hash of its ISO string and the template that hash selects;
  - the plain-text body of the weekly email.
- `RateLimit` (`lib/rate-limit.ts`) is the in-memory fixed-window limiter, as a
  state machine, and the client-address rule.
- `PdfExport` (`app/api/export/pdf/route.ts`) is the greedy 78-column word
  wrap and the 800-character message cut.
- `EmailConfig` (`lib/email-config.ts`) classifies the `EMAIL_SERVER` value.
- `Subscription` (`lib/subscription.ts`) and `StripeWebhook`
  (`app/api/stripe/webhook/route.ts`) cover the entitlement predicate and the
  status-to-tier mapping that writes the rows it reads.
- `Text`, `Numeric` and `Wrappers` are shared support:
  - `Text` holds ASCII whitespace, trimming, splitting and case;
  - `Numeric` holds `Math.round`, clamping, 32-bit wrap and the square-root
    laws;
  - `Wrappers` holds `Option`.

Modelling choices:

- Numbers are exact. Scores are integers, and statistics are `real`.
- `Math.round(x)` is `Floor(x + 0.5)`.
- `Math.sqrt` is a parameter `sqrt: real -> real`. The lemmas that need its
  laws require `Numeric.SqrtLaws`: `sqrt(0) = 0`, non-negative, monotone, and
  `sqrt(x) * sqrt(x) = x` for `x >= 0`.
- JavaScript numbers that may be NaN or infinite (`clampScore`'s input) are
  `Analysis.Number`.
- A `Date` is a time value in milliseconds, or the invalid date.
- `x | 0` is `Numeric.ToInt32`, an explicit wrap modulo 2^32.
- Storage, the clock, the language model and the environment are parameters:
  - the user's analyses, newest first;
  - the cached insight row;
  - the model's reply;
  - `now`;
  - the `EMAIL_SERVER` value.

`computeRiskWeek` adds at least 12 to any risk of at most 88
(`lib/pattern-insight.ts:91`). So for such histories `riskDelta >= 12`, and
the temporal candidate always fires (`PatternInsight.TemporalFiresForLowRisk`).

## Model

| member | source | states |
|---|---|---|
| Numeric.Round | components/app/ripple-visualization.tsx:141 | `Math.round` lands within half a unit of its argument, rounding halves up |
| Numeric.RoundMonotone | components/app/ripple-visualization.tsx:141 | rounding never reverses the order of two values |
| Numeric.ClampReal | lib/pattern-insight.ts:41-42 | `clamp` lies in [lo, hi] when lo <= hi, is the value itself when it is already in range, and is otherwise one of the two bounds |
| Numeric.ClampInt | components/app/ripple-visualization.tsx:123-124 | the same clamp on integers |
| Numeric.ClampRealMonotone | lib/pattern-insight.ts:41-42 | clamping preserves order |
| Numeric.ClampIntMonotone | components/app/ripple-visualization.tsx:123-124 | the integer clamp preserves order |
| Numeric.ToInt32 | lib/weekly-insights.ts:30 | the bitwise-or with 0 gives the unique signed 32-bit value congruent to x modulo 2^32, and leaves 32-bit values alone |
| Stats.Mean | lib/pattern-insight.ts:44-45 | the mean of no values is 0 |
| Stats.MeanBounds | lib/pattern-insight.ts:44-45 | the mean of values that all lie in [lo, hi] lies in [lo, hi] |
| Stats.MeanConstant | lib/pattern-insight.ts:44-45 | the mean of a constant sequence is that constant |
| Stats.StdDev | lib/pattern-insight.ts:47-53 | the standard deviation of no values is 0 |
| Stats.StdDevConstant | lib/pattern-insight.ts:47-53 | a constant sequence has standard deviation 0 |
| Stats.StdDevNonNegative | lib/pattern-insight.ts:47-53 | the standard deviation is never negative |
| Stats.Pearson | lib/pattern-insight.ts:55-71 | the correlation is 0 when the lengths differ or there are fewer than 3 points |
| Stats.CoDeviationSymmetric | lib/pattern-insight.ts:62-68 | the accumulated product of deviations does not depend on which series comes first |
| Stats.CoDeviationIsSquares | lib/pattern-insight.ts:62-68 | the co-deviation of a series with itself is its sum of squared deviations, so numerator and denominators share one accumulation |
| Stats.PearsonSymmetric | lib/pattern-insight.ts:55-71 | the correlation is symmetric in its two arguments |
| Stats.PearsonZeroSpread | lib/pattern-insight.ts:69-70 | when either sum of squared deviations is 0 the correlation is 0 |
| Stats.PearsonConstant | lib/pattern-insight.ts:55-71 | correlating against a constant series gives 0 |
| Stats.RoundToNearest | lib/pattern-insight.ts:73-74 | `roundToNearest` returns a multiple of the step within half a step of the value |
| Stats.SortAsc | lib/pattern-insight.ts:78 | the numeric sort is ascending and a permutation of its input |
| Stats.PercentileIndex | lib/pattern-insight.ts:79 | the clamped index is in range, is the first position for p <= 0 and the last for p >= 1 |
| Stats.Percentile | lib/pattern-insight.ts:76-81 | the percentile of no values is 0; otherwise it is one of the values |
| Stats.PercentileExtremes | lib/pattern-insight.ts:76-81 | p <= 0 gives the minimum and p >= 1 gives the maximum |
| Stats.PercentileBetween | lib/pattern-insight.ts:76-81 | the percentile of values in [lo, hi] lies in [lo, hi] |
| Stats.MeanPermutation | lib/pattern-insight.ts:44-45 | reordering the records does not change the mean of a projected field |
| Stats.StdDevPermutation | lib/pattern-insight.ts:47-53 | reordering the records does not change the standard deviation of a projected field |
| Stats.PearsonPermutation | lib/pattern-insight.ts:55-71 | reordering the records does not change the correlation of two projected fields |
| Text.Trim | lib/pattern-insight.ts:84 | `trim()` yields a string with no whitespace at either end, no longer than its input |
| Text.TrimIsSlice | lib/pattern-insight.ts:84 | the trimmed string is the slice of its input left after removing the whitespace at both ends: the removed prefix and suffix are all whitespace |
| Text.TrimIdempotent | lib/pattern-insight.ts:84 | trimming twice is trimming once |
| Text.TrimOfTrimmed | lib/pattern-insight.ts:84 | a string with no outer whitespace is its own trim |
| Text.SplitWs | lib/pattern-insight.ts:84 | `split(/\s+/)` yields at least one piece, none containing whitespace |
| Text.SplitWsJoin | lib/pattern-insight.ts:84 | joining the pieces with single spaces gives the input with every whitespace run collapsed to one space: no character is lost or reordered, and consecutive pieces were separated by whitespace |
| Text.SplitCountsWords | lib/pattern-insight.ts:84 | the non-empty pieces of the split are exactly the word starts of the string, counted character by character |
| Text.SplitTrimmedHasNoEmpty | lib/pattern-insight.ts:84 | splitting a non-empty trimmed string yields no empty piece |
| Text.ToUpper | lib/subscription.ts:22 | after `toUpperCase` no lower-case ASCII letter remains; every other character is unchanged and each lower-case letter becomes its upper-case partner, 32 code points lower |
| Text.ToUpperIdempotent | app/api/stripe/webhook/route.ts:10-11 | upper-casing twice is upper-casing once |
| Text.LowerOfUpper | app/api/stripe/webhook/route.ts:10-11 | upper-casing loses nothing but case: lower-casing the result is lower-casing the input |
| PatternInsight.CountWordsIsWordStarts | lib/pattern-insight.ts:83-84 | `countWords` equals the number of word starts in the text, so it counts words independently of leading and trailing whitespace |
| PatternInsight.RiskWeekDelta | lib/pattern-insight.ts:91 | for in-range scores the rounded one-week delta lies in [12, 44] |
| PatternInsight.ComputeRiskWeek | lib/pattern-insight.ts:86-93 | the projected risk lies in [0, 100], and for in-range scores is at least `risk` and at least `min(100, risk + 12)` |
| PatternInsight.ScenarioCount | lib/pattern-insight.ts:122-130 | a scenario's count never exceeds the number of samples |
| PatternInsight.ScenarioCountIsSum | lib/pattern-insight.ts:122-130 | the count is the sum of an indicator over the samples whose lower-cased tag is that key |
| PatternInsight.ScenarioCountsBounded | lib/pattern-insight.ts:122-130 | the three scenario counts sum to at most the number of samples |
| PatternInsight.ScenarioEntry | lib/pattern-insight.ts:132-139 | an entry's count is its scenario count, and an unused scenario stays all-zero |
| PatternInsight.ScenarioAveragesOf | lib/pattern-insight.ts:116-139 | every key's entry carries its count and is all-zero when the count is 0 |
| PatternInsight.ComputePatternStats | lib/pattern-insight.ts:107-161 | `count` is the number of samples, the scenario table is the per-key averages, and `riskDelta` is the week average minus the current average |
| PatternInsight.StatsOrderIndependent | lib/pattern-insight.ts:107-161 | every field of the aggregate is independent of the order of the samples |
| PatternInsight.RiskDeltaNonNegative | lib/pattern-insight.ts:141-158 | for in-range scores `riskDelta` is never negative |
| PatternInsight.TemporalFiresForLowRisk | lib/pattern-insight.ts:158-170 | for in-range histories with every risk at most 88, `riskDelta` is at least 12 and the temporal candidate always exists |
| PatternInsight.OpenerCycle | lib/pattern-insight.ts:98-105 | the three openers are distinct and rotate with period 3: two seeds get the same opener exactly when they agree modulo 3 |
| PatternInsight.TemporalFingerprint | lib/pattern-insight.ts:181-184 | the fingerprint says "delayed" exactly when risk grows |
| PatternInsight.LengthFingerprint | lib/pattern-insight.ts:211 | the fingerprint names warmth exactly when warmth was the chosen metric |
| PatternInsight.TemporalCandidate | lib/pattern-insight.ts:169-187 | the temporal candidate exists exactly when `abs(riskDelta) >= 8`; its strength is in [0, 1], it opens with opener 0, and it is "delayed" exactly when `riskDelta > 0` |
| PatternInsight.LengthMetric | lib/pattern-insight.ts:194-196 | warmth is chosen exactly when its correlation is at least as large in magnitude, so warmth wins ties, and the chosen correlation is the larger |
| PatternInsight.LengthThreshold | lib/pattern-insight.ts:199-201 | the word threshold is a multiple of 10 |
| PatternInsight.LengthCandidate | lib/pattern-insight.ts:189-218 | the length candidate exists exactly when `stdWords >= 8` and the larger correlation magnitude is at least 0.35; strength in [0, 1], opener 1, warmth fingerprint exactly when warmth wins |
| PatternInsight.PairMetricCandidate | lib/pattern-insight.ts:234-262 | a pair and metric yield a candidate exactly when the difference is at least 10, with strength `clamp(abs(diff) / 25)`, opener 2, and the higher key really having the higher average |
| PatternInsight.PairCandidates | lib/pattern-insight.ts:229-266 | a pair yields candidates exactly when some metric differs by at least 10 |
| PatternInsight.RowCandidates | lib/pattern-insight.ts:226-267 | one row of the pair loop yields candidates exactly when some later key forms a qualifying pair |
| PatternInsight.AllPairCandidates | lib/pattern-insight.ts:225-268 | the pair loop yields candidates exactly when some pair qualifies |
| PatternInsight.AnyPairQualifiesIff | lib/pattern-insight.ts:225-236 | the recursive pair test is the same as "there exist i < j whose pair qualifies" |
| PatternInsight.RowQualifiesIff | lib/pattern-insight.ts:226-236 | the row test is the same as "some later key forms a qualifying pair" |
| PatternInsight.FirstMaxIndex | lib/pattern-insight.ts:263-265 | the index of a maximum-strength candidate with every earlier candidate strictly weaker |
| PatternInsight.ScanBest | lib/pattern-insight.ts:263-265 | the running best is empty only when nothing was seen, and otherwise was seen |
| PatternInsight.ScanBestIsFirstMax | lib/pattern-insight.ts:224-268 | the strict `>` update keeps the first strongest candidate |
| PatternInsight.ActiveKeys | lib/pattern-insight.ts:220-222 | the scenarios kept for comparison are exactly those with at least two samples, each once |
| PatternInsight.ScenarioCandidate | lib/pattern-insight.ts:220-272 | the scenario candidate exists exactly when at least two scenarios are active and some pair qualifies |
| PatternInsight.ScenarioIsFirstStrongest | lib/pattern-insight.ts:263-270 | the scenario candidate is the first strongest of all pair and metric candidates, in key and metric order |
| PatternInsight.ConsistencyCandidate | lib/pattern-insight.ts:274-290 | the consistency candidate exists exactly when `avgStd <= 7` or `avgStd >= 15`; opener 0 when steady and 2 when variable; "steady" fingerprint exactly when `avgStd <= 7` |
| PatternInsight.Assemble | lib/pattern-insight.ts:167-292 | the four slots concatenate into at most four candidates in hypothesis order, with strengths in [0, 1] |
| PatternInsight.GetPatternCandidates | lib/pattern-insight.ts:163-293 | at most four candidates, in the order temporal, length, scenario, consistency, with strengths in [0, 1] |
| PatternInsight.HasTypeOfCandidates | lib/pattern-insight.ts:163-293 | a type is present in the output exactly when its hypothesis produced a candidate |
| PatternInsight.HasTypeIffSlot | lib/pattern-insight.ts:163-293 | a type appears exactly when its slot is filled |
| PatternInsight.CandidateIsSlot | lib/pattern-insight.ts:163-293 | every output candidate is the one its hypothesis produced, so there is at most one per type |
| PatternInsight.CandidateOpeners | lib/pattern-insight.ts:172-279 | every insight starts with its slot's opener: 0, 1, 2, and for consistency 0 when steady and 2 when variable |
| PatternInsight.TemporalGate | lib/pattern-insight.ts:169-170 | a temporal candidate is in the output exactly when `abs(riskDelta) >= 8` |
| PatternInsight.LengthGate | lib/pattern-insight.ts:189-198 | a length candidate is in the output exactly when `stdWords >= 8` and one correlation magnitude is at least 0.35 |
| PatternInsight.ScenarioGate | lib/pattern-insight.ts:220-272 | a scenario candidate is in the output exactly when two or more scenarios are active and some pair differs by at least 10 |
| PatternInsight.ConsistencyGate | lib/pattern-insight.ts:274-275 | a consistency candidate is in the output exactly when `avgStd <= 7` or `avgStd >= 15` |
| PatternInsight.InsertByStrength | lib/pattern-insight.ts:300 | stable insertion keeps the order by descending strength and adds exactly one element |
| PatternInsight.SortByStrength | lib/pattern-insight.ts:300 | the sort by descending strength is a permutation of its input and is stable: the candidates of each strength keep their input order |
| PatternInsight.InsertKeepsTies | lib/pattern-insight.ts:300 | inserting a candidate puts it ahead of the equal-strength candidates already placed |
| PatternInsight.SortHeadIsFirstMax | lib/pattern-insight.ts:300-301 | the stable sort's head is the first maximum-strength candidate of the input |
| PatternInsight.FindAlternative | lib/pattern-insight.ts:303-306 | `find` returns the first candidate of another type within 90% of the top, and nothing only when there is none |
| PatternInsight.PickPatternCandidate | lib/pattern-insight.ts:295-312 | the pick is empty exactly when there are no candidates, and is otherwise one of them |
| PatternInsight.PickWithoutLastType | lib/pattern-insight.ts:299-311 | with no previous type the pick is the first maximum-strength candidate |
| PatternInsight.PickKeepsFreshTop | lib/pattern-insight.ts:302 | a top candidate of a different type than last time is kept |
| PatternInsight.PickIsTopOrAlternative | lib/pattern-insight.ts:295-312 | the pick is the top candidate, or of another type than last time with strength at least 0.9 of the top |
| PatternInsight.PickAvoidsRepetition | lib/pattern-insight.ts:302-309 | when the top repeats the last type and an alternative exists, the pick changes type and is at least as strong as every alternative |
| PatternInsight.PickIsFirstOfStrongestAlternatives | lib/pattern-insight.ts:300-306 | among the alternatives of the pick's own strength, the pick is the first in input order: ties are broken by input position, as the stable sort and `find` do |
| PatternInsight.FindAlternativeInSorted | lib/pattern-insight.ts:303-306 | in a strength-sorted list, an existing alternative is found and the one found is at least as strong as it |
| PatternRoute.RegenerateAfterThreeNew | app/api/insights/pattern/route.ts:41-43 | three or more new analyses always regenerate |
| PatternRoute.ShouldRegenerateIff | app/api/insights/pattern/route.ts:26-54 | regeneration happens exactly when: there are 3+ new analyses; or the fingerprint changed and strength moved by at least 0.12, with a missing strength read as 0; or a cached type exists, differs, and the new strength beats the cached one by at least 0.1 |
| PatternRoute.TypeChangeNeedsMargin | app/api/insights/pattern/route.ts:50-52 | with a type change and no earlier trigger, the answer is exactly the 0.1 margin test |
| PatternRoute.UnchangedKeepsCache | app/api/insights/pattern/route.ts:44-53 | same fingerprint, same type and fewer than three new analyses keep the cached insight |
| PatternRoute.FetchWindow | app/api/insights/pattern/route.ts:138-141 | the number of analyses read always lies in [10, 20]: the total when it is inside that range, else the nearer bound |
| PatternRoute.Window | app/api/insights/pattern/route.ts:138-146 | the engine sees a prefix of the newest-first history, all of it up to 20 analyses, and 20 beyond that |
| PatternRoute.StrongEnough | app/api/insights/pattern/route.ts:167-169 | exactly the candidates with strength at least 0.35 survive |
| PatternRoute.StrongEnoughKeepsOrder | app/api/insights/pattern/route.ts:167-169 | filtering keeps the hypothesis order |
| PatternRoute.NormalizeLastType | app/api/insights/pattern/route.ts:184-190 | the cached type is kept exactly when it is one of the four known tags |
| PatternRoute.NormalizeTypeTag | app/api/insights/pattern/route.ts:184-190 | every stored type tag reads back as its own type |
| PatternRoute.AcceptRewrite | app/api/insights/pattern/route.ts:113-120 | a non-empty rewrite of at most 220 characters replaces the template text; anything else keeps the template |
| PatternRoute.CountAfter | app/api/insights/pattern/route.ts:176-181 | the count is zero exactly when no analysis is after the cached time and all of them exactly when every one is; on a newest-first history it is the length of the prefix created after that time |
| PatternRoute.NewAnalyses | app/api/insights/pattern/route.ts:174-182 | with no cached row or no cached time, every analysis counts as new; otherwise the count is zero exactly when none is later than the cached time, and on a newest-first history the new ones are exactly the leading analyses created after it |
| PatternRoute.Selected | app/api/insights/pattern/route.ts:166-192 | a selected candidate has strength at least 0.35 |
| PatternRoute.GeneratePatternInsight | app/api/insights/pattern/route.ts:134-225 | fewer than 5 analyses give no insight; a cached answer is the stored insight; a fresh one comes from a selected candidate and records the analysis count and the served text |
| PatternRoute.Respond | app/api/insights/pattern/route.ts:194-223 | no candidate gives no insight; the cache is served as stored; a fresh row records the served insight and the analysis count |
| PatternRoute.RespondFresh | app/api/insights/pattern/route.ts:202-222 | a fresh row stores the candidate's fingerprint, type tag and strength and the newest analysis time, and its text is the template or a rewrite of at most 220 characters |
| PatternRoute.FreshRecordsCandidate | app/api/insights/pattern/route.ts:192-223 | a fresh answer records the selected candidate, whose strength clears the floor, and the newest analysis time |
| PatternRoute.CacheServedIffKept | app/api/insights/pattern/route.ts:198-225 | with a cached row and a selected candidate, the cached insight is served exactly when the rule declines to regenerate, and a new insight is written exactly when it asks to |
| PatternRoute.NoCacheAlwaysFresh | app/api/insights/pattern/route.ts:192-223 | without a cached row the answer is fresh exactly when a candidate was selected |
| Analysis.ClampScore | lib/analysis.ts:11-16 | non-finite input gives 0; otherwise the rounded value clamped to an integer in [0, 100] |
| Analysis.ClampScoreOfScore | lib/analysis.ts:11-16 | an integer score already in [0, 100] is left unchanged |
| Analysis.ClampScoreMonotone | lib/analysis.ts:11-16 | clamping preserves order of finite inputs |
| Analysis.ClarityTone | lib/analysis.ts:19-20 | "solid clarity" exactly above 75 and "low clarity" exactly at 55 or below |
| Analysis.WarmthTone | lib/analysis.ts:21-22 | "warm tone" exactly above 65 and "cool tone" exactly at 45 or below |
| Analysis.RiskTone | lib/analysis.ts:23-24 | "may linger" exactly above 60 and "seems contained" exactly at 40 or below |
| Analysis.BuildSummary | lib/analysis.ts:18-27 | the fallback summary starts with the fixed lead, is trimmed, and fits in 280 characters |
| Analysis.SummaryDependsOnBands | lib/analysis.ts:18-27 | scores in the same three tone bands give the same summary |
| Analysis.SoftenSuggestion | lib/analysis.ts:29-50 | blank input gives ""; the trimmed text is kept when, lower-cased, it starts with an allowed prefix, and otherwise gets "Consider: " prepended |
| Analysis.SoftenIdempotent | lib/analysis.ts:29-50 | softening twice is softening once |
| Analysis.SoftenKeepsHedged | lib/analysis.ts:45-47 | a trimmed, non-empty suggestion that already starts with an allowed phrase is returned unchanged |
| Analysis.ConsiderIsAllowed | lib/analysis.ts:36-49 | the "Consider: " prefix is itself an allowed start, so a softened suggestion is hedged |
| Analysis.Softened | lib/analysis.ts:82-85 | softening and dropping blanks leaves only hedged, trimmed suggestions |
| Analysis.SoftenedOfSoft | lib/analysis.ts:82-85 | a list of already-hedged suggestions passes through unchanged |
| Analysis.SoftenedAppend | lib/analysis.ts:82-85 | the map-and-filter works element by element: softening a concatenation is concatenating the softened parts |
| Analysis.SoftenedSingle | lib/analysis.ts:82-85 | one suggestion yields its softened form, or nothing when that form is blank |
| Analysis.PadSuggestions | lib/analysis.ts:94-96 | padding keeps the kept suggestions in front and fills the rest from the fallbacks by position |
| Analysis.FallbacksAreSoft | lib/analysis.ts:88-92 | every fallback suggestion is hedged |
| Analysis.SanitizeSummary | lib/analysis.ts:79-81 | the summary is the trimmed input cut to 280 characters, or the fallback summary when the input is blank; never empty and never starting with whitespace |
| Analysis.SanitizeSuggestions | lib/analysis.ts:82-96 | exactly three hedged suggestions: the first three non-blank softened inputs in order, then fallbacks |
| Analysis.SanitizeResult | lib/analysis.ts:75-99 | scores are clamped into [0, 100], with the summary and suggestions as above |
| Analysis.SanitizedShape | lib/analysis.ts:75-99 | a sanitised result has three hedged suggestions and a non-empty summary of at most 280 characters |
| Analysis.SanitizeIdempotent | lib/analysis.ts:75-99 | sanitising again keeps scores and suggestions, only trims the summary, and changes nothing when the summary is trimmed |
| Analysis.SanitizeAgain | lib/analysis.ts:75-99 | a result that is already in sanitised shape comes back with only its summary trimmed |
| Analysis.ApplyScenarioWeights | lib/analysis.ts:52-73 | no scenario is plain sanitising; a scenario rescales the three scores by its fixed weights before clamping; a non-blank summary is kept as sanitising keeps it, a blank one is replaced by the summary built from the weighted scores; suggestions are unaffected |
| Analysis.WeightDirection | lib/analysis.ts:60-72 | for an in-range integer score, a weight of at least 1 never lowers it and a weight of at most 1 never raises it |
| Analysis.BossWeightDirections | lib/analysis.ts:60-72 | the boss weights never lower clarity or risk and never raise warmth |
| Analysis.PartnerKeepsRisk | lib/analysis.ts:63-64 | the partner weights leave an in-range risk unchanged |
| Analysis.ClientKeepsWarmth | lib/analysis.ts:65 | the client weights leave an in-range warmth unchanged |
| Analysis.ExtractFeatures | lib/analysis.ts:102-136 | at least one sentence is counted, and no more signal hits than signals |
| Analysis.Hits | lib/analysis.ts:128-133 | the count is zero exactly when no signal occurs in the text, and for a list without repeats it is the number of distinct signals found |
| Analysis.HeuristicScores | lib/analysis.ts:138-149 | raw clarity lies in [32, 84], warmth in [18, 92], risk in [20, 114] |
| Analysis.HeuristicSuggestions | lib/analysis.ts:153-174 | three suggestions; the clarity, warmth or risk one appears exactly when clarity < 60, warmth < 55 or risk > 55, the rest is the intent line |
| Analysis.PadPicked | lib/analysis.ts:153-174 | pushing up to three distinct targeted lines and padding with the intent line gives three lines, each targeted line present exactly when its test held |
| Analysis.HeuristicSuggestionsAreSoft | lib/analysis.ts:153-174 | every heuristic suggestion is hedged |
| Analysis.HeuristicScoresKept | lib/analysis.ts:176-182 | sanitising keeps the heuristic clarity and warmth and caps risk at 100 |
| Analysis.HeuristicSummaryKept | lib/analysis.ts:151 | the heuristic's own summary survives sanitising |
| Analysis.HeuristicSuggestionsKept | lib/analysis.ts:153-182 | the heuristic's suggestions survive sanitising unchanged |
| Analysis.HeuristicAnalysis | lib/analysis.ts:101-183 | the heuristic result has scores in [0, 100] and three suggestions |
| Analysis.HeuristicOutcome | lib/analysis.ts:101-183 | end to end: scores as computed (risk capped at 100), the tone summary, and each targeted suggestion exactly under its threshold |
| Ripple.DescribeScore | components/app/ripple-visualization.tsx:126-134 | the tone word per score, with strict thresholds >75/>55, >70/>45 and >60/>40 |
| Ripple.Adjust | components/app/ripple-visualization.tsx:137 | an adjusted score is in [0, 100], and is the plain sum when that is in range |
| Ripple.AdjustMonotone | components/app/ripple-visualization.tsx:137 | a larger adjustment never gives a smaller score |
| Ripple.BuildTimepoints | components/app/ripple-visualization.tsx:136-175 | three points named Now, 24 hours and 1 week; Now is the input and the projections are in range |
| Ripple.DriftsGrow | components/app/ripple-visualization.tsx:151-173 | for in-range scores every drift is non-negative and the week's drift is at least the day's |
| Ripple.TimepointsInRange | components/app/ripple-visualization.tsx:151-173 | every point of a projection of in-range scores is in range |
| Ripple.TimepointsDrift | components/app/ripple-visualization.tsx:151-173 | from now to a day to a week, clarity and warmth never rise and risk never falls |
| Ripple.RenderTimepoints | components/app/ripple-visualization.tsx:188-191 | after clamping the props, all three points are in range and drift monotonically |
| Ripple.WeekRiskAtMostRiskWeek | components/app/ripple-visualization.tsx:172 | for in-range integer scores the ripple's one-week risk is never above `computeRiskWeek`, which adds a risk term |
| Ripple.WeekRiskDiverges | components/app/ripple-visualization.tsx:172 | the two projections differ: full clarity and warmth with risk 50 give 62 in the ripple and 65 in `computeRiskWeek` |
| WeeklyInsights.MakeDate | lib/weekly-insights.ts:20-22 | `Date.UTC` gives a valid date exactly inside the time-value range |
| WeeklyInsights.WeekDay | lib/weekly-insights.ts:18 | `getUTCDay` lies in [0, 6] |
| WeeklyInsights.WeekDayAnchor | lib/weekly-insights.ts:18 | the epoch is a Thursday (4), 5 January 1970 a Monday (1), and weekdays repeat every seven days |
| WeeklyInsights.MondayOffset | lib/weekly-insights.ts:19 | the day offset lies in [-6, 0] and lands on a Monday; Sunday goes back 6 |
| WeeklyInsights.DateUtc | lib/weekly-insights.ts:20-22 | `Date.UTC(y, m, d)` is the midnight of that civil day, with a year 0..99 read as 1900..1999, and is always valid for such a year |
| WeeklyInsights.AddUtcDate | lib/weekly-insights.ts:23 | `setUTCDate(getUTCDate() + diff)` keeps the time of day and moves the date by exactly `diff` days, across month and year ends |
| WeeklyInsights.GetWeekStartUtc | lib/weekly-insights.ts:17-25 | the week start is a UTC midnight; outside years 0..99 it is the midnight of the Monday 0 to 6 days before the input's day (6 for a Sunday), valid whenever that midnight is in range; in years 0..99 it is the original weekday's offset applied to the same month and day 1900 years later; invalid in, invalid out |
| WeeklyInsights.WeekStartIsUnique | lib/weekly-insights.ts:17-25 | outside years 0..99, the week start is the only Monday midnight within the six days before the date |
| WeeklyInsights.WeekStartIdempotent | lib/weekly-insights.ts:17-25 | when neither the date nor its week start lies in years 0..99, taking the week start twice is taking it once |
| WeeklyInsights.TwoDigitYearWeekStart | lib/weekly-insights.ts:18-23 | for Saturday 1 January of the year 50 the source returns Tuesday 27 December 1949, not a Monday |
| WeeklyInsights.HashFold | lib/weekly-insights.ts:28-31 | the loop's hash stays a signed 32-bit value |
| WeeklyInsights.HashFoldIsWrappedPoly | lib/weekly-insights.ts:28-31 | the wrapping loop equals the exact polynomial hash `sum c_i * 31^(n-1-i)` reduced to 32 bits |
| WeeklyInsights.HashSeed | lib/weekly-insights.ts:27-33 | the seed is the absolute value of the 32-bit hash, hence non-negative and at most 2^31 |
| WeeklyInsights.HashSeedLoop | lib/weekly-insights.ts:27-33 | the imperative loop computes the seed |
| WeeklyInsights.YearOfEra | lib/weekly-insights.ts:36 | the year within a 400-year era is in range and its first day is at most 365 days before the given one |
| WeeklyInsights.CivilFromDays | lib/weekly-insights.ts:36 | the calendar date of a day number has a month in 1..12 and a day in 1..31 |
| WeeklyInsights.CivilRoundTrip | lib/weekly-insights.ts:36 | converting a day number to a calendar date and back gives the day number |
| WeeklyInsights.EpochDate | lib/weekly-insights.ts:36 | day 0 is 1970-01-01 |
| WeeklyInsights.LeapDay2000 | lib/weekly-insights.ts:36 | day 11016 is 2000-02-29 |
| WeeklyInsights.DayBeforeEpoch | lib/weekly-insights.ts:36 | day -1 is 1969-12-31, so dates before the epoch convert correctly |
| WeeklyInsights.ToIsoString | lib/weekly-insights.ts:36 | `toISOString` has a value exactly for valid dates (it throws otherwise); for years 0 to 9999 it is 24 characters with `-`, `-`, `T`, `:`, `:`, `.`, `Z` at positions 4, 7, 10, 13, 16, 19 and 23 |
| WeeklyInsights.EpochIsoString | lib/weekly-insights.ts:36 | time 0 renders as `1970-01-01T00:00:00.000Z` |
| WeeklyInsights.IsoOfMidnight | lib/weekly-insights.ts:36 | a valid midnight, such as every week start, renders as its calendar day followed by `T00:00:00.000Z` |
| WeeklyInsights.PickTemplateIndex | lib/weekly-insights.ts:36-37 | the index lies in [0, templates.length), and exists exactly for a valid week start |
| WeeklyInsights.PickTemplateForWeek | lib/weekly-insights.ts:35-39 | the template is one of the catalogue's |
| WeeklyInsights.SameWeekSameTemplate | lib/weekly-insights.ts:35-39 | two dates of the same week outside years 0..99 get the same template |
| WeeklyInsights.JournalLines | lib/weekly-insights.ts:87-95 | the journal lines appear exactly when there is a post, as three lines after a blank one |
| WeeklyInsights.BodyLines | lib/weekly-insights.ts:66-85 | the fixed part of the body is 20 lines and opens with the headline |
| WeeklyInsights.TextLines | lib/weekly-insights.ts:66-97 | the body has 25 lines with a post and 22 without, opens with the headline and ends with a blank line and the unsubscribe line |
| WeeklyInsights.BuildWeeklyInsightsEmail | lib/weekly-insights.ts:177-181 | the subject is "Your weekly Reflxy reset"; the text starts with the headline and ends with "Unsubscribe: <url>" |
| RateLimit.Evict | lib/rate-limit.ts:47-54 | the sweep runs only above 5000 keys, removes only expired entries and leaves the others untouched |
| RateLimit.MemoryLimit | lib/rate-limit.ts:46-77 | a key with no live window opens one and is allowed; inside a window the count rises by one with a fixed reset, allowed exactly while within the limit; `remaining` is never negative; other keys are touched only by the sweep |
| RateLimit.DeniedStaysDenied | lib/rate-limit.ts:67-76 | once a call is denied, every later call in the same window is denied with the same reset |
| RateLimit.Run | lib/rate-limit.ts:57-76 | for a run of calls within one window, call i is allowed exactly when it is the first or i + 1 <= limit |
| RateLimit.FirstField | lib/rate-limit.ts:82 | `split(",")[0]` is the longest comma-free prefix of the header |
| RateLimit.GetClientIp | lib/rate-limit.ts:79-85 | a non-empty forwarded header gives its trimmed first entry; otherwise the real-ip header, else "unknown" |
| RateLimit.FirstEntry | lib/rate-limit.ts:82 | the trimmed first entry is trimmed, has no comma, and is the whole trimmed header when there is no comma |
| PdfExport.WrapLines | app/api/export/pdf/route.ts:10-32 | no line is empty, and a line longer than the width is a single input word |
| PdfExport.LinesFit | app/api/export/pdf/route.ts:15-29 | the loop keeps every finished line non-empty and either short enough or one whole word |
| PdfExport.WrapKeepsWords | app/api/export/pdf/route.ts:15-29 | the loop loses and reorders no word: joined with spaces, its output equals the pending text followed by the remaining words |
| PdfExport.WrapLinesKeepsWords | app/api/export/pdf/route.ts:10-32 | for text without outer whitespace, the lines joined with single spaces equal the words joined with single spaces |
| PdfExport.WrapLinesEmpty | app/api/export/pdf/route.ts:10-32 | no lines come out exactly when the text is all whitespace |
| PdfExport.TrailingBlankKept | app/api/export/pdf/route.ts:11-16 | a trailing space survives on the last line, because the split yields an empty last word |
| PdfExport.WrapGreedy | app/api/export/pdf/route.ts:15-25 | the loop is greedy: no line could also have taken the first word of the next |
| PdfExport.WrapLinesGreedy | app/api/export/pdf/route.ts:10-32 | the wrap is greedy over the whole text |
| PdfExport.SummaryLines | app/api/export/pdf/route.ts:86 | a missing summary is wrapped as ""; lines are non-empty and fit or are single words |
| PdfExport.MessageLines | app/api/export/pdf/route.ts:90 | only the first 800 characters are wrapped, so no line exceeds 800 characters |
| EmailConfig.ResolveEmailServer | lib/email-config.ts:9-36 | unset or blank gives nothing. Bare `user:pass@host` gets "smtp://" prepended. A smtp(s) URL is returned as is. An "SG." key becomes SendGrid options (smtp.sendgrid.net, 587, not secure, user "apikey"). Anything else is returned trimmed |
| EmailConfig.TrimEmptyIffBlank | lib/email-config.ts:10-13 | trimming leaves nothing exactly when the value is all whitespace |
| EmailConfig.ResolvedUrlIsStable | lib/email-config.ts:9-36 | every URL the classifier returns resolves to itself again |
| EmailConfig.BareCheckComesFirst | lib/email-config.ts:15-23 | an "SG." value holding '@' and ':' becomes an smtp URL, because the bare check runs first |
| Subscription.IsPremiumActive | lib/subscription.ts:17-27 | a missing row is never premium; premium needs the exact tier "PREMIUM" and an upper-cased status of ACTIVE or TRIALING |
| Subscription.StatusCaseIgnored | lib/subscription.ts:22 | the status comparison ignores case |
| Subscription.TierCaseMatters | lib/subscription.ts:24 | a lower-case "premium" tier is never premium |
| Subscription.OtherStatusNotPremium | lib/subscription.ts:22-26 | any status other than ACTIVE or TRIALING, in any case, is not premium |
| Subscription.PastDueNotPremium | lib/subscription.ts:22-26 | a PAST_DUE row is not premium whatever its tier |
| StripeWebhook.ToSubscriptionStatus | app/api/stripe/webhook/route.ts:10-11 | the stored status is the upper-cased Stripe status: each lower-case letter replaced by its upper-case partner and every other character unchanged, so it agrees with the input up to case and is a fixed point of upper-casing |
| StripeWebhook.ToTier | app/api/stripe/webhook/route.ts:13-16 | the tier is "PREMIUM" or "FREE", "PREMIUM" exactly for ACTIVE, TRIALING and PAST_DUE |
| StripeWebhook.SubscriptionUpdate | app/api/stripe/webhook/route.ts:48-58 | a subscription event writes the upper-cased status and the tier derived from it |
| StripeWebhook.WrittenRowEntitlement | app/api/stripe/webhook/route.ts:48-58 | a written row is premium-active exactly when its status is ACTIVE or TRIALING, and then its tier is PREMIUM |
| StripeWebhook.PastDueKeepsTierNotAccess | app/api/stripe/webhook/route.ts:14 | a written row has tier PREMIUM yet no access exactly when its status is PAST_DUE |
| StripeWebhook.CheckoutCreate | app/api/stripe/webhook/route.ts:87-94 | the row a completed checkout creates does not have the PREMIUM tier and is never premium-active |

## Left out

- Stats.Pearson: the bound `|corr| <= 1` is not stated. It needs the Cauchy–Schwarz inequality over the square-root laws.
- Square roots, and IEEE-754 rounding in general, are not computed. `Math.sqrt` is a parameter, and arithmetic is exact.
- Metadata values rounded with `toFixed(2)` are kept exact. They only feed audit metadata, never a decision.
- The scenario loop at `lib/pattern-insight.ts:124` checks membership with `in`, which also accepts inherited property names. The model counts only the three keys, which is what the code intends.
- Insight sentences after the opener are not modelled character by character. They are fixed phrasing, and the contracts cover the opener and the fingerprint kind.
- Database access, sessions, cookies and the HTTP responses of every route are left out. They are I/O; the routes' decisions are modelled over parameters.
- The language-model call of the insight route is reduced to an optional reply string. A failed or missing call is `None`.
- Stripe SDK calls and webhook signature checking are left out. They are foreign code. So is the match-by-customer-then-upsert order of the writes.
- The Upstash remote limiter (`getLimiter` and the remote branch of `checkRateLimit`) is left out. It is a network service.
- The `source` tag of a rate-limit result is dropped. It is always "memory" on the modelled path.
- PDF drawing (fonts, coordinates, page size) is left out. It is rendering; only the text lines are modelled.
- The HTML body of the weekly email and `formatDate` are left out. `formatDate` is a parameter, because it is locale formatting.
- The template catalogue is a parameter. It must be non-empty, as the static list in the source is; only its length and membership matter.
- Ring spacing and SVG geometry of the ripple are left out. They are presentational layout.
- `hashSeed` reads UTF-16 code units, and `Text` treats a `char` as one unit. ISO date strings are ASCII, so this does not matter for the hashed input.
- String lengths count characters, while JavaScript's `.length` and `.slice` count UTF-16 code units. A character outside the Basic Multilingual Plane (an emoji) counts twice in the source and once in the model. This shifts four length tests:
  - the 220-character limit on a rewritten insight (`app/api/insights/pattern/route.ts:113`): a reply of 150 emoji has length 300 in the source and is rejected, but the model accepts it;
  - the 280-character summary cut (`lib/analysis.ts:81`);
  - the 800-character message cut (`app/api/export/pdf/route.ts:90`);
  - the 78-column wrap (`app/api/export/pdf/route.ts:17`).
- Whitespace is the ASCII set and case mapping is ASCII only. JavaScript's Unicode whitespace and case tables are not modelled.
- Analysis.SanitizeIdempotent: states that a second sanitising pass is the identity only when the summary is trimmed. A 280-character cut can end in whitespace, which the second pass trims. So the source is not idempotent in general, and the lemma states exactly what it does.
- `sanitizeResult` drops non-string suggestion entries. The model's suggestions are strings already, and a missing list or summary is the empty one.
- `heuristicAnalysis`'s regular expressions are modelled by hand, using the ASCII classes:
  - `\s+` becomes `Text.SplitWs`;
  - `[.!?]` becomes `Analysis.SplitSentences`;
  - `[A-Z]{3,}` becomes `Analysis.HasCapsRun`.
- WeeklyInsights.GetWeekStartUtc: the Monday properties hold only for dates outside years 0..99. `Date.UTC` reads those years as 1900 to 1999, so the source's result there is a date about 1900 years later and usually not a Monday (WeeklyInsights.TwoDigitYearWeekStart). The only caller passes the current time.
- WeeklyInsights.WeekStartIsUnique: requires a date outside years 0..99, for the same reason.
- WeeklyInsights.WeekStartIdempotent: holds only when neither the date nor its week start lies in years 0..99. A date in the first days of the year 100 can have its week start in the year 99.
- WeeklyInsights.SameWeekSameTemplate: requires both dates outside years 0..99, for the same reason.
- The seed fixtures and the command-line scripts are left out. They are not part of the running logic.
