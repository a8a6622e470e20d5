/**
 * The pattern-insight engine of `lib/pattern-insight.ts`: word counting, the
 * one-week risk projection, the `PatternStats` aggregate over a window of
 * analyses, the four pattern hypotheses (temporal, length, scenario,
 * consistency) and the selector with its anti-repetition rule.
 */
module PatternInsight {
  import opened Wrappers
  import opened Numeric
  import opened Text
  import opened Stats

  /** One stored analysis. Scores are the integers the analyzer produced. */
  datatype Sample = Sample(
    clarity: int,
    warmth: int,
    risk: int,
    text: string,
    scenario: Option<string>,
    createdAt: int)

  datatype ScenarioKey = Boss | Partner | Client

  /** The keys in the order the aggregate lists them. */
  const ScenarioKeys: seq<ScenarioKey> := [Boss, Partner, Client]

  function KeyName(k: ScenarioKey): string {
    match k
    case Boss => "boss"
    case Partner => "partner"
    case Client => "client"
  }

  /** `scenarioLabel`: the plural used in scenario insights. */
  function ScenarioLabel(k: ScenarioKey): string {
    match k
    case Boss => "bosses"
    case Partner => "partners"
    case Client => "clients"
  }

  datatype ScenarioAverage = ScenarioAverage(count: nat, clarity: real, warmth: real, risk: real)

  datatype ScenarioAverages = ScenarioAverages(boss: ScenarioAverage, partner: ScenarioAverage, client: ScenarioAverage) {
    function Get(k: ScenarioKey): ScenarioAverage {
      match k
      case Boss => boss
      case Partner => partner
      case Client => client
    }
  }

  datatype PatternStats = PatternStats(
    count: nat,
    avgClarity: real,
    avgWarmth: real,
    avgRisk: real,
    avgWords: real,
    stdClarity: real,
    stdWarmth: real,
    stdRisk: real,
    stdWords: real,
    corrWordsClarity: real,
    corrWordsWarmth: real,
    riskNowAvg: real,
    riskWeekAvg: real,
    riskDelta: real,
    scenarioAverages: ScenarioAverages)

  datatype PatternType = Temporal | Length | Scenario | Consistency

  /** The tag stored for a pattern type. */
  function TypeTag(t: PatternType): string {
    match t
    case Temporal => "temporal"
    case Length => "length"
    case Scenario => "scenario"
    case Consistency => "consistency"
  }

  /** Position of a hypothesis in the generator's fixed evaluation order. */
  function Rank(t: PatternType): nat {
    match t
    case Temporal => 0
    case Length => 1
    case Scenario => 2
    case Consistency => 3
  }

  datatype Metric = Clarity | Warmth | Risk

  function MetricName(m: Metric): string {
    match m
    case Clarity => "clarity"
    case Warmth => "warmth"
    case Risk => "risk"
  }

  /** The numbers and labels behind a candidate, kept for audit. */
  datatype Metadata =
    | TemporalMeta(temporalDiff: real)
    | LengthMeta(corr: real, threshold: int)
    | ScenarioMeta(diff: real, metric: Metric, higher: ScenarioKey, lower: ScenarioKey)
    | ConsistencyMeta(avgStd: real)

  datatype Candidate = Candidate(
    patternType: PatternType,
    insight: string,
    strength: real,
    fingerprint: string,
    metadata: Metadata)

  // ---------------------------------------------------------------------------
  // Per-sample helpers

  /** `countWords`: the number of whitespace-separated words of the trimmed text. */
  function CountWords(text: string): nat {
    var t := Trim(text);
    if |t| > 0 then |SplitWs(t)| else 0
  }

  /** Word counting agrees with the character-by-character count of word starts. */
  lemma CountWordsIsWordStarts(text: string)
    ensures CountWords(text) == WordStarts(text, true)
  {
    var s := TrimStart(text);
    var t := TrimEnd(s);
    assert t == Trim(text);
    TrimStartWordStarts(text);
    TrimEndWordStarts(s, true);
    if |t| > 0 {
      SplitTrimmedHasNoEmpty(t);
      SplitCountsWords(t);
    }
  }

  /** The rounded one-week drift added to risk by `computeRiskWeek`. */
  function RiskWeekDelta(clarity: int, warmth: int, risk: int): (delta: int)
    ensures clarity <= 100 && warmth <= 100 && risk >= 0 ==> delta >= 12
    ensures 0 <= clarity && 0 <= warmth && risk <= 100 ==> delta <= 44
  {
    var clarityDrift := (100 - clarity) as real / 100.0;
    var warmthDrift := (100 - warmth) as real / 100.0;
    var riskAmplify := risk as real / 100.0;
    Round(12.0 + clarityDrift * 14.0 + warmthDrift * 12.0 + riskAmplify * 6.0)
  }

  /** `computeRiskWeek`: the risk projected one week out, clamped to [0, 100]. */
  function ComputeRiskWeek(clarity: int, warmth: int, risk: int): (r: int)
    ensures 0 <= r <= 100
    ensures 0 <= clarity <= 100 && 0 <= warmth <= 100 && 0 <= risk <= 100 ==> r >= risk
    ensures 0 <= clarity <= 100 && 0 <= warmth <= 100 && 0 <= risk <= 100 ==> r >= ClampInt(risk + 12, 0, 100)
  {
    ClampInt(risk + RiskWeekDelta(clarity, warmth, risk), 0, 100)
  }

  /**
   * The lower-cased scenario tag, when it names one of the three keys.
   * A missing or empty tag, and any other text, yield no key.
   */
  function SampleKey(s: Sample): Option<ScenarioKey> {
    match s.scenario
    case None => None
    case Some(tag) =>
      var lower := ToLower(tag);
      if lower == "boss" then Some(Boss)
      else if lower == "partner" then Some(Partner)
      else if lower == "client" then Some(Client)
      else None
  }

  function ClarityOf(s: Sample): real { s.clarity as real }
  function WarmthOf(s: Sample): real { s.warmth as real }
  function RiskOf(s: Sample): real { s.risk as real }
  function WordsOf(s: Sample): real { CountWords(s.text) as real }
  function RiskWeekOf(s: Sample): real { ComputeRiskWeek(s.clarity, s.warmth, s.risk) as real }
  function One(s: Sample): real { 1.0 }

  /** A per-sample value, counted only for samples of scenario `k`. */
  function Masked(k: ScenarioKey, f: Sample -> real): Sample -> real {
    s => if SampleKey(s) == Some(k) then f(s) else 0.0
  }

  /** The number of samples whose lower-cased tag is scenario `k`. */
  function ScenarioCount(samples: seq<Sample>, k: ScenarioKey): (n: nat)
    ensures n <= |samples|
  {
    if samples == [] then 0
    else (if SampleKey(samples[0]) == Some(k) then 1 else 0) + ScenarioCount(samples[1..], k)
  }

  /** The masked value of one sample. */
  lemma MaskedAt(k: ScenarioKey, f: Sample -> real, s: Sample)
    ensures Masked(k, f)(s) == if SampleKey(s) == Some(k) then f(s) else 0.0
  {
  }

  lemma {:induction false} ScenarioCountIsSum(samples: seq<Sample>, k: ScenarioKey)
    ensures ScenarioCount(samples, k) as real == SumOf(samples, Masked(k, One))
  {
    if samples != [] {
      ScenarioCountIsSum(samples[1..], k);
      MaskedAt(k, One, samples[0]);
      assert One(samples[0]) == 1.0;
    }
  }

  /** The three scenario counts together never exceed the number of samples. */
  lemma {:induction false} ScenarioCountsBounded(samples: seq<Sample>)
    ensures ScenarioCount(samples, Boss) + ScenarioCount(samples, Partner) + ScenarioCount(samples, Client)
         <= |samples|
  {
    if samples != [] {
      ScenarioCountsBounded(samples[1..]);
    }
  }

  /** One entry of `scenarioAverages`: count and mean scores, all zero when unused. */
  function ScenarioEntry(samples: seq<Sample>, k: ScenarioKey): (e: ScenarioAverage)
    ensures e.count == ScenarioCount(samples, k)
    ensures e.count == 0 ==> e == ScenarioAverage(0, 0.0, 0.0, 0.0)
  {
    var n := ScenarioCount(samples, k);
    if n > 0 then
      ScenarioAverage(
        n,
        SumOf(samples, Masked(k, ClarityOf)) / n as real,
        SumOf(samples, Masked(k, WarmthOf)) / n as real,
        SumOf(samples, Masked(k, RiskOf)) / n as real)
    else ScenarioAverage(0, 0.0, 0.0, 0.0)
  }

  /** The per-scenario block of the aggregate. */
  function ScenarioAveragesOf(samples: seq<Sample>): (r: ScenarioAverages)
    ensures forall k: ScenarioKey :: r.Get(k).count == ScenarioCount(samples, k)
    ensures forall k: ScenarioKey :: r.Get(k).count == 0 ==> r.Get(k) == ScenarioAverage(0, 0.0, 0.0, 0.0)
  {
    ScenarioAverages(ScenarioEntry(samples, Boss), ScenarioEntry(samples, Partner), ScenarioEntry(samples, Client))
  }

  /** `computePatternStats`. */
  function ComputePatternStats(samples: seq<Sample>, sqrt: real -> real): (stats: PatternStats)
    ensures stats.count == |samples|
    ensures stats.scenarioAverages == ScenarioAveragesOf(samples)
    ensures stats.riskDelta == stats.riskWeekAvg - stats.riskNowAvg
  {
    var clarity := Project(samples, ClarityOf);
    var warmth := Project(samples, WarmthOf);
    var risk := Project(samples, RiskOf);
    var words := Project(samples, WordsOf);
    var riskWeek := Project(samples, RiskWeekOf);
    var riskNowAvg := Mean(risk);
    var riskWeekAvg := Mean(riskWeek);
    PatternStats(
      |samples|,
      Mean(clarity),
      Mean(warmth),
      riskNowAvg,
      Mean(words),
      StdDev(clarity, sqrt),
      StdDev(warmth, sqrt),
      StdDev(risk, sqrt),
      StdDev(words, sqrt),
      Pearson(words, clarity, sqrt),
      Pearson(words, warmth, sqrt),
      riskNowAvg,
      riskWeekAvg,
      riskWeekAvg - riskNowAvg,
      ScenarioAveragesOf(samples))
  }

  lemma ScenarioEntryPermutation(a: seq<Sample>, b: seq<Sample>, k: ScenarioKey)
    requires multiset(a) == multiset(b)
    ensures ScenarioEntry(a, k) == ScenarioEntry(b, k)
  {
    ScenarioCountIsSum(a, k);
    ScenarioCountIsSum(b, k);
    SumOfPermutation(a, b, Masked(k, One));
    SumOfPermutation(a, b, Masked(k, ClarityOf));
    SumOfPermutation(a, b, Masked(k, WarmthOf));
    SumOfPermutation(a, b, Masked(k, RiskOf));
  }

  /** Every field of the aggregate is independent of the order of the samples. */
  lemma StatsOrderIndependent(a: seq<Sample>, b: seq<Sample>, sqrt: real -> real)
    requires multiset(a) == multiset(b)
    ensures ComputePatternStats(a, sqrt) == ComputePatternStats(b, sqrt)
  {
    assert |a| == |multiset(a)| == |multiset(b)| == |b|;
    MeanPermutation(a, b, ClarityOf);
    MeanPermutation(a, b, WarmthOf);
    MeanPermutation(a, b, RiskOf);
    MeanPermutation(a, b, WordsOf);
    MeanPermutation(a, b, RiskWeekOf);
    StdDevPermutation(a, b, ClarityOf, sqrt);
    StdDevPermutation(a, b, WarmthOf, sqrt);
    StdDevPermutation(a, b, RiskOf, sqrt);
    StdDevPermutation(a, b, WordsOf, sqrt);
    PearsonPermutation(a, b, WordsOf, ClarityOf, sqrt);
    PearsonPermutation(a, b, WordsOf, WarmthOf, sqrt);
    ScenarioEntryPermutation(a, b, Boss);
    ScenarioEntryPermutation(a, b, Partner);
    ScenarioEntryPermutation(a, b, Client);
  }

  /** Scores within [0, 100] make the projected risk never fall: `riskDelta >= 0`. */
  lemma RiskDeltaNonNegative(samples: seq<Sample>, sqrt: real -> real)
    requires forall i :: 0 <= i < |samples| ==>
               0 <= samples[i].clarity <= 100 && 0 <= samples[i].warmth <= 100 && 0 <= samples[i].risk <= 100
    ensures ComputePatternStats(samples, sqrt).riskDelta >= 0.0
  {
    var stats := ComputePatternStats(samples, sqrt);
    SumProject(samples, RiskOf);
    SumProject(samples, RiskWeekOf);
    forall i | 0 <= i < |samples|
      ensures RiskOf(samples[i]) <= RiskWeekOf(samples[i])
    {
    }
    SumOfMonotone(samples, RiskOf, RiskWeekOf);
    if samples != [] {
      var n := |samples| as real;
      assert stats.riskNowAvg == SumOf(samples, RiskOf) / n;
      assert stats.riskWeekAvg == SumOf(samples, RiskWeekOf) / n;
      DivideMonotone(SumOf(samples, RiskOf), SumOf(samples, RiskWeekOf), n);
    }
  }

  /**
   * The constant 12 in the one-week delta makes the temporal hypothesis fire
   * for every history whose scores are in range and whose risks are at most 88:
   * `riskDelta` is then at least 12, above the threshold of 8.
   */
  lemma TemporalFiresForLowRisk(samples: seq<Sample>, sqrt: real -> real)
    requires samples != []
    requires forall i :: 0 <= i < |samples| ==>
               0 <= samples[i].clarity <= 100 && 0 <= samples[i].warmth <= 100 && 0 <= samples[i].risk <= 88
    ensures ComputePatternStats(samples, sqrt).riskDelta >= 12.0
    ensures TemporalCandidate(ComputePatternStats(samples, sqrt)).Some?
  {
    var stats := ComputePatternStats(samples, sqrt);
    SumProject(samples, RiskOf);
    SumProject(samples, RiskWeekOf);
    var n := |samples| as real;
    var now, week := SumOf(samples, RiskOf), SumOf(samples, RiskWeekOf);
    assert now + 12.0 * n <= week by { RiskWeekSumGap(samples); }
    assert stats.riskNowAvg == now / n;
    assert stats.riskWeekAvg == week / n;
    assert n > 0.0;
    MeanGap(now, week, n);
  }

  /** Summed over in-range samples with risk at most 88, the projection adds at least 12 per sample. */
  lemma RiskWeekSumGap(samples: seq<Sample>)
    requires forall i :: 0 <= i < |samples| ==>
               0 <= samples[i].clarity <= 100 && 0 <= samples[i].warmth <= 100 && 0 <= samples[i].risk <= 88
    ensures SumOf(samples, RiskOf) + 12.0 * |samples| as real <= SumOf(samples, RiskWeekOf)
  {
    forall i | 0 <= i < |samples|
      ensures RiskPlus12(samples[i]) <= RiskWeekOf(samples[i])
    {
    }
    SumOfMonotone(samples, RiskPlus12, RiskWeekOf);
    SumOfShifted(samples);
  }

  /** Two sums whose difference is at least 12 per item have means at least 12 apart. */
  lemma MeanGap(a: real, b: real, n: real)
    requires n > 0.0 && a + 12.0 * n <= b
    ensures b / n - a / n >= 12.0
  {
    assert b / n - a / n == (b - a) / n;
    DivideMonotone(12.0 * n, b - a, n);
  }

  function RiskPlus12(s: Sample): real { s.risk as real + 12.0 }

  lemma {:induction false} SumOfShifted(samples: seq<Sample>)
    ensures SumOf(samples, RiskPlus12) == SumOf(samples, RiskOf) + 12.0 * |samples| as real
  {
    if samples != [] {
      SumOfShifted(samples[1..]);
    }
  }

  lemma DivideMonotone(a: real, b: real, n: real)
    requires a <= b && n > 0.0
    ensures a / n <= b / n
  {
    assert b / n - a / n == (b - a) / n;
  }

  lemma {:induction false} SumOfMonotone(samples: seq<Sample>, f: Sample -> real, g: Sample -> real)
    requires forall i :: 0 <= i < |samples| ==> f(samples[i]) <= g(samples[i])
    ensures SumOf(samples, f) <= SumOf(samples, g)
  {
    if samples != [] {
      SumOfMonotone(samples[1..], f, g);
    }
  }

  // ---------------------------------------------------------------------------
  // Hypotheses

  const Openers: seq<string> := [
    "Your messages tend to",
    "Over time, your communication shows",
    "A recurring pattern in your messages is"
  ]

  /** `openerFor(seed)`: the openers rotate with the seed. */
  function OpenerFor(seed: nat): (r: string)
    ensures r in Openers
  {
    Openers[seed % |Openers|]
  }

  /** The openers rotate with period three, and the three are different sentences. */
  lemma OpenerCycle(a: nat, b: nat)
    ensures OpenerFor(a) == OpenerFor(b) <==> a % 3 == b % 3
  {
    assert Openers[0][0] == 'Y' && Openers[1][0] == 'O' && Openers[2][0] == 'A';
  }

  /** A candidate that was found, as a list of zero or one elements. */
  function Opt(o: Option<Candidate>): (r: seq<Candidate>)
    ensures |r| <= 1
    ensures o.Some? ==> r == [o.value]
    ensures o.None? <==> r == []
  {
    match o
    case Some(c) => [c]
    case None => []
  }

  /** An insight sentence: the opener, a space, the body and a full stop. */
  function Sentence(opener: string, body: string): (r: string)
    ensures StartsWith(r, opener)
  {
    assert (opener + " " + body + ".")[..|opener|] == opener;
    opener + " " + body + "."
  }

  /** `temporal:<direction>:<size>`. */
  function TemporalFingerprint(delayed: bool, size: int): (r: string)
    ensures StartsWith(r, "temporal:delayed:") <==> delayed
  {
    var r := "temporal:" + (if delayed then "delayed" else "immediate") + ":" + IntToString(size);
    assert r[9] == (if delayed then 'd' else 'i');
    assert delayed ==> r[..17] == "temporal:delayed:";
    r
  }

  /** `length:<metric>:<direction>:<threshold>`. */
  function LengthFingerprint(metric: Metric, longer: bool, threshold: int): (r: string)
    ensures StartsWith(r, "length:warmth:") <==> metric == Warmth
  {
    var r := "length:" + MetricName(metric) + ":" + (if longer then "longer" else "shorter") + ":" + IntToString(threshold);
    assert r[7] == (if metric == Warmth then 'w' else if metric == Clarity then 'c' else 'r');
    assert metric == Warmth ==> r[..14] == "length:warmth:";
    r
  }

  /** Temporal hypothesis: the average risk drifts by at least 8 points over the week. */
  function TemporalCandidate(stats: PatternStats): (r: Option<Candidate>)
    ensures r.Some? <==> AbsReal(stats.riskDelta) >= 8.0
    ensures r.Some? ==> r.value.patternType == Temporal && 0.0 <= r.value.strength <= 1.0
    ensures r.Some? ==> StartsWith(r.value.insight, OpenerFor(0))
    ensures r.Some? ==> (StartsWith(r.value.fingerprint, "temporal:delayed:") <==> stats.riskDelta > 0.0)
  {
    var diff := stats.riskDelta;
    if AbsReal(diff) >= 8.0 then
      var delayed := diff > 0.0;
      var body :=
        if delayed then "more risk after the first read than in the moment"
        else "tension that shows up immediately rather than later";
      Some(Candidate(
        Temporal,
        Sentence(OpenerFor(0), body),
        ClampReal(AbsReal(diff) / 25.0, 0.0, 1.0),
        TemporalFingerprint(delayed, RoundToNearest(AbsReal(diff), 2)),
        TemporalMeta(diff)))
    else None
  }

  /** The word count of every sample, in order. */
  function WordCounts(samples: seq<Sample>): (r: seq<int>)
    ensures |r| == |samples|
    ensures forall i :: 0 <= i < |r| ==> r[i] == CountWords(samples[i].text)
  {
    seq(|samples|, i requires 0 <= i < |samples| => CountWords(samples[i].text) as int)
  }

  /** The metric whose correlation with length is stronger; warmth wins ties. */
  function LengthMetric(stats: PatternStats): (best: (Metric, real))
    ensures best.0 == Warmth <==> AbsReal(stats.corrWordsWarmth) >= AbsReal(stats.corrWordsClarity)
    ensures best.1 == (if best.0 == Warmth then stats.corrWordsWarmth else stats.corrWordsClarity)
    ensures AbsReal(best.1) >= AbsReal(stats.corrWordsWarmth) && AbsReal(best.1) >= AbsReal(stats.corrWordsClarity)
  {
    if AbsReal(stats.corrWordsWarmth) >= AbsReal(stats.corrWordsClarity)
    then (Warmth, stats.corrWordsWarmth)
    else (Clarity, stats.corrWordsClarity)
  }

  /** The word threshold quoted by the length insight, a multiple of 10. */
  function LengthThreshold(samples: seq<Sample>, corr: real): (t: int)
    ensures t % 10 == 0
  {
    var counts := WordCounts(samples);
    if corr < 0.0 then RoundToNearest(Percentile(counts, 0.75) as real, 10)
    else RoundToNearest(Percentile(counts, 0.3) as real, 10)
  }

  /** Length hypothesis: enough spread in length and a correlation of at least 0.35. */
  function LengthCandidate(samples: seq<Sample>, stats: PatternStats): (r: Option<Candidate>)
    ensures r.Some? <==> stats.stdWords >= 8.0
                         && (AbsReal(stats.corrWordsWarmth) >= 0.35 || AbsReal(stats.corrWordsClarity) >= 0.35)
    ensures r.Some? ==> r.value.patternType == Length && 0.0 <= r.value.strength <= 1.0
    ensures r.Some? ==> StartsWith(r.value.insight, OpenerFor(1))
    ensures r.Some? ==> (StartsWith(r.value.fingerprint, "length:warmth:")
                         <==> AbsReal(stats.corrWordsWarmth) >= AbsReal(stats.corrWordsClarity))
  {
    if stats.stdWords >= 8.0 then
      var (metric, corr) := LengthMetric(stats);
      if AbsReal(corr) >= 0.35 then
        var threshold := LengthThreshold(samples, corr);
        var body :=
          if corr < 0.0 then MetricName(metric) + " softens when messages exceed ~" + IntToString(threshold) + " words"
          else "more ambiguity in shorter messages under ~" + IntToString(threshold) + " words";
        Some(Candidate(
          Length,
          Sentence(OpenerFor(1), body),
          ClampReal(AbsReal(corr), 0.0, 1.0),
          LengthFingerprint(metric, corr < 0.0, threshold),
          LengthMeta(corr, threshold)))
      else None
    else None
  }

  function MetricValue(e: ScenarioAverage, m: Metric): real {
    match m
    case Clarity => e.clarity
    case Warmth => e.warmth
    case Risk => e.risk
  }

  /** Signed difference of metric `m` between scenarios `a` and `b`. */
  function Diff(stats: PatternStats, a: ScenarioKey, b: ScenarioKey, m: Metric): real {
    MetricValue(stats.scenarioAverages.Get(a), m) - MetricValue(stats.scenarioAverages.Get(b), m)
  }

  /** A (pair, metric) combination is reportable when the averages differ by at least 10. */
  predicate PairQualifies(stats: PatternStats, a: ScenarioKey, b: ScenarioKey, m: Metric) {
    AbsReal(Diff(stats, a, b, m)) >= 10.0
  }

  predicate PairAnyQualifies(stats: PatternStats, a: ScenarioKey, b: ScenarioKey) {
    PairQualifies(stats, a, b, Clarity) || PairQualifies(stats, a, b, Warmth) || PairQualifies(stats, a, b, Risk)
  }

  function MetricLabel(m: Metric): string {
    match m
    case Clarity => "clearer"
    case Warmth => "warmer"
    case Risk => "more emotionally weighted"
  }

  predicate IsScenarioCandidate(c: Candidate) {
    c.patternType == Scenario && 0.0 <= c.strength <= 1.0 && StartsWith(c.insight, OpenerFor(2))
  }

  /**
   * The scenario candidate for one (pair, metric) combination, if it qualifies.
   * The scenario with the larger average is named first; a tie cannot qualify.
   */
  function PairMetricCandidate(stats: PatternStats, a: ScenarioKey, b: ScenarioKey, m: Metric): (r: Option<Candidate>)
    ensures r.Some? <==> PairQualifies(stats, a, b, m)
    ensures r.Some? ==> IsScenarioCandidate(r.value)
    ensures r.Some? ==> r.value.strength == ClampReal(AbsReal(Diff(stats, a, b, m)) / 25.0, 0.0, 1.0)
    ensures r.Some? ==> r.value.metadata.ScenarioMeta?
                        && {r.value.metadata.higher, r.value.metadata.lower} == {a, b}
                        && MetricValue(stats.scenarioAverages.Get(r.value.metadata.higher), m)
                           > MetricValue(stats.scenarioAverages.Get(r.value.metadata.lower), m)
  {
    var diff := Diff(stats, a, b, m);
    var diffAbs := AbsReal(diff);
    if diffAbs < 10.0 then None
    else
      var higher := if diff > 0.0 then a else b;
      var lower := if diff > 0.0 then b else a;
      var body := MetricLabel(m) + " messages with " + ScenarioLabel(higher) + " than with " + ScenarioLabel(lower);
      Some(Candidate(
        Scenario,
        Sentence(OpenerFor(2), body),
        ClampReal(diffAbs / 25.0, 0.0, 1.0),
        "scenario:" + MetricName(m) + ":" + KeyName(higher) + ":" + KeyName(lower) + ":"
          + IntToString(RoundToNearest(diffAbs, 5)),
        ScenarioMeta(diff, m, higher, lower)))
  }

  /** Qualifying candidates of one pair, metrics in clarity, warmth, risk order. */
  function PairCandidates(stats: PatternStats, a: ScenarioKey, b: ScenarioKey): (r: seq<Candidate>)
    ensures forall c :: c in r ==> IsScenarioCandidate(c)
    ensures r != [] <==> PairAnyQualifies(stats, a, b)
  {
    var c, w, k := PairMetricCandidate(stats, a, b, Clarity), PairMetricCandidate(stats, a, b, Warmth),
                   PairMetricCandidate(stats, a, b, Risk);
    ScenarioOpts(c, w, k);
    Opt(c) + Opt(w) + Opt(k)
  }

  /** Three optional scenario candidates, the empty ones dropped. */
  lemma ScenarioOpts(o1: Option<Candidate>, o2: Option<Candidate>, o3: Option<Candidate>)
    requires o1.Some? ==> IsScenarioCandidate(o1.value)
    requires o2.Some? ==> IsScenarioCandidate(o2.value)
    requires o3.Some? ==> IsScenarioCandidate(o3.value)
    ensures forall c :: c in Opt(o1) + Opt(o2) + Opt(o3) ==> IsScenarioCandidate(c)
    ensures Opt(o1) + Opt(o2) + Opt(o3) != [] <==> o1.Some? || o2.Some? || o3.Some?
  {
  }

  /** Some pair of `a` with a key of `rest` differs enough on some metric. */
  predicate RowQualifies(stats: PatternStats, a: ScenarioKey, rest: seq<ScenarioKey>) {
    rest != [] && (PairAnyQualifies(stats, a, rest[0]) || RowQualifies(stats, a, rest[1..]))
  }

  /** Some pair `i < j` of `keys` differs enough on some metric. */
  predicate AnyPairQualifies(stats: PatternStats, keys: seq<ScenarioKey>) {
    keys != [] && (RowQualifies(stats, keys[0], keys[1..]) || AnyPairQualifies(stats, keys[1..]))
  }

  /** Candidates of `a` paired with each later key in `rest`, in order. */
  function RowCandidates(stats: PatternStats, a: ScenarioKey, rest: seq<ScenarioKey>): (r: seq<Candidate>)
    ensures forall c :: c in r ==> IsScenarioCandidate(c)
    ensures r != [] <==> RowQualifies(stats, a, rest)
  {
    if rest == [] then []
    else PairCandidates(stats, a, rest[0]) + RowCandidates(stats, a, rest[1..])
  }

  /** Every pair `i < j` of `keys`, in the nested-loop order of the source. */
  function AllPairCandidates(stats: PatternStats, keys: seq<ScenarioKey>): (r: seq<Candidate>)
    ensures forall c :: c in r ==> IsScenarioCandidate(c)
    ensures r != [] <==> AnyPairQualifies(stats, keys)
  {
    if keys == [] then []
    else RowCandidates(stats, keys[0], keys[1..]) + AllPairCandidates(stats, keys[1..])
  }

  /** The recursive pair condition is the plain "some pair i < j" condition. */
  lemma {:induction false} AnyPairQualifiesIff(stats: PatternStats, keys: seq<ScenarioKey>)
    ensures AnyPairQualifies(stats, keys)
        <==> exists i, j :: 0 <= i < j < |keys| && PairAnyQualifies(stats, keys[i], keys[j])
  {
    if keys != [] {
      AnyPairQualifiesIff(stats, keys[1..]);
      RowQualifiesIff(stats, keys[0], keys[1..]);
      if exists i, j :: 0 <= i < j < |keys| && PairAnyQualifies(stats, keys[i], keys[j]) {
        var i, j :| 0 <= i < j < |keys| && PairAnyQualifies(stats, keys[i], keys[j]);
        if i == 0 {
          assert keys[1..][j - 1] == keys[j];
        } else {
          assert keys[1..][i - 1] == keys[i] && keys[1..][j - 1] == keys[j];
        }
      }
      if RowQualifies(stats, keys[0], keys[1..]) {
        var j :| 0 <= j < |keys[1..]| && PairAnyQualifies(stats, keys[0], keys[1..][j]);
        assert keys[1..][j] == keys[j + 1];
      }
      if AnyPairQualifies(stats, keys[1..]) {
        var i, j :| 0 <= i < j < |keys[1..]| && PairAnyQualifies(stats, keys[1..][i], keys[1..][j]);
        assert keys[1..][i] == keys[i + 1] && keys[1..][j] == keys[j + 1];
      }
    }
  }

  lemma {:induction false} RowQualifiesIff(stats: PatternStats, a: ScenarioKey, rest: seq<ScenarioKey>)
    ensures RowQualifies(stats, a, rest) <==> exists j :: 0 <= j < |rest| && PairAnyQualifies(stats, a, rest[j])
  {
    if rest != [] {
      RowQualifiesIff(stats, a, rest[1..]);
      if exists j :: 0 <= j < |rest| && PairAnyQualifies(stats, a, rest[j]) {
        var j :| 0 <= j < |rest| && PairAnyQualifies(stats, a, rest[j]);
        if j > 0 {
          assert rest[1..][j - 1] == rest[j];
        }
      }
      if RowQualifies(stats, a, rest[1..]) {
        var j :| 0 <= j < |rest[1..]| && PairAnyQualifies(stats, a, rest[1..][j]);
        assert rest[1..][j] == rest[j + 1];
      }
    }
  }

  /** Index of the first candidate of maximal strength. */
  function FirstMaxIndex(cs: seq<Candidate>): (i: nat)
    requires cs != []
    ensures i < |cs|
    ensures forall j :: 0 <= j < |cs| ==> cs[j].strength <= cs[i].strength
    ensures forall j :: 0 <= j < i ==> cs[j].strength < cs[i].strength
  {
    if |cs| == 1 then 0
    else
      var k := FirstMaxIndex(cs[1..]) + 1;
      assert forall j :: 1 <= j < |cs| ==> cs[j] == cs[1..][j - 1];
      if cs[0].strength >= cs[k].strength then 0 else k
  }

  /**
   * The scan of the scenario loop: a candidate replaces the best so far only
   * when it is strictly stronger.
   */
  function ScanBest(cs: seq<Candidate>, best: Option<Candidate>): (r: Option<Candidate>)
    ensures r.None? <==> cs == [] && best.None?
    ensures r.Some? ==> r == best || r.value in cs
  {
    if cs == [] then best
    else
      var next := if best.None? || cs[0].strength > best.value.strength then Some(cs[0]) else best;
      ScanBest(cs[1..], next)
  }

  /** Continuing the scan from `b` keeps `b` unless some later candidate is strictly stronger. */
  lemma {:induction false} ScanBestFrom(cs: seq<Candidate>, b: Candidate)
    ensures ScanBest(cs, Some(b))
         == if cs == [] || b.strength >= cs[FirstMaxIndex(cs)].strength then Some(b) else Some(cs[FirstMaxIndex(cs)])
  {
    if cs != [] {
      var next := if cs[0].strength > b.strength then cs[0] else b;
      ScanBestFrom(cs[1..], next);
      if |cs| > 1 {
        assert cs[1..][FirstMaxIndex(cs[1..])] == cs[FirstMaxIndex(cs[1..]) + 1];
      }
    }
  }

  /** The scan over a non-empty list yields its first strongest candidate. */
  lemma ScanBestIsFirstMax(cs: seq<Candidate>)
    requires cs != []
    ensures ScanBest(cs, None) == Some(cs[FirstMaxIndex(cs)])
  {
    ScanBestFrom(cs[1..], cs[0]);
    if |cs| > 1 {
      assert cs[1..][FirstMaxIndex(cs[1..])] == cs[FirstMaxIndex(cs[1..]) + 1];
    }
  }

  /** The keys with at least two samples, in boss, partner, client order. */
  function ActiveKeys(stats: PatternStats): (keys: seq<ScenarioKey>)
    ensures forall k :: k in keys <==> stats.scenarioAverages.Get(k).count >= 2
    ensures forall i, j :: 0 <= i < j < |keys| ==> keys[i] != keys[j]
  {
    (if stats.scenarioAverages.boss.count >= 2 then [Boss] else [])
      + (if stats.scenarioAverages.partner.count >= 2 then [Partner] else [])
      + (if stats.scenarioAverages.client.count >= 2 then [Client] else [])
  }

  /** Scenario hypothesis: the strongest qualifying (pair, metric) difference. */
  function ScenarioCandidate(stats: PatternStats): (r: Option<Candidate>)
    ensures r.Some? <==> |ActiveKeys(stats)| >= 2 && AnyPairQualifies(stats, ActiveKeys(stats))
    ensures r.Some? ==> IsScenarioCandidate(r.value)
  {
    var keys := ActiveKeys(stats);
    if |keys| >= 2 then ScanBest(AllPairCandidates(stats, keys), None) else None
  }

  /** When reported, the scenario candidate is the first strongest qualifying combination. */
  lemma ScenarioIsFirstStrongest(stats: PatternStats)
    requires ScenarioCandidate(stats).Some?
    ensures var cs := AllPairCandidates(stats, ActiveKeys(stats));
            cs != [] && ScenarioCandidate(stats) == Some(cs[FirstMaxIndex(cs)])
  {
    ScanBestIsFirstMax(AllPairCandidates(stats, ActiveKeys(stats)));
  }

  /** The average of the three score deviations. */
  function AvgStd(stats: PatternStats): real {
    Mean([stats.stdClarity, stats.stdWarmth, stats.stdRisk])
  }

  /** Consistency hypothesis: the scores are either steady (<= 7) or volatile (>= 15). */
  function ConsistencyCandidate(stats: PatternStats): (r: Option<Candidate>)
    ensures r.Some? <==> AvgStd(stats) <= 7.0 || AvgStd(stats) >= 15.0
    ensures r.Some? ==> r.value.patternType == Consistency && 0.0 <= r.value.strength <= 1.0
    ensures r.Some? ==> StartsWith(r.value.insight, OpenerFor(if AvgStd(stats) <= 7.0 then 0 else 2))
    ensures r.Some? ==> (r.value.fingerprint == "consistency:steady" <==> AvgStd(stats) <= 7.0)
  {
    var avgStd := AvgStd(stats);
    if avgStd <= 7.0 || avgStd >= 15.0 then
      var isConsistent := avgStd <= 7.0;
      var strength :=
        if isConsistent then ClampReal((7.0 - avgStd) / 7.0, 0.0, 1.0)
        else ClampReal((avgStd - 15.0) / 15.0, 0.0, 1.0);
      Some(Candidate(
        Consistency,
        if isConsistent then Sentence(OpenerFor(0), "a steady signature across clarity, warmth, and risk")
        else Sentence(OpenerFor(2), "noticeable shifts in clarity, warmth, and risk between messages"),
        strength,
        "consistency:" + (if isConsistent then "steady" else "variable"),
        ConsistencyMeta(avgStd)))
    else None
  }

  /** The candidate each hypothesis contributes, by type. */
  function Slot(samples: seq<Sample>, stats: PatternStats, t: PatternType): Option<Candidate> {
    match t
    case Temporal => TemporalCandidate(stats)
    case Length => LengthCandidate(samples, stats)
    case Scenario => ScenarioCandidate(stats)
    case Consistency => ConsistencyCandidate(stats)
  }

  predicate RanksIncreasing(r: seq<Candidate>) {
    forall i, j :: 0 <= i < j < |r| ==> Rank(r[i].patternType) < Rank(r[j].patternType)
  }

  lemma RanksIncreasingAppend(a: seq<Candidate>, b: seq<Candidate>)
    requires RanksIncreasing(a) && RanksIncreasing(b)
    requires forall x, y :: x in a && y in b ==> Rank(x.patternType) < Rank(y.patternType)
    ensures RanksIncreasing(a + b)
  {
    forall i, j | 0 <= i < j < |a + b|
      ensures Rank((a + b)[i].patternType) < Rank((a + b)[j].patternType)
    {
      if j < |a| {
      } else if i >= |a| {
        assert (a + b)[i] == b[i - |a|] && (a + b)[j] == b[j - |a|];
      } else {
        assert (a + b)[i] in a && (a + b)[j] in b;
      }
    }
  }

  /** Every member of `cs` has rank `k` and a strength within [0, 1]. */
  predicate SlotShape(cs: seq<Candidate>, k: nat) {
    forall x :: x in cs ==> Rank(x.patternType) == k && 0.0 <= x.strength <= 1.0
  }

  /** A hypothesis result of rank `k` as a slot of zero or one candidates. */
  function Slotted(o: Option<Candidate>, k: nat): (r: seq<Candidate>)
    requires o.Some? ==> Rank(o.value.patternType) == k && 0.0 <= o.value.strength <= 1.0
    ensures |r| <= 1 && SlotShape(r, k)
    ensures r == Opt(o)
  {
    Opt(o)
  }

  function TemporalSlot(stats: PatternStats): (r: seq<Candidate>)
    ensures |r| <= 1 && SlotShape(r, 0)
  {
    Slotted(TemporalCandidate(stats), 0)
  }

  function LengthSlot(samples: seq<Sample>, stats: PatternStats): (r: seq<Candidate>)
    ensures |r| <= 1 && SlotShape(r, 1)
  {
    Slotted(LengthCandidate(samples, stats), 1)
  }

  function ScenarioSlot(stats: PatternStats): (r: seq<Candidate>)
    ensures |r| <= 1 && SlotShape(r, 2)
  {
    Slotted(ScenarioCandidate(stats), 2)
  }

  function ConsistencySlot(stats: PatternStats): (r: seq<Candidate>)
    ensures |r| <= 1 && SlotShape(r, 3)
  {
    Slotted(ConsistencyCandidate(stats), 3)
  }

  /** The four slots, concatenated in evaluation order. */
  function Assemble(t: seq<Candidate>, l: seq<Candidate>, s: seq<Candidate>, c: seq<Candidate>): (r: seq<Candidate>)
    requires |t| <= 1 && |l| <= 1 && |s| <= 1 && |c| <= 1
    requires SlotShape(t, 0) && SlotShape(l, 1) && SlotShape(s, 2) && SlotShape(c, 3)
    ensures |r| <= 4
    ensures RanksIncreasing(r)
    ensures forall x :: x in r ==> 0.0 <= x.strength <= 1.0
  {
    RanksIncreasingAppend(t, l);
    RanksIncreasingAppend(t + l, s);
    RanksIncreasingAppend(t + l + s, c);
    t + l + s + c
  }

  /** `getPatternCandidates`: the qualifying hypotheses in their fixed order. */
  function GetPatternCandidates(samples: seq<Sample>, stats: PatternStats): (r: seq<Candidate>)
    ensures |r| <= 4
    ensures RanksIncreasing(r)
    ensures forall c :: c in r ==> 0.0 <= c.strength <= 1.0
  {
    Assemble(TemporalSlot(stats), LengthSlot(samples, stats), ScenarioSlot(stats), ConsistencySlot(stats))
  }

  predicate HasType(cs: seq<Candidate>, t: PatternType) {
    exists i :: 0 <= i < |cs| && cs[i].patternType == t
  }

  lemma HasTypeAppend(a: seq<Candidate>, b: seq<Candidate>, t: PatternType)
    ensures HasType(a + b, t) <==> HasType(a, t) || HasType(b, t)
  {
    if HasType(a, t) {
      var i :| 0 <= i < |a| && a[i].patternType == t;
      assert (a + b)[i] == a[i];
    }
    if HasType(a + b, t) {
      var i :| 0 <= i < |a + b| && (a + b)[i].patternType == t;
      if i >= |a| {
        assert b[i - |a|] == (a + b)[i];
      }
    }
    if HasType(b, t) {
      var i :| 0 <= i < |b| && b[i].patternType == t;
      assert (a + b)[i + |a|] == b[i];
    }
  }

  lemma HasTypeOpt(o: Option<Candidate>, t: PatternType)
    ensures HasType(Opt(o), t) <==> o.Some? && o.value.patternType == t
  {
    if o.Some? {
      assert Opt(o)[0] == o.value;
    }
  }

  lemma HasTypeOfSlots(o1: Option<Candidate>, o2: Option<Candidate>, o3: Option<Candidate>, o4: Option<Candidate>, t: PatternType)
    ensures HasType(Opt(o1) + Opt(o2) + Opt(o3) + Opt(o4), t)
        <==> (o1.Some? && o1.value.patternType == t) || (o2.Some? && o2.value.patternType == t)
             || (o3.Some? && o3.value.patternType == t) || (o4.Some? && o4.value.patternType == t)
  {
    HasTypeAppend(Opt(o1) + Opt(o2) + Opt(o3), Opt(o4), t);
    HasTypeAppend(Opt(o1) + Opt(o2), Opt(o3), t);
    HasTypeAppend(Opt(o1), Opt(o2), t);
    HasTypeOpt(o1, t);
    HasTypeOpt(o2, t);
    HasTypeOpt(o3, t);
    HasTypeOpt(o4, t);
  }

  /** The candidate list is the four hypothesis results, in order, with the empty ones dropped. */
  lemma CandidatesAre(samples: seq<Sample>, stats: PatternStats)
    ensures GetPatternCandidates(samples, stats)
            == Opt(TemporalCandidate(stats)) + Opt(LengthCandidate(samples, stats))
               + Opt(ScenarioCandidate(stats)) + Opt(ConsistencyCandidate(stats))
  {
  }

  /** A type is present among the candidates exactly when its hypothesis fired. */
  lemma HasTypeOfCandidates(samples: seq<Sample>, stats: PatternStats, ty: PatternType)
    ensures HasType(GetPatternCandidates(samples, stats), ty)
        <==> (TemporalCandidate(stats).Some? && ty == Temporal)
             || (LengthCandidate(samples, stats).Some? && ty == Length)
             || (ScenarioCandidate(stats).Some? && ty == Scenario)
             || (ConsistencyCandidate(stats).Some? && ty == Consistency)
  {
    CandidatesAre(samples, stats);
    HasTypeOfSlots(TemporalCandidate(stats), LengthCandidate(samples, stats),
                   ScenarioCandidate(stats), ConsistencyCandidate(stats), ty);
  }

  lemma HasTypeIffSlot(samples: seq<Sample>, stats: PatternStats, ty: PatternType)
    ensures HasType(GetPatternCandidates(samples, stats), ty) <==> Slot(samples, stats, ty).Some?
  {
    HasTypeOfCandidates(samples, stats, ty);
  }

  /** Every candidate is the one its own hypothesis produced. */
  lemma CandidateIsSlot(samples: seq<Sample>, stats: PatternStats, c: Candidate)
    requires c in GetPatternCandidates(samples, stats)
    ensures Slot(samples, stats, c.patternType) == Some(c)
  {
    CandidatesAre(samples, stats);
    MemberOfSlots(TemporalCandidate(stats), LengthCandidate(samples, stats),
                  ScenarioCandidate(stats), ConsistencyCandidate(stats), c);
  }

  /** A member of the four slots is the result held by the slot of its own type. */
  lemma MemberOfSlots(o1: Option<Candidate>, o2: Option<Candidate>, o3: Option<Candidate>, o4: Option<Candidate>, c: Candidate)
    requires o1.Some? ==> o1.value.patternType == Temporal
    requires o2.Some? ==> o2.value.patternType == Length
    requires o3.Some? ==> o3.value.patternType == Scenario
    requires o4.Some? ==> o4.value.patternType == Consistency
    requires c in Opt(o1) + Opt(o2) + Opt(o3) + Opt(o4)
    ensures c.patternType == Temporal ==> o1 == Some(c)
    ensures c.patternType == Length ==> o2 == Some(c)
    ensures c.patternType == Scenario ==> o3 == Some(c)
    ensures c.patternType == Consistency ==> o4 == Some(c)
  {
    assert c in Opt(o1) || c in Opt(o2) || c in Opt(o3) || c in Opt(o4);
  }

  /** The opener index each hypothesis uses. */
  function OpenerSeed(stats: PatternStats, t: PatternType): nat {
    match t
    case Temporal => 0
    case Length => 1
    case Scenario => 2
    case Consistency => if AvgStd(stats) <= 7.0 then 0 else 2
  }

  /** Each insight starts with the opener of its slot (the steady consistency one uses 0). */
  lemma CandidateOpeners(samples: seq<Sample>, stats: PatternStats)
    ensures forall c :: c in GetPatternCandidates(samples, stats) ==>
              StartsWith(c.insight, OpenerFor(OpenerSeed(stats, c.patternType)))
  {
    forall c | c in GetPatternCandidates(samples, stats)
      ensures StartsWith(c.insight, OpenerFor(OpenerSeed(stats, c.patternType)))
    {
      CandidateIsSlot(samples, stats, c);
      SlotOpener(samples, stats, c.patternType);
    }
  }

  lemma SlotOpener(samples: seq<Sample>, stats: PatternStats, t: PatternType)
    requires Slot(samples, stats, t).Some?
    ensures StartsWith(Slot(samples, stats, t).value.insight, OpenerFor(OpenerSeed(stats, t)))
  {
    match t
    case Temporal =>
    case Length =>
    case Scenario =>
    case Consistency =>
  }

  /** The temporal hypothesis is reported exactly when `|riskDelta| >= 8`. */
  lemma TemporalGate(samples: seq<Sample>, stats: PatternStats)
    ensures HasType(GetPatternCandidates(samples, stats), Temporal) <==> AbsReal(stats.riskDelta) >= 8.0
  {
    HasTypeOfCandidates(samples, stats, Temporal);
  }

  /**
   * The length hypothesis is reported exactly when the word counts spread by at
   * least 8 and the stronger correlation reaches 0.35.
   */
  lemma LengthGate(samples: seq<Sample>, stats: PatternStats)
    ensures HasType(GetPatternCandidates(samples, stats), Length)
        <==> stats.stdWords >= 8.0
             && (AbsReal(stats.corrWordsWarmth) >= 0.35 || AbsReal(stats.corrWordsClarity) >= 0.35)
  {
    HasTypeOfCandidates(samples, stats, Length);
  }

  /**
   * The scenario hypothesis is reported exactly when at least two scenarios have
   * two or more samples and some pair of them differs by at least 10 on a metric.
   */
  lemma ScenarioGate(samples: seq<Sample>, stats: PatternStats)
    ensures HasType(GetPatternCandidates(samples, stats), Scenario)
        <==> |ActiveKeys(stats)| >= 2
             && exists i, j :: 0 <= i < j < |ActiveKeys(stats)|
                  && PairAnyQualifies(stats, ActiveKeys(stats)[i], ActiveKeys(stats)[j])
  {
    HasTypeOfCandidates(samples, stats, Scenario);
    AnyPairQualifiesIff(stats, ActiveKeys(stats));
  }

  /** The consistency hypothesis is reported exactly outside the band (7, 15). */
  lemma ConsistencyGate(samples: seq<Sample>, stats: PatternStats)
    ensures HasType(GetPatternCandidates(samples, stats), Consistency)
        <==> AvgStd(stats) <= 7.0 || AvgStd(stats) >= 15.0
  {
    HasTypeOfCandidates(samples, stats, Consistency);
  }

  // ---------------------------------------------------------------------------
  // Selection

  predicate SortedByStrength(s: seq<Candidate>) {
    forall i, j :: 0 <= i < j < |s| ==> s[i].strength >= s[j].strength
  }

  /** Putting a candidate no weaker than all of a sorted list in front keeps it sorted. */
  lemma SortedCons(h: Candidate, t: seq<Candidate>)
    requires SortedByStrength(t)
    requires forall k :: 0 <= k < |t| ==> h.strength >= t[k].strength
    ensures SortedByStrength([h] + t)
  {
    var r := [h] + t;
    forall i, j | 0 <= i < j < |r|
      ensures r[i].strength >= r[j].strength
    {
      assert r[j] == t[j - 1];
      if i > 0 {
        assert r[i] == t[i - 1];
      }
    }
  }

  /** Inserts `x` ahead of every candidate that is not stronger than it. */
  function InsertByStrength(x: Candidate, s: seq<Candidate>): (r: seq<Candidate>)
    requires SortedByStrength(s)
    ensures |r| == |s| + 1
    ensures SortedByStrength(r)
    ensures multiset(r) == multiset(s) + multiset{x}
    ensures r[0] == (if s == [] || x.strength >= s[0].strength then x else s[0])
  {
    if s == [] || x.strength >= s[0].strength then
      InsertFront(x, s);
      [x] + s
    else
      var rest := InsertByStrength(x, s[1..]);
      InsertBehind(x, s, rest);
      [s[0]] + rest
  }

  /** A candidate at least as strong as the head of a sorted list goes in front. */
  lemma InsertFront(x: Candidate, s: seq<Candidate>)
    requires SortedByStrength(s)
    requires s == [] || x.strength >= s[0].strength
    ensures SortedByStrength([x] + s)
    ensures multiset([x] + s) == multiset(s) + multiset{x}
  {
    assert forall k :: 0 <= k < |s| ==> x.strength >= s[k].strength by {
      if s != [] {
        assert forall k :: 0 < k < |s| ==> s[0].strength >= s[k].strength;
      }
    }
    SortedCons(x, s);
  }

  /** A weaker candidate goes behind the head, into the rest. */
  lemma InsertBehind(x: Candidate, s: seq<Candidate>, rest: seq<Candidate>)
    requires SortedByStrength(s) && s != [] && x.strength < s[0].strength
    requires SortedByStrength(rest) && |rest| == |s|
    requires multiset(rest) == multiset(s[1..]) + multiset{x}
    ensures SortedByStrength([s[0]] + rest)
    ensures multiset([s[0]] + rest) == multiset(s) + multiset{x}
  {
    forall k | 0 <= k < |rest|
      ensures s[0].strength >= rest[k].strength
    {
      assert rest[k] in multiset(rest);
      if rest[k] != x {
        assert rest[k] in multiset(s[1..]);
        var m :| 0 <= m < |s[1..]| && s[1..][m] == rest[k];
        assert s[m + 1] == rest[k];
      }
    }
    SortedCons(s[0], rest);
    assert s == [s[0]] + s[1..];
    assert forall k :: 0 < k < |[s[0]] + rest| ==> ([s[0]] + rest)[k] == rest[k - 1];
  }

  /** The candidates of strength exactly `v`, in their order in `s`. */
  function KeepStrength(s: seq<Candidate>, v: real): (r: seq<Candidate>)
    ensures forall c :: c in r ==> c in s && c.strength == v
    ensures forall c :: c in s && c.strength == v ==> c in r
  {
    if s == [] then []
    else if s[0].strength == v then [s[0]] + KeepStrength(s[1..], v)
    else KeepStrength(s[1..], v)
  }

  /** Insertion puts `x` ahead of the candidates of its own strength and keeps their order. */
  lemma {:induction false} InsertKeepsTies(x: Candidate, t: seq<Candidate>, v: real)
    requires SortedByStrength(t)
    ensures KeepStrength(InsertByStrength(x, t), v)
            == (if x.strength == v then [x] else []) + KeepStrength(t, v)
  {
    if t == [] || x.strength >= t[0].strength {
      assert ([x] + t)[1..] == t;
    } else {
      var rest := InsertByStrength(x, t[1..]);
      assert ([t[0]] + rest)[1..] == rest;
      InsertKeepsTies(x, t[1..], v);
    }
  }

  /**
   * `[...candidates].sort((a, b) => b.strength - a.strength)`: ordered by descending
   * strength, a permutation, and stable: candidates of equal strength keep their order.
   */
  function SortByStrength(s: seq<Candidate>): (r: seq<Candidate>)
    ensures SortedByStrength(r)
    ensures multiset(r) == multiset(s)
    ensures |r| == |s|
    ensures forall v :: KeepStrength(r, v) == KeepStrength(s, v)
  {
    if s == [] then []
    else
      assert s == [s[0]] + s[1..];
      var sortedTail := SortByStrength(s[1..]);
      var r := InsertByStrength(s[0], sortedTail);
      assert |r| == |multiset(r)|;
      assert forall v :: KeepStrength(r, v) == KeepStrength(s, v) by {
        forall v
          ensures KeepStrength(r, v) == KeepStrength(s, v)
        {
          InsertKeepsTies(s[0], sortedTail, v);
        }
      }
      r
  }

  /** The head of the stable sort is the first candidate of maximal strength. */
  lemma {:induction false} SortHeadIsFirstMax(s: seq<Candidate>)
    requires s != []
    ensures SortByStrength(s)[0] == s[FirstMaxIndex(s)]
  {
    if |s| > 1 {
      SortHeadIsFirstMax(s[1..]);
      assert s[1..][FirstMaxIndex(s[1..])] == s[FirstMaxIndex(s[1..]) + 1];
    }
  }

  /** Whether `c` may replace a top candidate of strength `topStrength` whose type repeats. */
  predicate IsAlternative(c: Candidate, lastType: PatternType, topStrength: real) {
    c.patternType != lastType && c.strength >= topStrength * 0.9
  }

  /** `sorted.find(...)`: the first alternative in `s`. */
  function FindAlternative(s: seq<Candidate>, lastType: PatternType, topStrength: real): (r: Option<Candidate>)
    ensures r.None? <==> forall i :: 0 <= i < |s| ==> !IsAlternative(s[i], lastType, topStrength)
    ensures r.Some? ==> exists i :: 0 <= i < |s| && s[i] == r.value && IsAlternative(r.value, lastType, topStrength)
                          && forall j :: 0 <= j < i ==> !IsAlternative(s[j], lastType, topStrength)
  {
    if s == [] then None
    else if IsAlternative(s[0], lastType, topStrength) then Some(s[0])
    else
      var r := FindAlternative(s[1..], lastType, topStrength);
      assert forall j :: 1 <= j < |s| ==> s[j] == s[1..][j - 1];
      r
  }

  /**
   * `pickPatternCandidate`: the strongest candidate, unless its type repeats
   * `lastType` and some other type comes within 90% of it.
   */
  function PickPatternCandidate(cs: seq<Candidate>, lastType: Option<PatternType>): (r: Option<Candidate>)
    ensures r.None? <==> cs == []
    ensures r.Some? ==> r.value in cs
  {
    if cs == [] then None
    else
      var sorted := SortByStrength(cs);
      var top := sorted[0];
      assert top in multiset(cs);
      if lastType.Some? && top.patternType == lastType.value then
        var alt := FindAlternative(sorted, lastType.value, top.strength);
        if alt.Some? then
          assert alt.value in multiset(sorted);
          alt
        else Some(top)
      else Some(top)
  }

  /** Without a previous type the pick is the first candidate of maximal strength. */
  lemma PickWithoutLastType(cs: seq<Candidate>)
    requires cs != []
    ensures PickPatternCandidate(cs, None) == Some(cs[FirstMaxIndex(cs)])
  {
    SortHeadIsFirstMax(cs);
  }

  /** When the strongest candidate's type differs from the previous one, it is picked. */
  lemma PickKeepsFreshTop(cs: seq<Candidate>, last: PatternType)
    requires cs != []
    requires cs[FirstMaxIndex(cs)].patternType != last
    ensures PickPatternCandidate(cs, Some(last)) == Some(cs[FirstMaxIndex(cs)])
  {
    SortHeadIsFirstMax(cs);
  }

  /**
   * The pick is either the first strongest candidate, or a candidate of a type
   * other than `lastType` reaching 90% of the maximum strength.
   */
  lemma PickIsTopOrAlternative(cs: seq<Candidate>, lastType: Option<PatternType>)
    requires cs != []
    ensures var r := PickPatternCandidate(cs, lastType).value;
            r == cs[FirstMaxIndex(cs)]
            || (lastType.Some? && IsAlternative(r, lastType.value, cs[FirstMaxIndex(cs)].strength))
  {
    SortHeadIsFirstMax(cs);
  }

  /**
   * Anti-repetition: when the strongest candidate repeats `lastType` and another
   * type reaches 90% of its strength, the pick has another type and is at least
   * as strong as every such alternative.
   */
  lemma PickAvoidsRepetition(cs: seq<Candidate>, last: PatternType, other: Candidate)
    requires cs != []
    requires cs[FirstMaxIndex(cs)].patternType == last
    requires other in cs && IsAlternative(other, last, cs[FirstMaxIndex(cs)].strength)
    ensures PickPatternCandidate(cs, Some(last)).value.patternType != last
    ensures PickPatternCandidate(cs, Some(last)).value.strength >= other.strength
  {
    var sorted := SortByStrength(cs);
    SortHeadIsFirstMax(cs);
    assert other in multiset(cs);
    assert other in multiset(sorted);
    FindAlternativeInSorted(sorted, last, sorted[0].strength, other);
  }

  /**
   * Ties among alternatives: when the strongest candidate repeats `lastType` and an
   * alternative exists, the pick is the first alternative, in input order, among
   * the candidates of the pick's own strength, which by `PickAvoidsRepetition` is
   * the highest strength of any alternative.
   */
  lemma {:induction false} PickIsFirstOfStrongestAlternatives(cs: seq<Candidate>, last: PatternType, other: Candidate)
    requires cs != []
    requires cs[FirstMaxIndex(cs)].patternType == last
    requires other in cs && IsAlternative(other, last, cs[FirstMaxIndex(cs)].strength)
    ensures var r := PickPatternCandidate(cs, Some(last)).value;
            FindAlternative(KeepStrength(cs, r.strength), last, cs[FirstMaxIndex(cs)].strength) == Some(r)
  {
    var sorted := SortByStrength(cs);
    var top := cs[FirstMaxIndex(cs)];
    SortHeadIsFirstMax(cs);
    assert sorted[0] == top;
    assert other in multiset(sorted);
    var alt := FindAlternative(sorted, last, top.strength);
    FindAlternativeInSorted(sorted, last, top.strength, other);
    assert alt.Some?;
    assert PickPatternCandidate(cs, Some(last)) == alt;
    var v := alt.value.strength;
    FindInTies(sorted, last, top.strength);
    assert FindAlternative(KeepStrength(sorted, v), last, top.strength) == alt;
    assert KeepStrength(sorted, v) == KeepStrength(cs, v);
  }

  /** The first alternative of a list is also the first alternative among the candidates of its strength. */
  lemma {:induction false} FindInTies(t: seq<Candidate>, last: PatternType, topStrength: real)
    requires FindAlternative(t, last, topStrength).Some?
    ensures var r := FindAlternative(t, last, topStrength);
            FindAlternative(KeepStrength(t, r.value.strength), last, topStrength) == r
  {
    var r := FindAlternative(t, last, topStrength);
    var v := r.value.strength;
    if IsAlternative(t[0], last, topStrength) {
      assert r == Some(t[0]);
      assert KeepStrength(t, v) == [t[0]] + KeepStrength(t[1..], v);
    } else {
      assert r == FindAlternative(t[1..], last, topStrength);
      FindInTies(t[1..], last, topStrength);
      var kept := KeepStrength(t[1..], v);
      if t[0].strength == v {
        assert KeepStrength(t, v) == [t[0]] + kept;
        assert ([t[0]] + kept)[1..] == kept;
      }
    }
  }

  /** In a list sorted by strength the first alternative is at least as strong as any other. */
  lemma FindAlternativeInSorted(sorted: seq<Candidate>, last: PatternType, topStrength: real, other: Candidate)
    requires SortedByStrength(sorted)
    requires other in sorted && IsAlternative(other, last, topStrength)
    ensures FindAlternative(sorted, last, topStrength).Some?
    ensures FindAlternative(sorted, last, topStrength).value.patternType != last
    ensures FindAlternative(sorted, last, topStrength).value.strength >= other.strength
  {
    var k :| 0 <= k < |sorted| && sorted[k] == other;
    var alt := FindAlternative(sorted, last, topStrength);
    var i :| 0 <= i < |sorted| && sorted[i] == alt.value && IsAlternative(alt.value, last, topStrength)
             && forall j :: 0 <= j < i ==> !IsAlternative(sorted[j], last, topStrength);
    assert i <= k;
  }
}
