/**
 * The time-horizon projection of `components/app/ripple-visualization.tsx`: the
 * three points (now, 24 hours, one week) whose clarity and warmth drift down and
 * whose risk drifts up, each clamped to [0, 100], and the tone words shown for
 * the current scores. Props are JavaScript numbers, so scores here are `real`.
 */
module Ripple {
  import opened Numeric
  import PatternInsight

  datatype ScoreLabel = ClarityLabel | WarmthLabel | RiskLabel

  /** One ring of the visualisation: a label and the projected scores. */
  datatype Timepoint = Timepoint(name: string, clarity: real, warmth: real, risk: real)

  const NowLabel: string := "Now"
  const DayLabel: string := "24 hours"
  const WeekLabel: string := "1 week"

  predicate InRange(x: real) {
    0.0 <= x <= 100.0
  }

  predicate PointInRange(p: Timepoint) {
    InRange(p.clarity) && InRange(p.warmth) && InRange(p.risk)
  }

  /** `describeScore`: the tone word for a score, with strict lower thresholds. */
  function DescribeScore(kind: ScoreLabel, value: real): (tone: string)
    ensures kind == ClarityLabel ==> (tone == "Crisp" <==> value > 75.0) && (tone == "Hazy" <==> value <= 55.0)
    ensures kind == ClarityLabel ==> tone in {"Crisp", "Mixed", "Hazy"}
    ensures kind == WarmthLabel ==> (tone == "Supportive" <==> value > 70.0) && (tone == "Cool" <==> value <= 45.0)
    ensures kind == WarmthLabel ==> tone in {"Supportive", "Neutral", "Cool"}
    ensures kind == RiskLabel ==> (tone == "Elevated" <==> value > 60.0) && (tone == "Low" <==> value <= 40.0)
    ensures kind == RiskLabel ==> tone in {"Elevated", "Watch", "Low"}
  {
    match kind
    case ClarityLabel => if value > 75.0 then "Crisp" else if value > 55.0 then "Mixed" else "Hazy"
    case WarmthLabel => if value > 70.0 then "Supportive" else if value > 45.0 then "Neutral" else "Cool"
    case RiskLabel => if value > 60.0 then "Elevated" else if value > 40.0 then "Watch" else "Low"
  }

  /** `adjust`: move a score by a whole-number delta and clamp it to [0, 100]. */
  function Adjust(value: real, delta: int): (r: real)
    ensures InRange(r)
    ensures InRange(value + delta as real) ==> r == value + delta as real
  {
    ClampReal(value + delta as real, 0.0, 100.0)
  }

  /** How far a score is below 100, as a fraction. */
  function Drift(score: real): real {
    (100.0 - score) / 100.0
  }

  /** The risk as a fraction of 100. */
  function Amplify(risk: real): real {
    risk / 100.0
  }

  function DayClarityDrop(clarity: real, risk: real): int {
    Round(6.0 + Drift(clarity) * 10.0 + Amplify(risk) * 4.0)
  }

  function WeekClarityDrop(clarity: real, risk: real): int {
    Round(12.0 + Drift(clarity) * 16.0 + Amplify(risk) * 6.0)
  }

  function DayWarmthDrop(warmth: real, risk: real): int {
    Round(4.0 + Drift(warmth) * 8.0 + Amplify(risk) * 3.0)
  }

  function WeekWarmthDrop(warmth: real, risk: real): int {
    Round(8.0 + Drift(warmth) * 14.0 + Amplify(risk) * 5.0)
  }

  function DayRiskRise(clarity: real, warmth: real): int {
    Round(6.0 + Drift(clarity) * 8.0 + Drift(warmth) * 6.0)
  }

  /** The one-week risk rise: unlike `computeRiskWeek` it has no term in the risk itself. */
  function WeekRiskRise(clarity: real, warmth: real): int {
    Round(12.0 + Drift(clarity) * 14.0 + Drift(warmth) * 12.0)
  }

  /** `buildTimepoints`: the current scores, then the 24-hour and one-week projections. */
  function BuildTimepoints(clarity: real, warmth: real, risk: real): (ps: seq<Timepoint>)
    ensures |ps| == 3
    ensures ps[0].name == NowLabel && ps[1].name == DayLabel && ps[2].name == WeekLabel
    ensures ps[0] == Timepoint(NowLabel, clarity, warmth, risk)
    ensures PointInRange(ps[1]) && PointInRange(ps[2])
  {
    [
      Timepoint(NowLabel, clarity, warmth, risk),
      Timepoint(DayLabel,
        Adjust(clarity, -DayClarityDrop(clarity, risk)),
        Adjust(warmth, -DayWarmthDrop(warmth, risk)),
        Adjust(risk, DayRiskRise(clarity, warmth))),
      Timepoint(WeekLabel,
        Adjust(clarity, -WeekClarityDrop(clarity, risk)),
        Adjust(warmth, -WeekWarmthDrop(warmth, risk)),
        Adjust(risk, WeekRiskRise(clarity, warmth)))
    ]
  }

  /** For scores in [0, 100] every drift is non-negative and the week's drift is at least the day's. */
  lemma DriftsGrow(clarity: real, warmth: real, risk: real)
    requires InRange(clarity) && InRange(warmth) && InRange(risk)
    ensures 0 <= DayClarityDrop(clarity, risk) <= WeekClarityDrop(clarity, risk)
    ensures 0 <= DayWarmthDrop(warmth, risk) <= WeekWarmthDrop(warmth, risk)
    ensures 0 <= DayRiskRise(clarity, warmth) <= WeekRiskRise(clarity, warmth)
  {
    var cd, wd, ra := Drift(clarity), Drift(warmth), Amplify(risk);
    assert 0.0 <= cd && 0.0 <= wd && 0.0 <= ra;
    RoundMonotone(0.0, 6.0 + cd * 10.0 + ra * 4.0);
    RoundMonotone(6.0 + cd * 10.0 + ra * 4.0, 12.0 + cd * 16.0 + ra * 6.0);
    RoundMonotone(0.0, 4.0 + wd * 8.0 + ra * 3.0);
    RoundMonotone(4.0 + wd * 8.0 + ra * 3.0, 8.0 + wd * 14.0 + ra * 5.0);
    RoundMonotone(0.0, 6.0 + cd * 8.0 + wd * 6.0);
    RoundMonotone(6.0 + cd * 8.0 + wd * 6.0, 12.0 + cd * 14.0 + wd * 12.0);
    RoundOfInt(0);
  }

  /** Every point of a projection of in-range scores is in range. */
  lemma TimepointsInRange(clarity: real, warmth: real, risk: real)
    requires InRange(clarity) && InRange(warmth) && InRange(risk)
    ensures forall k :: 0 <= k < 3 ==> PointInRange(BuildTimepoints(clarity, warmth, risk)[k])
  {
  }

  /** Moving a score down by a larger drop never gives a larger clamped result, and up by a larger rise never a smaller one. */
  lemma AdjustMonotone(value: real, d1: int, d2: int)
    requires d1 <= d2
    ensures Adjust(value, d1) <= Adjust(value, d2)
  {
    ClampRealMonotone(value + d1 as real, value + d2 as real, 0.0, 100.0);
  }

  /**
   * From now to 24 hours to one week, clarity and warmth never rise and risk
   * never falls, for scores in [0, 100].
   */
  lemma TimepointsDrift(clarity: real, warmth: real, risk: real)
    requires InRange(clarity) && InRange(warmth) && InRange(risk)
    ensures var ps := BuildTimepoints(clarity, warmth, risk);
            && ps[2].clarity <= ps[1].clarity <= ps[0].clarity
            && ps[2].warmth <= ps[1].warmth <= ps[0].warmth
            && ps[0].risk <= ps[1].risk <= ps[2].risk
  {
    DriftsGrow(clarity, warmth, risk);
    AdjustMonotone(clarity, -DayClarityDrop(clarity, risk), 0);
    AdjustMonotone(clarity, -WeekClarityDrop(clarity, risk), -DayClarityDrop(clarity, risk));
    AdjustMonotone(warmth, -DayWarmthDrop(warmth, risk), 0);
    AdjustMonotone(warmth, -WeekWarmthDrop(warmth, risk), -DayWarmthDrop(warmth, risk));
    AdjustMonotone(risk, 0, DayRiskRise(clarity, warmth));
    AdjustMonotone(risk, DayRiskRise(clarity, warmth), WeekRiskRise(clarity, warmth));
  }

  /** The render path: props are clamped to [0, 100] before they are projected. */
  function RenderTimepoints(clarity: real, warmth: real, risk: real): (ps: seq<Timepoint>)
    ensures |ps| == 3
    ensures forall k :: 0 <= k < 3 ==> PointInRange(ps[k])
    ensures InRange(clarity) && InRange(warmth) && InRange(risk) ==> ps[0] == Timepoint(NowLabel, clarity, warmth, risk)
    ensures ps[2].clarity <= ps[1].clarity <= ps[0].clarity
    ensures ps[2].warmth <= ps[1].warmth <= ps[0].warmth
    ensures ps[0].risk <= ps[1].risk <= ps[2].risk
  {
    var c := ClampReal(clarity, 0.0, 100.0);
    var w := ClampReal(warmth, 0.0, 100.0);
    var r := ClampReal(risk, 0.0, 100.0);
    TimepointsInRange(c, w, r);
    TimepointsDrift(c, w, r);
    BuildTimepoints(c, w, r)
  }

  /** Clamping an integer and then reading it as a real is clamping the real. */
  lemma ClampAsReal(x: int)
    ensures ClampReal(x as real, 0.0, 100.0) == ClampInt(x, 0, 100) as real
  {
  }

  /**
   * For integer scores in [0, 100] the ripple's one-week risk is never above
   * `computeRiskWeek`, whose delta has the extra `risk / 100 * 6` term.
   */
  lemma WeekRiskAtMostRiskWeek(clarity: int, warmth: int, risk: int)
    requires 0 <= clarity <= 100 && 0 <= warmth <= 100 && 0 <= risk <= 100
    ensures BuildTimepoints(clarity as real, warmth as real, risk as real)[2].risk
            <= PatternInsight.ComputeRiskWeek(clarity, warmth, risk) as real
  {
    var cd, wd := Drift(clarity as real), Drift(warmth as real);
    var ra := risk as real / 100.0;
    assert cd == (100 - clarity) as real / 100.0;
    assert wd == (100 - warmth) as real / 100.0;
    RoundMonotone(12.0 + cd * 14.0 + wd * 12.0, 12.0 + cd * 14.0 + wd * 12.0 + ra * 6.0);
    var mine := WeekRiskRise(clarity as real, warmth as real);
    var theirs := PatternInsight.RiskWeekDelta(clarity, warmth, risk);
    assert mine <= theirs;
    ClampIntMonotone(risk + mine, risk + theirs, 0, 100);
    ClampAsReal(risk + mine);
  }

  /** The two projections differ: full clarity and warmth with risk 50 give 62 here and 65 in `computeRiskWeek`. */
  lemma WeekRiskDiverges()
    ensures BuildTimepoints(100.0, 100.0, 50.0)[2].risk == 62.0
    ensures PatternInsight.ComputeRiskWeek(100, 100, 50) == 65
  {
    assert WeekRiskRise(100.0, 100.0) == 12;
    assert PatternInsight.RiskWeekDelta(100, 100, 50) == 15;
  }
}
