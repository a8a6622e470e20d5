/**
 * The result post-processing of `lib/analysis.ts`: score clamping, the fallback
 * summary, suggestion softening, the sanitiser that always yields three
 * suggestions, the per-scenario score weights, and the keyword heuristic used
 * when no model is configured.
 */
module Analysis {
  import opened Wrappers
  import opened Numeric
  import opened Text

  /** A JavaScript number: a finite value, or one of NaN and the infinities. */
  datatype Number = Finite(value: real) | NonFinite

  /** A result as produced by the model or the heuristic, before sanitising. */
  datatype RawResult = RawResult(clarity: Number, warmth: Number, risk: Number, summary: string, suggestions: seq<string>)

  /** A sanitised result: integer scores in [0, 100] and exactly three suggestions. */
  datatype AnalysisResult = AnalysisResult(clarity: int, warmth: int, risk: int, summary: string, suggestions: seq<string>)

  predicate IsScore(n: int) {
    0 <= n <= 100
  }

  /** `clampScore`: non-finite input becomes 0; otherwise the rounded value, clamped to [0, 100]. */
  function ClampScore(value: Number): (r: int)
    ensures IsScore(r)
    ensures value.NonFinite? ==> r == 0
    ensures value.Finite? && IsScore(Round(value.value)) ==> r == Round(value.value)
    ensures value.Finite? && Round(value.value) < 0 ==> r == 0
    ensures value.Finite? && Round(value.value) > 100 ==> r == 100
  {
    match value
    case NonFinite => 0
    case Finite(x) =>
      var rounded := Round(x);
      var capped := if rounded < 100 then rounded else 100;
      if capped > 0 then capped else 0
  }

  /** Clamping a score that is already an in-range integer changes nothing. */
  lemma ClampScoreOfScore(n: int)
    requires IsScore(n)
    ensures ClampScore(Finite(n as real)) == n
  {
    RoundOfInt(n);
  }

  /** Clamping never decreases when its finite argument grows. */
  lemma ClampScoreMonotone(x: real, y: real)
    requires x <= y
    ensures ClampScore(Finite(x)) <= ClampScore(Finite(y))
  {
    RoundMonotone(x, y);
  }

  function ClarityTone(clarity: int): (tone: string)
    ensures tone == "solid clarity" <==> clarity > 75
    ensures tone == "low clarity" <==> clarity <= 55
    ensures |tone| <= 15
  {
    if clarity > 75 then "solid clarity" else if clarity > 55 then "mixed clarity" else "low clarity"
  }

  function WarmthTone(warmth: int): (tone: string)
    ensures tone == "warm tone" <==> warmth > 65
    ensures tone == "cool tone" <==> warmth <= 45
    ensures |tone| <= 15
  {
    if warmth > 65 then "warm tone" else if warmth > 45 then "neutral tone" else "cool tone"
  }

  function RiskTone(risk: int): (tone: string)
    ensures tone == "may linger" <==> risk > 60
    ensures tone == "seems contained" <==> risk <= 40
    ensures |tone| <= 15
  {
    if risk > 60 then "may linger" else if risk > 40 then "could surface" else "seems contained"
  }

  const SummaryLead: string := "This message reads with "

  /** `buildSummary`: one sentence naming the clarity, warmth and risk bands. */
  function BuildSummary(clarity: int, warmth: int, risk: int): (summary: string)
    ensures StartsWith(summary, SummaryLead)
    ensures IsTrimmed(summary) && 0 < |summary| <= 280
  {
    var rest := ClarityTone(clarity) + " and a " + WarmthTone(warmth) + ", while emotional risk "
                + RiskTone(risk) + ".";
    LeadSentence(SummaryLead, rest);
    SummaryLead + rest
  }

  /** A sentence made of a lead that starts with no whitespace and a rest that ends in a full stop. */
  lemma LeadSentence(lead: string, rest: string)
    requires lead != [] && !IsSpace(lead[0]) && rest != [] && rest[|rest| - 1] == '.'
    ensures StartsWith(lead + rest, lead) && IsTrimmed(lead + rest)
  {
    assert (lead + rest)[..|lead|] == lead;
    assert (lead + rest)[|lead + rest| - 1] == rest[|rest| - 1];
  }

  /** Scores in the same bands give the same summary. */
  lemma SummaryDependsOnBands(c1: int, w1: int, r1: int, c2: int, w2: int, r2: int)
    requires ClarityTone(c1) == ClarityTone(c2) && WarmthTone(w1) == WarmthTone(w2) && RiskTone(r1) == RiskTone(r2)
    ensures BuildSummary(c1, w1, r1) == BuildSummary(c2, w2, r2)
  {
  }

  const AllowedStarts: seq<string> := ["consider", "you could", "you might", "it may help", "it could help", "one option"]

  /** Whether the text starts with one of the allowed hedging openers. */
  predicate HasAllowedStart(lower: string) {
    exists i :: 0 <= i < |AllowedStarts| && StartsWith(lower, AllowedStarts[i])
  }

  const ConsiderPrefix: string := "Consider: "

  lemma ConsiderIsAllowed(t: string)
    ensures HasAllowedStart(ToLower(ConsiderPrefix + t))
  {
    var lower := ToLower(ConsiderPrefix + t);
    assert lower[..8] == "consider" by {
      forall k | 0 <= k < 8
        ensures lower[k] == "consider"[k]
      {
        assert (ConsiderPrefix + t)[k] == ConsiderPrefix[k];
      }
    }
    assert StartsWith(lower, AllowedStarts[0]);
  }

  /** A suggestion the sanitiser keeps as it is: non-empty, trimmed and hedged. */
  predicate IsSoft(s: string) {
    s != [] && IsTrimmed(s) && HasAllowedStart(ToLower(s))
  }

  /** "Consider: " followed by a trimmed text is a soft suggestion. */
  lemma ConsiderLineIsSoft(t: string)
    requires t != [] && !IsSpace(t[|t| - 1])
    ensures IsSoft(ConsiderPrefix + t)
  {
    ConsiderIsAllowed(t);
    ConsiderIsTrimmed(t);
  }

  lemma ConsiderIsTrimmed(t: string)
    requires t != [] && !IsSpace(t[|t| - 1])
    ensures IsTrimmed(ConsiderPrefix + t)
  {
    assert (ConsiderPrefix + t)[|ConsiderPrefix + t| - 1] == t[|t| - 1];
  }

  /**
   * `softenSuggestion`: blank text becomes empty; text that already opens with
   * an allowed phrase is kept (trimmed); anything else gets "Consider: " in front.
   */
  function SoftenSuggestion(suggestion: string): (r: string)
    ensures r == "" <==> Trim(suggestion) == ""
    ensures r != "" ==> IsTrimmed(r) && HasAllowedStart(ToLower(r))
    ensures HasAllowedStart(ToLower(Trim(suggestion))) ==> r == Trim(suggestion)
    ensures Trim(suggestion) != "" && !HasAllowedStart(ToLower(Trim(suggestion))) ==> r == ConsiderPrefix + Trim(suggestion)
  {
    var trimmed := Trim(suggestion);
    if trimmed == "" then ""
    else if HasAllowedStart(ToLower(trimmed)) then trimmed
    else
      ConsiderIsAllowed(trimmed);
      ConsiderIsTrimmed(trimmed);
      ConsiderPrefix + trimmed
  }

  /** Softening a softened suggestion changes nothing. */
  lemma SoftenIdempotent(suggestion: string)
    ensures SoftenSuggestion(SoftenSuggestion(suggestion)) == SoftenSuggestion(suggestion)
  {
    var r := SoftenSuggestion(suggestion);
    if r != "" {
      TrimOfTrimmed(r);
    }
  }

  /** A trimmed suggestion that already opens with an allowed phrase is left alone. */
  lemma SoftenKeepsHedged(s: string)
    requires s != [] && IsTrimmed(s) && HasAllowedStart(ToLower(s))
    ensures SoftenSuggestion(s) == s
  {
    TrimOfTrimmed(s);
  }

  const FallbackSuggestions: seq<string> := [
    ConsiderPrefix + "add a short clarifying line that preserves your voice.",
    ConsiderPrefix + "highlight the most important ask in one sentence.",
    ConsiderPrefix + "add a gentle acknowledgment if the tone feels cool."
  ]

  /** The softened suggestions that are not empty, in order. */
  function Softened(suggestions: seq<string>): (r: seq<string>)
    ensures |r| <= |suggestions|
    ensures forall i :: 0 <= i < |r| ==> IsSoft(r[i])
  {
    if suggestions == [] then []
    else
      var s := SoftenSuggestion(suggestions[0]);
      var rest := Softened(suggestions[1..]);
      if s == "" then rest
      else
        AllSoftCons(s, rest);
        [s] + rest
  }

  /** A soft suggestion in front of soft suggestions keeps them all soft. */
  lemma AllSoftCons(s: string, rest: seq<string>)
    requires IsSoft(s)
    requires forall i :: 0 <= i < |rest| ==> IsSoft(rest[i])
    ensures forall i :: 0 <= i < |[s] + rest| ==> IsSoft(([s] + rest)[i])
  {
  }

  /** Softening works element by element: a list's survivors are its parts' survivors, in order. */
  lemma {:induction false} SoftenedAppend(a: seq<string>, b: seq<string>)
    ensures Softened(a + b) == Softened(a) + Softened(b)
  {
    if a == [] {
      assert a + b == b;
    } else {
      assert (a + b)[0] == a[0];
      assert (a + b)[1..] == a[1..] + b;
      SoftenedAppend(a[1..], b);
    }
  }

  /** One suggestion survives as its softened form unless that is empty. */
  lemma SoftenedSingle(x: string)
    ensures Softened([x]) == if SoftenSuggestion(x) == "" then [] else [SoftenSuggestion(x)]
  {
    assert [x][1..] == [];
  }

  /** Softening every suggestion that is already soft and non-empty returns the list itself. */
  lemma {:induction false} SoftenedOfSoft(suggestions: seq<string>)
    requires forall i :: 0 <= i < |suggestions| ==> IsSoft(suggestions[i])
    ensures Softened(suggestions) == suggestions
  {
    if suggestions != [] {
      var head, tail := suggestions[0], suggestions[1..];
      SoftenKeepsHedged(head);
      assert forall i :: 0 <= i < |tail| ==> IsSoft(tail[i]) by {
        forall i | 0 <= i < |tail|
          ensures IsSoft(tail[i])
        {
          assert tail[i] == suggestions[i + 1];
        }
      }
      SoftenedOfSoft(tail);
      assert SoftenSuggestion(head) == head;
      assert Softened(suggestions) == [head] + Softened(tail);
      HeadTail(suggestions);
    }
  }

  /** The kept suggestions padded with the fallbacks at their own positions. */
  function PadSuggestions(kept: seq<string>): (r: seq<string>)
    requires |kept| <= 3
    ensures |r| == 3
    ensures r[..|kept|] == kept
    ensures forall i :: |kept| <= i < 3 ==> r[i] == FallbackSuggestions[i]
  {
    kept + FallbackSuggestions[|kept|..]
  }

  lemma FallbacksAreSoft()
    ensures forall i :: 0 <= i < 3 ==> IsSoft(FallbackSuggestions[i])
  {
    ConsiderLineIsSoft("add a short clarifying line that preserves your voice.");
    ConsiderLineIsSoft("highlight the most important ask in one sentence.");
    ConsiderLineIsSoft("add a gentle acknowledgment if the tone feels cool.");
  }

  /** The summary rule: the trimmed summary, or the band sentence when blank, cut to 280 characters. */
  function SanitizeSummary(summary: string, clarity: int, warmth: int, risk: int): (r: string)
    ensures |r| <= 280
    ensures r != [] && !IsSpace(r[0])
    ensures Trim(summary) != "" ==> r == Take(Trim(summary), 280)
    ensures Trim(summary) == "" ==> r == BuildSummary(clarity, warmth, risk)
  {
    ChooseSummary(summary, BuildSummary(clarity, warmth, risk))
  }

  /** The trimmed summary cut to 280 characters, or the fallback sentence when it is blank. */
  function ChooseSummary(summary: string, fallback: string): (r: string)
    requires fallback != [] && IsTrimmed(fallback) && |fallback| <= 280
    ensures |r| <= 280
    ensures r != [] && !IsSpace(r[0])
    ensures Trim(summary) != "" ==> r == Take(Trim(summary), 280)
    ensures Trim(summary) == "" ==> r == fallback
  {
    var chosen := if Trim(summary) != "" then Trim(summary) else fallback;
    assert chosen != [] && IsTrimmed(chosen);
    var cut := Take(chosen, 280);
    assert cut != [] && !IsSpace(cut[0]) by {
      TakeKeepsStart(chosen, 280);
    }
    cut
  }

  /** A cut of a trimmed non-empty string to a positive length is non-empty and starts with no whitespace. */
  lemma TakeKeepsStart(s: string, n: nat)
    requires s != [] && IsTrimmed(s) && n > 0
    ensures Take(s, n) != [] && !IsSpace(Take(s, n)[0])
  {
    assert Take(s, n)[0] == s[0];
  }

  /** The suggestion rule: the first three softened, non-empty suggestions, then the fallbacks. */
  function SanitizeSuggestions(suggestions: seq<string>): (r: seq<string>)
    ensures |r| == 3
    ensures forall i :: 0 <= i < 3 ==> IsSoft(r[i])
    ensures var kept := Take(Softened(suggestions), 3);
            r[..|kept|] == kept && forall i :: |kept| <= i < 3 ==> r[i] == FallbackSuggestions[i]
  {
    var kept := Take(Softened(suggestions), 3);
    var r := PadSuggestions(kept);
    FallbacksAreSoft();
    assert forall i :: 0 <= i < |kept| ==> r[i] == kept[i] == Softened(suggestions)[i];
    r
  }

  /** `sanitizeResult`. */
  function SanitizeResult(result: RawResult): (r: AnalysisResult)
    ensures IsScore(r.clarity) && IsScore(r.warmth) && IsScore(r.risk)
    ensures r.clarity == ClampScore(result.clarity) && r.warmth == ClampScore(result.warmth)
            && r.risk == ClampScore(result.risk)
    ensures r.summary == SanitizeSummary(result.summary, r.clarity, r.warmth, r.risk)
    ensures r.suggestions == SanitizeSuggestions(result.suggestions)
  {
    var clarity := ClampScore(result.clarity);
    var warmth := ClampScore(result.warmth);
    var risk := ClampScore(result.risk);
    AnalysisResult(clarity, warmth, risk, SanitizeSummary(result.summary, clarity, warmth, risk),
                   SanitizeSuggestions(result.suggestions))
  }

  /** Every sanitised result has three soft suggestions and a summary of at most 280 characters. */
  lemma SanitizedShape(result: RawResult)
    ensures var r := SanitizeResult(result);
            |r.suggestions| == 3 && (forall i :: 0 <= i < 3 ==> IsSoft(r.suggestions[i]))
            && 0 < |r.summary| <= 280
  {
  }

  /**
   * Sanitising a sanitised result keeps its scores and suggestions; its summary
   * only loses the whitespace a 280-character cut may have left at the end, so a
   * result whose summary is trimmed is a fixed point.
   */
  lemma SanitizeIdempotent(result: RawResult)
    ensures var r := SanitizeResult(result);
            var again := SanitizeResult(Unsanitize(r));
            && again.clarity == r.clarity && again.warmth == r.warmth && again.risk == r.risk
            && again.suggestions == r.suggestions
            && again.summary == Trim(r.summary)
            && (IsTrimmed(r.summary) ==> again == r)
  {
    var r := SanitizeResult(result);
    SanitizeAgain(r);
    if IsTrimmed(r.summary) {
      TrimOfTrimmed(r.summary);
    }
  }

  /** A result of the sanitiser's shape comes back with only its summary trimmed. */
  lemma SanitizeAgain(r: AnalysisResult)
    requires IsScore(r.clarity) && IsScore(r.warmth) && IsScore(r.risk)
    requires |r.suggestions| == 3 && forall i :: 0 <= i < 3 ==> IsSoft(r.suggestions[i])
    requires r.summary != [] && !IsSpace(r.summary[0]) && |r.summary| <= 280
    ensures SanitizeResult(Unsanitize(r)) == r.(summary := Trim(r.summary))
  {
    ClampScoreOfScore(r.clarity);
    ClampScoreOfScore(r.warmth);
    ClampScoreOfScore(r.risk);
    SuggestionsStable(r.suggestions);
    SummaryStable(r.summary, r.clarity, r.warmth, r.risk);
  }

  /** Three soft suggestions pass through the suggestion rule unchanged. */
  lemma SuggestionsStable(suggestions: seq<string>)
    requires |suggestions| == 3 && forall i :: 0 <= i < 3 ==> IsSoft(suggestions[i])
    ensures SanitizeSuggestions(suggestions) == suggestions
  {
    SoftenedOfSoft(suggestions);
    assert PadSuggestions(suggestions) == suggestions;
  }

  /** A summary the sanitiser produced comes back trimmed at the end and otherwise unchanged. */
  lemma SummaryStable(summary: string, clarity: int, warmth: int, risk: int)
    requires summary != [] && !IsSpace(summary[0]) && |summary| <= 280
    ensures SanitizeSummary(summary, clarity, warmth, risk) == Trim(summary)
  {
    assert TrimStart(summary) == summary;
  }

  /** A sanitised result seen as a raw one. */
  function Unsanitize(r: AnalysisResult): (raw: RawResult)
    ensures raw.summary == r.summary && raw.suggestions == r.suggestions
  {
    RawResult(Finite(r.clarity as real), Finite(r.warmth as real), Finite(r.risk as real), r.summary, r.suggestions)
  }

  /** The per-scenario multipliers for clarity, warmth and risk. */
  datatype Weights = Weights(clarity: real, warmth: real, risk: real)

  /** An empty or missing scenario means none; "boss" and "partner" are named; anything else weighs as a client. */
  function ScenarioWeights(scenario: string): Weights {
    if scenario == "boss" then Weights(1.2, 0.8, 1.2)
    else if scenario == "partner" then Weights(0.9, 1.2, 1.0)
    else Weights(1.1, 1.0, 1.1)
  }

  function Scale(value: Number, weight: real): Number {
    match value
    case Finite(x) => Finite(x * weight)
    case NonFinite => NonFinite
  }

  /** `applyScenarioWeights`: weight and clamp the three scores, then sanitise. */
  function ApplyScenarioWeights(result: RawResult, scenario: Option<string>): (r: AnalysisResult)
    ensures scenario.None? || scenario.value == "" ==> r == SanitizeResult(result)
    ensures scenario.Some? && scenario.value != "" ==>
              var w := ScenarioWeights(scenario.value);
              && r.clarity == ClampScore(Scale(result.clarity, w.clarity))
              && r.warmth == ClampScore(Scale(result.warmth, w.warmth))
              && r.risk == ClampScore(Scale(result.risk, w.risk))
    ensures Trim(result.summary) != "" ==> r.summary == SanitizeResult(result).summary
    ensures Trim(result.summary) == "" ==> r.summary == BuildSummary(r.clarity, r.warmth, r.risk)
    ensures r.suggestions == SanitizeResult(result).suggestions
  {
    var raw := Weighted(result, scenario);
    ClampScoreOfScore(ClampScore(Scale(result.clarity, ScenarioWeights(scenario.GetOr("")).clarity)));
    ClampScoreOfScore(ClampScore(Scale(result.warmth, ScenarioWeights(scenario.GetOr("")).warmth)));
    ClampScoreOfScore(ClampScore(Scale(result.risk, ScenarioWeights(scenario.GetOr("")).risk)));
    SanitizeResult(raw)
  }

  /** The raw result with the scenario's weights applied to its scores and nothing else changed. */
  function Weighted(result: RawResult, scenario: Option<string>): (raw: RawResult)
    ensures raw.summary == result.summary && raw.suggestions == result.suggestions
  {
    if scenario.None? || scenario.value == "" then result
    else
      var w := ScenarioWeights(scenario.value);
      result.(
        clarity := Finite(ClampScore(Scale(result.clarity, w.clarity)) as real),
        warmth := Finite(ClampScore(Scale(result.warmth, w.warmth)) as real),
        risk := Finite(ClampScore(Scale(result.risk, w.risk)) as real))
  }

  lemma WeightUp(n: int, weight: real)
    requires IsScore(n) && weight >= 1.0
    ensures ClampScore(Finite((n as real) * weight)) >= n
  {
    ScaleUp(n as real, weight);
    ClampScoreOfScore(n);
  }

  lemma WeightDown(n: int, weight: real)
    requires IsScore(n) && 0.0 <= weight <= 1.0
    ensures ClampScore(Finite((n as real) * weight)) <= n
  {
    ScaleDown(n as real, weight);
    ClampScoreOfScore(n);
  }

  /** A weight of at least one never lowers a clamped non-negative score. */
  lemma ScaleUp(a: real, w: real)
    requires a >= 0.0 && w >= 1.0
    ensures ClampScore(Finite(a * w)) >= ClampScore(Finite(a))
  {
    assert a * w - a == a * (w - 1.0);
    ClampScoreMonotone(a, a * w);
  }

  /** A weight in [0, 1] never raises a clamped non-negative score. */
  lemma ScaleDown(a: real, w: real)
    requires a >= 0.0 && 0.0 <= w <= 1.0
    ensures ClampScore(Finite(a * w)) <= ClampScore(Finite(a))
  {
    assert a - a * w == a * (1.0 - w);
    ClampScoreMonotone(a * w, a);
  }

  /** A score field that already holds an integer in [0, 100]. */
  predicate IsScoreNumber(v: Number) {
    v.Finite? && v.value == v.value.Floor as real && IsScore(v.value.Floor)
  }

  /** Weighting an in-range integer score by one of the scenario multipliers, against leaving it alone. */
  lemma WeightDirection(v: Number, weight: real)
    requires IsScoreNumber(v) && weight >= 0.0
    ensures weight >= 1.0 ==> ClampScore(Scale(v, weight)) >= ClampScore(v)
    ensures weight <= 1.0 ==> ClampScore(Scale(v, weight)) <= ClampScore(v)
  {
    var n := v.value.Floor;
    ClampScoreOfScore(n);
    if weight >= 1.0 {
      WeightUp(n, weight);
    }
    if weight <= 1.0 {
      WeightDown(n, weight);
    }
  }

  /**
   * For integer scores in [0, 100], compared with the unweighted sanitised
   * result: the boss weights never lower clarity or risk and never raise
   * warmth.
   */
  lemma BossWeightDirections(result: RawResult)
    requires IsScoreNumber(result.clarity) && IsScoreNumber(result.warmth) && IsScoreNumber(result.risk)
    ensures var plain := SanitizeResult(result);
            var boss := ApplyScenarioWeights(result, Some("boss"));
            boss.clarity >= plain.clarity && boss.risk >= plain.risk && boss.warmth <= plain.warmth
  {
    WeightDirection(result.clarity, 1.2);
    WeightDirection(result.warmth, 0.8);
    WeightDirection(result.risk, 1.2);
  }

  /** Partner weighting leaves an in-range integer risk unchanged. */
  lemma PartnerKeepsRisk(result: RawResult)
    requires IsScoreNumber(result.risk)
    ensures ApplyScenarioWeights(result, Some("partner")).risk == SanitizeResult(result).risk
  {
    assert ScenarioWeights("partner").risk == 1.0;
    WeightDirection(result.risk, 1.0);
  }

  /** Client weighting, the one for any other scenario name, leaves an in-range integer warmth unchanged. */
  lemma ClientKeepsWarmth(result: RawResult)
    requires IsScoreNumber(result.warmth)
    ensures ApplyScenarioWeights(result, Some("client")).warmth == SanitizeResult(result).warmth
  {
    assert ScenarioWeights("client").warmth == 1.0;
    WeightDirection(result.warmth, 1.0);
  }

  // ---------------------------------------------------------------------------
  // Keyword heuristic

  const WarmthSignals: seq<string> := ["thanks", "thank you", "appreciate", "grateful", "please", "sorry", "excited", "hope"]
  const RiskSignals: seq<string> := ["urgent", "asap", "immediately", "frustrated", "disappointed", "angry", "upset", "never", "always"]

  predicate Distinct(signals: seq<string>) {
    forall i, j :: 0 <= i < j < |signals| ==> signals[i] != signals[j]
  }

  /** The signals that occur in `text`. */
  function Found(signals: seq<string>, text: string): set<string> {
    set x | x in signals && Contains(text, x)
  }

  /**
   * `signals.filter((signal) => text.includes(signal)).length`: for a list without
   * repeats, the number of different signals that occur in `text`.
   */
  function Hits(signals: seq<string>, text: string): (n: nat)
    ensures n <= |signals|
    ensures n == 0 <==> forall i :: 0 <= i < |signals| ==> !Contains(text, signals[i])
    ensures Distinct(signals) ==> n == |Found(signals, text)|
  {
    if signals == [] then 0
    else
      var rest := Hits(signals[1..], text);
      assert Distinct(signals) ==> Distinct(signals[1..]) by {
        if Distinct(signals) {
          forall i, j | 0 <= i < j < |signals[1..]|
            ensures signals[1..][i] != signals[1..][j]
          {
            assert signals[1..][i] == signals[i + 1] && signals[1..][j] == signals[j + 1];
          }
        }
      }
      HitsSet(signals, text);
      (if Contains(text, signals[0]) then 1 else 0) + rest
  }

  /** The found set of a list is its head, when found, next to the found set of its tail. */
  lemma HitsSet(signals: seq<string>, text: string)
    requires signals != []
    ensures var found := Found(signals, text);
            var tail := Found(signals[1..], text);
            && found == (if Contains(text, signals[0]) then {signals[0]} else {}) + tail
            && (Distinct(signals) ==> |found| == (if Contains(text, signals[0]) then 1 else 0) + |tail|)
  {
    var found := Found(signals, text);
    var tail := Found(signals[1..], text);
    if Distinct(signals) {
      forall j | 0 <= j < |signals[1..]|
        ensures signals[1..][j] != signals[0]
      {
        assert signals[1..][j] == signals[j + 1];
      }
    }
    assert forall x :: x in signals <==> x == signals[0] || x in signals[1..] by {
      HeadTail(signals);
    }
    if Distinct(signals) && Contains(text, signals[0]) {
      assert signals[0] !in tail;
      assert |{signals[0]} + tail| == 1 + |tail|;
    }
  }

  predicate IsSentenceEnd(c: char) {
    c == '.' || c == '!' || c == '?'
  }

  /** `s.split(/[.!?]/)`: the pieces between single sentence-ending characters. */
  function SplitSentences(s: string): (parts: seq<string>)
    ensures |parts| >= 1
  {
    if s == [] then [""]
    else
      var rest := SplitSentences(s[1..]);
      if IsSentenceEnd(s[0]) then [""] + rest else [[s[0]] + rest[0]] + rest[1..]
  }

  /** The number of '!' characters. */
  function CountChar(s: string, c: char): (n: nat)
    ensures n <= |s|
  {
    if s == [] then 0 else (if s[0] == c then 1 else 0) + CountChar(s[1..], c)
  }

  predicate IsUpperAscii(c: char) {
    'A' <= c <= 'Z'
  }

  /** `/[A-Z]{3,}/.test(s)`: three upper-case ASCII letters in a row. */
  predicate HasCapsRun(s: string) {
    |s| >= 3 && ((IsUpperAscii(s[0]) && IsUpperAscii(s[1]) && IsUpperAscii(s[2])) || HasCapsRun(s[1..]))
  }

  function Min(a: int, b: int): int {
    if a < b then a else b
  }

  /** The text features the heuristic scores from. */
  datatype Features = Features(
    wordCount: nat,
    sentenceCount: nat,
    warmthHits: nat,
    riskHits: nat,
    hasAllCaps: bool,
    exclamations: nat,
    hasQuestion: bool,
    hasExclamation: bool)

  function ExtractFeatures(text: string): (f: Features)
    ensures f.sentenceCount >= 1
    ensures f.warmthHits <= |WarmthSignals| && f.riskHits <= |RiskSignals|
  {
    var normalized := ToLower(text);
    var sentences := NonEmptyCount(SplitSentences(normalized));
    Features(
      NonEmptyCount(SplitWs(normalized)),
      if sentences > 0 then sentences else 1,
      Hits(WarmthSignals, normalized),
      Hits(RiskSignals, normalized),
      HasCapsRun(text),
      CountChar(text, '!'),
      Contains(normalized, "?"),
      Contains(normalized, "!"))
  }

  datatype Scores = Scores(clarity: int, warmth: int, risk: int)

  /** The unclamped heuristic scores. */
  function HeuristicScores(f: Features): (s: Scores)
    requires f.warmthHits <= |WarmthSignals| && f.riskHits <= |RiskSignals|
    ensures 32 <= s.clarity <= 84
    ensures 18 <= s.warmth <= 92
    ensures 20 <= s.risk <= 114
  {
    var clarity := 82 - Min(30, (f.wordCount / 18) * 3)
                       - Min(20, if f.sentenceCount > 4 then (f.sentenceCount - 4) * 3 else 0)
                       + (if f.hasQuestion then 2 else 0);
    var warmth := Min(45 + f.warmthHits * 6 + Min(10, f.exclamations * 2) - f.riskHits * 3, 92);
    var risk := 20 + f.riskHits * 8 + (if f.hasAllCaps then 12 else 0)
                + (if f.exclamations > 2 then 6 else 0)
                + (if f.hasExclamation && f.hasQuestion then 4 else 0);
    Scores(clarity, warmth, risk)
  }

  const ClaritySuggestion: string := ConsiderPrefix + "reduce extra clauses so the core request is easier to spot."
  const WarmthSuggestion: string := ConsiderPrefix + "add a brief acknowledgment or appreciation to soften the tone."
  const RiskSuggestion: string := ConsiderPrefix + "swap absolute phrases for specifics to lower emotional risk."
  const IntentSuggestion: string := ConsiderPrefix + "add a single sentence that confirms your intent."

  /** The heuristic's own suggestions, padded with the intent line to three. */
  function HeuristicSuggestions(s: Scores): (r: seq<string>)
    ensures |r| == 3
    ensures ClaritySuggestion in r <==> s.clarity < 60
    ensures WarmthSuggestion in r <==> s.warmth < 55
    ensures RiskSuggestion in r <==> s.risk > 55
    ensures forall i :: 0 <= i < |r| ==> r[i] in {ClaritySuggestion, WarmthSuggestion, RiskSuggestion, IntentSuggestion}
  {
    assert |ClaritySuggestion| == 69 && |WarmthSuggestion| == 72 && |RiskSuggestion| == 70 && |IntentSuggestion| == 58;
    PadPicked(ClaritySuggestion, WarmthSuggestion, RiskSuggestion, IntentSuggestion, s.clarity < 60, s.warmth < 55, s.risk > 55)
  }

  /** The lines whose flags are set, in order, then `fill` until there are three. */
  function PadPicked(a: string, b: string, c: string, fill: string, pa: bool, pb: bool, pc: bool): (r: seq<string>)
    requires a != b && a != c && b != c && a != fill && b != fill && c != fill
    ensures |r| == 3
    ensures (a in r <==> pa) && (b in r <==> pb) && (c in r <==> pc)
    ensures forall i :: 0 <= i < |r| ==> r[i] in {a, b, c, fill}
  {
    var picked := (if pa then [a] else []) + (if pb then [b] else []) + (if pc then [c] else []);
    picked + seq(3 - |picked|, _ => fill)
  }

  lemma HeuristicSuggestionsAreSoft(s: Scores)
    ensures forall i :: 0 <= i < 3 ==> IsSoft(HeuristicSuggestions(s)[i])
  {
    ConsiderLineIsSoft("reduce extra clauses so the core request is easier to spot.");
    ConsiderLineIsSoft("add a brief acknowledgment or appreciation to soften the tone.");
    ConsiderLineIsSoft("swap absolute phrases for specifics to lower emotional risk.");
    ConsiderLineIsSoft("add a single sentence that confirms your intent.");
  }

  /** The unsanitised result the heuristic builds from its scores. */
  function HeuristicRaw(s: Scores): (raw: RawResult)
    ensures raw.clarity == Finite(s.clarity as real) && raw.warmth == Finite(s.warmth as real)
            && raw.risk == Finite(s.risk as real)
  {
    RawResult(Finite(s.clarity as real), Finite(s.warmth as real), Finite(s.risk as real),
              BuildSummary(s.clarity, s.warmth, s.risk), HeuristicSuggestions(s))
  }

  /** `heuristicAnalysis`: keyword scoring of the text, then sanitised. */
  function HeuristicAnalysis(text: string): (r: AnalysisResult)
    ensures IsScore(r.clarity) && IsScore(r.warmth) && IsScore(r.risk)
    ensures |r.suggestions| == 3
  {
    SanitizeResult(HeuristicRaw(HeuristicScores(ExtractFeatures(text))))
  }

  /** The sanitiser keeps the heuristic's scores, except that risk is capped at 100. */
  lemma HeuristicScoresKept(s: Scores)
    requires 32 <= s.clarity <= 84 && 18 <= s.warmth <= 92 && 20 <= s.risk <= 114
    ensures var r := SanitizeResult(HeuristicRaw(s));
            r.clarity == s.clarity && r.warmth == s.warmth && r.risk == Min(s.risk, 100)
  {
    ClampScoreOfScore(s.clarity);
    ClampScoreOfScore(s.warmth);
    RoundOfInt(s.risk);
  }

  /** The sanitiser keeps the heuristic's summary as it is. */
  lemma HeuristicSummaryKept(s: Scores)
    ensures SanitizeResult(HeuristicRaw(s)).summary == BuildSummary(s.clarity, s.warmth, s.risk)
  {
    var r := SanitizeResult(HeuristicRaw(s));
    TrimmedSummaryKept(BuildSummary(s.clarity, s.warmth, s.risk), r.clarity, r.warmth, r.risk);
  }

  /** A non-empty trimmed summary of at most 280 characters is kept by the summary rule. */
  lemma TrimmedSummaryKept(summary: string, clarity: int, warmth: int, risk: int)
    requires summary != [] && IsTrimmed(summary) && |summary| <= 280
    ensures SanitizeSummary(summary, clarity, warmth, risk) == summary
  {
    TrimOfTrimmed(summary);
  }

  /** The sanitiser keeps the heuristic's three suggestions as they are. */
  lemma HeuristicSuggestionsKept(s: Scores)
    ensures SanitizeResult(HeuristicRaw(s)).suggestions == HeuristicSuggestions(s)
  {
    HeuristicSuggestionsAreSoft(s);
    SuggestionsStable(HeuristicSuggestions(s));
  }

  /**
   * The heuristic's scores pass through the sanitiser unchanged except that
   * risk is capped at 100, its summary is the band sentence of the raw scores,
   * and each specific suggestion appears exactly when its score crosses the
   * threshold: clarity below 60, warmth below 55, risk above 55.
   */
  lemma HeuristicOutcome(text: string)
    ensures var s := HeuristicScores(ExtractFeatures(text));
            var r := HeuristicAnalysis(text);
            && r.clarity == s.clarity && r.warmth == s.warmth && r.risk == Min(s.risk, 100)
            && r.summary == BuildSummary(s.clarity, s.warmth, s.risk)
            && (ClaritySuggestion in r.suggestions <==> s.clarity < 60)
            && (WarmthSuggestion in r.suggestions <==> s.warmth < 55)
            && (RiskSuggestion in r.suggestions <==> s.risk > 55)
  {
    var s := HeuristicScores(ExtractFeatures(text));
    HeuristicScoresKept(s);
    HeuristicSummaryKept(s);
    HeuristicSuggestionsKept(s);
  }
}
