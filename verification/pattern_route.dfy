/**
 * The decision logic of the pattern-insight endpoint
 * (`app/api/insights/pattern/route.ts`): the sample window, the strength floor,
 * the normalisation of the cached pattern type, the cache-replacement rule and
 * the acceptance of a rewritten insight. Storage, sessions and the language
 * model are parameters: the caller supplies the user's analyses (newest first),
 * the cached record, and the model's reply.
 */
module PatternRoute {
  import opened Wrappers
  import opened Numeric
  import opened Text
  import opened PatternInsight

  const MinAnalyses: nat := 5
  const TargetAnalyses: nat := 10
  const MaxAnalyses: nat := 20
  const MinStrength: real := 0.35
  const MaxRewriteLength: nat := 220

  /** The cached `patternInsight` row of a user. */
  datatype InsightRecord = InsightRecord(
    insight: string,
    fingerprint: string,
    analysisCount: int,
    lastAnalysisAt: Option<int>,
    patternType: Option<string>,
    strength: Option<real>)

  /** What the endpoint answers: no insight, the cached one, or a new one with the row written. */
  datatype Response =
    | NoInsight
    | Cached(insight: string)
    | Fresh(insight: string, record: InsightRecord)

  /** A string value is truthy when it is present and non-empty. */
  predicate Truthy(s: Option<string>) {
    s.Some? && s.value != ""
  }

  /** `shouldRegenerate`: whether a new candidate replaces the cached insight. */
  function ShouldRegenerate(candidate: Candidate, newAnalyses: int, existing: InsightRecord): bool {
    if newAnalyses >= 3 then true
    else
      var cached := existing.strength.GetOr(0.0);
      if candidate.fingerprint != existing.fingerprint && AbsReal(cached - candidate.strength) >= 0.12 then true
      else if Truthy(existing.patternType) && existing.patternType.value != TypeTag(candidate.patternType) then
        candidate.strength >= cached + 0.1
      else false
  }

  /** Three or more new analyses always regenerate. */
  lemma RegenerateAfterThreeNew(candidate: Candidate, newAnalyses: int, existing: InsightRecord)
    requires newAnalyses >= 3
    ensures ShouldRegenerate(candidate, newAnalyses, existing)
  {
  }

  /**
   * The rule as a disjunction: many new analyses, a changed fingerprint with a
   * strength move of at least 0.12 (a missing cached strength reads as 0), or a
   * changed type whose strength beats the cached one by 0.1.
   */
  lemma ShouldRegenerateIff(candidate: Candidate, newAnalyses: int, existing: InsightRecord)
    ensures ShouldRegenerate(candidate, newAnalyses, existing)
        <==> newAnalyses >= 3
             || (candidate.fingerprint != existing.fingerprint
                 && (candidate.strength - existing.strength.GetOr(0.0) >= 0.12
                     || existing.strength.GetOr(0.0) - candidate.strength >= 0.12))
             || (Truthy(existing.patternType) && existing.patternType.value != TypeTag(candidate.patternType)
                 && candidate.strength >= existing.strength.GetOr(0.0) + 0.1)
  {
  }

  /** With a type change and no other trigger, the answer is exactly the 0.1 margin test. */
  lemma TypeChangeNeedsMargin(candidate: Candidate, newAnalyses: int, existing: InsightRecord)
    requires newAnalyses < 3
    requires candidate.fingerprint == existing.fingerprint
             || AbsReal(existing.strength.GetOr(0.0) - candidate.strength) < 0.12
    requires Truthy(existing.patternType) && existing.patternType.value != TypeTag(candidate.patternType)
    ensures ShouldRegenerate(candidate, newAnalyses, existing)
        <==> candidate.strength >= existing.strength.GetOr(0.0) + 0.1
  {
  }

  /** Same fingerprint, same type and fewer than three new analyses keep the cache. */
  lemma UnchangedKeepsCache(candidate: Candidate, newAnalyses: int, existing: InsightRecord)
    requires newAnalyses < 3
    requires candidate.fingerprint == existing.fingerprint
    requires existing.patternType == Some(TypeTag(candidate.patternType))
    ensures !ShouldRegenerate(candidate, newAnalyses, existing)
  {
  }

  /** `Math.min(MAX, Math.max(TARGET, total))`: how many recent analyses are read. */
  function FetchWindow(total: nat): (take: nat)
    ensures TargetAnalyses <= take <= MaxAnalyses
    ensures TargetAnalyses <= total <= MaxAnalyses ==> take == total
    ensures total < TargetAnalyses ==> take == TargetAnalyses
    ensures total > MaxAnalyses ==> take == MaxAnalyses
  {
    var atLeast := if total > TargetAnalyses then total else TargetAnalyses;
    if atLeast < MaxAnalyses then atLeast else MaxAnalyses
  }

  /** The analyses the engine sees: the `take` most recent ones. */
  function Window(history: seq<Sample>): (w: seq<Sample>)
    ensures |w| <= MaxAnalyses && |w| <= |history|
    ensures w == history[..|w|]
    ensures |history| <= MaxAnalyses ==> w == history
    ensures |history| > MaxAnalyses ==> |w| == MaxAnalyses
  {
    var take := FetchWindow(|history|);
    if |history| <= take then history else history[..take]
  }

  /** The candidates that clear the strength floor, in their original order. */
  function StrongEnough(cs: seq<Candidate>): (r: seq<Candidate>)
    ensures forall c :: c in r <==> c in cs && c.strength >= MinStrength
    ensures |r| <= |cs|
  {
    if cs == [] then []
    else if cs[0].strength >= MinStrength then [cs[0]] + StrongEnough(cs[1..])
    else StrongEnough(cs[1..])
  }

  /** Filtering keeps the evaluation order of the hypotheses. */
  lemma {:induction false} StrongEnoughKeepsOrder(cs: seq<Candidate>)
    requires RanksIncreasing(cs)
    ensures RanksIncreasing(StrongEnough(cs))
  {
    if cs != [] {
      var tail := cs[1..];
      forall i, j | 0 <= i < j < |tail|
        ensures Rank(tail[i].patternType) < Rank(tail[j].patternType)
      {
        assert tail[i] == cs[i + 1] && tail[j] == cs[j + 1];
      }
      StrongEnoughKeepsOrder(tail);
      var rest := StrongEnough(tail);
      if cs[0].strength >= MinStrength {
        forall d | d in rest
          ensures Rank(cs[0].patternType) < Rank(d.patternType)
        {
          var k :| 0 <= k < |tail| && tail[k] == d;
          assert cs[k + 1] == d;
        }
        RanksCons(cs[0], rest);
      }
    }
  }

  /** A candidate ranked before every member of a ranked list keeps it ranked when put in front. */
  lemma RanksCons(c: Candidate, rest: seq<Candidate>)
    requires RanksIncreasing(rest)
    requires forall d :: d in rest ==> Rank(c.patternType) < Rank(d.patternType)
    ensures RanksIncreasing([c] + rest)
  {
    var r := [c] + rest;
    forall i, j | 0 <= i < j < |r|
      ensures Rank(r[i].patternType) < Rank(r[j].patternType)
    {
      assert r[j] == rest[j - 1];
      if i > 0 {
        assert r[i] == rest[i - 1];
      }
    }
  }

  /** The cached type, kept only when it is one of the four known tags. */
  function NormalizeLastType(tag: Option<string>): (r: Option<PatternType>)
    ensures r.Some? <==> tag.Some? && tag.value in {"temporal", "length", "scenario", "consistency"}
    ensures r.Some? ==> TypeTag(r.value) == tag.value
  {
    if tag == Some("temporal") then Some(Temporal)
    else if tag == Some("length") then Some(Length)
    else if tag == Some("scenario") then Some(Scenario)
    else if tag == Some("consistency") then Some(Consistency)
    else None
  }

  /** Normalising a stored tag gives back the type it was stored from. */
  lemma NormalizeTypeTag(t: PatternType)
    ensures NormalizeLastType(Some(TypeTag(t))) == Some(t)
  {
  }

  /**
   * The acceptance rule of `buildOpenAIInsight`. `reply` is the rewritten
   * insight the model returned, or `None` when there is no client, the call
   * failed, or the answer had no insight field.
   */
  function AcceptRewrite(candidate: Candidate, reply: Option<string>): (insight: string)
    ensures insight == candidate.insight || (reply.Some? && insight == reply.value && 0 < |insight| <= MaxRewriteLength)
    ensures reply.Some? && 0 < |reply.value| <= MaxRewriteLength ==> insight == reply.value
    ensures reply.None? || reply.value == [] || |reply.value| > MaxRewriteLength ==> insight == candidate.insight
  {
    if reply.Some? && reply.value != "" && |reply.value| <= MaxRewriteLength then reply.value
    else candidate.insight
  }

  /** The analyses are listed newest first, as the endpoint reads them. */
  predicate NewestFirst(history: seq<Sample>) {
    forall i, j :: 0 <= i < j < |history| ==> history[i].createdAt >= history[j].createdAt
  }

  /** All analyses are made after `since`. */
  predicate AllAfter(history: seq<Sample>, since: int) {
    forall i :: 0 <= i < |history| ==> history[i].createdAt > since
  }

  /** No analysis is made after `since`. */
  predicate NoneAfter(history: seq<Sample>, since: int) {
    forall i :: 0 <= i < |history| ==> history[i].createdAt <= since
  }

  /**
   * The number of analyses made after `since` (`createdAt > since`). On a
   * newest-first history these are exactly the first `n`.
   */
  function CountAfter(history: seq<Sample>, since: int): (n: nat)
    ensures n <= |history|
    ensures n == 0 <==> NoneAfter(history, since)
    ensures n == |history| <==> AllAfter(history, since)
    ensures NewestFirst(history) ==> AllAfter(history[..n], since) && NoneAfter(history[n..], since)
  {
    if history == [] then 0
    else
      var tail := history[1..];
      var m := CountAfter(tail, since);
      assert NewestFirst(history) ==> NewestFirst(tail) by {
        if NewestFirst(history) {
          forall i, j | 0 <= i < j < |tail|
            ensures tail[i].createdAt >= tail[j].createdAt
          {
            assert tail[i] == history[i + 1] && tail[j] == history[j + 1];
          }
        }
      }
      CountAfterStep(history, since, m);
      (if history[0].createdAt > since then 1 else 0) + m
  }

  /** Adding the newest analysis in front of the tail's count. */
  lemma CountAfterStep(history: seq<Sample>, since: int, m: nat)
    requires history != [] && m <= |history| - 1
    requires m == 0 <==> NoneAfter(history[1..], since)
    requires m == |history| - 1 <==> AllAfter(history[1..], since)
    requires NewestFirst(history[1..]) ==> AllAfter(history[1..][..m], since) && NoneAfter(history[1..][m..], since)
    ensures var n := (if history[0].createdAt > since then 1 else 0) + m;
            && (n == 0 <==> NoneAfter(history, since))
            && (n == |history| <==> AllAfter(history, since))
            && (NewestFirst(history) ==> AllAfter(history[..n], since) && NoneAfter(history[n..], since))
  {
    var tail := history[1..];
    assert forall i :: 0 < i < |history| ==> history[i] == tail[i - 1];
    if NewestFirst(history) {
      assert NewestFirst(tail) by {
        forall i, j | 0 <= i < j < |tail|
          ensures tail[i].createdAt >= tail[j].createdAt
        {
          assert tail[i] == history[i + 1] && tail[j] == history[j + 1];
        }
      }
      CountAfterSplit(history, since, m);
    }
  }

  /** On a newest-first history the tail's split point, moved past the head when it counts, splits the whole. */
  lemma CountAfterSplit(history: seq<Sample>, since: int, m: nat)
    requires history != [] && m <= |history| - 1
    requires NewestFirst(history)
    requires m == 0 <==> NoneAfter(history[1..], since)
    requires AllAfter(history[1..][..m], since) && NoneAfter(history[1..][m..], since)
    ensures var n := (if history[0].createdAt > since then 1 else 0) + m;
            AllAfter(history[..n], since) && NoneAfter(history[n..], since)
  {
    var tail := history[1..];
    var n := (if history[0].createdAt > since then 1 else 0) + m;
    if history[0].createdAt <= since {
      assert NoneAfter(tail, since) by {
        forall i | 0 <= i < |tail|
          ensures tail[i].createdAt <= since
        {
          assert tail[i] == history[i + 1];
        }
      }
    }
    assert AllAfter(history[..n], since) by {
      forall i | 0 <= i < n
        ensures history[..n][i].createdAt > since
      {
        if i > 0 {
          assert history[..n][i] == tail[..m][i - 1];
        }
      }
    }
    assert NoneAfter(history[n..], since) by {
      forall i | 0 <= i < |history| - n
        ensures history[n..][i].createdAt <= since
      {
        if n == 0 {
          assert history[n..][i] == history[i];
          if i > 0 {
            assert history[i] == tail[m..][i - 1];
          }
        } else {
          assert history[n..][i] == tail[m..][i];
        }
      }
    }
  }

  /**
   * `newAnalyses`: all analyses without a cached time; with one, the analyses made
   * after it, which on the newest-first history are exactly the first `n`.
   */
  function NewAnalyses(history: seq<Sample>, existing: Option<InsightRecord>): (n: nat)
    ensures n <= |history|
    ensures existing.None? || existing.value.lastAnalysisAt.None? ==> n == |history|
    ensures existing.Some? && existing.value.lastAnalysisAt.Some? && NewestFirst(history) ==>
              var since := existing.value.lastAnalysisAt.value;
              AllAfter(history[..n], since) && NoneAfter(history[n..], since)
    ensures existing.Some? && existing.value.lastAnalysisAt.Some? ==>
              (n == 0 <==> NoneAfter(history, existing.value.lastAnalysisAt.value))
  {
    if existing.Some? && existing.value.lastAnalysisAt.Some? then CountAfter(history, existing.value.lastAnalysisAt.value)
    else |history|
  }

  /** The candidate the endpoint would serve, before the cache decision. */
  function Selected(history: seq<Sample>, existing: Option<InsightRecord>, sqrt: real -> real): (r: Option<Candidate>)
    ensures r.Some? ==> r.value.strength >= MinStrength
  {
    var samples := Window(history);
    var stats := ComputePatternStats(samples, sqrt);
    var candidates := StrongEnough(GetPatternCandidates(samples, stats));
    var lastType := if existing.Some? then NormalizeLastType(existing.value.patternType) else None;
    PickPatternCandidate(candidates, lastType)
  }

  /**
   * The `POST` handler for a signed-in user. `history` holds all the user's
   * analyses, newest first; `now` stands in for `new Date()`.
   */
  function GeneratePatternInsight(
    history: seq<Sample>,
    existing: Option<InsightRecord>,
    reply: Option<string>,
    now: int,
    sqrt: real -> real): (r: Response)
    ensures |history| < MinAnalyses ==> r == NoInsight
    ensures r.Cached? ==> existing.Some? && r.insight == existing.value.insight
    ensures r.Fresh? ==> Selected(history, existing, sqrt).Some?
    ensures r.Fresh? ==> r.record.analysisCount == |history| && r.record.insight == r.insight
  {
    if |history| < MinAnalyses then NoInsight
    else Respond(history, existing, Selected(history, existing, sqrt), reply, now)
  }

  /** The handler after selection: nothing, the cached row, or a new row for the candidate. */
  function Respond(history: seq<Sample>, existing: Option<InsightRecord>, candidate: Option<Candidate>, reply: Option<string>, now: int): (r: Response)
    ensures r.Cached? ==> existing.Some? && r.insight == existing.value.insight
    ensures r.Fresh? ==> candidate.Some? && r.record.analysisCount == |history| && r.record.insight == r.insight
    ensures candidate.None? ==> r == NoInsight
  {
    if candidate.None? then NoInsight
    else
      var c := candidate.value;
      if existing.Some? && !ShouldRegenerate(c, NewAnalyses(history, existing), existing.value) then
        Cached(existing.value.insight)
      else
        var samples := Window(history);
        var insight := AcceptRewrite(c, reply);
        var latest := if samples != [] then samples[0].createdAt else now;
        Fresh(insight, InsightRecord(insight, c.fingerprint, |history|, Some(latest), Some(TypeTag(c.patternType)), Some(c.strength)))
  }

  /** A new row records the candidate it was made from and the newest analysis time. */
  lemma RespondFresh(history: seq<Sample>, existing: Option<InsightRecord>, candidate: Option<Candidate>, reply: Option<string>, now: int)
    requires history != [] && Respond(history, existing, candidate, reply, now).Fresh?
    ensures var r := Respond(history, existing, candidate, reply, now);
            var c := candidate.value;
            && (r.insight == c.insight || 0 < |r.insight| <= MaxRewriteLength)
            && r.record.fingerprint == c.fingerprint
            && r.record.patternType == Some(TypeTag(c.patternType))
            && r.record.strength == Some(c.strength)
            && r.record.lastAnalysisAt == Some(history[0].createdAt)
  {
    assert Window(history)[0] == history[0];
  }

  /** A new insight is the selected candidate's text or an accepted rewrite, and the row records that candidate. */
  lemma FreshRecordsCandidate(history: seq<Sample>, existing: Option<InsightRecord>, reply: Option<string>, now: int, sqrt: real -> real)
    requires GeneratePatternInsight(history, existing, reply, now, sqrt).Fresh?
    ensures var r := GeneratePatternInsight(history, existing, reply, now, sqrt);
            var c := Selected(history, existing, sqrt).value;
            && (r.insight == c.insight || 0 < |r.insight| <= MaxRewriteLength)
            && r.record.fingerprint == c.fingerprint
            && r.record.patternType == Some(TypeTag(c.patternType))
            && r.record.strength == Some(c.strength)
            && c.strength >= MinStrength
            && r.record.lastAnalysisAt == Some(history[0].createdAt)
  {
    RespondFresh(history, existing, Selected(history, existing, sqrt), reply, now);
  }

  /**
   * With a cached row and a selected candidate, the cached text is served
   * exactly when the rule keeps it, and a new insight is made exactly when
   * the rule asks for one.
   */
  lemma CacheServedIffKept(history: seq<Sample>, existing: InsightRecord, reply: Option<string>, now: int, sqrt: real -> real)
    requires |history| >= MinAnalyses
    requires Selected(history, Some(existing), sqrt).Some?
    ensures var regenerate := ShouldRegenerate(Selected(history, Some(existing), sqrt).value, NewAnalyses(history, Some(existing)), existing);
            var r := GeneratePatternInsight(history, Some(existing), reply, now, sqrt);
            && (r == Cached(existing.insight) <==> !regenerate)
            && (r.Fresh? <==> regenerate)
  {
  }

  /** Without a cached row every selected candidate produces a new insight. */
  lemma NoCacheAlwaysFresh(history: seq<Sample>, reply: Option<string>, now: int, sqrt: real -> real)
    requires |history| >= MinAnalyses
    ensures GeneratePatternInsight(history, None, reply, now, sqrt).Fresh?
        <==> Selected(history, None, sqrt).Some?
  {
  }
}
