/** What a promotion guarantees: the guardian's checks and the four roles' approvals taken together
    (guardian.ts:245-444, roles.ts:57-295, pipeline.ts:318-353). */
module Promotion {
  import opened Domain
  import opened Statistics
  import opened NoiseFloor
  import opened Headroom
  import opened CandidateVersions
  import opened Guardian
  import opened Roles

  function RolesInput(i: GuardianInput, suite: EvalSuite, r: Report): RoleInput {
    RoleInput(i.proposal, i.findings, suite, i.baseline, i.candidate, i.baselineVersion, i.candidateVersion, r)
  }

  predicate AllRolesApprove(i: RoleInput) {
    InvestigatorApproves(i) && ArchitectApproves(i) && CriticApproves(i) && VerifierApproves(i)
  }

  ghost predicate Promotes(i: GuardianInput, suite: EvalSuite, r: Report) {
    r.passed && AllRolesApprove(RolesInput(i, suite, r))
  }

  method Decide(i: GuardianInput, suite: EvalSuite) returns (promote: bool, r: Report)
    ensures ReportOf(i, r)
    ensures promote <==> Promotes(i, suite, r)
  {
    r := RunGuardian(i);
    var ri := RolesInput(i, suite, r);
    var investigator := Investigate(ri);
    var architect := ReviewArchitecture(ri);
    var critic := Critique(ri);
    var verifier := Verify(ri);
    promote := r.passed && investigator && architect && critic && verifier;
  }

  // --- the verifier's recomputation -------------------------------------------------------------

  lemma {:induction false} RawAreSampleValues(attempts: seq<AttemptSummary>, m: Metric)
    requires AllReported(attempts, m)
    ensures RawValues(attempts, m) == Values(Samples(attempts, m))
  {
    if attempts != [] {
      var front, a := attempts[..|attempts| - 1], attempts[|attempts| - 1];
      RawAreSampleValues(front, m);
      ValuesSnoc(Samples(front, m), Sample(a.taskId, ValueOf(a, m).value));
      hide ValueOf;
    }
  }

  lemma TargetDeltaComesFirst(i: GuardianInput, r: Report, m: Metric)
    requires ReportOf(i, r) && r.targetMetric == Some(m) && Comparable(i.baseline, i.candidate, m)
    ensures FirstDelta(r.deltas, m) == Compared(i.baseline, i.candidate, m)
  {
    hide Holds;
    assert r.deltas[0] == Compared(i.baseline, i.candidate, m).value;
  }

  /** The samples of the targeted metric on both sides. */
  function TargetSamples(i: GuardianInput, m: Metric): (seq<Sample>, seq<Sample>)
    requires Comparable(i.baseline, i.candidate, m)
  {
    (Samples(i.baseline.attemptSummaries, m), Samples(i.candidate.attemptSummaries, m))
  }

  lemma AcrossIsRecomputed(b: seq<Sample>, c: seq<Sample>)
    requires b != [] && c != []
    ensures ShouldBeBeyond(Values(b), Values(c)) <==> BeyondNoise(Delta(b, c), PooledAcross(b, c))
  {
    hide Mean, Values, Variance, BeyondNoise;
  }

  lemma ComparedIs(b: SuiteResult, c: SuiteResult, m: Metric)
    requires Comparable(b, c, m)
    ensures var sb, sc := Samples(b.attemptSummaries, m), Samples(c.attemptSummaries, m);
      && sb != [] && sc != [] && Values(sb) != [] && Values(sc) != []
      && var beyond := BeyondNoise(Delta(sb, sc), PooledWithin(sb, sc));
        Compared(b, c, m) == Some(MetricDelta(m, Mean(Values(sb)), Mean(Values(sc)), Delta(sb, sc), beyond))
  {
    hide AllReported, Mean, BeyondNoise, PooledWithin, Delta;
  }

  lemma RecomputesIs(b: seq<real>, c: seq<real>, m: Metric, delta: real, beyond: bool)
    requires b != [] && c != []
    ensures Recomputes(b, c, Some(MetricDelta(m, Mean(b), Mean(c), delta, beyond)))
      <==> (ShouldBeBeyond(b, c) <==> beyond)
  {
    hide Mean, ShouldBeBeyond;
  }

  lemma ComparableIsReported(b: SuiteResult, c: SuiteResult, m: Metric)
    requires Comparable(b, c, m)
    ensures AllReported(b.attemptSummaries, m) && AllReported(c.attemptSummaries, m)
  {
    hide AllReported;
  }

  lemma TargetSamplesAre(i: GuardianInput, m: Metric)
    requires Comparable(i.baseline, i.candidate, m)
    ensures TargetSamples(i, m) == (Samples(i.baseline.attemptSummaries, m), Samples(i.candidate.attemptSummaries, m))
  {
    hide Samples;
  }

  /** The means never disagree; the recomputation compares the two verdicts and nothing else. */
  lemma RecomputationComparesVerdicts(i: GuardianInput, r: Report, m: Metric)
    requires ReportOf(i, r) && r.targetMetric == Some(m) && Comparable(i.baseline, i.candidate, m)
    ensures var b, c := RawValues(i.baseline.attemptSummaries, m), RawValues(i.candidate.attemptSummaries, m);
      && b != [] && c != []
      && var (sb, sc) := TargetSamples(i, m);
        (Recomputes(b, c, FirstDelta(r.deltas, m)) <==>
         (BeyondNoise(Delta(sb, sc), PooledAcross(sb, sc)) <==> BeyondNoise(Delta(sb, sc), PooledWithin(sb, sc))))
  {
    hide *;
    ComparableIsReported(i.baseline, i.candidate, m);
    ComparedIs(i.baseline, i.candidate, m);
    TargetSamplesAre(i, m);
    var b, c := Samples(i.baseline.attemptSummaries, m), Samples(i.candidate.attemptSummaries, m);
    RawAreSampleValues(i.baseline.attemptSummaries, m);
    RawAreSampleValues(i.candidate.attemptSummaries, m);
    TargetDeltaComesFirst(i, r, m);
    AcrossIsRecomputed(b, c);
    RecomputesIs(Values(b), Values(c), m, Delta(b, c), BeyondNoise(Delta(b, c), PooledWithin(b, c)));
  }

  lemma PassedMeansAllHold(i: GuardianInput, r: Report)
    requires ReportOf(i, r) && r.passed
    ensures forall id :: Holds(i, id)
    ensures forall c | c in r.checks :: c.passed
    ensures r.targetMetric == TargetMetric(i.proposal)
  {
    hide Holds, TargetMetric, TargetDelta, Compared;
  }

  lemma TargetHolds(i: GuardianInput)
    requires Holds(i, TargetImproved) && Holds(i, BeyondNoiseFloor)
    ensures TargetMetric(i.proposal).Some?
    ensures var m := TargetMetric(i.proposal).value;
      && Comparable(i.baseline, i.candidate, m)
      && var (b, c) := TargetSamples(i, m);
      && Improved(m, Delta(b, c))
      && Abs(Delta(b, c)) >= i.options.minEffect
      && BeyondNoise(Delta(b, c), PooledWithin(b, c))
  {
    hide Mean, Values, BeyondNoise, PooledWithin, Samples, AllReported, Improved, Abs, TargetMetric, Delta;
  }

  /** The verifier's means are the guardian's own; what it adds is its own noise estimate.  It
      approves exactly when every check holds, the version is still a candidate, and the movement
      clears that second estimate too. */
  lemma VerifierAddsOneEstimate(i: GuardianInput, suite: EvalSuite, r: Report)
    requires ReportOf(i, r)
    ensures VerifierApproves(RolesInput(i, suite, r)) <==>
      && r.passed
      && i.candidateVersion.state == Candidate
      && var m := TargetMetric(i.proposal);
        && m.Some?
        && Comparable(i.baseline, i.candidate, m.value)
        && var (b, c) := TargetSamples(i, m.value); BeyondNoise(Delta(b, c), PooledAcross(b, c))
  {
    if r.passed {
      PassedMeansAllHold(i, r);
      TargetHolds(i);
      RecomputationComparesVerdicts(i, r, TargetMetric(i.proposal).value);
    }
    assert r.passed <==> forall c | c in r.checks :: c.passed;
    hide ReportOf, Holds, Mean, Values, BeyondNoise, PooledWithin, PooledAcross, Samples, AllReported, RawValues,
      FirstDelta, Recomputes, Delta, TargetMetric, Improved, Abs;
  }

  // --- the promotion theorem --------------------------------------------------------------------

  /** The movement clears a squared noise estimate, or is simply non-zero where that estimate is zero. */
  predicate Clears(delta: real, estimate: Option<real>) {
    estimate.Some? && (if estimate.value == 0.0 then delta != 0.0 else Square(delta) > estimate.value)
  }

  ghost predicate TargetProven(i: GuardianInput, m: Metric) {
    && Comparable(i.baseline, i.candidate, m)
    && var (b, c) := TargetSamples(i, m);
      && Improved(m, Delta(b, c))
      && Abs(Delta(b, c)) >= i.options.minEffect
      && Clears(Delta(b, c), PooledWithin(b, c))
      && Clears(Delta(b, c), PooledAcross(b, c))
  }

  ghost predicate MeanWithin(i: GuardianInput, m: Metric, growth: real) {
    && Comparable(i.baseline, i.candidate, m)
    && var (b, c) := TargetSamples(i, m);
      Mean(Values(c)) <= Mean(Values(b)) * (1.0 + growth)
  }

  /** Main result: what every promotion has been measured to do. */
  lemma PromotionIsSound(i: GuardianInput, suite: EvalSuite, r: Report)
    requires ReportOf(i, r) && Promotes(i, suite, r)
    ensures i.baseline.suiteId == i.candidate.suiteId && i.baseline.model == i.candidate.model
    ensures i.baseline.repeats == i.candidate.repeats >= 3
    ensures forall k | 0 <= k < |i.baseline.tasks| :: Held(i.baseline.tasks[k], i.candidate.tasks)
    ensures TargetMetric(i.proposal).Some? && TargetProven(i, TargetMetric(i.proposal).value)
    ensures MeanWithin(i, TotalTokens, i.options.maxCostGrowth)
    ensures MeanWithin(i, DurationMs, i.options.maxLatencyGrowth)
    ensures PromptBudgetOk(i.candidateVersion.config, i.baselineVersion, i.builtinPrompt)
    ensures i.baselineVersion.Some? ==>
      DifferingFields(i.baselineVersion.value.config, i.candidateVersion.config) == 1
    ensures i.candidateVersion.state == Candidate
    ensures i.proposal.actuator != ManualActuator && i.proposal.rootCause != ModelCause
    ensures forall k | 0 <= k < |i.proposal.targetsFindingIds| ::
        TargetSupported(i.findings, i.proposal.targetsFindingIds[k])
  {
    hide ReportOf, Mean, Values, PooledWithin, PooledAcross, Samples, AllReported, PromptBudgetOk, VerifierApproves,
      Supported, LastFinding, Held, MeanWithin, Delta, Improved, Abs, TargetMetric, Compared;
    VerifierAddsOneEstimate(i, suite, r);
    PassedMeansAllHold(i, r);
    TargetHolds(i);
    TolerancesHold(i);
    assert Holds(i, SameConditions) && Holds(i, NoTaskRegression) && Holds(i, PromptBudget);
  }

  lemma TolerancesHold(i: GuardianInput)
    requires Holds(i, CostTolerance) && Holds(i, LatencyTolerance)
    ensures MeanWithin(i, TotalTokens, i.options.maxCostGrowth)
    ensures MeanWithin(i, DurationMs, i.options.maxLatencyGrowth)
  {
    hide Mean, Values, PooledWithin, Samples, AllReported, BeyondNoise, Delta;
  }

  // --- the pass rate as a target ----------------------------------------------------------------

  lemma {:induction false} PassSamplesBinary(attempts: seq<AttemptSummary>)
    ensures AllReported(attempts, PassRate) && Binary(Values(Samples(attempts, PassRate)))
  {
    if attempts != [] {
      var front, a := attempts[..|attempts| - 1], attempts[|attempts| - 1];
      PassSamplesBinary(front);
      ValuesSnoc(Samples(front, PassRate), Sample(a.taskId, ValueOf(a, PassRate).value));
    }
  }

  lemma ImprovedPassRate(d: real)
    ensures Improved(PassRate, d) <==> d > 0.0
  {
  }

  lemma ClearingGain(b: seq<Sample>, c: seq<Sample>)
    requires b != [] && c != [] && Binary(Values(c)) && Delta(b, c) > 0.0
    requires BeyondNoise(Delta(b, c), PooledAcross(b, c))
    ensures |b| >= 2 && GainClears(b, c)
  {
    EnoughForTwo(b, c);
    hide Delta, Binary, Values, PooledAcross;
  }

  lemma PassSamplesOf(b: SuiteResult, c: SuiteResult)
    ensures Comparable(b, c, PassRate) ==> Binary(Values(Samples(b.attemptSummaries, PassRate)))
    ensures Comparable(b, c, PassRate) ==> Binary(Values(Samples(c.attemptSummaries, PassRate)))
  {
    PassSamplesBinary(b.attemptSummaries);
    PassSamplesBinary(c.attemptSummaries);
  }

  /** Main result: a change judged on the pass rate is promoted only when the baseline leaves room for it,
      whatever the change does and however many repeats are paid for: k failures of n attempts with
      k(3n - 2) > n * n, which means more than a third. */
  lemma PassRatePromotionNeedsRoom(i: GuardianInput, suite: EvalSuite, r: Report)
    requires ReportOf(i, r) && Promotes(i, suite, r) && TargetMetric(i.proposal) == Some(PassRate)
    ensures Comparable(i.baseline, i.candidate, PassRate)
    ensures var b := Samples(i.baseline.attemptSummaries, PassRate);
      && |b| >= 2 && LeavesRoom(Fails(Values(b)), |b|)
      && 3.0 * (1.0 - Mean(Values(b))) > 1.0
  {
    VerifierAddsOneEstimate(i, suite, r);
    PassedMeansAllHold(i, r);
    TargetHolds(i);
    PassSamplesOf(i.baseline, i.candidate);
    var (b, c) := TargetSamples(i, PassRate);
    hide Mean, Values, Samples, BeyondNoise, PooledAcross, PooledWithin, Binary, ReportOf, AllReported, Delta,
      VerifierApproves, Abs, LeavesRoom, Fails, GainClears, Improved;
    ImprovedPassRate(Delta(b, c));
    ClearingGain(b, c);
    NoGainClears(b, c);
    if 3.0 * (1.0 - Mean(Values(b))) <= 1.0 { NoRoomAboveTwoThirds(b, c); }
  }

  lemma EnoughForTwo(b: seq<Sample>, c: seq<Sample>)
    ensures PooledAcross(b, c).Some? ==> |b| >= 2 && |c| >= 2
    ensures forall d :: BeyondNoise(d, PooledAcross(b, c)) ==> PooledAcross(b, c).Some?
  {
    hide Scatter;
  }
}
