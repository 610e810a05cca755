/** The terms of a promotion in the stored data's own words: the means as sums over the attempts' own
    fields, the checks and the reviews as conditions on the two results, the proposal, the findings and
    the suite (guardian.ts:36-60,190-444, roles.ts:57-295). */
module PromotionTerms {
  import opened Domain
  import opened Statistics
  import opened NoiseFloor
  import opened PromptPatches
  import opened CandidateVersions
  import opened Guardian
  import opened Roles
  import opened Promotion

  function SumOf(attempts: seq<AttemptSummary>, f: AttemptSummary -> real): real {
    if attempts == [] then 0.0 else SumOf(attempts[..|attempts| - 1], f) + f(attempts[|attempts| - 1])
  }

  function MeanOf(attempts: seq<AttemptSummary>, f: AttemptSummary -> real): real
    requires attempts != []
  {
    SumOf(attempts, f) / |attempts| as real
  }

  /** A field of an attempt, which way is better, and whether only an attempt that ended has it. */
  datatype Field = Field(up: bool, afterEnd: bool, of: AttemptSummary -> real)

  /** The field a proposal names: passes and verification calls are better high, the six costs low, and
      nothing else, tool calls included, can be a target. */
  ghost function NamedField(name: Option<string>): Option<Field> {
    match name
    case None => Some(Field(true, false, (a: AttemptSummary) => if a.passed then 1.0 else 0.0))
    case Some("passRate") => Some(Field(true, false, (a: AttemptSummary) => if a.passed then 1.0 else 0.0))
    case Some("verificationCalls") => Some(Field(true, false, (a: AttemptSummary) => a.verificationCalls as real))
    case Some("iterations") => Some(Field(false, false, (a: AttemptSummary) => a.iterations as real))
    case Some("totalTokens") => Some(Field(false, false, TokensOf))
    case Some("durationMs") => Some(Field(false, true, DurationOf))
    case Some("toolFailures") => Some(Field(false, false, (a: AttemptSummary) => a.toolFailures as real))
    case Some("deniedCalls") => Some(Field(false, false, (a: AttemptSummary) => a.deniedCalls as real))
    case Some("repeatRatio") => Some(Field(false, false, (a: AttemptSummary) => a.repeatRatio))
    case _ => None
  }

  function TokensOf(a: AttemptSummary): real { a.totalTokens as real }

  function DurationOf(a: AttemptSummary): real {
    if a.durationMs.Some? then a.durationMs.value as real else 0.0
  }

  predicate AllEnded(attempts: seq<AttemptSummary>) {
    forall k | 0 <= k < |attempts| :: attempts[k].durationMs.Some?
  }

  /** Both sides were attempted, and every attempt has the field. */
  ghost predicate BothHave(b: seq<AttemptSummary>, c: seq<AttemptSummary>, field: Field) {
    b != [] && c != [] && (field.afterEnd ==> AllEnded(b) && AllEnded(c))
  }

  /** The candidate's mean is on the better side of the baseline's, by at least so much. */
  ghost predicate Moves(b: seq<AttemptSummary>, c: seq<AttemptSummary>, field: Field, least: real) {
    && BothHave(b, c, field)
    && var gain := if field.up then MeanOf(c, field.of) - MeanOf(b, field.of)
                   else MeanOf(b, field.of) - MeanOf(c, field.of);
      gain > 0.0 && gain >= least
  }

  ghost function SamplesOf(attempts: seq<AttemptSummary>, f: AttemptSummary -> real): seq<Sample> {
    seq(|attempts|, k requires 0 <= k < |attempts| => Sample(attempts[k].taskId, f(attempts[k])))
  }

  /** The movement clears the spread pooled within tasks. */
  ghost predicate ClearsWithin(b: seq<AttemptSummary>, c: seq<AttemptSummary>, field: Field) {
    && BothHave(b, c, field)
    && Clears(MeanOf(c, field.of) - MeanOf(b, field.of), PooledWithin(SamplesOf(b, field.of), SamplesOf(c, field.of)))
  }

  /** The movement clears the spread over all attempts of a side. */
  ghost predicate ClearsAcross(b: seq<AttemptSummary>, c: seq<AttemptSummary>, field: Field) {
    && BothHave(b, c, field)
    && Clears(MeanOf(c, field.of) - MeanOf(b, field.of), PooledAcross(SamplesOf(b, field.of), SamplesOf(c, field.of)))
  }

  /** The field's mean is at most `growth` above the baseline's. */
  ghost predicate GrowsAtMost(b: seq<AttemptSummary>, c: seq<AttemptSummary>, field: Field, growth: real) {
    BothHave(b, c, field) && MeanOf(c, field.of) <= MeanOf(b, field.of) * (1.0 + growth)
  }

  // --- the means ----------------------------------------------------------------------------------

  /** `f` is what the metric reads of each of these attempts. */
  predicate Reads(attempts: seq<AttemptSummary>, m: Metric, f: AttemptSummary -> real) {
    forall k | 0 <= k < |attempts| :: ValueOf(attempts[k], m) == Some(f(attempts[k]))
  }

  lemma SamplesSnoc(attempts: seq<AttemptSummary>, m: Metric, f: AttemptSummary -> real)
    requires attempts != [] && Reads(attempts, m, f) && AllReported(attempts[..|attempts| - 1], m)
    ensures AllReported(attempts, m)
    ensures var n := |attempts| - 1;
      Samples(attempts, m) == Samples(attempts[..n], m) + [Sample(attempts[n].taskId, f(attempts[n]))]
  {
    hide ValueOf;
  }

  lemma SumSnoc(xs: seq<real>, x: real)
    ensures Sum(xs + [x]) == Sum(xs) + x
  {
    assert (xs + [x])[..|xs|] == xs;
  }

  lemma {:induction false} SamplesSum(attempts: seq<AttemptSummary>, m: Metric, f: AttemptSummary -> real)
    requires Reads(attempts, m, f)
    ensures AllReported(attempts, m) && Sum(Values(Samples(attempts, m))) == SumOf(attempts, f)
  {
    hide ValueOf, Values, Sum;
    if attempts == [] {
      NoSum();
    } else {
      var n := |attempts| - 1;
      SamplesSum(attempts[..n], m, f);
      SamplesSnoc(attempts, m, f);
      ValuesSnoc(Samples(attempts[..n], m), Sample(attempts[n].taskId, f(attempts[n])));
      SumSnoc(Values(Samples(attempts[..n], m)), f(attempts[n]));
      hide Samples;
    }
  }

  lemma NoSum()
    ensures Sum(Values([])) == 0.0
  {
  }

  lemma {:induction false} SamplesAre(attempts: seq<AttemptSummary>, m: Metric, f: AttemptSummary -> real)
    requires Reads(attempts, m, f)
    ensures AllReported(attempts, m) && Samples(attempts, m) == SamplesOf(attempts, f)
  {
    hide ValueOf, SamplesOf;
    SamplesOfSnoc(attempts, f);
    if attempts != [] {
      SamplesAre(attempts[..|attempts| - 1], m, f);
      SamplesSnoc(attempts, m, f);
    }
  }

  lemma SamplesOfSnoc(attempts: seq<AttemptSummary>, f: AttemptSummary -> real)
    ensures var n := |attempts| - 1;
      SamplesOf(attempts, f)
      == if n < 0 then [] else SamplesOf(attempts[..n], f) + [Sample(attempts[n].taskId, f(attempts[n]))]
  {
  }

  lemma MeanIs(attempts: seq<AttemptSummary>, m: Metric, f: AttemptSummary -> real)
    requires Reads(attempts, m, f) && attempts != []
    ensures AllReported(attempts, m) && Samples(attempts, m) == SamplesOf(attempts, f) != []
    ensures Values(SamplesOf(attempts, f)) != [] && Mean(Values(SamplesOf(attempts, f))) == MeanOf(attempts, f)
  {
    hide ValueOf, Sum, SumOf;
    SamplesSum(attempts, m, f);
    SamplesAre(attempts, m, f);
  }

  /** The metric is read of an attempt exactly when it has the field, and is the field then. */
  ghost predicate MetricIs(m: Metric, field: Field) {
    forall a: AttemptSummary ::
      ValueOf(a, m) == (if field.afterEnd && a.durationMs.None? then None else Some(field.of(a)))
  }

  lemma ComparableIff(b: SuiteResult, c: SuiteResult, m: Metric, field: Field)
    requires MetricIs(m, field)
    ensures Comparable(b, c, m) <==> BothHave(b.attemptSummaries, c.attemptSummaries, field)
    ensures Comparable(b, c, m) ==>
      Reads(b.attemptSummaries, m, field.of) && Reads(c.attemptSummaries, m, field.of)
  {
    hide ValueOf;
  }

  /** What a comparison is, in the field's own means and samples. */
  lemma ComparedIsOf(b: SuiteResult, c: SuiteResult, m: Metric, field: Field)
    requires MetricIs(m, field) && Comparable(b, c, m)
    ensures var sb, sc := SamplesOf(b.attemptSummaries, field.of), SamplesOf(c.attemptSummaries, field.of);
      && b.attemptSummaries != [] && c.attemptSummaries != []
      && var bm, cm := MeanOf(b.attemptSummaries, field.of), MeanOf(c.attemptSummaries, field.of);
      && (Samples(b.attemptSummaries, m), Samples(c.attemptSummaries, m)) == (sb, sc)
      && sb != [] && sc != [] && Delta(sb, sc) == cm - bm
      && Compared(b, c, m) == Some(MetricDelta(m, bm, cm, cm - bm, BeyondNoise(cm - bm, PooledWithin(sb, sc))))
  {
    hide *;
    ComparableIff(b, c, m, field);
    ComparedIs(b, c, m);
    ComparableIsReported(b, c, m);
    NotEmpty(b, c, m);
    MeanIs(b.attemptSummaries, m, field.of);
    MeanIs(c.attemptSummaries, m, field.of);
    DeltaIs(SamplesOf(b.attemptSummaries, field.of), SamplesOf(c.attemptSummaries, field.of));
  }

  lemma NotEmpty(b: SuiteResult, c: SuiteResult, m: Metric)
    requires Comparable(b, c, m)
    ensures b.attemptSummaries != [] && c.attemptSummaries != []
  {
    hide AllReported;
  }

  lemma DeltaIs(b: seq<Sample>, c: seq<Sample>)
    requires b != [] && c != []
    ensures Values(b) != [] && Values(c) != [] && Delta(b, c) == Mean(Values(c)) - Mean(Values(b))
  {
    hide Mean;
  }

  // --- the target -----------------------------------------------------------------------------------

  /** The metric judged is the one whose field the proposal names. */
  lemma TargetIsNamed(p: Proposal)
    ensures TargetMetric(p).Some? <==> NamedField(p.targetMetric).Some?
    ensures TargetMetric(p).Some? ==>
      && MetricIs(TargetMetric(p).value, NamedField(p.targetMetric).value)
      && (HigherIsBetter(TargetMetric(p).value) <==> NamedField(p.targetMetric).value.up)
      && (LowerIsBetter(TargetMetric(p).value) <==> !NamedField(p.targetMetric).value.up)
  {
  }

  lemma MovesIff(m: Metric, delta: real, up: bool, least: real)
    requires (HigherIsBetter(m) <==> up) && (LowerIsBetter(m) <==> !up)
    ensures Improved(m, delta) && Abs(delta) >= least <==>
      var gain := if up then delta else -delta; gain > 0.0 && gain >= least
  {
  }

  lemma NoToolCalls()
    ensures NamedField(Some("toolCalls")).None?
  {
  }

  /** Main result: the check on the target passes exactly when the mean of the field the proposal names has
      moved to its better side by the least effect asked for. */
  lemma TargetImprovedIff(i: GuardianInput)
    ensures Holds(i, TargetImproved) <==>
      var field := NamedField(i.proposal.targetMetric);
      field.Some? && Moves(i.baseline.attemptSummaries, i.candidate.attemptSummaries, field.value, i.options.minEffect)
    ensures i.proposal.targetMetric == Some("toolCalls") ==> !Holds(i, TargetImproved)
  {
    hide MetricIs, NamedField, TargetMetric, Compared, BothHave, Improved, Abs, MeanOf, HigherIsBetter, LowerIsBetter,
      AllReported, BeyondNoise, PooledWithin, SamplesOf, Samples, Delta;
    TargetIsNamed(i.proposal);
    NoToolCalls();
    if TargetMetric(i.proposal).Some? {
      var m, field := TargetMetric(i.proposal).value, NamedField(i.proposal.targetMetric).value;
      ComparableIff(i.baseline, i.candidate, m, field);
      ComparedSome(i.baseline, i.candidate, m);
      if Comparable(i.baseline, i.candidate, m) {
        ComparedIsOf(i.baseline, i.candidate, m, field);
        MovesIff(m, Compared(i.baseline, i.candidate, m).value.delta, field.up, i.options.minEffect);
      }
    }
  }

  lemma ComparedSome(b: SuiteResult, c: SuiteResult, m: Metric)
    ensures Compared(b, c, m).Some? <==> Comparable(b, c, m)
  {
    hide Comparable, BeyondNoise, PooledWithin, Mean, Delta;
  }

  lemma BeyondIsClears(delta: real, estimate: Option<real>)
    ensures BeyondNoise(delta, estimate) <==> Clears(delta, estimate)
  {
  }

  lemma NoiseFloorIff(i: GuardianInput)
    ensures Holds(i, BeyondNoiseFloor) <==>
      var field := NamedField(i.proposal.targetMetric);
      field.Some? && ClearsWithin(i.baseline.attemptSummaries, i.candidate.attemptSummaries, field.value)
  {
    hide MetricIs, NamedField, TargetMetric, Compared, BothHave, MeanOf, HigherIsBetter, LowerIsBetter,
      AllReported, BeyondNoise, PooledWithin, SamplesOf, Samples, Delta, Clears;
    TargetIsNamed(i.proposal);
    if TargetMetric(i.proposal).Some? {
      var m, field := TargetMetric(i.proposal).value, NamedField(i.proposal.targetMetric).value;
      ComparableIff(i.baseline, i.candidate, m, field);
      ComparedSome(i.baseline, i.candidate, m);
      if Comparable(i.baseline, i.candidate, m) {
        ComparedIsOf(i.baseline, i.candidate, m, field);
        var d := Compared(i.baseline, i.candidate, m).value.delta;
        BeyondIsClears(d, PooledWithin(SamplesOf(i.baseline.attemptSummaries, field.of),
                                       SamplesOf(i.candidate.attemptSummaries, field.of)));
      }
    }
  }

  lemma GrowthIff(b: SuiteResult, c: SuiteResult, m: Metric, field: Field, growth: real)
    requires MetricIs(m, field)
    ensures WithinGrowth(Compared(b, c, m), growth)
      <==> GrowsAtMost(b.attemptSummaries, c.attemptSummaries, field, growth)
  {
    hide MetricIs, Compared, BothHave, MeanOf, AllReported, BeyondNoise, PooledWithin, SamplesOf, Samples, Delta;
    ComparableIff(b, c, m, field);
    ComparedSome(b, c, m);
    if Comparable(b, c, m) { ComparedIsOf(b, c, m, field); }
  }

  /** Main result: tokens and time may grow by their own tolerance of the baseline's mean and no more, and
      an attempt that never ended fails the second check. */
  lemma TolerancesIff(i: GuardianInput)
    ensures Holds(i, CostTolerance) <==>
      GrowsAtMost(i.baseline.attemptSummaries, i.candidate.attemptSummaries,
        Field(false, false, TokensOf), i.options.maxCostGrowth)
    ensures Holds(i, LatencyTolerance) <==>
      GrowsAtMost(i.baseline.attemptSummaries, i.candidate.attemptSummaries,
        Field(false, true, DurationOf), i.options.maxLatencyGrowth)
  {
    hide Compared, GrowsAtMost, WithinGrowth;
    GrowthIff(i.baseline, i.candidate, TotalTokens,
      Field(false, false, TokensOf), i.options.maxCostGrowth);
    GrowthIff(i.baseline, i.candidate, DurationMs, Field(false, true, DurationOf), i.options.maxLatencyGrowth);
  }

  // --- the other checks and the reviews -------------------------------------------------------------

  /** Same suite, model and repeats on both sides, at least three of them, and enough attempts. */
  predicate SameTerms(i: GuardianInput) {
    && i.baseline.suiteId == i.candidate.suiteId && i.baseline.model == i.candidate.model
    && i.baseline.repeats == i.candidate.repeats && i.baseline.repeats >= 3
    && |i.baseline.attemptSummaries| >= i.options.minAttempts
    && |i.candidate.attemptSummaries| >= i.options.minAttempts
  }

  ghost predicate IsFirstOf(tasks: seq<TaskResult>, j: int, id: string) {
    0 <= j < |tasks| && tasks[j].taskId == id && forall l | 0 <= l < j :: tasks[l].taskId != id
  }

  /** The candidate has a first result for the task, and it passed no less often. */
  ghost predicate Kept(b: TaskResult, tasks: seq<TaskResult>) {
    exists j :: IsFirstOf(tasks, j, b.taskId) && tasks[j].passRate >= b.passRate
  }

  ghost predicate NoTaskFell(i: GuardianInput) {
    forall b | b in i.baseline.tasks :: Kept(b, i.candidate.tasks)
  }

  /** The prompt carries at most 6 blocks and 2400 characters of them, and is otherwise the baseline's own
      prompt, or the built-in one where the baseline has none. */
  predicate PromptKept(config: AgentConfig, baseline: Option<AgentVersion>, builtin: Option<string>) {
    var prompt := if config.promptOverride.Some? then config.promptOverride.value else "";
    var overridden := baseline.Some? && baseline.value.config.promptOverride.Some?;
    && CountPatches(prompt) <= 6 && PatchChars(prompt) <= 2400
    && (overridden ==> UnmarkedChars(prompt) == UnmarkedChars(baseline.value.config.promptOverride.value))
    && (!overridden && builtin.Some? ==> UnmarkedChars(prompt) == UnmarkedChars(builtin.value))
  }

  /** There is evidence, and each piece names steps or says that it left them out. */
  ghost predicate Evident(evidence: seq<Evidence>) {
    && evidence != []
    && forall e | e in evidence :: e.steps != [] || exists k: nat :: HasAt(e.note, k, "omitted")
  }

  /** The targeted findings are all on file. */
  ghost predicate OnFile(ids: seq<string>, findings: seq<Finding>) {
    forall id | id in ids :: exists f | f in findings :: f.id == id
  }

  predicate OneFieldChanged(a: AgentConfig, b: AgentConfig) {
    || (a.promptOverride != b.promptOverride && a.loop == b.loop)
    || (a.promptOverride == b.promptOverride
        && (a.loop.maxIterations != b.loop.maxIterations <==>
            a.loop.verificationNudgeMax == b.loop.verificationNudgeMax))
  }

  ghost predicate IsLastOf(findings: seq<Finding>, k: int, id: string) {
    0 <= k < |findings| && findings[k].id == id && forall l | k < l < |findings| :: findings[l].id != id
  }

  /** The last finding of that id has evidence, and is differential or was not seen just once. */
  ghost predicate Grounded(findings: seq<Finding>, id: string) {
    exists k :: IsLastOf(findings, k, id)
      && Evident(findings[k].evidence) && (findings[k].differential || findings[k].occurrences != 1)
  }

  ghost predicate DiagnosisRests(i: GuardianInput) {
    && i.proposal.targetsFindingIds != [] && i.proposal.evidence != []
    && forall id | id in i.proposal.targetsFindingIds :: Grounded(i.findings, id)
  }

  /** An applicable change to something other than the model, argued in at least forty characters, that does
      not answer waste, a runaway or a tool loop by allowing more of it. */
  predicate RightKindOfChange(p: Proposal) {
    && p.actuator != ManualActuator && p.rootCause != ModelCause && p.trimmedRationaleLength >= 40
    && (p.actuator == LoopActuator && p.loop.Some? && p.loop.value.to > p.loop.value.from ==>
          p.detector != Runaway && p.detector != Waste && p.detector != ToolLoop)
  }

  /** At least two tasks, not all of one capability, a baseline that fails somewhere, and no prompt change
      against a perfect rate. */
  ghost predicate ExperimentCouldTell(i: GuardianInput, suite: EvalSuite) {
    && |suite.tasks| >= 2
    && (exists s, t | s in suite.tasks && t in suite.tasks :: s.capability != t.capability)
    && (exists a | a in i.baseline.attemptSummaries :: !a.passed)
    && (i.proposal.actuator == PromptActuator ==> i.baseline.passRate != 1.0)
  }

  lemma TermsIff(i: GuardianInput)
    ensures Holds(i, SameConditions) && Holds(i, EnoughSamples) && i.baseline.repeats >= 3 <==> SameTerms(i)
  {
  }

  lemma {:induction false} FirstResultIs(tasks: seq<TaskResult>, id: string)
    ensures FirstResult(tasks, id).Some? <==> exists j :: IsFirstOf(tasks, j, id)
    ensures forall j | IsFirstOf(tasks, j, id) :: FirstResult(tasks, id) == Some(tasks[j])
  {
    if tasks != [] && tasks[0].taskId != id {
      FirstResultIs(tasks[1..], id);
      forall j | IsFirstOf(tasks, j, id) ensures IsFirstOf(tasks[1..], j - 1, id) {
        assert forall l | 0 <= l < j - 1 :: tasks[1..][l].taskId == tasks[l + 1].taskId;
      }
      forall j | IsFirstOf(tasks[1..], j, id) ensures IsFirstOf(tasks, j + 1, id) {
        assert forall l | 1 <= l < j + 1 :: tasks[l].taskId == tasks[1..][l - 1].taskId;
      }
    } else if tasks != [] {
      assert IsFirstOf(tasks, 0, id);
    }
  }

  lemma HeldIff(b: TaskResult, tasks: seq<TaskResult>)
    ensures Guardian.Held(b, tasks) <==> Kept(b, tasks)
  {
    hide FirstResult;
    FirstResultIs(tasks, b.taskId);
  }

  lemma NoTaskFellIff(i: GuardianInput)
    ensures Holds(i, NoTaskRegression) <==> NoTaskFell(i)
  {
    hide Guardian.Held, Kept;
    forall b { HeldIff(b, i.candidate.tasks); }
    var bs := i.baseline.tasks;
    if NoTaskFell(i) {
      forall k | 0 <= k < |bs| ensures Guardian.Held(bs[k], i.candidate.tasks) { assert bs[k] in bs; }
    }
  }

  lemma PromptKeptIff(i: GuardianInput)
    ensures Holds(i, PromptBudget) <==> PromptKept(i.candidateVersion.config, i.baselineVersion, i.builtinPrompt)
  {
    hide CountPatches, PatchChars, UnmarkedChars;
  }

  lemma NamesIff(e: Evidence)
    ensures NamesItsSteps(e) <==> e.steps != [] || exists k: nat :: HasAt(e.note, k, "omitted")
  {
    hide HasAt;
  }

  lemma EvidentIff(evidence: seq<Evidence>)
    ensures Evident(evidence)
      <==> evidence != [] && forall k | 0 <= k < |evidence| :: NamesItsSteps(evidence[k])
  {
    hide NamesItsSteps, HasAt;
    forall e { NamesIff(e); }
    if evidence != [] && forall k | 0 <= k < |evidence| :: NamesItsSteps(evidence[k]) {
      forall e | e in evidence ensures NamesItsSteps(e) {}
    }
    if Evident(evidence) {
      forall k | 0 <= k < |evidence| ensures NamesItsSteps(evidence[k]) { assert evidence[k] in evidence; }
    }
  }

  lemma EvidenceIff(i: GuardianInput)
    ensures Holds(i, EvidenceResolves)
      <==> Evident(i.candidateVersion.evidence) && OnFile(i.candidateVersion.targetsFindingIds, i.findings)
  {
    hide NamesItsSteps, Evident;
    EvidentIff(i.candidateVersion.evidence);
    var ids := i.candidateVersion.targetsFindingIds;
    if OnFile(ids, i.findings) {
      forall k | 0 <= k < |ids| ensures Known(ids[k], i.findings) { assert ids[k] in ids; }
    }
    if forall k | 0 <= k < |ids| :: Known(ids[k], i.findings) {
      forall id | id in ids ensures Known(id, i.findings) {}
    }
  }

  lemma OneFieldChangedIff(a: AgentConfig, b: AgentConfig)
    ensures DifferingFields(a, b) == 1 <==> OneFieldChanged(a, b)
  {
  }

  lemma {:induction false} LastFindingIs(findings: seq<Finding>, id: string)
    ensures LastFinding(findings, id).Some? <==> exists k :: IsLastOf(findings, k, id)
    ensures forall k | IsLastOf(findings, k, id) :: LastFinding(findings, id) == Some(findings[k])
  {
    var n := |findings| - 1;
    if findings != [] && findings[n].id != id {
      LastFindingIs(findings[..n], id);
      forall k | IsLastOf(findings, k, id) ensures IsLastOf(findings[..n], k, id) {}
      forall k | IsLastOf(findings[..n], k, id) ensures IsLastOf(findings, k, id) {
        assert forall l | k < l < n :: findings[l].id == findings[..n][l].id;
      }
    } else if findings != [] {
      assert IsLastOf(findings, n, id);
    }
  }

  lemma GroundedIff(findings: seq<Finding>, id: string)
    ensures TargetSupported(findings, id) <==> Grounded(findings, id)
  {
    hide LastFinding, Evident, NamesItsSteps;
    LastFindingIs(findings, id);
    forall f: Finding { EvidentIff(f.evidence); }
  }

  lemma DiagnosisIff(i: GuardianInput, suite: EvalSuite, r: Report)
    ensures InvestigatorApproves(RolesInput(i, suite, r)) <==> DiagnosisRests(i)
  {
    hide TargetSupported, Grounded;
    forall id { GroundedIff(i.findings, id); }
    var ids := i.proposal.targetsFindingIds;
    if DiagnosisRests(i) {
      forall k | 0 <= k < |ids| ensures TargetSupported(i.findings, ids[k]) { assert ids[k] in ids; }
    }
  }

  lemma ChangeIff(i: GuardianInput, suite: EvalSuite, r: Report)
    ensures ArchitectApproves(RolesInput(i, suite, r)) <==>
      && RightKindOfChange(i.proposal)
      && (i.baselineVersion.Some? ==> OneFieldChanged(i.baselineVersion.value.config, i.candidateVersion.config))
    ensures ArchitectApproves(RolesInput(i, suite, r)) ==> Holds(i, ActuallyChanged)
  {
    hide DifferingFields, OneFieldChanged;
    if i.baselineVersion.Some? {
      OneFieldChangedIff(i.baselineVersion.value.config, i.candidateVersion.config);
    }
  }

  lemma ExperimentIff(i: GuardianInput, suite: EvalSuite, r: Report)
    ensures CriticApproves(RolesInput(i, suite, r)) <==> i.baseline.repeats >= 3 && ExperimentCouldTell(i, suite)
  {
    if CriticApproves(RolesInput(i, suite, r)) {
      var j, k :| 0 <= j < |suite.tasks| && 0 <= k < |suite.tasks|
        && suite.tasks[j].capability != suite.tasks[k].capability;
      assert suite.tasks[j] in suite.tasks && suite.tasks[k] in suite.tasks;
      var l :| 0 <= l < |i.baseline.attemptSummaries| && !i.baseline.attemptSummaries[l].passed;
      assert i.baseline.attemptSummaries[l] in i.baseline.attemptSummaries;
    }
  }

  // --- the decision ---------------------------------------------------------------------------------

  /** The named field moved to its better side, by enough, past both noise estimates. */
  ghost predicate TargetWon(i: GuardianInput) {
    var field := NamedField(i.proposal.targetMetric);
    var b, c := i.baseline.attemptSummaries, i.candidate.attemptSummaries;
    && field.Some? && Moves(b, c, field.value, i.options.minEffect)
    && ClearsWithin(b, c, field.value) && ClearsAcross(b, c, field.value)
  }

  ghost predicate CostsHeld(i: GuardianInput) {
    var b, c := i.baseline.attemptSummaries, i.candidate.attemptSummaries;
    && GrowsAtMost(b, c, Field(false, false, TokensOf), i.options.maxCostGrowth)
    && GrowsAtMost(b, c, Field(false, true, DurationOf), i.options.maxLatencyGrowth)
  }

  /** The change is an undecided version with evidence for findings on file, of the right kind, in one field. */
  ghost predicate ChangeStands(i: GuardianInput) {
    && i.candidateVersion.state == Candidate
    && Evident(i.candidateVersion.evidence) && OnFile(i.candidateVersion.targetsFindingIds, i.findings)
    && PromptKept(i.candidateVersion.config, i.baselineVersion, i.builtinPrompt)
    && RightKindOfChange(i.proposal)
    && (i.baselineVersion.Some? ==> OneFieldChanged(i.baselineVersion.value.config, i.candidateVersion.config))
  }

  lemma AcrossIff(i: GuardianInput)
    requires Holds(i, TargetImproved)
    ensures var m := TargetMetric(i.proposal);
      && m.Some? && Comparable(i.baseline, i.candidate, m.value)
      && var (b, c) := TargetSamples(i, m.value);
      && b != [] && c != []
      && (BeyondNoise(Delta(b, c), PooledAcross(b, c)) <==>
          ClearsAcross(i.baseline.attemptSummaries, i.candidate.attemptSummaries,
            NamedField(i.proposal.targetMetric).GetOr(Field(true, false, DurationOf))))
  {
    hide MetricIs, NamedField, TargetMetric, Compared, BothHave, MeanOf, HigherIsBetter, LowerIsBetter, Comparable,
      AllReported, BeyondNoise, PooledWithin, PooledAcross, SamplesOf, Samples, Delta, Clears, Improved, Abs;
    TargetIsNamed(i.proposal);
    var m, field := TargetMetric(i.proposal).value, NamedField(i.proposal.targetMetric).value;
    ComparableIff(i.baseline, i.candidate, m, field);
    ComparedSome(i.baseline, i.candidate, m);
    ComparedIsOf(i.baseline, i.candidate, m, field);
    var d := Compared(i.baseline, i.candidate, m).value.delta;
    BeyondIsClears(d, PooledAcross(SamplesOf(i.baseline.attemptSummaries, field.of),
                                   SamplesOf(i.candidate.attemptSummaries, field.of)));
  }

  lemma TargetWonIff(i: GuardianInput)
    ensures TargetWon(i) <==>
      && Holds(i, TargetImproved) && Holds(i, BeyondNoiseFloor)
      && var m := TargetMetric(i.proposal);
        && m.Some?
        && Comparable(i.baseline, i.candidate, m.value)
        && var (b, c) := TargetSamples(i, m.value); BeyondNoise(Delta(b, c), PooledAcross(b, c))
  {
    hide Holds, NamedField, Moves, ClearsWithin, ClearsAcross, TargetSamples, Comparable, BeyondNoise, PooledAcross,
      Delta, TargetMetric;
    TargetImprovedIff(i);
    NoiseFloorIff(i);
    if Holds(i, TargetImproved) { AcrossIff(i); }
  }

  /** Every check holds, told apart by what it is about. */
  lemma TenChecks(i: GuardianInput)
    ensures (forall id :: Holds(i, id)) <==>
      && Holds(i, SameConditions) && Holds(i, EnoughSamples) && Holds(i, NoTaskRegression)
      && Holds(i, TargetImproved) && Holds(i, BeyondNoiseFloor) && Holds(i, CostTolerance)
      && Holds(i, LatencyTolerance) && Holds(i, PromptBudget) && Holds(i, EvidenceResolves)
      && Holds(i, ActuallyChanged)
  {
    hide Holds;
    if && Holds(i, SameConditions) && Holds(i, EnoughSamples) && Holds(i, NoTaskRegression)
       && Holds(i, TargetImproved) && Holds(i, BeyondNoiseFloor) && Holds(i, CostTolerance)
       && Holds(i, LatencyTolerance) && Holds(i, PromptBudget) && Holds(i, EvidenceResolves)
       && Holds(i, ActuallyChanged)
    {
      forall id ensures Holds(i, id) {
        match id
        case SameConditions => case EnoughSamples => case NoTaskRegression => case TargetImproved =>
        case BeyondNoiseFloor => case CostTolerance => case LatencyTolerance => case PromptBudget =>
        case EvidenceResolves => case ActuallyChanged =>
      }
    }
  }

  lemma ReportPasses(i: GuardianInput, r: Report)
    requires ReportOf(i, r)
    ensures r.passed <==> forall id :: Holds(i, id)
  {
    hide Holds, ChecksOf, TargetDelta, Compared;
  }

  /** The terms of a promotion, each of them a condition on what was measured and stored. */
  ghost predicate Deserved(i: GuardianInput, suite: EvalSuite) {
    && SameTerms(i) && NoTaskFell(i) && TargetWon(i) && CostsHeld(i)
    && ChangeStands(i) && DiagnosisRests(i) && ExperimentCouldTell(i, suite)
  }

  /** Main result: a version is promoted exactly when it meets the terms. */
  lemma PromotesIff(i: GuardianInput, suite: EvalSuite, r: Report)
    requires ReportOf(i, r)
    ensures Promotes(i, suite, r) <==> Deserved(i, suite)
  {
    hide ReportOf, Holds, InvestigatorApproves, ArchitectApproves, CriticApproves, VerifierApproves, SameTerms,
      NoTaskFell, TargetWon, DiagnosisRests, ExperimentCouldTell, Evident, OnFile, PromptKept, RightKindOfChange,
      OneFieldChanged, GrowsAtMost, Comparable, BeyondNoise, PooledAcross, Delta, TargetSamples, TargetMetric;
    VerifierAddsOneEstimate(i, suite, r);
    ReportPasses(i, r);
    TenChecks(i);
    TermsIff(i);
    NoTaskFellIff(i);
    TargetWonIff(i);
    TolerancesIff(i);
    PromptKeptIff(i);
    EvidenceIff(i);
    DiagnosisIff(i, suite, r);
    ChangeIff(i, suite, r);
    ExperimentIff(i, suite, r);
  }

  /** A report lists ten checks, or nine when the proposal names no field that can be a target. */
  lemma ChecksListed(i: GuardianInput, r: Report)
    requires ReportOf(i, r)
    ensures var named := NamedField(i.proposal.targetMetric).Some?;
      && |r.checks| == (if named then 10 else 9)
      && r.checks[0].id == SameConditions && r.checks[1].id == EnoughSamples && r.checks[2].id == NoTaskRegression
      && r.checks[3].id == TargetImproved && (named ==> r.checks[4].id == BeyondNoiseFloor)
      && var n := if named then 5 else 4;
      && r.checks[n].id == CostTolerance && r.checks[n + 1].id == LatencyTolerance
      && r.checks[n + 2].id == PromptBudget && r.checks[n + 3].id == EvidenceResolves
      && r.checks[n + 4].id == ActuallyChanged
      && (r.passed <==> forall c | c in r.checks :: c.passed)
  {
    hide Holds, Compared, TargetDelta, DeltaOf, NamedField, TargetMetric, MetricIs;
    TargetIsNamed(i.proposal);
  }
}
