/** A suite edited under its own id: a stored baseline of the old tasks is reused (pipeline.ts:235-239), and a
    promotion judged on another metric can lower the pass rate. */
module EditedSuite {
  import opened Domain
  import opened Statistics
  import opened Headroom
  import opened PatchRoundTrip
  import opened CandidateVersions
  import opened Guardian
  import opened Roles
  import opened Promotion
  import opened Evaluation
  import opened SteadyRuns
  import opened Pipeline

  // --- one step over such a suite -----------------------------------------------------------------

  const PARENT := AgentVersion("v1", None, 0, AgentConfig(Some(""), LoopParams(40, 1)), [], [], Active, None)

  const NOTE := Evidence("run", [1], "")

  const FINDING := Finding("f", [NOTE], true, 3)

  /** Fewer iterations, judged on the iterations. */
  const SHORTER := Proposal(
    LoopActuator, OrchestrationCause, Runaway, ["f"], Some("iterations"), [NOTE], 40, None,
    Some(LoopParamChange(MaxIterations, 40, 30)))

  const CHILD := AgentVersion(
    "v2", Some("v1"), 1, AgentConfig(Some(""), LoopParams(30, 1)), ["f"], [NOTE], Candidate, None)

  const DEFAULT_GUARDIAN := Options(0.1, 0.25, 0.25, 2)

  /** Tasks of which those of the baseline are known. */
  function Fates(tasks: seq<EvalTask>, base: seq<EvalTask>): (fs: seq<Fate>)
    ensures |fs| == |tasks|
    ensures forall k | 0 <= k < |tasks| :: fs[k] == Fate(tasks[k], tasks[k].id in TaskIds(base))
  {
    seq(|tasks|, k requires 0 <= k < |tasks| => Fate(tasks[k], tasks[k].id in TaskIds(base)))
  }

  /** The candidate takes half the iterations and fails whatever the baseline has not measured. */
  function Input(base: seq<EvalTask>, suite: EvalSuite): GuardianInput {
    GuardianInput(
      ResultOf(Fates(base, base), suite.id, "v1", 10), ResultOf(Fates(suite.tasks, base), suite.id, "v2", 5),
      CHILD, Some(PARENT), SHORTER, [FINDING], Some(""), DEFAULT_GUARDIAN)
  }

  ghost predicate TwoCapabilities(suite: EvalSuite) {
    exists j, k ::
      0 <= j < |suite.tasks| && 0 <= k < |suite.tasks| && suite.tasks[j].capability != suite.tasks[k].capability
  }

  /** What any promotion asks of the two lists of tasks. */
  ghost predicate Edited(base: seq<EvalTask>, suite: EvalSuite) {
    && base != [] && UniqueIds(TaskIds(base)) && UniqueIds(TaskIds(suite.tasks))
    && (forall k | 0 <= k < |base| :: base[k].id in TaskIds(suite.tasks))
    && TwoCapabilities(suite)
  }

  /** The suite holds a task that the baseline has not measured. */
  ghost predicate HasNewTask(base: seq<EvalTask>, suite: EvalSuite) {
    exists k :: 0 <= k < |suite.tasks| && suite.tasks[k].id !in TaskIds(base)
  }

  lemma ChildIsBuilt()
    ensures BuildCandidate("v2", Some(PARENT), SHORTER, "", 1) == Ok(CHILD)
    ensures PromptBudgetOk(CHILD.config, Some(PARENT), Some(""))
    ensures DifferingFields(PARENT.config, CHILD.config) == 1
  {
    LoopCandidateBudget("v2", Some(PARENT), SHORTER, "", 1);
    PatchCharsIsTail("");
    PrintAfterParse("");
  }

  lemma BothAreSteady(base: seq<EvalTask>, suite: EvalSuite, m: Metric, x: real, y: real)
    requires base != [] && suite.tasks != []
    requires (m == Iterations && x == 10.0 && y == 5.0) || (m in {Metric.TotalTokens, DurationMs} && x == y == 100.0)
    ensures var i := Input(base, suite);
      && Comparable(i.baseline, i.candidate, m)
      && Compared(i.baseline, i.candidate, m) == Some(MetricDelta(m, x, y, y - x, y != x))
      && var sb, sc := Samples(i.baseline.attemptSummaries, m), Samples(i.candidate.attemptSummaries, m);
        (BeyondNoise(Delta(sb, sc), PooledAcross(sb, sc)) <==> y != x)
  {
    hide AttemptsOf, Slots, Schedule, Compared, BeyondNoise, PooledAcross, Delta, Samples, Comparable, Passes, Rate,
      Steady, Evaluation.TotalTokens, TasksOf;
    var own, all := Fates(base, base), Fates(suite.tasks, base);
    AttemptsSteady(own, 10, m, x);
    AttemptsSteady(all, 5, m, y);
    EndsWithOneTask(own, 10);
    EndsWithOneTask(all, 5);
    SteadyCompared(Input(base, suite).baseline, Input(base, suite).candidate, m, x, y);
  }

  lemma FateIds(tasks: seq<EvalTask>, base: seq<EvalTask>)
    ensures IdsOf(Fates(tasks, base)) == TaskIds(tasks)
  {
  }

  lemma OwnTasksAreKnown(base: seq<EvalTask>)
    ensures forall k | 0 <= k < |base| :: Fates(base, base)[k].known
  {
    forall k | 0 <= k < |base| ensures base[k].id in TaskIds(base) {
      assert TaskIds(base)[k] == base[k].id;
    }
  }

  lemma BothAreComplete(base: seq<EvalTask>, suite: EvalSuite)
    requires Edited(base, suite)
    ensures var i := Input(base, suite);
      && Complete(i.baseline) && ResultIds(i.baseline.tasks) == TaskIds(base)
      && Complete(i.candidate) && Covers(i.candidate, suite)
      && i.baseline.passRate == Rate(2 * |base|, 3 * |base|)
      && i.candidate.passRate == Rate(Passing(Fates(suite.tasks, base)), 3 * |suite.tasks|)
  {
    var own, all := Fates(base, base), Fates(suite.tasks, base);
    FateIds(base, base);
    FateIds(suite.tasks, base);
    OwnTasksAreKnown(base);
    KnownTasksPass(own);
    hide Complete, ResultOf, IdsOf, TaskIds, ResultIds, UniqueIds, Rate, Passing, Fates;
    ResultIsComplete(own, suite.id, "v1", 10);
    ResultIsComplete(all, suite.id, "v2", 5);
  }

  lemma TwoThirds(p: real, n: real)
    requires n > 0.0
    ensures p < 2.0 * n ==> p / (3.0 * n) < 2.0 / 3.0
    ensures 2.0 * n / (3.0 * n) == 2.0 / 3.0
  {
    var d := 3.0 * n;
    assert p / d * d == p && 2.0 / 3.0 * d == 2.0 * n;
    if p / d >= 2.0 / 3.0 { MulMonotone(2.0 / 3.0, p / d, d); }
    assert 2.0 * n / d == 2.0 / 3.0 * d / d;
  }

  lemma LessThanTwoThirds(p: nat, n: nat, m: nat)
    requires p < 2 * n && m > 0
    ensures Rate(p, 3 * n) < Rate(2 * m, 3 * m)
  {
    TwoThirds(p as real, n as real);
    TwoThirds(0.0, m as real);
  }

  lemma TheRateFalls(base: seq<EvalTask>, suite: EvalSuite)
    requires Edited(base, suite) && HasNewTask(base, suite)
    ensures Input(base, suite).candidate.passRate < Input(base, suite).baseline.passRate
  {
    var all := Fates(suite.tasks, base);
    BothAreComplete(base, suite);
    KnownTasksPass(all);
    var k :| 0 <= k < |suite.tasks| && suite.tasks[k].id !in TaskIds(base);
    assert !all[k].known;
    hide Rate, Passing, ResultOf;
    LessThanTwoThirds(Passing(all), |suite.tasks|, |base|);
  }

  lemma TasksHeld(base: seq<EvalTask>, suite: EvalSuite)
    requires Edited(base, suite)
    ensures NoRegression(TasksOf(Fates(base, base)), TasksOf(Fates(suite.tasks, base)))
  {
    var bs, cs := TasksOf(Fates(base, base)), TasksOf(Fates(suite.tasks, base));
    OwnTasksAreKnown(base);
    hide Rate, FirstResult;
    forall k | 0 <= k < |bs| ensures Held(bs[k], cs) {
      var id := base[k].id;
      var j :| 0 <= j < |suite.tasks| && TaskIds(suite.tasks)[j] == id;
      assert cs[j] in cs && cs[j].taskId == id;
      var c := FirstResult(cs, id).value;
      var n :| 0 <= n < |cs| && cs[n] == c;
      assert TaskIds(base)[k] == id;
    }
  }

  lemma EvidenceHolds()
    ensures EvidenceIsReal(CHILD, [FINDING])
  {
    assert FINDING in [FINDING] && Known("f", [FINDING]);
  }

  lemma TargetIsIterations()
    ensures TargetMetric(SHORTER) == Some(Iterations)
  {
  }

  lemma AllHold(base: seq<EvalTask>, suite: EvalSuite, id: CheckId)
    requires Edited(base, suite)
    ensures Holds(Input(base, suite), id)
  {
    hide Compared, PromptBudgetOk, NoRegression, EvidenceIsReal, TargetMetric, DifferingFields, AttemptsOf, TasksOf,
      Passes, Rate, Comparable, Samples, Delta, BeyondNoise, PooledAcross, Slots, Schedule, Evaluation.TotalTokens;
    BothAreSteady(base, suite, Iterations, 10.0, 5.0);
    BothAreSteady(base, suite, Metric.TotalTokens, 100.0, 100.0);
    BothAreSteady(base, suite, DurationMs, 100.0, 100.0);
    ChildIsBuilt();
    TasksHeld(base, suite);
    EvidenceHolds();
    TargetIsIterations();
    AttemptsFollow(Fates(base, base), 10);
    AttemptsFollow(Fates(suite.tasks, base), 5);
  }

  lemma RolesApprove(base: seq<EvalTask>, suite: EvalSuite, i: RoleInput)
    requires Edited(base, suite)
    requires i.proposal == SHORTER && i.findings == [FINDING] && i.suite == suite
    requires i.baseline == Input(base, suite).baseline
    requires i.baselineVersion == Some(PARENT) && i.candidateVersion == CHILD
    ensures InvestigatorApproves(i) && ArchitectApproves(i) && CriticApproves(i)
  {
    hide AttemptsOf, DifferingFields, Passes, Rate, Evaluation.TotalTokens, PromptBudgetOk, UniqueIds, TaskIds;
    ChildIsBuilt();
    assert TargetSupported([FINDING], "f") by { assert LastFinding([FINDING], "f") == Some(FINDING); }
    EndsWithOneTask(Fates(base, base), 10);
    var bs := AttemptsOf(Fates(base, base), 10);
    assert !bs[|bs| - 1].passed;
  }

  lemma FoundAlone(r: SuiteResult, suiteId: string)
    requires r.suiteId == suiteId
    ensures FirstMatching(Listed([r], suiteId, r.versionId), r.model, r.repeats) == Some(r)
  {
    assert [r][..0] == [];
    assert Listed([r], suiteId, r.versionId) == [r];
  }

  lemma BaselineIsReused(base: seq<EvalTask>, suite: EvalSuite, runner: Runner, abort: AbortOracle)
    ensures var b := Input(base, suite).baseline;
      Benchmarked([b], [b], Ok(BenchmarkOutcome(b, true, false)), suite, "v1", "model", 3, runner, abort)
  {
    hide AttemptsOf, Passes, Rate, Evaluation.TotalTokens, RunOf, RanUntil, Script, Listed, FirstMatching;
    FoundAlone(Input(base, suite).baseline, suite.id);
  }

  /** Whatever the edit, the old measurement is reused and every report of this comparison promotes. */
  lemma EditIsPromoted(base: seq<EvalTask>, suite: EvalSuite, r: Report, runner: Runner, abort: AbortOracle)
    requires Edited(base, suite) && ReportOf(Input(base, suite), r)
    ensures var b := Input(base, suite).baseline;
      Benchmarked([b], [b], Ok(BenchmarkOutcome(b, true, false)), suite, "v1", "model", 3, runner, abort)
    ensures Promotes(Input(base, suite), suite, r)
  {
    BaselineIsReused(base, suite, runner, abort);
    forall id ensures Holds(Input(base, suite), id) { AllHold(base, suite, id); }
    BothAreSteady(base, suite, Iterations, 10.0, 5.0);
    TargetIsIterations();
    hide ReportOf, Benchmarked, Holds, Compared, BeyondNoise, PooledAcross, Delta, Samples, Comparable, TargetMetric,
      AttemptsOf, TasksOf, Rate, Passes, Evaluation.TotalTokens, VerifierApproves, InvestigatorApproves,
      ArchitectApproves, CriticApproves, Edited;
    ReportPasses(Input(base, suite), r);
    VerifierAddsOneEstimate(Input(base, suite), suite, r);
    RolesApprove(base, suite, RolesInput(Input(base, suite), suite, r));
  }

  lemma ReportPasses(i: GuardianInput, r: Report)
    requires ReportOf(i, r) && forall id :: Holds(i, id)
    ensures r.passed
  {
    hide Holds, TargetMetric, TargetDelta, Compared;
  }

  // --- when a promotion can lower the pass rate ---------------------------------------------------

  /** A promotion of a candidate that was built from its parent and has run the suite, over a complete
      baseline of these tasks, with a lower pass rate. */
  ghost predicate Lowers(i: GuardianInput, r: Report, base: seq<EvalTask>, suite: EvalSuite) {
    && Complete(i.baseline) && ResultIds(i.baseline.tasks) == TaskIds(base) && i.baseline.suiteId == suite.id
    && Complete(i.candidate) && Covers(i.candidate, suite) && i.candidate.suiteId == suite.id
    && i.builtinPrompt.Some?
    && (var c := i.candidateVersion;
        BuildCandidate(c.id, i.baselineVersion, i.proposal, i.builtinPrompt.value, c.createdAt) == Ok(c))
    && ReportOf(i, r) && Promotes(i, suite, r)
    && i.candidate.passRate < i.baseline.passRate
  }

  lemma LowersFrom(i: GuardianInput, r: Report, base: seq<EvalTask>, suite: EvalSuite)
    requires Complete(i.baseline) && ResultIds(i.baseline.tasks) == TaskIds(base)
    requires Complete(i.candidate) && Covers(i.candidate, suite)
    requires i == Input(base, suite) && BuildCandidate("v2", Some(PARENT), SHORTER, "", 1) == Ok(CHILD)
    requires ReportOf(i, r) && Promotes(i, suite, r) && i.candidate.passRate < i.baseline.passRate
    ensures Lowers(i, r, base, suite)
  {
    hide Complete, ResultIds, TaskIds, Covers, ReportOf, Promotes, BuildCandidate, AttemptsOf, TasksOf, Fates, Rate,
      Passes, Evaluation.TotalTokens;
  }

  lemma TheEditLowers(base: seq<EvalTask>, suite: EvalSuite)
    requires Edited(base, suite) && HasNewTask(base, suite)
    ensures Lowers(Input(base, suite), TheReport(Input(base, suite)), base, suite)
  {
    hide *;
    var i := Input(base, suite);
    ReportIsUnique(i, TheReport(i));
    EditIsPromoted(base, suite, TheReport(i), (_, _) => Threw, _ => false);
    BothAreComplete(base, suite);
    TheRateFalls(base, suite);
    ChildIsBuilt();
    LowersFrom(i, TheReport(i), base, suite);
  }

  lemma AttemptsNeedTasks(r: SuiteResult)
    requires Complete(r) && r.attemptSummaries != []
    ensures ResultIds(r.tasks) != [] && UniqueIds(ResultIds(r.tasks))
  {
    assert |Slots(r.attemptSummaries)| > 0;
    assert Schedule([], r.repeats) == [];
    hide Slots, Schedule, TotalsAgree;
  }

  lemma HeldIsListed(b: seq<TaskResult>, c: seq<TaskResult>, k: nat)
    requires k < |b| && Held(b[k], c)
    ensures b[k].taskId in ResultIds(c)
  {
    var found := FirstResult(c, b[k].taskId).value;
    var j :| 0 <= j < |c| && c[j] == found;
    assert ResultIds(c)[j] == b[k].taskId;
  }

  lemma CriticSees(i: GuardianInput, suite: EvalSuite, r: Report)
    requires Promotes(i, suite, r)
    ensures i.baseline.attemptSummaries != []
    ensures TwoCapabilities(suite)
  {
    hide InvestigatorApproves, ArchitectApproves, VerifierApproves;
    assert CriticApproves(RolesInput(i, suite, r));
  }

  lemma AllListed(i: GuardianInput, base: seq<EvalTask>, suite: EvalSuite)
    requires ResultIds(i.baseline.tasks) == TaskIds(base) && Covers(i.candidate, suite)
    requires forall k | 0 <= k < |i.baseline.tasks| :: Held(i.baseline.tasks[k], i.candidate.tasks)
    ensures forall k | 0 <= k < |base| :: base[k].id in TaskIds(suite.tasks)
  {
    hide Held;
    forall k | 0 <= k < |base| ensures base[k].id in TaskIds(suite.tasks) {
      assert |ResultIds(i.baseline.tasks)| == |base|;
      assert ResultIds(i.baseline.tasks)[k] == TaskIds(base)[k];
      HeldIsListed(i.baseline.tasks, i.candidate.tasks, k);
    }
  }

  lemma LowersParts(i: GuardianInput, r: Report, base: seq<EvalTask>, suite: EvalSuite)
    requires Lowers(i, r, base, suite)
    ensures Complete(i.baseline) && ResultIds(i.baseline.tasks) == TaskIds(base)
    ensures Complete(i.candidate) && Covers(i.candidate, suite) && ResultIds(i.candidate.tasks) == TaskIds(suite.tasks)
    ensures ReportOf(i, r) && Promotes(i, suite, r) && i.candidate.passRate < i.baseline.passRate
  {
    hide Complete, ResultIds, TaskIds, ReportOf, Promotes, BuildCandidate;
  }

  lemma EditedFrom(base: seq<EvalTask>, suite: EvalSuite)
    requires TaskIds(base) != [] && UniqueIds(TaskIds(base)) && UniqueIds(TaskIds(suite.tasks))
    requires forall k | 0 <= k < |base| :: base[k].id in TaskIds(suite.tasks)
    requires TwoCapabilities(suite)
    ensures Edited(base, suite)
  {
    hide UniqueIds, TwoCapabilities;
  }

  lemma PromotedIsEdited(i: GuardianInput, r: Report, base: seq<EvalTask>, suite: EvalSuite)
    requires Lowers(i, r, base, suite)
    ensures Edited(base, suite)
  {
    hide *;
    LowersParts(i, r, base, suite);
    PromotionIsSound(i, suite, r);
    CriticSees(i, suite, r);
    AttemptsNeedTasks(i.baseline);
    CompleteIsUnique(i.candidate);
    AllListed(i, base, suite);
    EditedFrom(base, suite);
  }

  lemma CompleteIsUnique(r: SuiteResult)
    requires Complete(r)
    ensures UniqueIds(ResultIds(r.tasks))
  {
    hide UniqueIds, ResultIds, Slots, Schedule, TotalsAgree;
  }

  lemma NothingNew(c: SuiteResult, base: seq<EvalTask>, suite: EvalSuite)
    requires Covers(c, suite) && !HasNewTask(base, suite)
    ensures forall t | t in c.tasks :: t.taskId in TaskIds(base)
  {
    forall t | t in c.tasks ensures t.taskId in TaskIds(base) {
      var k :| 0 <= k < |c.tasks| && c.tasks[k] == t;
      assert ResultIds(c.tasks)[k] == TaskIds(suite.tasks)[k];
      assert suite.tasks[k].id == t.taskId;
    }
  }

  lemma LoweredHasNewTask(i: GuardianInput, r: Report, base: seq<EvalTask>, suite: EvalSuite)
    requires Lowers(i, r, base, suite)
    ensures HasNewTask(base, suite)
  {
    hide *;
    LowersParts(i, r, base, suite);
    PromotionNeverLowersThePassRate(i, suite, r);
    if !HasNewTask(base, suite) {
      NothingNew(i.candidate, base, suite);
      assert false;
    }
  }

  /** Main result: over a stored baseline of some tasks, a promotion can lower the pass rate of a suite if and
      only if the suite holds those tasks, more than one capability, and a task the baseline has not measured. */
  lemma LowersIff(base: seq<EvalTask>, suite: EvalSuite)
    ensures (exists i, r :: Lowers(i, r, base, suite)) <==> Edited(base, suite) && HasNewTask(base, suite)
  {
    hide *;
    if Edited(base, suite) && HasNewTask(base, suite) { TheEditLowers(base, suite); }
    forall i, r | Lowers(i, r, base, suite) ensures Edited(base, suite) && HasNewTask(base, suite) {
      PromotedIsEdited(i, r, base, suite);
      LoweredHasNewTask(i, r, base, suite);
    }
  }

  // --- one edit -----------------------------------------------------------------------------------

  const BEFORE := [EvalTask("a", "read"), EvalTask("b", "write")]

  const AFTER := EvalSuite("suite", BEFORE + [EvalTask("c", "write")])

  lemma AddingATask()
    ensures Edited(BEFORE, AFTER) && HasNewTask(BEFORE, AFTER)
  {
    assert TaskIds(BEFORE) == ["a", "b"] && TaskIds(AFTER.tasks) == ["a", "b", "c"];
    assert "a"[0] != "b"[0] && "a"[0] != "c"[0] && "b"[0] != "c"[0] && "read"[0] != "write"[0];
    assert AFTER.tasks[0].capability == "read" && AFTER.tasks[1].capability == "write";
    assert AFTER.tasks[2].id == "c";
  }

  /** An input: a third task is added to a suite of two.  The old measurement is reused, every report of the
      comparison promotes the candidate, and the pass rate falls. */
  lemma PromotionLowersThePassRate(r: Report, runner: Runner, abort: AbortOracle)
    requires ReportOf(Input(BEFORE, AFTER), r)
    ensures var i := Input(BEFORE, AFTER);
      && Benchmarked(
           [i.baseline], [i.baseline], Ok(BenchmarkOutcome(i.baseline, true, false)), AFTER, "v1", "model", 3, runner,
           abort)
      && Lowers(i, r, BEFORE, AFTER)
      && i.baseline.passRate == 2.0 / 3.0 && i.candidate.passRate == 4.0 / 9.0
  {
    hide *;
    var i := Input(BEFORE, AFTER);
    AddingATask();
    ReportIsUnique(i, r);
    TheEditLowers(BEFORE, AFTER);
    EditIsPromoted(BEFORE, AFTER, r, runner, abort);
    BothAreComplete(BEFORE, AFTER);
    RatesOfTheEdit();
  }

  lemma RatesOfTheEdit()
    ensures Rate(2 * |BEFORE|, 3 * |BEFORE|) == 2.0 / 3.0
    ensures Rate(Passing(Fates(AFTER.tasks, BEFORE)), 3 * |AFTER.tasks|) == 4.0 / 9.0
  {
    assert TaskIds(BEFORE) == ["a", "b"];
    var a, b, c := Fate(AFTER.tasks[0], true), Fate(AFTER.tasks[1], true), Fate(AFTER.tasks[2], false);
    assert "c" !in TaskIds(BEFORE) by { assert "c"[0] != "a"[0] && "c"[0] != "b"[0]; }
    assert TaskIds(BEFORE)[0] == "a" && TaskIds(BEFORE)[1] == "b";
    assert Fates(AFTER.tasks, BEFORE) == [] + [a] + [b] + [c];
    PassingEnd([], a);
    PassingEnd([] + [a], b);
    PassingEnd([] + [a] + [b], c);
    assert Passing([]) == 0;
  }
}
