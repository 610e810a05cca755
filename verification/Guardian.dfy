/** The regression guardian: comparing one metric of two suite results and the ten checks a
    candidate must pass (packages/axiom-core/src/guardian.ts). */
module Guardian {
  import opened Domain
  import opened Statistics
  import opened PromptPatches
  import opened CandidateVersions

  datatype Metric =
    PassRate | Iterations | TotalTokens | DurationMs | ToolCalls | ToolFailures
    | DeniedCalls | VerificationCalls | RepeatRatio

  function MetricNamed(name: string): Option<Metric> {
    match name
    case "passRate" => Some(PassRate)
    case "iterations" => Some(Iterations)
    case "totalTokens" => Some(TotalTokens)
    case "durationMs" => Some(DurationMs)
    case "toolCalls" => Some(ToolCalls)
    case "toolFailures" => Some(ToolFailures)
    case "deniedCalls" => Some(DeniedCalls)
    case "verificationCalls" => Some(VerificationCalls)
    case "repeatRatio" => Some(RepeatRatio)
    case _ => None
  }

  predicate HigherIsBetter(m: Metric) { m == PassRate || m == VerificationCalls }

  predicate LowerIsBetter(m: Metric) { m != ToolCalls && !HigherIsBetter(m) }

  predicate Improved(m: Metric, delta: real) {
    if HigherIsBetter(m) then delta > 0.0 else LowerIsBetter(m) && delta < 0.0
  }

  function ValueOf(a: AttemptSummary, m: Metric): Option<real> {
    match m
    case PassRate => Some(if a.passed then 1.0 else 0.0)
    case Iterations => Some(a.iterations as real)
    case TotalTokens => Some(a.totalTokens as real)
    case DurationMs => if a.durationMs.None? then None else Some(a.durationMs.value as real)
    case ToolCalls => Some(a.toolCalls as real)
    case ToolFailures => Some(a.toolFailures as real)
    case DeniedCalls => Some(a.deniedCalls as real)
    case VerificationCalls => Some(a.verificationCalls as real)
    case RepeatRatio => Some(a.repeatRatio)
  }

  // --- comparing one metric ---------------------------------------------------------------------

  predicate AllReported(attempts: seq<AttemptSummary>, m: Metric) {
    forall k | 0 <= k < |attempts| :: ValueOf(attempts[k], m).Some?
  }

  function Samples(attempts: seq<AttemptSummary>, m: Metric): (ss: seq<Sample>)
    requires AllReported(attempts, m)
    ensures |ss| == |attempts|
  {
    if attempts == [] then []
    else
      var a := attempts[|attempts| - 1];
      Samples(attempts[..|attempts| - 1], m) + [Sample(a.taskId, ValueOf(a, m).value)]
  }

  datatype MetricDelta = MetricDelta(metric: Metric, baseline: real, candidate: real, delta: real, beyondNoise: bool)

  predicate Comparable(b: SuiteResult, c: SuiteResult, m: Metric) {
    && AllReported(b.attemptSummaries, m) && AllReported(c.attemptSummaries, m)
    && b.attemptSummaries != [] && c.attemptSummaries != []
  }

  /** The comparison, or nothing when an attempt did not report the metric or a side is empty. */
  function Compared(b: SuiteResult, c: SuiteResult, m: Metric): Option<MetricDelta> {
    if !Comparable(b, c, m) then None
    else
      var sb, sc := Samples(b.attemptSummaries, m), Samples(c.attemptSummaries, m);
      var beyond := BeyondNoise(Delta(sb, sc), PooledWithin(sb, sc));
      Some(MetricDelta(m, Mean(Values(sb)), Mean(Values(sc)), Delta(sb, sc), beyond))
  }

  method CollectSamples(attempts: seq<AttemptSummary>, m: Metric) returns (missing: nat, ss: seq<Sample>)
    ensures missing == 0 <==> AllReported(attempts, m)
    ensures missing == 0 ==> ss == Samples(attempts, m)
  {
    missing, ss := 0, [];
    for n := 0 to |attempts|
      invariant missing == 0 <==> AllReported(attempts[..n], m)
      invariant missing == 0 ==> ss == Samples(attempts[..n], m)
    {
      assert attempts[..n + 1][..n] == attempts[..n];
      assert AllReported(attempts[..n + 1], m) <==> AllReported(attempts[..n], m) && ValueOf(attempts[n], m).Some? by {
        assert attempts[..n + 1] == attempts[..n] + [attempts[n]];
      }
      var v := ValueOf(attempts[n], m);
      if v.None? {
        missing := missing + 1;
      } else {
        ss := ss + [Sample(attempts[n].taskId, v.value)];
      }
    }
    assert attempts[..|attempts|] == attempts;
  }

  method CompareMetric(b: SuiteResult, c: SuiteResult, m: Metric) returns (d: Option<MetricDelta>)
    ensures d == Compared(b, c, m)
  {
    hide AllReported, Samples, BeyondNoise, PooledWithin, Mean, Values;
    var bMissing, sb := CollectSamples(b.attemptSummaries, m);
    var cMissing, sc := CollectSamples(c.attemptSummaries, m);
    if bMissing > 0 || cMissing > 0 || |sb| == 0 || |sc| == 0 {
      return None;
    }
    var pooled := WithinTaskSpread(sb, sc);
    var bm, cm := Mean(Values(sb)), Mean(Values(sc));
    d := Some(MetricDelta(m, bm, cm, cm - bm, BeyondNoise(cm - bm, pooled)));
  }

  // --- the ten checks ---------------------------------------------------------------------------

  datatype Options = Options(minEffect: real, maxCostGrowth: real, maxLatencyGrowth: real, minAttempts: int)

  datatype GuardianInput = GuardianInput(
    baseline: SuiteResult,
    candidate: SuiteResult,
    candidateVersion: AgentVersion,
    baselineVersion: Option<AgentVersion>,
    proposal: Proposal,
    findings: seq<Finding>,
    builtinPrompt: Option<string>,
    options: Options)

  datatype CheckId =
    SameConditions | EnoughSamples | NoTaskRegression | TargetImproved | BeyondNoiseFloor
    | CostTolerance | LatencyTolerance | PromptBudget | EvidenceResolves | ActuallyChanged

  datatype Check = Check(id: CheckId, passed: bool)

  datatype Report = Report(checks: seq<Check>, deltas: seq<MetricDelta>, passed: bool, targetMetric: Option<Metric>)

  /** The metric a proposal is judged on: the pass rate when it names none, and nothing when it names
      one without a good direction. */
  function TargetMetric(p: Proposal): Option<Metric> {
    match p.targetMetric
    case None => Some(PassRate)
    case Some(name) => if MetricNamed(name) == Some(ToolCalls) then None else MetricNamed(name)
  }

  function FirstResult(tasks: seq<TaskResult>, id: string): (r: Option<TaskResult>)
    ensures r.Some? ==> r.value in tasks && r.value.taskId == id
    ensures r.None? ==> forall t | t in tasks :: t.taskId != id
  {
    if tasks == [] then None
    else if tasks[0].taskId == id then Some(tasks[0])
    else FirstResult(tasks[1..], id)
  }

  predicate Held(b: TaskResult, candidate: seq<TaskResult>) {
    var c := FirstResult(candidate, b.taskId);
    c.Some? && c.value.passRate >= b.passRate
  }

  predicate NoRegression(baseline: seq<TaskResult>, candidate: seq<TaskResult>) {
    forall k | 0 <= k < |baseline| :: Held(baseline[k], candidate)
  }

  predicate Moved(d: MetricDelta, options: Options) {
    Improved(d.metric, d.delta) && Abs(d.delta) >= options.minEffect
  }

  function Abs(x: real): real { if x < 0.0 then -x else x }

  predicate WithinGrowth(d: Option<MetricDelta>, growth: real) {
    d.Some? && d.value.candidate <= d.value.baseline * (1.0 + growth)
  }

  predicate NamesItsSteps(e: Evidence) {
    |e.steps| > 0 || Includes(e.note, "omitted")
  }

  predicate Known(id: string, findings: seq<Finding>) {
    exists f | f in findings :: f.id == id
  }

  predicate EvidenceIsReal(v: AgentVersion, findings: seq<Finding>) {
    && v.evidence != []
    && (forall k | 0 <= k < |v.evidence| :: NamesItsSteps(v.evidence[k]))
    && (forall k | 0 <= k < |v.targetsFindingIds| :: Known(v.targetsFindingIds[k], findings))
  }

  /** What each check is about, independent of how the report is put together. */
  ghost predicate Holds(i: GuardianInput, id: CheckId) {
    match id
    case SameConditions =>
      && i.baseline.suiteId == i.candidate.suiteId
      && i.baseline.model == i.candidate.model
      && i.baseline.repeats == i.candidate.repeats
    case EnoughSamples =>
      && |i.baseline.attemptSummaries| >= i.options.minAttempts
      && |i.candidate.attemptSummaries| >= i.options.minAttempts
    case NoTaskRegression => NoRegression(i.baseline.tasks, i.candidate.tasks)
    case TargetImproved =>
      var m := TargetMetric(i.proposal);
      && m.Some?
      && var d := Compared(i.baseline, i.candidate, m.value);
        d.Some? && Moved(d.value, i.options)
    case BeyondNoiseFloor =>
      var m := TargetMetric(i.proposal);
      && m.Some?
      && var d := Compared(i.baseline, i.candidate, m.value);
        d.Some? && d.value.beyondNoise
    case CostTolerance => WithinGrowth(Compared(i.baseline, i.candidate, TotalTokens), i.options.maxCostGrowth)
    case LatencyTolerance => WithinGrowth(Compared(i.baseline, i.candidate, DurationMs), i.options.maxLatencyGrowth)
    case PromptBudget => PromptBudgetOk(i.candidateVersion.config, i.baselineVersion, i.builtinPrompt)
    case EvidenceResolves => EvidenceIsReal(i.candidateVersion, i.findings)
    case ActuallyChanged =>
      i.baselineVersion.Some? ==> DifferingFields(i.baselineVersion.value.config, i.candidateVersion.config) > 0
  }

  function DeltaOf(d: Option<MetricDelta>): seq<MetricDelta> {
    if d.Some? then [d.value] else []
  }

  function TargetDelta(i: GuardianInput): seq<MetricDelta> {
    var m := TargetMetric(i.proposal);
    if m.None? then [] else DeltaOf(Compared(i.baseline, i.candidate, m.value))
  }

  /** The checks on the target: one fewer when there is no metric to compare. */
  function TargetIds(i: GuardianInput): seq<CheckId> {
    if TargetMetric(i.proposal).None? then [TargetImproved] else [TargetImproved, BeyondNoiseFloor]
  }

  /** The checks a report lists, in order. */
  function CheckIds(i: GuardianInput): seq<CheckId> {
    [SameConditions, EnoughSamples, NoTaskRegression] + TargetIds(i) + [CostTolerance, LatencyTolerance]
    + [PromptBudget, EvidenceResolves, ActuallyChanged]
  }

  /** These checks, in this order, each with its own verdict. */
  ghost predicate ChecksOf(i: GuardianInput, checks: seq<Check>, ids: seq<CheckId>) {
    && |checks| == |ids|
    && forall k | 0 <= k < |ids| :: checks[k] == Check(ids[k], Holds(i, ids[k]))
  }

  /** What a report says of its input. */
  ghost predicate ReportOf(i: GuardianInput, r: Report) {
    && (r.passed <==> forall id :: Holds(i, id))
    && (r.passed <==> forall c | c in r.checks :: c.passed)
    && ChecksOf(i, r.checks, CheckIds(i))
    && r.targetMetric == TargetMetric(i.proposal)
    && r.deltas == TargetDelta(i)
                   + (DeltaOf(Compared(i.baseline, i.candidate, TotalTokens))
                      + DeltaOf(Compared(i.baseline, i.candidate, DurationMs)))
  }

  method CountRegressions(baseline: seq<TaskResult>, candidate: seq<TaskResult>) returns (regressions: nat)
    ensures regressions == 0 <==> NoRegression(baseline, candidate)
  {
    regressions := 0;
    for n := 0 to |baseline|
      invariant regressions == 0 <==> NoRegression(baseline[..n], candidate)
    {
      assert NoRegression(baseline[..n + 1], candidate)
        <==> NoRegression(baseline[..n], candidate) && Held(baseline[n], candidate) by
      {
        assert baseline[..n + 1] == baseline[..n] + [baseline[n]];
      }
      var c := FirstResult(candidate, baseline[n].taskId);
      if c.None? {
        regressions := regressions + 1;
        continue;
      }
      if c.value.passRate < baseline[n].passRate {
        regressions := regressions + 1;
      }
    }
    assert baseline[..|baseline|] == baseline;
  }

  method CountEvidenceProblems(v: AgentVersion, findings: seq<Finding>) returns (problems: nat)
    ensures problems == 0 <==> EvidenceIsReal(v, findings)
  {
    problems := if |v.evidence| == 0 then 1 else 0;
    for n := 0 to |v.evidence|
      invariant problems == 0 <==>
        v.evidence != [] && forall k | 0 <= k < n :: NamesItsSteps(v.evidence[k])
    {
      if |v.evidence[n].steps| == 0 && !Includes(v.evidence[n].note, "omitted") {
        problems := problems + 1;
      }
    }
    hide NamesItsSteps;
    var known := set f | f in findings :: f.id;
    for n := 0 to |v.targetsFindingIds|
      invariant problems == 0 <==>
        && v.evidence != [] && (forall k | 0 <= k < |v.evidence| :: NamesItsSteps(v.evidence[k]))
        && forall k | 0 <= k < n :: Known(v.targetsFindingIds[k], findings)
    {
      assert v.targetsFindingIds[n] in known <==> Known(v.targetsFindingIds[n], findings);
      if v.targetsFindingIds[n] !in known {
        problems := problems + 1;
      }
    }
  }

  /** The checks on the targeted metric, and its delta when there is one. */
  method CheckTarget(i: GuardianInput) returns (checks: seq<Check>, deltas: seq<MetricDelta>)
    ensures deltas == TargetDelta(i) && ChecksOf(i, checks, TargetIds(i))
  {
    deltas := [];
    var m := TargetMetric(i.proposal);
    if m.None? {
      checks := [Check(TargetImproved, false)];
      return;
    }
    var d := CompareMetric(i.baseline, i.candidate, m.value);
    hide Compared, Moved;
    if d.None? {
      checks := [Check(TargetImproved, false), Check(BeyondNoiseFloor, false)];
    } else {
      deltas := [d.value];
      checks := [Check(TargetImproved, Moved(d.value, i.options)), Check(BeyondNoiseFloor, d.value.beyondNoise)];
    }
  }

  method CheckConditions(i: GuardianInput) returns (checks: seq<Check>)
    ensures ChecksOf(i, checks, [SameConditions, EnoughSamples, NoTaskRegression])
  {
    var sameConditions := i.baseline.suiteId == i.candidate.suiteId
      && i.baseline.model == i.candidate.model && i.baseline.repeats == i.candidate.repeats;
    var enough := |i.baseline.attemptSummaries| >= i.options.minAttempts
      && |i.candidate.attemptSummaries| >= i.options.minAttempts;
    var regressions := CountRegressions(i.baseline.tasks, i.candidate.tasks);
    hide NoRegression;
    checks := [
      Check(SameConditions, sameConditions),
      Check(EnoughSamples, enough),
      Check(NoTaskRegression, regressions == 0)];
  }

  method CheckTolerances(i: GuardianInput) returns (checks: seq<Check>, deltas: seq<MetricDelta>)
    ensures ChecksOf(i, checks, [CostTolerance, LatencyTolerance])
    ensures deltas == DeltaOf(Compared(i.baseline, i.candidate, TotalTokens))
                      + DeltaOf(Compared(i.baseline, i.candidate, DurationMs))
  {
    var cost := CompareMetric(i.baseline, i.candidate, TotalTokens);
    var latency := CompareMetric(i.baseline, i.candidate, DurationMs);
    hide Compared, WithinGrowth;
    checks := [
      Check(CostTolerance, WithinGrowth(cost, i.options.maxCostGrowth)),
      Check(LatencyTolerance, WithinGrowth(latency, i.options.maxLatencyGrowth))];
    deltas := DeltaOf(cost) + DeltaOf(latency);
  }

  method CheckVersion(i: GuardianInput) returns (checks: seq<Check>)
    ensures ChecksOf(i, checks, [PromptBudget, EvidenceResolves, ActuallyChanged])
  {
    var problems := CountEvidenceProblems(i.candidateVersion, i.findings);
    hide EvidenceIsReal, PromptBudgetOk, DifferingFields;
    var changed := i.baselineVersion.None?
      || DifferingFields(i.baselineVersion.value.config, i.candidateVersion.config) > 0;
    checks := [
      Check(PromptBudget, PromptBudgetOk(i.candidateVersion.config, i.baselineVersion, i.builtinPrompt)),
      Check(EvidenceResolves, problems == 0),
      Check(ActuallyChanged, changed)];
  }

  method RunGuardian(i: GuardianInput) returns (r: Report)
    ensures ReportOf(i, r)
  {
    hide Holds, Compared, TargetDelta, TargetMetric, DeltaOf, TargetIds, ChecksOf;
    var before := CheckConditions(i);
    var target, targetDeltas := CheckTarget(i);
    var tolerances, toleranceDeltas := CheckTolerances(i);
    var version := CheckVersion(i);
    var checks: seq<Check> := before + target + tolerances + version;
    ChecksConcat(i, before, target, [SameConditions, EnoughSamples, NoTaskRegression], TargetIds(i));
    ChecksConcat(i, before + target, tolerances, [SameConditions, EnoughSamples, NoTaskRegression] + TargetIds(i),
      [CostTolerance, LatencyTolerance]);
    ChecksConcat(i, before + target + tolerances, version,
      [SameConditions, EnoughSamples, NoTaskRegression] + TargetIds(i) + [CostTolerance, LatencyTolerance],
      [PromptBudget, EvidenceResolves, ActuallyChanged]);
    AllChecks(i, checks);
    var passed := forall c: Check | c in checks :: c.passed;
    r := Report(checks, targetDeltas + toleranceDeltas, passed, TargetMetric(i.proposal));
  }

  lemma ChecksConcat(i: GuardianInput, a: seq<Check>, b: seq<Check>, ids: seq<CheckId>, more: seq<CheckId>)
    requires ChecksOf(i, a, ids) && ChecksOf(i, b, more)
    ensures ChecksOf(i, a + b, ids + more)
  {
    hide Holds;
  }

  /** A check left out for want of a metric cannot hold, and one listed beside it fails as well. */
  lemma EveryConditionIsChecked(i: GuardianInput, id: CheckId)
    ensures id in CheckIds(i) || (TargetImproved in CheckIds(i) && !Holds(i, TargetImproved))
  {
    hide Compared, Moved;
    var ids := CheckIds(i);
    var n := |TargetIds(i)|;
    assert ids[0] == SameConditions && ids[1] == EnoughSamples && ids[2] == NoTaskRegression;
    assert ids[3] == TargetImproved;
    assert n == 2 ==> ids[4] == BeyondNoiseFloor;
    assert ids[3 + n] == CostTolerance && ids[4 + n] == LatencyTolerance && ids[5 + n] == PromptBudget;
    assert ids[6 + n] == EvidenceResolves && ids[7 + n] == ActuallyChanged;
  }

  lemma AllChecks(i: GuardianInput, checks: seq<Check>)
    requires ChecksOf(i, checks, CheckIds(i))
    ensures (forall c | c in checks :: c.passed) <==> forall id :: Holds(i, id)
  {
    hide Holds, CheckIds;
    if forall c | c in checks :: c.passed {
      forall id | id in CheckIds(i) ensures Holds(i, id) {
        var k :| 0 <= k < |CheckIds(i)| && CheckIds(i)[k] == id;
        assert checks[k] in checks;
      }
      forall id ensures Holds(i, id) { EveryConditionIsChecked(i, id); }
    }
  }

  /** The report of an input. */
  ghost function TheReport(i: GuardianInput): Report {
    Report(
      seq(|CheckIds(i)|, k requires 0 <= k < |CheckIds(i)| => Check(CheckIds(i)[k], Holds(i, CheckIds(i)[k]))),
      TargetDelta(i) + (DeltaOf(Compared(i.baseline, i.candidate, TotalTokens))
                        + DeltaOf(Compared(i.baseline, i.candidate, DurationMs))),
      forall id :: Holds(i, id), TargetMetric(i.proposal))
  }

  /** Every input has exactly one report. */
  lemma ReportIsUnique(i: GuardianInput, r: Report)
    ensures ReportOf(i, r) <==> r == TheReport(i)
  {
    hide Holds, TargetMetric, Compared, TargetDelta, DeltaOf, CheckIds;
    var it := TheReport(i);
    assert ChecksOf(i, it.checks, CheckIds(i));
    AllChecks(i, it.checks);
    if ReportOf(i, r) { assert r.checks == it.checks; }
  }
}
