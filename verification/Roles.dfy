/** The four reviews of a proposed upgrade (packages/axiom-core/src/roles.ts).  An objection is
    counted, not worded. */
module Roles {
  import opened Domain
  import opened Statistics
  import opened PromptPatches
  import opened CandidateVersions
  import opened Guardian

  datatype RoleInput = RoleInput(
    proposal: Proposal,
    findings: seq<Finding>,
    suite: EvalSuite,
    baseline: SuiteResult,
    candidate: SuiteResult,
    baselineVersion: Option<AgentVersion>,
    candidateVersion: AgentVersion,
    report: Report)

  // --- investigator: does the diagnosis rest on evidence that resolves? -------------------------

  /** A map built from a list keeps the last entry of a key. */
  function LastFinding(findings: seq<Finding>, id: string): (f: Option<Finding>)
    ensures f.Some? ==> f.value in findings && f.value.id == id
    ensures f.None? ==> !Known(id, findings)
  {
    if findings == [] then None
    else if findings[|findings| - 1].id == id then Some(findings[|findings| - 1])
    else LastFinding(findings[..|findings| - 1], id)
  }

  predicate Supported(f: Finding) {
    && f.evidence != []
    && (forall k | 0 <= k < |f.evidence| :: NamesItsSteps(f.evidence[k]))
    && (f.differential || f.occurrences != 1)
  }

  predicate TargetSupported(findings: seq<Finding>, id: string) {
    var f := LastFinding(findings, id);
    f.Some? && Supported(f.value)
  }

  predicate InvestigatorApproves(i: RoleInput) {
    && i.proposal.targetsFindingIds != []
    && i.proposal.evidence != []
    && forall k | 0 <= k < |i.proposal.targetsFindingIds| ::
         TargetSupported(i.findings, i.proposal.targetsFindingIds[k])
  }

  method ObjectToFinding(f: Finding) returns (objections: nat)
    ensures objections == 0 <==> Supported(f)
  {
    objections := if |f.evidence| == 0 then 1 else 0;
    for n := 0 to |f.evidence|
      invariant objections == 0 <==> f.evidence != [] && forall k | 0 <= k < n :: NamesItsSteps(f.evidence[k])
    {
      if |f.evidence[n].steps| == 0 && !Includes(f.evidence[n].note, "omitted") {
        objections := objections + 1;
      }
    }
    if !f.differential && f.occurrences == 1 {
      objections := objections + 1;
    }
  }

  method Investigate(i: RoleInput) returns (approve: bool)
    ensures approve <==> InvestigatorApproves(i)
  {
    hide Supported, LastFinding;
    var targets := i.proposal.targetsFindingIds;
    var objections := if |targets| == 0 then 1 else 0;
    for n := 0 to |targets|
      invariant 0 <= objections
      invariant objections == 0 <==> targets != [] && forall k | 0 <= k < n :: TargetSupported(i.findings, targets[k])
    {
      var f := LastFinding(i.findings, targets[n]);
      if f.None? {
        objections := objections + 1;
        continue;
      }
      var more := ObjectToFinding(f.value);
      objections := objections + more;
    }
    if |i.proposal.evidence| == 0 {
      objections := objections + 1;
    }
    approve := objections == 0;
  }

  // --- architect: is this the right kind of change? ---------------------------------------------

  predicate BuysMore(p: Proposal) {
    && p.actuator == LoopActuator && p.loop.Some?
    && p.loop.value.to > p.loop.value.from
    && (p.detector == Runaway || p.detector == Waste || p.detector == ToolLoop)
  }

  predicate ArchitectApproves(i: RoleInput) {
    && i.proposal.actuator != ManualActuator
    && i.proposal.rootCause != ModelCause
    && !BuysMore(i.proposal)
    && (i.baselineVersion.Some? ==> DifferingFields(i.baselineVersion.value.config, i.candidateVersion.config) == 1)
    && i.proposal.trimmedRationaleLength >= 40
  }

  method ReviewArchitecture(i: RoleInput) returns (approve: bool)
    ensures approve <==> ArchitectApproves(i)
  {
    var objections := 0;
    var p := i.proposal;
    if p.actuator == ManualActuator {
      objections := objections + 1;
    }
    if p.rootCause == ModelCause {
      objections := objections + 1;
    }
    if p.actuator == LoopActuator && p.loop.Some? {
      var raises := p.loop.value.to > p.loop.value.from;
      var buysMore := p.detector == Runaway || p.detector == Waste || p.detector == ToolLoop;
      if raises && buysMore {
        objections := objections + 1;
      }
    }
    if i.baselineVersion.Some? {
      var a, b := i.baselineVersion.value.config, i.candidateVersion.config;
      var differing := 0;
      if a.promptOverride != b.promptOverride {
        differing := differing + 1;
      }
      if a.loop.maxIterations != b.loop.maxIterations {
        differing := differing + 1;
      }
      if a.loop.verificationNudgeMax != b.loop.verificationNudgeMax {
        differing := differing + 1;
      }
      if differing > 1 || differing == 0 {
        objections := objections + 1;
      }
    }
    if p.trimmedRationaleLength < 40 {
      objections := objections + 1;
    }
    approve := objections == 0;
  }

  // --- critic: could the experiment have told? --------------------------------------------------

  predicate CriticApproves(i: RoleInput) {
    && |i.suite.tasks| >= 2
    && i.baseline.repeats >= 3
    && (exists k :: 0 <= k < |i.baseline.attemptSummaries| && !i.baseline.attemptSummaries[k].passed)
    && (exists j, k :: 0 <= j < |i.suite.tasks| && 0 <= k < |i.suite.tasks|
          && i.suite.tasks[j].capability != i.suite.tasks[k].capability)
    && !(i.proposal.actuator == PromptActuator && i.baseline.passRate == 1.0)
  }

  method CountFailures(attempts: seq<AttemptSummary>) returns (failures: nat)
    ensures failures == 0 <==> forall k | 0 <= k < |attempts| :: attempts[k].passed
  {
    failures := 0;
    for n := 0 to |attempts|
      invariant failures == 0 <==> forall k | 0 <= k < n :: attempts[k].passed
    {
      if !attempts[n].passed {
        failures := failures + 1;
      }
    }
  }

  method CountCapabilities(tasks: seq<EvalTask>) returns (distinct: nat)
    ensures |tasks| > 0 ==>
        (distinct == 1 <==> forall k | 0 <= k < |tasks| :: tasks[k].capability == tasks[0].capability)
  {
    var capabilities: set<string> := {};
    for n := 0 to |tasks|
      invariant n > 0 ==> tasks[0].capability in capabilities
      invariant forall k | 0 <= k < n :: tasks[k].capability in capabilities
      invariant forall c | c in capabilities :: exists k :: 0 <= k < n && tasks[k].capability == c
    {
      capabilities := capabilities + {tasks[n].capability};
    }
    distinct := |capabilities|;
    if |tasks| > 0 {
      var c := tasks[0].capability;
      assert |capabilities - {c}| == |capabilities| - 1;
      if forall k | 0 <= k < |tasks| :: tasks[k].capability == c {
        assert capabilities == {c};
      }
      if distinct == 1 {
        assert capabilities - {c} == {};
        forall k | 0 <= k < |tasks| ensures tasks[k].capability == c {
          assert tasks[k].capability !in capabilities - {c};
        }
      }
    }
  }

  method Critique(i: RoleInput) returns (approve: bool)
    ensures approve <==> CriticApproves(i)
  {
    var objections := 0;
    if |i.suite.tasks| < 2 {
      objections := objections + 1;
    }
    if i.baseline.repeats < 3 {
      objections := objections + 1;
    }
    var failures := CountFailures(i.baseline.attemptSummaries);
    if failures == 0 {
      objections := objections + 1;
    }
    var distinct := CountCapabilities(i.suite.tasks);
    if distinct == 1 && |i.suite.tasks| > 1 {
      objections := objections + 1;
    }
    if i.proposal.actuator == PromptActuator && i.baseline.passRate == 1.0 {
      objections := objections + 1;
    }
    approve := objections == 0;
    if |i.suite.tasks| >= 2 && distinct != 1 {
      var k :| 0 <= k < |i.suite.tasks| && i.suite.tasks[k].capability != i.suite.tasks[0].capability;
    }
  }

  // --- verifier: is the arithmetic right, recomputed from the raw attempts? ---------------------

  /** The reported values of a metric, in order, skipping attempts that did not report it. */
  function RawValues(attempts: seq<AttemptSummary>, m: Metric): seq<real> {
    if attempts == [] then []
    else
      var v := ValueOf(attempts[|attempts| - 1], m);
      RawValues(attempts[..|attempts| - 1], m) + (if v.Some? then [v.value] else [])
  }

  function FirstDelta(deltas: seq<MetricDelta>, m: Metric): (d: Option<MetricDelta>)
    ensures d.Some? ==> d.value in deltas && d.value.metric == m
  {
    if deltas == [] then None
    else if deltas[0].metric == m then Some(deltas[0])
    else FirstDelta(deltas[1..], m)
  }

  predicate ShouldBeBeyond(b: seq<real>, c: seq<real>)
    requires b != [] && c != []
  {
    var vb, vc := Variance(b), Variance(c);
    BeyondNoise(Mean(c) - Mean(b), if vb.Some? && vc.Some? then Some((vb.value + vc.value) / 2.0) else None)
  }

  const TOLERANCE := 0.000000001

  /** The recomputed means and verdict match what the report carries. */
  predicate Recomputes(b: seq<real>, c: seq<real>, d: Option<MetricDelta>)
    requires b != [] && c != []
  {
    && d.Some?
    && Abs(d.value.baseline - Mean(b)) <= TOLERANCE
    && Abs(d.value.candidate - Mean(c)) <= TOLERANCE
    && (ShouldBeBeyond(b, c) <==> d.value.beyondNoise)
  }

  /** The recomputation agrees when a delta is reported, both means are within a billionth of it, and the movement
      clears the mean of the two sides' variances exactly when the report says it is beyond noise. */
  lemma RecomputesIff(b: seq<real>, c: seq<real>, d: Option<MetricDelta>)
    requires |b| >= 2 && |c| >= 2
    ensures Recomputes(b, c, d) <==>
      && d.Some?
      && -0.000000001 <= d.value.baseline - Mean(b) <= 0.000000001
      && -0.000000001 <= d.value.candidate - Mean(c) <= 0.000000001
      && var spread := (Scatter(b) / (|b| - 1) as real + Scatter(c) / (|c| - 1) as real) / 2.0;
        var move := Mean(c) - Mean(b);
        d.value.beyondNoise <==> if spread == 0.0 then move != 0.0 else move * move > spread
  {
    hide Mean, Scatter;
  }

  /** A side of one value has no variance, so nothing is beyond noise then. */
  lemma SingleRecomputes(b: seq<real>, c: seq<real>, d: Option<MetricDelta>)
    requires b != [] && c != [] && (|b| == 1 || |c| == 1)
    ensures Recomputes(b, c, d) <==>
      && d.Some?
      && -0.000000001 <= d.value.baseline - Mean(b) <= 0.000000001
      && -0.000000001 <= d.value.candidate - Mean(c) <= 0.000000001
      && !d.value.beyondNoise
  {
    hide Mean, Scatter;
  }

  predicate VerifierApproves(i: RoleInput) {
    && (forall c | c in i.report.checks :: c.passed)
    && i.candidateVersion.state == Candidate
    && (i.report.targetMetric.Some? ==>
          var m := i.report.targetMetric.value;
          var b, c := RawValues(i.baseline.attemptSummaries, m), RawValues(i.candidate.attemptSummaries, m);
          b != [] && c != [] ==> Recomputes(b, c, FirstDelta(i.report.deltas, m)))
  }

  method Verify(i: RoleInput) returns (approve: bool)
    ensures approve <==> VerifierApproves(i)
  {
    var objections := 0;
    for n := 0 to |i.report.checks|
      invariant 0 <= objections
      invariant objections == 0 <==> forall k | 0 <= k < n :: i.report.checks[k].passed
    {
      if !i.report.checks[n].passed {
        objections := objections + 1;
      }
    }
    assert objections == 0 <==> forall c | c in i.report.checks :: c.passed;
    hide Mean, RawValues, FirstDelta, ShouldBeBeyond;
    if i.report.targetMetric.Some? {
      var m := i.report.targetMetric.value;
      var b := RawValues(i.baseline.attemptSummaries, m);
      var c := RawValues(i.candidate.attemptSummaries, m);
      if |b| > 0 && |c| > 0 {
        var reported := FirstDelta(i.report.deltas, m);
        if reported.None? {
          objections := objections + 1;
        } else {
          if Abs(reported.value.baseline - Mean(b)) > TOLERANCE || Abs(reported.value.candidate - Mean(c)) > TOLERANCE {
            objections := objections + 1;
          }
          if ShouldBeBeyond(b, c) != reported.value.beyondNoise {
            objections := objections + 1;
          }
        }
      }
    }
    if i.candidateVersion.state != Candidate {
      objections := objections + 1;
    }
    approve := objections == 0;
  }
}
