/** The evolution loop over its stores: benchmark, validate, improve and roll back
    (packages/axiom-core/src/pipeline.ts:224-372,428-448,533-552).  Minted ids, the clock, the
    findings register, the proposal drawn from the diagnosis and the runner are parameters. */
module Pipeline {
  import opened Domain
  import opened CandidateVersions
  import opened Guardian
  import opened Promotion
  import opened PromotionTerms
  import opened Evaluation
  import opened CompleteResults
  import opened VersionStore
  import opened VersionChain

  datatype BenchmarkOutcome = BenchmarkOutcome(result: SuiteResult, reused: bool, aborted: bool)

  datatype Validation =
    | Refused(why: BuildRefusal)
    /** The store throws: a version of that id is already there. */
    | IdTaken
    | RunnerThrew(candidate: AgentVersion)
    | Stopped(candidate: AgentVersion, result: SuiteResult)
    /** `threw`: the parent to retire was not stored, which is noticed only after the promotion. */
    | Decided(candidate: AgentVersion, result: SuiteResult, promote: bool, report: Report, threw: bool)

  datatype Improvement =
    | BaselineThrew
    | BaselineStopped(baseline: SuiteResult)
    | NothingApplicable(baseline: SuiteResult)
    | Attempted(baseline: SuiteResult, baselineVersion: Option<AgentVersion>, validation: Validation)

  ghost predicate AllComplete(rs: seq<SuiteResult>) {
    forall r | r in rs :: Complete(r)
  }

  /** A complete result under the asked-for conditions.  An empty suite or version id does not filter
      the store, so nothing is promised about that field then. */
  ghost predicate Measures(r: SuiteResult, suiteId: string, versionId: string, model: string, requested: int) {
    && Complete(r)
    && r.model == model
    && r.repeats == RepeatsFor(Some(requested))
    && (suiteId != "" ==> r.suiteId == suiteId)
    && (versionId != "" ==> r.versionId == versionId)
  }

  /** The first of these results made by that model with so many repeats. */
  function FirstMatching(rs: seq<SuiteResult>, model: string, n: int): Option<SuiteResult> {
    if rs == [] then None
    else if rs[0].model == model && rs[0].repeats == n then Some(rs[0])
    else FirstMatching(rs[1..], model, n)
  }

  /** A stored result made under the asked-for conditions; an empty id asks for nothing. */
  predicate Reusable(r: SuiteResult, suiteId: string, versionId: string, model: string, n: int) {
    && (suiteId != "" ==> r.suiteId == suiteId) && (versionId != "" ==> r.versionId == versionId)
    && r.model == model && r.repeats == n
  }

  ghost predicate FirstReusable(
    rs: seq<SuiteResult>, k: int, suiteId: string, versionId: string, model: string, n: int)
  {
    && 0 <= k < |rs| && Reusable(rs[k], suiteId, versionId, model, n)
    && forall j | 0 <= j < k :: !Reusable(rs[j], suiteId, versionId, model, n)
  }

  lemma {:induction false} FirstMatchingSnoc(rs: seq<SuiteResult>, r: SuiteResult, model: string, n: int)
    ensures FirstMatching(rs + [r], model, n) ==
      if FirstMatching(rs, model, n).Some? then FirstMatching(rs, model, n)
      else if r.model == model && r.repeats == n then Some(r) else None
  {
    if rs != [] {
      FirstMatchingSnoc(rs[1..], r, model, n);
      assert (rs + [r])[1..] == rs[1..] + [r];
    }
  }

  lemma ListedSnoc(front: seq<SuiteResult>, r: SuiteResult, suiteId: string, versionId: string)
    ensures Listed(front + [r], suiteId, versionId) == Listed(front, suiteId, versionId)
      + (if Reusable(r, suiteId, versionId, r.model, r.repeats) then [r] else [])
  {
    assert (front + [r])[..|front|] == front;
  }

  lemma FoundSnoc(front: seq<SuiteResult>, r: SuiteResult, suiteId: string, versionId: string, model: string, n: int)
    ensures FirstMatching(Listed(front + [r], suiteId, versionId), model, n) ==
      var found := FirstMatching(Listed(front, suiteId, versionId), model, n);
      if found.Some? then found else if Reusable(r, suiteId, versionId, model, n) then Some(r) else None
  {
    hide Listed, FirstMatching;
    ListedSnoc(front, r, suiteId, versionId);
    FirstMatchingSnoc(Listed(front, suiteId, versionId), r, model, n);
    assert Listed(front, suiteId, versionId) + [] == Listed(front, suiteId, versionId);
  }

  /** What is found in the listing is the first stored result that is reusable. */
  lemma {:induction false} FoundIsFirst(rs: seq<SuiteResult>, suiteId: string, versionId: string, model: string, n: int)
    ensures var found := FirstMatching(Listed(rs, suiteId, versionId), model, n);
      && (found.None? <==> forall k | 0 <= k < |rs| :: !Reusable(rs[k], suiteId, versionId, model, n))
      && forall k | FirstReusable(rs, k, suiteId, versionId, model, n) :: found == Some(rs[k])
  {
    hide Listed, FirstMatching, Reusable;
    if rs == [] {
      NothingFound(suiteId, versionId, model, n);
    } else {
      var front, r := rs[..|rs| - 1], rs[|rs| - 1];
      FoundIsFirst(front, suiteId, versionId, model, n);
      FoundSnoc(front, r, suiteId, versionId, model, n);
      assert rs == front + [r];
      forall k | FirstReusable(rs, k, suiteId, versionId, model, n) && k < |front|
        ensures FirstReusable(front, k, suiteId, versionId, model, n)
      {
      }
    }
  }

  lemma NothingFound(suiteId: string, versionId: string, model: string, n: int)
    ensures FirstMatching(Listed([], suiteId, versionId), model, n).None?
  {
  }

  /** What a benchmark does to the stored results: the first reusable one is returned and nothing is run;
      failing that the suite is run along its script, and stored unless stopped. */
  ghost predicate Benchmarked(
    before: seq<SuiteResult>, after: seq<SuiteResult>, o: Result<BenchmarkOutcome, RunnerFailure>,
    suite: EvalSuite, versionId: string, model: string, n: int, runner: Runner, abort: AbortOracle)
  {
    var prior := FirstMatching(Listed(before, suite.id, versionId), model, n);
    var script := Script(suite.tasks, RepeatsFor(Some(n)), runner);
    if prior.Some? then o == Ok(BenchmarkOutcome(prior.value, true, false)) && after == before
    else if o.Err? then after == before && exists p :: RanUntil(p, false, true, script, abort)
    else
      && !o.value.reused
      && RunOf(SuiteRun(o.value.result, o.value.aborted), suite, model, versionId, RepeatsFor(Some(n)))
      && RanUntil(Measured(o.value.result), o.value.aborted, false, script, abort)
      && |o.value.result.attemptSummaries| <= |script|
      && Scored(o.value.result, suite, script[..|o.value.result.attemptSummaries|])
      && after == before + (if o.value.aborted then [] else [o.value.result])
  }

  /** How a validation follows from what its benchmark gave. */
  ghost predicate FollowsFrom(v: Validation, measured: Result<BenchmarkOutcome, RunnerFailure>) {
    && (v.RunnerThrew? <==> measured.Err?)
    && (v.Stopped? ==> measured.Ok? && measured.value.aborted && v.result == measured.value.result)
    && (v.Decided? ==> measured.Ok? && !measured.value.aborted && v.result == measured.value.result)
  }

  /** The candidate was put into the store. */
  predicate Entered(v: Validation) { !v.Refused? && !v.IdTaken? }

  /** A new id is not the baseline's, and no stored version names it as its parent. */
  ghost predicate Mintable(vs: Versions, baselineVersion: Option<AgentVersion>, id: string) {
    Find(vs, id).None? ==> Fresh(vs, id) && (baselineVersion.Some? ==> baselineVersion.value.id != id)
  }

  /** The result holds exactly the suite's tasks, in order. */
  predicate Covers(r: SuiteResult, suite: EvalSuite) { ResultIds(r.tasks) == TaskIds(suite.tasks) }

  /** If this was taken from the store, it covers the suite as it is now. */
  predicate ReuseCovers(o: BenchmarkOutcome, suite: EvalSuite) { o.reused ==> Covers(o.result, suite) }

  /** Everything one improvement step is told from outside the stores. */
  datatype Environment = Environment(
    versionId: string,
    decisionId: string,
    createdAt: int,
    findings: seq<Finding>,
    builtinKey: string,
    runBaseline: Runner,
    abortBaseline: AbortOracle,
    runCandidate: Runner,
    abortCandidate: AbortOracle)

  class Axiom {
    const configs: MemoryConfigStore
    const results: MemoryResultStore
    const repeats: int
    const options: Options

    constructor (configs: MemoryConfigStore, results: MemoryResultStore, repeats: int, options: Options)
      requires DistinctIds(configs.versions) && AllComplete(results.results)
      ensures this.configs == configs && this.results == results && this.repeats == repeats && this.options == options
      ensures Valid()
    {
      this.configs, this.results, this.repeats, this.options := configs, results, repeats, options;
    }

    ghost predicate Valid()
      reads configs, results
    {
      DistinctIds(configs.versions) && AllComplete(results.results)
    }

    /** Reuses a stored measurement or makes one. */
    method Benchmark(
      suite: EvalSuite, model: string, versionId: string, requested: Option<int>, runner: Runner, abort: AbortOracle)
      returns (o: Result<BenchmarkOutcome, RunnerFailure>)
      requires Valid() && UniqueIds(TaskIds(suite.tasks))
      modifies results`results
      ensures Valid()
      ensures o.Ok? && !o.value.aborted ==>
        Measures(o.value.result, suite.id, versionId, model, requested.GetOr(repeats))
      ensures Benchmarked(old(results.results), results.results, o, suite, versionId, model, requested.GetOr(repeats),
                          runner, abort)
      ensures forall k | FirstReusable(old(results.results), k, suite.id, versionId, model, requested.GetOr(repeats)) ::
        o == Ok(BenchmarkOutcome(old(results.results)[k], true, false))
    {
      hide Complete, RunOf, RanUntil, Script, Listed, Scored;
      var n := requested.GetOr(repeats);
      FoundIsFirst(results.results, suite.id, versionId, model, n);
      hide Reusable;
      var prior := results.ListSuiteResults(suite.id, versionId);
      assert prior[0..] == prior;
      for k := 0 to |prior|
        invariant FirstMatching(prior, model, n) == FirstMatching(prior[k..], model, n)
      {
        assert prior[k..][1..] == prior[k + 1..];
        if prior[k].model == model && prior[k].repeats == n {
          ListedAreStored(results.results, suite.id, versionId, k);
          RepeatsPositive(prior[k]);
          return Ok(BenchmarkOutcome(prior[k], true, false));
        }
      }
      var run := EvaluateSuite(results, suite, model, versionId, Some(n), runner, abort);
      if run.Err? {
        return Err(RunnerFailure);
      }
      FinishedRunIsComplete(run.value, suite, model, versionId, RepeatsFor(Some(n)));
      RunConditions(run.value, suite, model, versionId, RepeatsFor(Some(n)));
      o := Ok(BenchmarkOutcome(run.value.result, false, run.value.aborted));
    }

    /** Builds a candidate, measures it, and promotes or rejects it. */
    method Validate(
      suite: EvalSuite, model: string, proposal: Proposal, baseline: SuiteResult, baselineVersion: Option<AgentVersion>,
      baselineId: string, env: Environment)
      returns (v: Validation, ghost measured: Result<BenchmarkOutcome, RunnerFailure>)
      requires Valid() && UniqueIds(TaskIds(suite.tasks))
      modifies configs`versions, results`results, results`decisions
      ensures Valid()
      ensures v.Refused? <==>
        BuildCandidate(env.versionId, baselineVersion, proposal, configs.builtin, env.createdAt).Err?
      ensures v.IdTaken? <==> !v.Refused? && Find(old(configs.versions), env.versionId).Some?
      ensures !Entered(v) ==>
        && configs.versions == old(configs.versions)
        && results.results == old(results.results) && results.decisions == old(results.decisions)
      ensures Entered(v) ==>
        && BuildCandidate(env.versionId, baselineVersion, proposal, configs.builtin, env.createdAt) == Ok(v.candidate)
        && configs.versions == Perform(old(configs.versions), OpOf(v, baselineVersion, env))
        && (Allowed(old(configs.versions), OpOf(v, baselineVersion, env))
            <==> Mintable(old(configs.versions), baselineVersion, env.versionId))
        && FollowsFrom(v, measured)
        && Benchmarked(old(results.results), results.results, measured, suite, env.versionId, model, repeats,
                       env.runCandidate, env.abortCandidate)
      ensures Entered(v) ==>
        && Proposed(v.candidate, env.versionId, baselineVersion, proposal, configs.builtin, env.createdAt)
        && AfterVerdict(old(configs.versions), configs.versions, v.candidate, baselineVersion, env.decisionId,
                        if !v.Decided? then Undecided else if v.promote then Promoted else Refuted)
      ensures Chain(old(configs.versions)) ==>
        (Chain(configs.versions) <==> !Entered(v) || Mintable(old(configs.versions), baselineVersion, env.versionId))
      ensures v.Stopped? || v.RunnerThrew? ==>
        results.results == old(results.results) && results.decisions == old(results.decisions)
      ensures v.Decided? ==>
        && var i := GuardianInput(
             baseline, v.result, v.candidate, baselineVersion, proposal, env.findings, Some(configs.builtin), options);
        && ReportOf(i, v.report)
        && (v.promote <==> Promotes(i, suite, v.report))
        && (v.promote <==> Deserved(i, suite))
        && Measures(v.result, suite.id, env.versionId, model, repeats)
        && (v.threw <==> v.promote && baselineVersion.Some? && baselineVersion.value.id != env.versionId
                         && Find(old(configs.versions), baselineVersion.value.id).None?)
        && results.decisions
           == old(results.decisions) + [Decision(env.decisionId, env.versionId, baselineId, model, v.promote)]
    {
      hide Chain, Complete, Allowed, Fresh, ReportOf, Promotes, Measures, RunOf, BuildCandidate, AllComplete, Perform,
        Benchmarked, Mintable, Validated, Find, UniqueIds, TaskIds, DistinctIds, OpOf, Proposed, AfterVerdict,
        Deserved;
      measured := Err(RunnerFailure);
      var built := BuildCandidate(env.versionId, baselineVersion, proposal, configs.builtin, env.createdAt);
      if built.Err? {
        return Refused(built.error), measured;
      }
      var candidate := built.value;
      ghost var was, stored := configs.versions, results.results;
      BuiltHasItsId(env.versionId, baselineVersion, proposal, configs.builtin, env.createdAt);
      ConfigsValid(configs);
      var put := configs.Put(candidate);
      if !put {
        return IdTaken, measured;
      }
      forall verdict {
        BuiltIsAllowedIff(was, baselineVersion, proposal, configs.builtin, candidate, env, verdict);
      }
      NowDistinct(was, candidate, baselineVersion, env.decisionId);
      CandidateIs(env.versionId, baselineVersion, proposal, configs.builtin, env.createdAt);
      forall verdict { ValidatedIs(was, candidate, baselineVersion, env.decisionId, verdict); }
      var outcome := Benchmark(suite, model, candidate.id, None, env.runCandidate, env.abortCandidate);
      measured := outcome;
      UnfinishedLeavesNothing(
        stored, results.results, outcome, suite, candidate.id, model, repeats, env.runCandidate, env.abortCandidate);
      if outcome.Err? {
        v := RunnerThrew(candidate);
        OpIs(v, baselineVersion, env);
        return;
      }
      if outcome.value.aborted {
        v := Stopped(candidate, outcome.value.result);
        OpIs(v, baselineVersion, env);
        return;
      }
      var result := outcome.value.result;
      var i := GuardianInput(
        baseline, result, candidate, baselineVersion, proposal, env.findings, Some(configs.builtin), options);
      var promote, report := Decide(i, suite);
      PromotesIff(i, suite, report);
      results.PutDecision(Decision(env.decisionId, candidate.id, baselineId, model, promote));
      var threw := RecordVerdict(candidate, baselineVersion, env.decisionId, promote, was);
      v := Decided(candidate, result, promote, report, threw);
      OpIs(v, baselineVersion, env);
    }

    /** Stage 07: link the decision, set the candidate's state and retire a promoted candidate's parent. */
    method RecordVerdict(
      candidate: AgentVersion, baselineVersion: Option<AgentVersion>, decisionId: string, promote: bool,
      ghost was: Versions)
      returns (threw: bool)
      requires configs.versions == was + [candidate] && DistinctIds(configs.versions)
      modifies configs`versions
      ensures configs.versions ==
        Validated(was, candidate, baselineVersion, decisionId, if promote then Promoted else Refuted)
      ensures DistinctIds(configs.versions)
      ensures threw <==>
        && promote && baselineVersion.Some?
        && baselineVersion.value.id != candidate.id && Find(was, baselineVersion.value.id).None?
    {
      CandidateStored(was, candidate, decisionId);
      hide WithState, WithDecision, Find, DistinctIds;
      ConfigsValid(configs);
      var linked := configs.LinkDecision(candidate.id, decisionId);
      var stated := configs.SetState(candidate.id, if promote then Active else Rejected);
      threw := false;
      if promote && baselineVersion.Some? {
        BaselineStored(was, candidate, decisionId, baselineVersion.value.id);
        var retired := configs.SetState(baselineVersion.value.id, Retired);
        threw := !retired;
      }
      StillDistinct(configs);
    }

    /** One whole improvement step for the proposal the diagnosis put first, if any.  `base` is what the
        baseline's benchmark gave, `mid` the stored results behind it, `cand` what the candidate's gave. */
    method Improve(suite: EvalSuite, model: string, target: Option<Proposal>, env: Environment)
      returns (r: Improvement, ghost base: Result<BenchmarkOutcome, RunnerFailure>, ghost mid: seq<SuiteResult>,
               ghost cand: Result<BenchmarkOutcome, RunnerFailure>)
      requires Valid() && UniqueIds(TaskIds(suite.tasks))
      modifies configs`versions, results`results, results`decisions
      ensures Valid()
      ensures Benchmarked(old(results.results), mid, base, suite, BaselineKey(old(configs.versions), env), model,
                          repeats, env.runBaseline, env.abortBaseline)
      ensures r.BaselineThrew? <==> base.Err?
      ensures r.BaselineStopped? <==> base.Ok? && base.value.aborted
      ensures r.NothingApplicable? <==> base.Ok? && !base.value.aborted && target.None?
      ensures !r.BaselineThrew? ==> r.baseline == base.value.result
      ensures !r.Attempted? ==>
        && configs.versions == old(configs.versions)
        && results.results == mid && results.decisions == old(results.decisions)
      ensures r.Attempted? ==>
        && r.baselineVersion == ActiveOf(old(configs.versions))
        && var key := if r.baselineVersion.Some? then r.baselineVersion.value.id else env.builtinKey;
          key == BaselineKey(old(configs.versions), env) && Measures(r.baseline, suite.id, key, model, repeats)
      ensures r.Attempted? && !Entered(r.validation) ==>
        && configs.versions == old(configs.versions)
        && results.results == mid && results.decisions == old(results.decisions)
      ensures r.Attempted? && Entered(r.validation) ==>
        && configs.versions == Perform(old(configs.versions), OpOf(r.validation, r.baselineVersion, env))
        && (Allowed(old(configs.versions), OpOf(r.validation, r.baselineVersion, env))
            <==> Mintable(old(configs.versions), r.baselineVersion, env.versionId))
        && FollowsFrom(r.validation, cand)
        && Benchmarked(mid, results.results, cand, suite, env.versionId, model, repeats, env.runCandidate,
                       env.abortCandidate)
      ensures r.Attempted? && Entered(r.validation) ==>
        var v := r.validation;
        && Proposed(v.candidate, env.versionId, r.baselineVersion, target.value, configs.builtin, env.createdAt)
        && AfterVerdict(old(configs.versions), configs.versions, v.candidate, r.baselineVersion, env.decisionId,
                        if !v.Decided? then Undecided else if v.promote then Promoted else Refuted)
      ensures Chain(old(configs.versions)) ==>
        (Chain(configs.versions) <==>
          (r.Attempted? && Entered(r.validation) ==>
            Mintable(old(configs.versions), r.baselineVersion, env.versionId)))
      ensures r.Attempted? && r.validation.Decided? ==>
        && base.Ok? && cand.Ok?
        && (Covers(r.baseline, suite) && Covers(r.validation.result, suite) <==>
            ReuseCovers(base.value, suite) && ReuseCovers(cand.value, suite))
      ensures r.Attempted? && r.validation.Decided? && r.validation.promote ==>
        && r.baseline.passRate <= RateOver(ResultIds(r.baseline.tasks), r.validation.result.attemptSummaries)
        && (ReuseCovers(base.value, suite) && ReuseCovers(cand.value, suite) ==>
            r.baseline.passRate <= r.validation.result.passRate)
      ensures r.Attempted? && r.validation.Decided? ==>
        && var v := r.validation;
        && !v.threw
        && Measures(v.result, suite.id, env.versionId, model, repeats)
        && var i := GuardianInput(
             r.baseline, v.result, v.candidate, r.baselineVersion, target.value, env.findings, Some(configs.builtin),
             options);
        && ReportOf(i, v.report)
        && (v.promote <==> Promotes(i, suite, v.report))
        && (v.promote <==> Deserved(i, suite))
        && results.decisions == old(results.decisions)
             + [Decision(env.decisionId, env.versionId, BaselineKey(old(configs.versions), env), model, v.promote)]
    {
      hide Chain, Complete, Allowed, ReportOf, Promotes, Measures, RunOf, BuildCandidate, AllComplete, Benchmarked,
        Covers, Perform, FollowsFrom, Mintable, ActiveOf, RateOver, DistinctIds, OpOf, Find, Proposed, AfterVerdict,
        Deserved;
      ghost var was := results.results;
      var baselineVersion := configs.ActiveVersion();
      var versionId := if baselineVersion.Some? then baselineVersion.value.id else env.builtinKey;
      var measured := Benchmark(suite, model, versionId, None, env.runBaseline, env.abortBaseline);
      base, mid, cand := measured, results.results, Err(RunnerFailure);
      if measured.Err? {
        return BaselineThrew, base, mid, cand;
      }
      if measured.value.aborted {
        return BaselineStopped(measured.value.result), base, mid, cand;
      }
      if target.None? {
        return NothingApplicable(measured.value.result), base, mid, cand;
      }
      ActiveIsStored(configs.versions);
      var v, tried := Validate(suite, model, target.value, measured.value.result, baselineVersion, versionId, env);
      cand := tried;
      r := Attempted(measured.value.result, baselineVersion, v);
      if v.Decided? {
        DecidedCoverage(v, cand);
        FreshRunCovers(was, mid, base, suite, versionId, model, repeats, env.runBaseline, env.abortBaseline);
        FreshRunCovers(
          mid, results.results, cand, suite, env.versionId, model, repeats, env.runCandidate, env.abortCandidate);
        ghost var i := GuardianInput(
          r.baseline, v.result, v.candidate, baselineVersion, target.value, env.findings, Some(configs.builtin),
          options);
        MeasuredIsComplete(r.baseline, suite.id, versionId, model, repeats);
        MeasuredIsComplete(v.result, suite.id, env.versionId, model, repeats);
        if v.promote {
          PromotionNeverLowersThePassRate(i, suite, v.report);
          CoverTheSameTasks(r.baseline, v.result, suite);
        }
      }
    }

    method RollBack() returns (refusal: Option<RollbackRefusal>)
      requires Valid()
      modifies configs`versions
      ensures Valid()
      ensures refusal == RollbackRefusalOf(old(configs.versions))
      ensures configs.versions == Perform(old(configs.versions), RollbackOp)
      ensures AfterRollback(old(configs.versions), configs.versions, refusal)
      ensures Chain(old(configs.versions)) ==> Chain(configs.versions)
    {
      if Chain(configs.versions) { RollbackKeepsChain(configs.versions); }
      ConfigsValid(configs);
      hide Chain, Complete, DistinctIds, AfterRollback;
      refusal := Rollback(configs);
      StillDistinct(configs);
    }
  }

  // --- the pieces -------------------------------------------------------------------------------

  lemma ListedAreStored(rs: seq<SuiteResult>, suiteId: string, versionId: string, k: nat)
    requires AllComplete(rs) && k < |Listed(rs, suiteId, versionId)|
    ensures var r := Listed(rs, suiteId, versionId)[k];
      && r in rs && Complete(r)
      && (suiteId != "" ==> r.suiteId == suiteId) && (versionId != "" ==> r.versionId == versionId)
  {
    hide Complete;
    assert Listed(rs, suiteId, versionId)[k] in Listed(rs, suiteId, versionId);
  }

  lemma UnfinishedLeavesNothing(
    before: seq<SuiteResult>, after: seq<SuiteResult>, o: Result<BenchmarkOutcome, RunnerFailure>,
    suite: EvalSuite, versionId: string, model: string, n: int, runner: Runner, abort: AbortOracle)
    requires Benchmarked(before, after, o, suite, versionId, model, n, runner, abort)
    ensures o.Err? || o.value.aborted ==> after == before
  {
    hide RunOf, RanUntil, Script, Listed, FirstMatching, Scored;
  }

  function VerdictOf(v: Validation): Verdict {
    if !v.Decided? then Undecided else if v.promote then Promoted else Refuted
  }

  function OpOf(v: Validation, baselineVersion: Option<AgentVersion>, env: Environment): Op
    requires Entered(v)
  {
    ValidateOp(v.candidate, baselineVersion, env.decisionId, VerdictOf(v))
  }

  function BaselineKey(vs: Versions, env: Environment): string {
    if ActiveOf(vs).Some? then ActiveOf(vs).value.id else env.builtinKey
  }

  lemma RepeatsPositive(r: SuiteResult)
    requires Complete(r)
    ensures r.repeats >= 1
  {
  }

  lemma RunConditions(run: SuiteRun, suite: EvalSuite, model: string, versionId: string, repeats: nat)
    requires RunOf(run, suite, model, versionId, repeats)
    ensures run.result.suiteId == suite.id && run.result.versionId == versionId
    ensures run.result.model == model && run.result.repeats == repeats
  {
  }

  lemma ConfigsValid(configs: MemoryConfigStore)
    requires DistinctIds(configs.versions)
    ensures configs.Valid()
  {
  }

  lemma StillDistinct(configs: MemoryConfigStore)
    requires configs.Valid()
    ensures DistinctIds(configs.versions)
  {
  }

  lemma OpIs(v: Validation, baselineVersion: Option<AgentVersion>, env: Environment)
    requires Entered(v)
    ensures OpOf(v, baselineVersion, env) == ValidateOp(v.candidate, baselineVersion, env.decisionId, VerdictOf(v))
  {
  }

  /** A candidate of a new id is an allowed operation, and keeps a chain, exactly when its id is mintable. */
  lemma BuiltIsAllowedIff(
    vs: Versions, baselineVersion: Option<AgentVersion>, proposal: Proposal, builtin: string, c: AgentVersion,
    env: Environment, verdict: Verdict)
    requires Find(vs, env.versionId).None?
    requires BuildCandidate(env.versionId, baselineVersion, proposal, builtin, env.createdAt) == Ok(c)
    ensures var op := ValidateOp(c, baselineVersion, env.decisionId, verdict);
      && Perform(vs, op) == Validated(vs, c, baselineVersion, env.decisionId, verdict)
      && (Allowed(vs, op) <==> Mintable(vs, baselineVersion, env.versionId))
      && (Chain(vs) ==> (Chain(Perform(vs, op)) <==> Mintable(vs, baselineVersion, env.versionId)))
  {
    CandidateIsOneChange(env.versionId, baselineVersion, proposal, builtin, env.createdAt);
    hide BuildCandidate, Validated, Chain;
    var op := ValidateOp(c, baselineVersion, env.decisionId, verdict);
    assert Allowed(vs, op) <==> Mintable(vs, baselineVersion, env.versionId);
    hide Mintable, Allowed, Perform;
    if Chain(vs) { ChainKeptIff(vs, op); }
  }

  lemma NowDistinct(vs: Versions, c: AgentVersion, baselineVersion: Option<AgentVersion>, decisionId: string)
    requires DistinctIds(vs) && Find(vs, c.id).None?
    ensures DistinctIds(vs + [c]) && Validated(vs, c, baselineVersion, decisionId, Undecided) == vs + [c]
  {
    hide Find;
  }

  lemma CandidateStored(vs: Versions, c: AgentVersion, decisionId: string)
    ensures Find(vs + [c], c.id).Some?
    ensures Find(WithDecision(vs + [c], c.id, decisionId), c.id).Some?
  {
    assert (vs + [c])[|vs|].id == c.id;
    assert WithDecision(vs + [c], c.id, decisionId)[|vs|].id == c.id;
  }

  lemma BaselineStored(vs: Versions, c: AgentVersion, decisionId: string, id: string)
    ensures Find(WithState(WithDecision(vs + [c], c.id, decisionId), c.id, Active), id).Some?
      <==> id == c.id || Find(vs, id).Some?
  {
    var linked := WithDecision(vs + [c], c.id, decisionId);
    FindAfterState(linked, c.id, Active, id);
    if id == c.id { CandidateStored(vs, c, decisionId); } else { StoredAfter(vs, linked, id); }
  }

  lemma ActiveIsStored(vs: Versions)
    ensures ActiveOf(vs).Some? ==> Find(vs, ActiveOf(vs).value.id).Some?
  {
  }

  lemma BuiltHasItsId(id: string, baselineVersion: Option<AgentVersion>, proposal: Proposal, builtin: string, at: int)
    ensures var r := BuildCandidate(id, baselineVersion, proposal, builtin, at); r.Ok? ==> r.value.id == id
  {
    CandidateIsOneChange(id, baselineVersion, proposal, builtin, at);
    hide BuildCandidate;
  }

  // --- what the two compared results cover --------------------------------------------------------

  lemma DecidedCoverage(v: Validation, cand: Result<BenchmarkOutcome, RunnerFailure>)
    requires v.Decided? && FollowsFrom(v, cand)
    ensures cand.Ok? && v.result == cand.value.result
  {
  }

  /** A fresh run covers the suite it ran. */
  lemma FreshRunCovers(
    before: seq<SuiteResult>, after: seq<SuiteResult>, o: Result<BenchmarkOutcome, RunnerFailure>,
    suite: EvalSuite, versionId: string, model: string, n: int, runner: Runner, abort: AbortOracle)
    requires Benchmarked(before, after, o, suite, versionId, model, n, runner, abort)
    ensures o.Ok? && !o.value.reused ==> Covers(o.value.result, suite)
  {
    hide RanUntil, Script, Scored, Listed, FirstMatching, TotalsAgree, ResultIds, TaskIds, SameCapabilities, Slots,
      Schedule;
  }

  lemma MeasuredIsComplete(r: SuiteResult, suiteId: string, versionId: string, model: string, requested: int)
    requires Measures(r, suiteId, versionId, model, requested)
    ensures Complete(r)
  {
    hide Complete;
  }

  lemma CoverTheSameTasks(b: SuiteResult, c: SuiteResult, suite: EvalSuite)
    ensures Covers(b, suite) && Covers(c, suite) ==> forall t | t in c.tasks :: t.taskId in ResultIds(b.tasks)
  {
    if Covers(b, suite) && Covers(c, suite) {
      forall t | t in c.tasks ensures t.taskId in ResultIds(b.tasks) {
        var k :| 0 <= k < |c.tasks| && c.tasks[k] == t;
        assert ResultIds(c.tasks)[k] in ResultIds(b.tasks);
      }
    }
  }

  /** Main result: between complete results, a promotion never lowers the pass rate over the tasks the
      baseline measured, nor the overall one when the candidate measured no others. */
  lemma PromotionNeverLowersThePassRate(i: GuardianInput, suite: EvalSuite, r: Report)
    requires ReportOf(i, r) && Promotes(i, suite, r)
    requires Complete(i.baseline) && Complete(i.candidate)
    ensures i.baseline.passRate <= RateOver(ResultIds(i.baseline.tasks), i.candidate.attemptSummaries)
    ensures (forall t | t in i.candidate.tasks :: t.taskId in ResultIds(i.baseline.tasks)) ==>
        i.baseline.passRate <= i.candidate.passRate
  {
    PromotionIsSound(i, suite, r);
    hide ReportOf, Promotes, Complete, ResultIds, Held, TargetProven, MeanWithin, PromptBudgetOk, RateOver;
    NoRegressionLiftsPassRate(i.baseline, i.candidate);
  }
}
