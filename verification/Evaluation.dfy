/** Running a suite and reducing the attempts to a result (packages/axiom-core/src/evaluate.ts:209-317,
    inmemory.ts:70-100).  The runner is a script of trials and the abort signal an oracle read before
    each attempt. */
module Evaluation {
  import opened Domain

  /** One run of one task as the runner reports it and the expectations judge it. */
  datatype Trial = Trial(
    passed: bool,
    promptTokens: nat,
    completionTokens: nat,
    iterations: int,
    durationMs: Option<int>,
    toolCalls: int,
    toolFailures: int,
    deniedCalls: int,
    verificationCalls: int,
    repeatRatio: real)

  /** What the runner does when asked for a task's n-th repeat. */
  datatype RunOutcome = Ran(trial: Trial) | Threw

  type Runner = (nat, nat) -> RunOutcome

  /** Whether the abort signal is raised once so many attempts have been made. */
  type AbortOracle = nat -> bool

  datatype SuiteRun = SuiteRun(result: SuiteResult, aborted: bool)

  datatype RunnerFailure = RunnerFailure

  const DEFAULT_REPEATS := 3

  function Summarise(task: EvalTask, repeat: nat, t: Trial): AttemptSummary {
    AttemptSummary(task.id, repeat, t.passed, t.iterations, t.promptTokens + t.completionTokens, t.durationMs,
      t.toolCalls, t.toolFailures, t.deniedCalls, t.verificationCalls, t.repeatRatio)
  }

  function ForTask(attempts: seq<AttemptSummary>, id: string): seq<AttemptSummary> {
    if attempts == [] then []
    else
      var a := attempts[|attempts| - 1];
      ForTask(attempts[..|attempts| - 1], id) + (if a.taskId == id then [a] else [])
  }

  function Passes(attempts: seq<AttemptSummary>): (n: nat)
    ensures n <= |attempts|
  {
    if attempts == [] then 0
    else Passes(attempts[..|attempts| - 1]) + (if attempts[|attempts| - 1].passed then 1 else 0)
  }

  function Rate(passes: nat, attempts: nat): real {
    if attempts == 0 then 0.0 else passes as real / attempts as real
  }

  function TaskResultOf(task: EvalTask, attempts: seq<AttemptSummary>): TaskResult {
    TaskResult(task.id, task.capability, |attempts|, Passes(attempts), Rate(Passes(attempts), |attempts|))
  }

  function TaskResults(tasks: seq<EvalTask>, attempts: seq<AttemptSummary>): (rs: seq<TaskResult>)
    ensures |rs| == |tasks|
    ensures forall k | 0 <= k < |tasks| :: rs[k] == TaskResultOf(tasks[k], ForTask(attempts, tasks[k].id))
  {
    if tasks == [] then []
    else TaskResults(tasks[..|tasks| - 1], attempts)
         + [TaskResultOf(tasks[|tasks| - 1], ForTask(attempts, tasks[|tasks| - 1].id))]
  }

  function TotalTokens(attempts: seq<AttemptSummary>): int {
    if attempts == [] then 0
    else TotalTokens(attempts[..|attempts| - 1]) + attempts[|attempts| - 1].totalTokens
  }

  // --- the result store -------------------------------------------------------------------------

  datatype Decision = Decision(id: string, candidateId: string, baselineId: string, model: string, promote: bool)

  class MemoryResultStore {
    var results: seq<SuiteResult>
    var decisions: seq<Decision>

    constructor ()
      ensures results == [] && decisions == []
    {
      results, decisions := [], [];
    }

    method PutSuiteResult(r: SuiteResult)
      modifies this`results
      ensures results == old(results) + [r]
    {
      results := results + [r];
    }

    method PutDecision(d: Decision)
      modifies this`decisions
      ensures decisions == old(decisions) + [d]
    {
      decisions := decisions + [d];
    }

    /** An empty id does not filter: the source tests the id for truth. */
    method ListSuiteResults(suiteId: string, versionId: string) returns (rs: seq<SuiteResult>)
      ensures rs == Listed(results, suiteId, versionId)
    {
      rs := [];
      for n := 0 to |results|
        invariant rs == Listed(results[..n], suiteId, versionId)
      {
        assert results[..n + 1][..n] == results[..n];
        if (versionId == "" || results[n].versionId == versionId) && (suiteId == "" || results[n].suiteId == suiteId) {
          rs := rs + [results[n]];
        }
      }
      assert results[..|results|] == results;
    }
  }

  function Listed(rs: seq<SuiteResult>, suiteId: string, versionId: string): (out: seq<SuiteResult>)
    ensures forall r | r in out :: r in rs
    ensures forall r | r in out && versionId != "" :: r.versionId == versionId
    ensures forall r | r in out && suiteId != "" :: r.suiteId == suiteId
  {
    if rs == [] then []
    else
      var r := rs[|rs| - 1];
      var front := Listed(rs[..|rs| - 1], suiteId, versionId);
      if (versionId == "" || r.versionId == versionId) && (suiteId == "" || r.suiteId == suiteId) then front + [r]
      else front
  }

  // --- what a result says of its suite ----------------------------------------------------------

  predicate UniqueIds(ids: seq<string>) {
    forall i, j | 0 <= i < j < |ids| :: ids[i] != ids[j]
  }

  function TaskIds(tasks: seq<EvalTask>): seq<string> {
    seq(|tasks|, k requires 0 <= k < |tasks| => tasks[k].id)
  }

  function ResultIds(tasks: seq<TaskResult>): seq<string> {
    seq(|tasks|, k requires 0 <= k < |tasks| => tasks[k].taskId)
  }

  /** One place in a suite's schedule: a task and which of its repeats. */
  datatype Slot = Slot(taskId: string, repeat: nat)

  function Slots(attempts: seq<AttemptSummary>): (ss: seq<Slot>)
    ensures |ss| == |attempts|
    ensures forall k | 0 <= k < |ss| :: ss[k] == Slot(attempts[k].taskId, attempts[k].repeat)
  {
    if attempts == [] then []
    else Slots(attempts[..|attempts| - 1])
         + [Slot(attempts[|attempts| - 1].taskId, attempts[|attempts| - 1].repeat)]
  }

  /** A task's repeats, in order. */
  function Row(id: string, repeats: nat): (ss: seq<Slot>)
    ensures |ss| == repeats
  {
    if repeats == 0 then [] else Row(id, repeats - 1) + [Slot(id, repeats - 1)]
  }

  /** The whole schedule: every task's row, in suite order. */
  function Schedule(ids: seq<string>, repeats: nat): seq<Slot> {
    if ids == [] then [] else Schedule(ids[..|ids| - 1], repeats) + Row(ids[|ids| - 1], repeats)
  }

  ghost predicate TotalsAgree(r: SuiteResult) {
    && (forall k | 0 <= k < |r.tasks| ::
          var mine := ForTask(r.attemptSummaries, r.tasks[k].taskId);
          && r.tasks[k].attempts == |mine|
          && r.tasks[k].passes == Passes(mine)
          && r.tasks[k].passRate == Rate(Passes(mine), |mine|))
    && r.passRate == Rate(Passes(r.attemptSummaries), |r.attemptSummaries|)
    && r.promptTokens + r.completionTokens == TotalTokens(r.attemptSummaries)
  }

  /** A result none of whose attempts is missing. */
  ghost predicate Complete(r: SuiteResult) {
    && r.repeats >= 1
    && UniqueIds(ResultIds(r.tasks))
    && Slots(r.attemptSummaries) == Schedule(ResultIds(r.tasks), r.repeats)
    && TotalsAgree(r)
  }

  predicate SameCapabilities(rs: seq<TaskResult>, tasks: seq<EvalTask>) {
    |rs| == |tasks| && forall k | 0 <= k < |rs| :: rs[k].capability == tasks[k].capability
  }

  /** Everything a run promises about its result, finished or not: the attempts are a prefix of the
      schedule, and the run is aborted exactly when they are a proper one. */
  ghost predicate RunOf(run: SuiteRun, suite: EvalSuite, model: string, versionId: string, repeats: nat) {
    var r := run.result;
    && r.suiteId == suite.id && r.versionId == versionId && r.model == model && r.repeats == repeats >= 1
    && ResultIds(r.tasks) == TaskIds(suite.tasks) && SameCapabilities(r.tasks, suite.tasks)
    && Slots(r.attemptSummaries) <= Schedule(TaskIds(suite.tasks), repeats)
    && (run.aborted <==> |r.attemptSummaries| < |Schedule(TaskIds(suite.tasks), repeats)|)
    && TotalsAgree(r)
  }

  lemma FinishedRunIsComplete(run: SuiteRun, suite: EvalSuite, model: string, versionId: string, repeats: nat)
    requires RunOf(run, suite, model, versionId, repeats) && UniqueIds(TaskIds(suite.tasks))
    ensures Complete(run.result) <==> !run.aborted
  {
    hide TotalsAgree;
  }

  function RepeatsFor(requested: Option<int>): (r: nat)
    ensures r >= 1
  {
    var wanted := requested.GetOr(DEFAULT_REPEATS);
    if wanted < 1 then 1 else wanted
  }

  // --- what the runner was asked, in order --------------------------------------------------------

  datatype Asked = Asked(task: EvalTask, repeat: nat, outcome: RunOutcome)

  function AskedRow(task: EvalTask, i: nat, repeats: nat, runner: Runner): (r: seq<Asked>)
    ensures |r| == repeats
  {
    if repeats == 0 then []
    else AskedRow(task, i, repeats - 1, runner) + [Asked(task, repeats - 1, runner(i, repeats - 1))]
  }

  /** Every task in suite order, every repeat in turn, with what the runner does there. */
  function Script(tasks: seq<EvalTask>, repeats: nat, runner: Runner): seq<Asked> {
    if tasks == [] then []
    else
      var i := |tasks| - 1;
      Script(tasks[..i], repeats, runner) + AskedRow(tasks[i], i, repeats, runner)
  }

  function PromptSum(script: seq<Asked>): nat {
    if script == [] then 0
    else
      var last := script[|script| - 1];
      PromptSum(script[..|script| - 1]) + (if last.outcome.Ran? then last.outcome.trial.promptTokens else 0)
  }

  function CompletionSum(script: seq<Asked>): nat {
    if script == [] then 0
    else
      var last := script[|script| - 1];
      CompletionSum(script[..|script| - 1]) + (if last.outcome.Ran? then last.outcome.trial.completionTokens else 0)
  }

  /** The attempts made so far and what they cost. */
  datatype Progress = Progress(attempts: seq<AttemptSummary>, promptTokens: int, completionTokens: int)
  {
    function Add(a: AttemptSummary, t: Trial): Progress {
      Progress(attempts + [a], promptTokens + t.promptTokens, completionTokens + t.completionTokens)
    }
  }

  /** What is stored of a trial, field by field. */
  ghost predicate Tells(a: AttemptSummary, task: EvalTask, repeat: nat, t: Trial) {
    && a.taskId == task.id && a.repeat == repeat && a.passed == t.passed
    && a.totalTokens == t.promptTokens + t.completionTokens
    && a.iterations == t.iterations && a.durationMs == t.durationMs
    && a.toolCalls == t.toolCalls && a.toolFailures == t.toolFailures && a.deniedCalls == t.deniedCalls
    && a.verificationCalls == t.verificationCalls && a.repeatRatio == t.repeatRatio
  }

  /** Each attempt tells the trial its place in the script gave, and each token counter is the sum over
      those trials. */
  ghost predicate Records(p: Progress, script: seq<Asked>) {
    && |p.attempts| == |script|
    && (forall k | 0 <= k < |script| ::
          && script[k].outcome.Ran?
          && Tells(p.attempts[k], script[k].task, script[k].repeat, script[k].outcome.trial))
    && p.promptTokens == PromptSum(script) && p.completionTokens == CompletionSum(script)
  }

  lemma RecordsSnoc(p: Progress, script: seq<Asked>, task: EvalTask, r: nat, t: Trial)
    requires Records(p, script)
    ensures Records(p.Add(Summarise(task, r, t), t), script + [Asked(task, r, Ran(t))])
  {
    assert (script + [Asked(task, r, Ran(t))])[..|script|] == script;
    SummaryTells(task, r, t);
    hide Summarise, Tells;
  }

  lemma SummaryTells(task: EvalTask, repeat: nat, t: Trial)
    ensures Tells(Summarise(task, repeat, t), task, repeat, t)
  {
  }

  lemma {:induction false} RecordsPay(p: Progress, script: seq<Asked>)
    requires Records(p, script)
    ensures p.promptTokens + p.completionTokens == TotalTokens(p.attempts)
    decreases |script|
  {
    if script != [] {
      var n := |script| - 1;
      RecordsPay(Progress(p.attempts[..n], PromptSum(script[..n]), CompletionSum(script[..n])), script[..n]);
    }
  }

  /** How many of these outcomes are trials that passed. */
  function Passed(script: seq<Asked>): nat {
    if script == [] then 0
    else
      var o := script[|script| - 1].outcome;
      Passed(script[..|script| - 1]) + (if o.Ran? && o.trial.passed then 1 else 0)
  }

  /** What was asked for the tasks of that id. */
  function AskedFor(script: seq<Asked>, id: string): seq<Asked> {
    if script == [] then []
    else
      var last := script[|script| - 1];
      AskedFor(script[..|script| - 1], id) + (if last.task.id == id then [last] else [])
  }

  /** The score of these outcomes: how many passed, over how many there are. */
  function Score(script: seq<Asked>): real {
    if script == [] then 0.0 else Passed(script) as real / |script| as real
  }

  lemma {:induction false} PassesArePassed(p: Progress, script: seq<Asked>)
    requires Records(p, script)
    ensures Passes(p.attempts) == Passed(script)
    ensures Rate(Passes(p.attempts), |p.attempts|) == Score(script)
    decreases |script|
  {
    if script != [] {
      var n := |script| - 1;
      PassesArePassed(Progress(p.attempts[..n], PromptSum(script[..n]), CompletionSum(script[..n])), script[..n]);
    }
  }

  /** The attempts of a task tell what was asked for it. */
  lemma {:induction false} AskedForTask(p: Progress, script: seq<Asked>, id: string)
    requires Records(p, script)
    ensures var mine := AskedFor(script, id);
      Records(Progress(ForTask(p.attempts, id), PromptSum(mine), CompletionSum(mine)), mine)
    decreases |script|
  {
    if script != [] {
      var n := |script| - 1;
      AskedForTask(
        Progress(p.attempts[..n], PromptSum(script[..n]), CompletionSum(script[..n])), script[..n], id);
    }
  }

  lemma {:induction false} RowSlots(task: EvalTask, i: nat, repeats: nat, runner: Runner)
    ensures forall k | 0 <= k < repeats ::
        && AskedRow(task, i, repeats, runner)[k].task == task
        && AskedRow(task, i, repeats, runner)[k].repeat == k
        && Row(task.id, repeats)[k] == Slot(task.id, k)
  {
    if repeats > 0 { RowSlots(task, i, repeats - 1, runner); }
  }

  /** The script goes through the schedule. */
  lemma {:induction false} ScriptFollowsSchedule(tasks: seq<EvalTask>, repeats: nat, runner: Runner)
    ensures var script, slots := Script(tasks, repeats, runner), Schedule(TaskIds(tasks), repeats);
      && |script| == |slots|
      && forall k | 0 <= k < |script| :: slots[k] == Slot(script[k].task.id, script[k].repeat)
  {
    if tasks != [] {
      var i := |tasks| - 1;
      ScriptFollowsSchedule(tasks[..i], repeats, runner);
      RowSlots(tasks[i], i, repeats, runner);
      assert TaskIds(tasks)[..i] == TaskIds(tasks[..i]);
      hide AskedRow, Row;
    }
  }

  lemma {:induction false} RowAt(task: EvalTask, i: nat, repeats: nat, runner: Runner, r: nat)
    requires r < repeats
    ensures AskedRow(task, i, repeats, runner)[r] == Asked(task, r, runner(i, r))
  {
    if r < repeats - 1 { RowAt(task, i, repeats - 1, runner, r); }
  }

  lemma {:induction false} Place(i: nat, n: nat, repeats: nat, r: nat)
    requires r < repeats && i < n
    ensures i * repeats + r < n * repeats
  {
    if i + 1 == n {
      assert n * repeats == i * repeats + repeats;
    } else {
      Place(i, n - 1, repeats, r);
    }
  }

  lemma OneRowMore(n: nat, repeats: nat)
    ensures (n + 1) * repeats == n * repeats + repeats
  {
  }

  lemma {:induction false} ScriptLength(tasks: seq<EvalTask>, repeats: nat, runner: Runner)
    ensures |Script(tasks, repeats, runner)| == |tasks| * repeats
  {
    hide *;
    if tasks == [] {
      NoScript(repeats, runner);
    } else {
      var n := |tasks| - 1;
      ScriptLength(tasks[..n], repeats, runner);
      ScriptSnoc(tasks, n, repeats, runner);
      assert tasks[..n + 1] == tasks;
      OneRowMore(n, repeats);
    }
  }

  lemma NoScript(repeats: nat, runner: Runner)
    ensures Script([], repeats, runner) == []
  {
  }

  /** The script place by place: repeat r of task i stands behind i whole rows. */
  lemma {:induction false} ScriptAt(tasks: seq<EvalTask>, repeats: nat, runner: Runner, i: nat, r: nat)
    requires i < |tasks| && r < repeats
    ensures i * repeats + r < |Script(tasks, repeats, runner)|
    ensures Script(tasks, repeats, runner)[i * repeats + r] == Asked(tasks[i], r, runner(i, r))
  {
    var n := |tasks| - 1;
    ScriptLength(tasks, repeats, runner);
    ScriptLength(tasks[..n], repeats, runner);
    Place(i, |tasks|, repeats, r);
    if i < n { ScriptAt(tasks[..n], repeats, runner, i, r); } else { RowAt(tasks[n], n, repeats, runner, r); }
    hide AskedRow;
  }

  lemma RecordsSlots(p: Progress, suite: EvalSuite, repeats: nat, runner: Runner)
    requires |p.attempts| <= |Script(suite.tasks, repeats, runner)|
    requires Records(p, Script(suite.tasks, repeats, runner)[..|p.attempts|])
    ensures Slots(p.attempts) <= Schedule(TaskIds(suite.tasks), repeats)
    ensures |Schedule(TaskIds(suite.tasks), repeats)| == |Script(suite.tasks, repeats, runner)|
  {
    ScriptFollowsSchedule(suite.tasks, repeats, runner);
    var script, n := Script(suite.tasks, repeats, runner), |p.attempts|;
    hide Script, Schedule, TaskIds, PromptSum, CompletionSum;
    forall k | 0 <= k < n
      ensures p.attempts[k].taskId == script[k].task.id && p.attempts[k].repeat == script[k].repeat
    {
      assert script[..n][k] == script[k];
    }
  }

  lemma {:induction false} RowInFront(task: EvalTask, i: nat, m: nat, n: nat, runner: Runner)
    requires m < n
    ensures AskedRow(task, i, m, runner) + [Asked(task, m, runner(i, m))] <= AskedRow(task, i, n, runner)
  {
    if m < n - 1 { RowInFront(task, i, m, n - 1, runner); }
  }

  /** What has been asked by repeat r of task i, and what is asked next, are in front of the script. */
  lemma {:induction false} NextAsked(tasks: seq<EvalTask>, repeats: nat, runner: Runner, i: nat, r: nat)
    requires i < |tasks| && r < repeats
    ensures Script(tasks[..i], repeats, runner) + AskedRow(tasks[i], i, r, runner) + [Asked(tasks[i], r, runner(i, r))]
      <= Script(tasks, repeats, runner)
  {
    var n := |tasks| - 1;
    if i < n {
      NextAsked(tasks[..n], repeats, runner, i, r);
      assert tasks[..n][..i] == tasks[..i];
    } else {
      RowInFront(tasks[n], n, r, repeats, runner);
    }
  }

  // --- the run ------------------------------------------------------------------------------------

  ghost predicate NotAborted(abort: AbortOracle, n: nat) {
    forall k: nat | k < n :: !abort(k)
  }

  /** The runner was asked along the script, each time after finding the signal down, until the script
      ended, the signal was up, or the runner threw. */
  ghost predicate RanUntil(p: Progress, aborted: bool, threw: bool, script: seq<Asked>, abort: AbortOracle) {
    var n := |p.attempts|;
    && n <= |script| && Records(p, script[..n]) && NotAborted(abort, n)
    && (aborted ==> !threw && n < |script| && abort(n))
    && (threw ==> n < |script| && !abort(n) && script[n].outcome.Threw?)
    && (!aborted && !threw ==> n == |script|)
  }

  lemma StoppedAt(p: Progress, asked: seq<Asked>, next: Asked, script: seq<Asked>, abort: AbortOracle)
    requires Records(p, asked) && NotAborted(abort, |asked|) && asked + [next] <= script
    ensures abort(|asked|) ==> RanUntil(p, true, false, script, abort)
    ensures !abort(|asked|) && next.outcome.Threw? ==> RanUntil(p, false, true, script, abort)
  {
    assert |p.attempts| == |asked|;
    hide Records;
    assert script[..|asked|] == asked && script[|asked|] == next;
  }

  lemma RanThrough(p: Progress, script: seq<Asked>, abort: AbortOracle)
    requires Records(p, script) && NotAborted(abort, |p.attempts|)
    ensures RanUntil(p, false, false, script, abort)
  {
    assert script[..|script|] == script;
  }

  /** The nested attempt loop, left early by an abort or by a runner that throws. */
  method RunAttempts(suite: EvalSuite, repeats: nat, runner: Runner, abort: AbortOracle)
    returns (p: Progress, aborted: bool, threw: bool)
    requires repeats >= 1
    ensures RanUntil(p, aborted, threw, Script(suite.tasks, repeats, runner), abort)
  {
    hide *;
    p, aborted, threw := Progress([], 0, 0), false, false;
    ghost var tasks := suite.tasks;
    ghost var script := Script(tasks, repeats, runner);
    NothingAsked(p, runner, repeats, abort);
    assert tasks[..0] == [];
    for i := 0 to |suite.tasks|
      invariant Records(p, Script(tasks[..i], repeats, runner)) && NotAborted(abort, |p.attempts|)
    {
      ghost var before := Script(tasks[..i], repeats, runner);
      EmptyRow(before, tasks[i], i, runner);
      for r := 0 to repeats
        invariant Records(p, before + AskedRow(tasks[i], i, r, runner)) && NotAborted(abort, |p.attempts|)
      {
        ghost var asked := before + AskedRow(tasks[i], i, r, runner);
        NextAsked(tasks, repeats, runner, i, r);
        StoppedAtRecords(p, asked);
        StoppedAt(p, asked, Asked(tasks[i], r, runner(i, r)), script, abort);
        if abort(|p.attempts|) {
          return p, true, false;
        }
        var outcome := runner(i, r);
        if outcome.Threw? {
          return p, false, true;
        }
        RecordsSnoc(p, asked, tasks[i], r, outcome.trial);
        RowSnoc(before, tasks[i], i, r, runner);
        OneMore(p, Summarise(suite.tasks[i], r, outcome.trial), outcome.trial, abort);
        p := p.Add(Summarise(suite.tasks[i], r, outcome.trial), outcome.trial);
      }
      ScriptSnoc(tasks, i, repeats, runner);
    }
    assert tasks[..|tasks|] == tasks;
    RanThrough(p, script, abort);
  }

  lemma NothingAsked(p: Progress, runner: Runner, repeats: nat, abort: AbortOracle)
    requires p == Progress([], 0, 0)
    ensures Records(p, Script([], repeats, runner)) && NotAborted(abort, |p.attempts|)
  {
  }

  lemma EmptyRow(before: seq<Asked>, task: EvalTask, i: nat, runner: Runner)
    ensures before + AskedRow(task, i, 0, runner) == before
  {
  }

  lemma RowSnoc(before: seq<Asked>, task: EvalTask, i: nat, r: nat, runner: Runner)
    ensures before + AskedRow(task, i, r, runner) + [Asked(task, r, runner(i, r))]
      == before + AskedRow(task, i, r + 1, runner)
  {
  }

  lemma ScriptSnoc(tasks: seq<EvalTask>, i: nat, repeats: nat, runner: Runner)
    requires i < |tasks|
    ensures Script(tasks[..i + 1], repeats, runner)
      == Script(tasks[..i], repeats, runner) + AskedRow(tasks[i], i, repeats, runner)
  {
    assert tasks[..i + 1][..i] == tasks[..i];
    hide AskedRow;
  }

  lemma StoppedAtRecords(p: Progress, asked: seq<Asked>)
    requires Records(p, asked)
    ensures |p.attempts| == |asked|
  {
  }

  lemma OneMore(p: Progress, a: AttemptSummary, t: Trial, abort: AbortOracle)
    requires NotAborted(abort, |p.attempts|) && !abort(|p.attempts|)
    ensures NotAborted(abort, |p.Add(a, t).attempts|)
  {
  }

  /** Main result: wherever a run stops, attempt i * repeats + r is what the runner gave for repeat r of task i. */
  lemma AttemptAt(p: Progress, aborted: bool, threw: bool, tasks: seq<EvalTask>, repeats: nat, runner: Runner,
                  abort: AbortOracle, i: nat, r: nat)
    requires RanUntil(p, aborted, threw, Script(tasks, repeats, runner), abort)
    requires i < |tasks| && r < repeats && i * repeats + r < |p.attempts|
    ensures runner(i, r).Ran? && Tells(p.attempts[i * repeats + r], tasks[i], r, runner(i, r).trial)
  {
    hide Script, Tells, PromptSum, CompletionSum;
    ScriptAt(tasks, repeats, runner, i, r);
    var n := |p.attempts|;
    assert Script(tasks, repeats, runner)[..n][i * repeats + r] == Asked(tasks[i], r, runner(i, r));
  }

  function Reduce(suite: EvalSuite, model: string, versionId: string, repeats: nat, p: Progress): SuiteResult {
    SuiteResult(suite.id, versionId, model, repeats, TaskResults(suite.tasks, p.attempts), p.attempts,
      Rate(Passes(p.attempts), |p.attempts|), p.promptTokens, p.completionTokens)
  }

  lemma ReduceAgrees(suite: EvalSuite, model: string, versionId: string, repeats: nat, p: Progress)
    requires p.promptTokens + p.completionTokens == TotalTokens(p.attempts)
    ensures var r := Reduce(suite, model, versionId, repeats, p);
      TotalsAgree(r) && ResultIds(r.tasks) == TaskIds(suite.tasks) && SameCapabilities(r.tasks, suite.tasks)
  {
    hide ForTask, Passes, Rate, TotalTokens;
  }

  /** The rates of a result are the scores of what was asked, over all of it and task by task. */
  ghost predicate Scored(r: SuiteResult, suite: EvalSuite, asked: seq<Asked>) {
    && r.passRate == Score(asked)
    && |r.tasks| == |suite.tasks|
    && forall k | 0 <= k < |suite.tasks| ::
         var mine := AskedFor(asked, suite.tasks[k].id);
         r.tasks[k] == TaskResult(suite.tasks[k].id, suite.tasks[k].capability, |mine|, Passed(mine), Score(mine))
  }

  lemma TaskScored(task: EvalTask, p: Progress, asked: seq<Asked>)
    requires Records(p, asked)
    ensures var mine := AskedFor(asked, task.id);
      TaskResultOf(task, ForTask(p.attempts, task.id))
      == TaskResult(task.id, task.capability, |mine|, Passed(mine), Score(mine))
  {
    hide AskedFor, ForTask, Passed, Passes, Score, Rate, PromptSum, CompletionSum, Tells;
    AskedForTask(p, asked, task.id);
    var mine := AskedFor(asked, task.id);
    PassesArePassed(Progress(ForTask(p.attempts, task.id), PromptSum(mine), CompletionSum(mine)), mine);
  }

  lemma ReduceScores(suite: EvalSuite, model: string, versionId: string, repeats: nat, p: Progress, asked: seq<Asked>)
    requires Records(p, asked)
    ensures Scored(Reduce(suite, model, versionId, repeats, p), suite, asked)
  {
    hide Records, TaskResultOf, AskedFor, ForTask, Passed, Passes, Score, Rate;
    PassesArePassed(p, asked);
    forall k | 0 <= k < |suite.tasks| { TaskScored(suite.tasks[k], p, asked); }
  }

  /** The progress a result reduces. */
  function Measured(r: SuiteResult): Progress {
    Progress(r.attemptSummaries, r.promptTokens, r.completionTokens)
  }

  lemma ReducedRun(suite: EvalSuite, model: string, versionId: string, repeats: nat, p: Progress, aborted: bool,
                   runner: Runner, abort: AbortOracle)
    requires repeats >= 1 && RanUntil(p, aborted, false, Script(suite.tasks, repeats, runner), abort)
    ensures var r := Reduce(suite, model, versionId, repeats, p);
      RunOf(SuiteRun(r, aborted), suite, model, versionId, repeats) && Measured(r) == p
    ensures var script := Script(suite.tasks, repeats, runner);
      |p.attempts| <= |script|
      && Scored(Reduce(suite, model, versionId, repeats, p), suite, script[..|p.attempts|])
  {
    hide Schedule, Slots, TotalsAgree, ResultIds, TaskIds, Records, Script, TotalTokens, SameCapabilities, Scored;
    var n := |p.attempts|;
    ReduceScores(suite, model, versionId, repeats, p, Script(suite.tasks, repeats, runner)[..n]);
    RecordsSlots(p, suite, repeats, runner);
    RecordsPay(p, Script(suite.tasks, repeats, runner)[..n]);
    ReduceAgrees(suite, model, versionId, repeats, p);
  }

  /** Runs the suite and stores the result unless it was aborted; a runner that throws leaves nothing. */
  method EvaluateSuite(
    store: MemoryResultStore, suite: EvalSuite, model: string, versionId: string, requested: Option<int>,
    runner: Runner, abort: AbortOracle)
    returns (run: Result<SuiteRun, RunnerFailure>)
    modifies store`results
    ensures run.Err? ==>
      && store.results == old(store.results)
      && exists p :: RanUntil(p, false, true, Script(suite.tasks, RepeatsFor(requested), runner), abort)
    ensures run.Ok? ==>
      && RunOf(run.value, suite, model, versionId, RepeatsFor(requested))
      && store.results == old(store.results) + (if run.value.aborted then [] else [run.value.result])
    ensures run.Ok? ==>
      var script := Script(suite.tasks, RepeatsFor(requested), runner);
      && RanUntil(Measured(run.value.result), run.value.aborted, false, script, abort)
      && |run.value.result.attemptSummaries| <= |script|
      && Scored(run.value.result, suite, script[..|run.value.result.attemptSummaries|])
    ensures run.Ok? ==>
      run.value.result.repeats == if requested.None? then 3 else if requested.value < 1 then 1 else requested.value
  {
    hide Script, RunOf, RanUntil, Scored;
    var repeats := RepeatsFor(requested);
    var p, aborted, threw := RunAttempts(suite, repeats, runner, abort);
    if threw {
      NeverBoth(p, aborted, Script(suite.tasks, repeats, runner), abort);
      return Err(RunnerFailure);
    }
    ReducedRun(suite, model, versionId, repeats, p, aborted, runner, abort);
    hide Reduce;
    var result := Reduce(suite, model, versionId, repeats, p);
    if !aborted {
      store.PutSuiteResult(result);
    }
    run := Ok(SuiteRun(result, aborted));
  }

  lemma NeverBoth(p: Progress, aborted: bool, script: seq<Asked>, abort: AbortOracle)
    requires RanUntil(p, aborted, true, script, abort)
    ensures RanUntil(p, false, true, script, abort)
  {
  }
}
