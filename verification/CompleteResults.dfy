/** What a complete result adds up to (evaluate.ts:229-317) and what holding every task's pass rate
    means for the suite's (guardian.ts:281-303). */
module CompleteResults {
  import opened Domain
  import opened Evaluation
  import opened Guardian

  function CountSlots(ss: seq<Slot>, id: string): nat {
    if ss == [] then 0
    else CountSlots(ss[..|ss| - 1], id) + (if ss[|ss| - 1].taskId == id then 1 else 0)
  }

  lemma {:induction false} CountAppend(ss: seq<Slot>, ts: seq<Slot>, id: string)
    ensures CountSlots(ss + ts, id) == CountSlots(ss, id) + CountSlots(ts, id)
  {
    if ts == [] {
      assert ss + [] == ss;
    } else {
      var n := |ts| - 1;
      CountAppend(ss, ts[..n], id);
      assert (ss + ts)[..|ss| + n] == ss + ts[..n];
    }
  }

  lemma {:induction false} CountRow(id: string, repeats: nat, other: string)
    ensures CountSlots(Row(id, repeats), other) == if id == other then repeats else 0
  {
    if repeats > 0 {
      CountRow(id, repeats - 1, other);
      assert Row(id, repeats)[..repeats - 1] == Row(id, repeats - 1);
    }
  }

  lemma {:induction false} CountSchedule(ids: seq<string>, repeats: nat, id: string)
    requires UniqueIds(ids)
    ensures CountSlots(Schedule(ids, repeats), id) == if id in ids then repeats else 0
  {
    if ids != [] {
      var n := |ids| - 1;
      CountSchedule(ids[..n], repeats, id);
      CountAppend(Schedule(ids[..n], repeats), Row(ids[n], repeats), id);
      CountRow(ids[n], repeats, id);
      assert ids == ids[..n] + [ids[n]];
    }
  }

  lemma {:induction false} ForTaskCounts(attempts: seq<AttemptSummary>, id: string)
    ensures |ForTask(attempts, id)| == CountSlots(Slots(attempts), id)
  {
    if attempts != [] {
      var n := |attempts| - 1;
      ForTaskCounts(attempts[..n], id);
      assert Slots(attempts)[..n] == Slots(attempts[..n]);
    }
  }

  /** Main result: a complete result holds exactly `repeats` attempts of every task. */
  lemma EveryTaskAttempted(r: SuiteResult)
    requires Complete(r)
    ensures forall k | 0 <= k < |r.tasks| :: r.tasks[k].attempts == r.repeats
  {
    var ids := ResultIds(r.tasks);
    forall k | 0 <= k < |r.tasks| ensures r.tasks[k].attempts == r.repeats {
      ForTaskCounts(r.attemptSummaries, ids[k]);
      CountSchedule(ids, r.repeats, ids[k]);
    }
  }

  // --- per-task numbers sum to the suite's ------------------------------------------------------

  datatype Tally = Tally(attempts: nat, passes: nat) {
    function Plus(t: Tally): Tally {
      Tally(attempts + t.attempts, passes + t.passes)
    }
  }

  function TallyOf(attempts: seq<AttemptSummary>): Tally {
    Tally(|attempts|, Passes(attempts))
  }

  function One(a: AttemptSummary): Tally {
    Tally(1, if a.passed then 1 else 0)
  }

  /** Attempts and passes summed over the given tasks. */
  function SumOver(ids: seq<string>, attempts: seq<AttemptSummary>): Tally {
    if ids == [] then Tally(0, 0)
    else SumOver(ids[..|ids| - 1], attempts).Plus(TallyOf(ForTask(attempts, ids[|ids| - 1])))
  }

  lemma ForTaskSnoc(attempts: seq<AttemptSummary>, a: AttemptSummary, id: string)
    ensures ForTask(attempts + [a], id) == ForTask(attempts, id) + (if a.taskId == id then [a] else [])
  {
    assert (attempts + [a])[..|attempts|] == attempts;
  }

  lemma PassesSnoc(attempts: seq<AttemptSummary>, a: AttemptSummary)
    ensures Passes(attempts + [a]) == Passes(attempts) + (if a.passed then 1 else 0)
  {
    assert (attempts + [a])[..|attempts|] == attempts;
  }

  lemma TallyAppend(attempts: seq<AttemptSummary>, a: AttemptSummary)
    ensures TallyOf(attempts + [a]) == TallyOf(attempts).Plus(One(a))
  {
    PassesSnoc(attempts, a);
    hide Passes;
  }

  lemma TallySnoc(attempts: seq<AttemptSummary>, a: AttemptSummary, id: string)
    ensures TallyOf(ForTask(attempts + [a], id)) ==
      if a.taskId == id then TallyOf(ForTask(attempts, id)).Plus(One(a)) else TallyOf(ForTask(attempts, id))
  {
    hide *;
    ForTaskSnoc(attempts, a, id);
    TallyAppend(ForTask(attempts, id), a);
    assert ForTask(attempts, id) + [] == ForTask(attempts, id);
  }

  lemma SumOverLast(ids: seq<string>, id: string, attempts: seq<AttemptSummary>)
    ensures SumOver(ids + [id], attempts) == SumOver(ids, attempts).Plus(TallyOf(ForTask(attempts, id)))
  {
    assert (ids + [id])[..|ids|] == ids;
    hide TallyOf, ForTask;
  }

  lemma SumOverSnocStep(ids: seq<string>, id: string, attempts: seq<AttemptSummary>, a: AttemptSummary)
    requires id !in ids
    requires SumOver(ids, attempts + [a]) ==
      if a.taskId in ids then SumOver(ids, attempts).Plus(One(a)) else SumOver(ids, attempts)
    ensures SumOver(ids + [id], attempts + [a]) ==
      if a.taskId in ids + [id] then SumOver(ids + [id], attempts).Plus(One(a)) else SumOver(ids + [id], attempts)
  {
    SumOverLast(ids, id, attempts);
    SumOverLast(ids, id, attempts + [a]);
    TallySnoc(attempts, a, id);
    hide SumOver, TallyOf, ForTask, One;
  }

  lemma {:induction false} SumOverSnoc(ids: seq<string>, attempts: seq<AttemptSummary>, a: AttemptSummary)
    requires UniqueIds(ids)
    ensures SumOver(ids, attempts + [a]) ==
      if a.taskId in ids then SumOver(ids, attempts).Plus(One(a)) else SumOver(ids, attempts)
  {
    hide Tally.Plus, One, TallyOf, ForTask;
    if ids != [] {
      var front, id := ids[..|ids| - 1], ids[|ids| - 1];
      hide SumOver;
      SumOverSnoc(front, attempts, a);
      SumOverSnocStep(front, id, attempts, a);
      assert ids == front + [id];
    }
  }

  lemma {:induction false} SumOverAll(ids: seq<string>, attempts: seq<AttemptSummary>)
    requires UniqueIds(ids) && forall k | 0 <= k < |attempts| :: attempts[k].taskId in ids
    ensures SumOver(ids, attempts) == TallyOf(attempts)
  {
    if attempts == [] {
      SumOverNone(ids);
    } else {
      var n := |attempts| - 1;
      SumOverAll(ids, attempts[..n]);
      SumOverSnoc(ids, attempts[..n], attempts[n]);
      TallyAppend(attempts[..n], attempts[n]);
      assert attempts == attempts[..n] + [attempts[n]];
      hide SumOver, TallyOf, ForTask, One, UniqueIds;
    }
  }

  lemma NoAttempts(id: string)
    ensures ForTask([], id) == []
  {
  }

  lemma NoPasses()
    ensures TallyOf([]) == Tally(0, 0)
  {
    assert Passes([]) == 0;
  }

  lemma NothingTallied(id: string)
    ensures Tally(0, 0).Plus(TallyOf(ForTask([], id))) == Tally(0, 0)
  {
    hide ForTask, Passes, TallyOf;
    NoAttempts(id);
    NoPasses();
  }

  lemma NoTasks(attempts: seq<AttemptSummary>)
    ensures SumOver([], attempts) == Tally(0, 0)
  {
  }

  lemma {:induction false} SumOverNone(ids: seq<string>)
    ensures SumOver(ids, []) == Tally(0, 0)
  {
    hide *;
    if ids == [] {
      NoTasks([]);
    } else {
      var front, id := ids[..|ids| - 1], ids[|ids| - 1];
      SumOverNone(front);
      SumOverLast(front, id, []);
      assert ids == front + [id];
      NothingTallied(id);
    }
  }

  lemma {:induction false} ScheduleIds(ids: seq<string>, repeats: nat)
    ensures forall s | s in Schedule(ids, repeats) :: s.taskId in ids
  {
    if ids != [] {
      ScheduleIds(ids[..|ids| - 1], repeats);
      RowIds(ids[|ids| - 1], repeats);
    }
  }

  lemma {:induction false} RowIds(id: string, repeats: nat)
    ensures forall s | s in Row(id, repeats) :: s.taskId == id
  {
    if repeats > 0 { RowIds(id, repeats - 1); }
  }

  function SumAttempts(tasks: seq<TaskResult>): nat {
    if tasks == [] then 0 else SumAttempts(tasks[..|tasks| - 1]) + tasks[|tasks| - 1].attempts
  }

  function SumPasses(tasks: seq<TaskResult>): nat {
    if tasks == [] then 0 else SumPasses(tasks[..|tasks| - 1]) + tasks[|tasks| - 1].passes
  }

  lemma TaskCounted(front: seq<TaskResult>, t: TaskResult, attempts: seq<AttemptSummary>)
    requires t.attempts == |ForTask(attempts, t.taskId)| && t.passes == Passes(ForTask(attempts, t.taskId))
    ensures Tally(SumAttempts(front), SumPasses(front)).Plus(TallyOf(ForTask(attempts, t.taskId)))
      == Tally(SumAttempts(front + [t]), SumPasses(front + [t]))
  {
    hide ForTask, Passes;
    assert (front + [t])[..|front|] == front;
  }

  lemma {:induction false} TasksSum(tasks: seq<TaskResult>, attempts: seq<AttemptSummary>)
    requires forall k | 0 <= k < |tasks| ::
      && tasks[k].attempts == |ForTask(attempts, tasks[k].taskId)|
      && tasks[k].passes == Passes(ForTask(attempts, tasks[k].taskId))
    ensures SumOver(ResultIds(tasks), attempts) == Tally(SumAttempts(tasks), SumPasses(tasks))
  {
    if tasks != [] {
      hide ForTask, Passes, SumOver, SumAttempts, SumPasses, Tally.Plus, TallyOf;
      var front, t := tasks[..|tasks| - 1], tasks[|tasks| - 1];
      TasksSum(front, attempts);
      assert ResultIds(tasks) == ResultIds(front) + [t.taskId];
      hide ResultIds;
      SumOverLast(ResultIds(front), t.taskId, attempts);
      assert tasks == front + [t];
      TaskCounted(front, t, attempts);
    }
  }

  /** Main result: for unique task ids, the per-task numbers of any run, finished or aborted, sum to
      the totals behind the pass rate. */
  lemma TotalsAreSums(run: SuiteRun, suite: EvalSuite, model: string, versionId: string, repeats: nat)
    requires RunOf(run, suite, model, versionId, repeats) && UniqueIds(TaskIds(suite.tasks))
    ensures var r := run.result;
      && SumAttempts(r.tasks) == |r.attemptSummaries|
      && SumPasses(r.tasks) == Passes(r.attemptSummaries)
      && r.passRate == Rate(SumPasses(r.tasks), SumAttempts(r.tasks))
  {
    var r := run.result;
    var ids := TaskIds(suite.tasks);
    ScheduleIds(ids, repeats);
    forall k | 0 <= k < |r.attemptSummaries| ensures r.attemptSummaries[k].taskId in ids {
      assert Slots(r.attemptSummaries)[k] in Schedule(ids, repeats);
    }
    SumOverAll(ids, r.attemptSummaries);
    TasksSum(r.tasks, r.attemptSummaries);
  }

  // --- no task fell, so the suite did not -------------------------------------------------------

  lemma RateOrders(p: nat, q: nat, n: nat)
    ensures Rate(p, n) <= Rate(q, n) <==> p <= q || n == 0
  {
    if n > 0 {
      assert Rate(p, n) * n as real == p as real && Rate(q, n) * n as real == q as real;
      if Rate(p, n) <= Rate(q, n) { assert (Rate(q, n) - Rate(p, n)) * n as real >= 0.0; }
      if p <= q { assert (q as real - p as real) / n as real >= 0.0; }
    }
  }

  lemma AttemptsAreOfTasks(r: SuiteResult)
    requires Complete(r)
    ensures UniqueIds(ResultIds(r.tasks))
    ensures forall k | 0 <= k < |r.attemptSummaries| :: r.attemptSummaries[k].taskId in ResultIds(r.tasks)
    ensures r.passRate == Rate(Passes(r.attemptSummaries), |r.attemptSummaries|)
  {
    hide Rate, Passes, ForTask, ResultIds;
    var ids := ResultIds(r.tasks);
    ScheduleIds(ids, r.repeats);
    forall k | 0 <= k < |r.attemptSummaries| ensures r.attemptSummaries[k].taskId in ids {
      assert Slots(r.attemptSummaries)[k] in Schedule(ids, r.repeats);
    }
  }

  /** The pass rate over some tasks only. */
  function RateOver(ids: seq<string>, attempts: seq<AttemptSummary>): real {
    var t := SumOver(ids, attempts);
    Rate(t.passes, t.attempts)
  }

  /** The same number of attempts of a task, and no fewer passed. */
  predicate HeldOn(id: string, b: seq<AttemptSummary>, c: seq<AttemptSummary>) {
    var tb, tc := TallyOf(ForTask(b, id)), TallyOf(ForTask(c, id));
    tb.attempts == tc.attempts && tb.passes <= tc.passes
  }

  lemma TaskNumbers(r: SuiteResult, k: nat)
    requires Complete(r) && k < |r.tasks|
    ensures TallyOf(ForTask(r.attemptSummaries, r.tasks[k].taskId)) == Tally(r.repeats, r.tasks[k].passes)
    ensures r.tasks[k].passRate == Rate(r.tasks[k].passes, r.repeats)
  {
    EveryTaskAttempted(r);
    hide ForTask, Passes, Rate, Slots, Schedule;
  }

  lemma TaskHeld(b: SuiteResult, c: SuiteResult, k: nat)
    requires Complete(b) && Complete(c) && b.repeats == c.repeats
    requires k < |b.tasks| && Held(b.tasks[k], c.tasks)
    ensures HeldOn(b.tasks[k].taskId, b.attemptSummaries, c.attemptSummaries)
  {
    var found := FirstResult(c.tasks, b.tasks[k].taskId).value;
    var j :| 0 <= j < |c.tasks| && c.tasks[j] == found;
    TaskNumbers(b, k);
    TaskNumbers(c, j);
    RateOrders(b.tasks[k].passes, found.passes, b.repeats);
    assert b.repeats >= 1;
    hide Complete, TallyOf, ForTask, Rate;
  }

  lemma SumOverHeldStep(ids: seq<string>, id: string, b: seq<AttemptSummary>, c: seq<AttemptSummary>)
    requires HeldOn(id, b, c)
    requires SumOver(ids, b).attempts == SumOver(ids, c).attempts && SumOver(ids, b).passes <= SumOver(ids, c).passes
    ensures SumOver(ids + [id], b).attempts == SumOver(ids + [id], c).attempts
    ensures SumOver(ids + [id], b).passes <= SumOver(ids + [id], c).passes
  {
    SumOverLast(ids, id, b);
    SumOverLast(ids, id, c);
    hide SumOver, TallyOf, ForTask;
  }

  lemma {:induction false} SumOverHeld(ids: seq<string>, b: seq<AttemptSummary>, c: seq<AttemptSummary>)
    requires forall id | id in ids :: HeldOn(id, b, c)
    ensures SumOver(ids, b).attempts == SumOver(ids, c).attempts
    ensures SumOver(ids, b).passes <= SumOver(ids, c).passes
  {
    hide *;
    if ids == [] {
      NoTasks(b);
      NoTasks(c);
    } else {
      var front, id := ids[..|ids| - 1], ids[|ids| - 1];
      assert ids == front + [id];
      SumOverHeld(front, b, c);
      SumOverHeldStep(front, id, b, c);
    }
  }

  lemma AllHeld(b: SuiteResult, c: SuiteResult)
    requires Complete(b) && Complete(c) && b.repeats == c.repeats && NoRegression(b.tasks, c.tasks)
    ensures forall id | id in ResultIds(b.tasks) :: HeldOn(id, b.attemptSummaries, c.attemptSummaries)
  {
    hide Complete, HeldOn, Held;
    var ids := ResultIds(b.tasks);
    forall id | id in ids ensures HeldOn(id, b.attemptSummaries, c.attemptSummaries) {
      var k :| 0 <= k < |ids| && ids[k] == id;
      TaskHeld(b, c, k);
    }
  }

  lemma SameIds(bs: seq<TaskResult>, cs: seq<TaskResult>)
    requires forall t | t in cs :: t.taskId in ResultIds(bs)
    ensures forall id | id in ResultIds(cs) :: id in ResultIds(bs)
  {
    forall id | id in ResultIds(cs) ensures id in ResultIds(bs) {
      var k :| 0 <= k < |cs| && ResultIds(cs)[k] == id;
      assert cs[k].taskId in ResultIds(bs);
    }
  }

  lemma RateOfTally(ids: seq<string>, attempts: seq<AttemptSummary>, t: Tally)
    requires SumOver(ids, attempts) == t
    ensures RateOver(ids, attempts) == Rate(t.passes, t.attempts)
  {
    hide SumOver, Rate;
  }

  lemma TallyIs(attempts: seq<AttemptSummary>)
    ensures TallyOf(attempts) == Tally(|attempts|, Passes(attempts))
  {
    hide Passes;
  }

  /** Main result: a candidate that lowers no task's pass rate does not lower the rate over the
      baseline's tasks; only tasks the baseline has not measured can take its own rate below the baseline's. */
  lemma NoRegressionLiftsPassRate(b: SuiteResult, c: SuiteResult)
    requires Complete(b) && Complete(c) && b.repeats == c.repeats && NoRegression(b.tasks, c.tasks)
    ensures b.passRate <= RateOver(ResultIds(b.tasks), c.attemptSummaries)
    ensures (forall t | t in c.tasks :: t.taskId in ResultIds(b.tasks)) ==> b.passRate <= c.passRate
  {
    hide *;
    var ids, bs, cs := ResultIds(b.tasks), b.attemptSummaries, c.attemptSummaries;
    AllHeld(b, c);
    AttemptsAreOfTasks(b);
    AttemptsAreOfTasks(c);
    SumOverHeld(ids, bs, cs);
    SumOverAll(ids, bs);
    TallyIs(bs);
    RateOrders(Passes(bs), SumOver(ids, cs).passes, |bs|);
    RateOfTally(ids, cs, SumOver(ids, cs));
    if forall t | t in c.tasks :: t.taskId in ids {
      SameIds(b.tasks, c.tasks);
      SumOverAll(ids, cs);
      TallyIs(cs);
    }
  }
}
