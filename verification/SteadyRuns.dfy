/** Suite runs of three repeats whose results are known in advance, and what the comparisons make of metrics
    that never vary (evaluate.ts:229-317, guardian.ts:93-202, roles.ts:218-252). */
module SteadyRuns {
  import opened Domain
  import opened Statistics
  import opened Headroom
  import opened Guardian
  import opened Evaluation
  import opened CompleteResults

  // --- a run with known passes --------------------------------------------------------------------

  /** A known task passes two of its three repeats, any other none. */
  datatype Fate = Fate(task: EvalTask, known: bool)

  function OneAttempt(f: Fate, repeat: nat, iterations: int): AttemptSummary {
    AttemptSummary(f.task.id, repeat, f.known && repeat < 2, iterations, 100, Some(100), 0, 0, 0, 0, 0.0)
  }

  function PassesOf(f: Fate): nat { if f.known then 2 else 0 }

  function Thrice(f: Fate, iterations: int): seq<AttemptSummary> {
    [OneAttempt(f, 0, iterations), OneAttempt(f, 1, iterations), OneAttempt(f, 2, iterations)]
  }

  function AttemptsOf(fs: seq<Fate>, iterations: int): seq<AttemptSummary> {
    if fs == [] then [] else AttemptsOf(fs[..|fs| - 1], iterations) + Thrice(fs[|fs| - 1], iterations)
  }

  function TasksOf(fs: seq<Fate>): seq<TaskResult> {
    seq(|fs|, k requires 0 <= k < |fs| =>
      TaskResult(fs[k].task.id, fs[k].task.capability, 3, PassesOf(fs[k]), Rate(PassesOf(fs[k]), 3)))
  }

  function IdsOf(fs: seq<Fate>): seq<string> { seq(|fs|, k requires 0 <= k < |fs| => fs[k].task.id) }

  function ResultOf(fs: seq<Fate>, suiteId: string, versionId: string, iterations: int): SuiteResult {
    var attempts := AttemptsOf(fs, iterations);
    SuiteResult(suiteId, versionId, "model", 3, TasksOf(fs), attempts,
      Rate(Passes(attempts), |attempts|), Evaluation.TotalTokens(attempts), 0)
  }

  lemma ThriceInSteps(front: seq<AttemptSummary>, f: Fate, iterations: int)
    ensures front + Thrice(f, iterations)
      == front + [OneAttempt(f, 0, iterations)] + [OneAttempt(f, 1, iterations)] + [OneAttempt(f, 2, iterations)]
  {
    hide OneAttempt;
  }

  lemma OneAttemptIs(f: Fate, repeat: nat, iterations: int)
    ensures var a := OneAttempt(f, repeat, iterations);
      && a.taskId == f.task.id && a.repeat == repeat && (a.passed <==> f.known && repeat < 2)
      && a.iterations == iterations && a.totalTokens == 100 && a.durationMs == Some(100)
  {
  }

  lemma PassesOfIs(f: Fate)
    ensures PassesOf(f) == if f.known then 2 else 0
  {
  }

  lemma ThricePassed(front: seq<AttemptSummary>, f: Fate, iterations: int)
    ensures Passes(front + Thrice(f, iterations)) == Passes(front) + PassesOf(f)
  {
    PassesOfIs(f);
    hide *;
    var a, b, c := OneAttempt(f, 0, iterations), OneAttempt(f, 1, iterations), OneAttempt(f, 2, iterations);
    ThriceInSteps(front, f, iterations);
    OneAttemptIs(f, 0, iterations);
    OneAttemptIs(f, 1, iterations);
    OneAttemptIs(f, 2, iterations);
    PassesSnoc(front, a);
    PassesSnoc(front + [a], b);
    PassesSnoc(front + [a] + [b], c);
  }

  lemma ThriceOfTask(front: seq<AttemptSummary>, f: Fate, iterations: int, id: string)
    ensures ForTask(front + Thrice(f, iterations), id)
      == ForTask(front, id) + (if f.task.id == id then Thrice(f, iterations) else [])
  {
    hide *;
    var a, b, c := OneAttempt(f, 0, iterations), OneAttempt(f, 1, iterations), OneAttempt(f, 2, iterations);
    ThriceInSteps(front, f, iterations);
    OneAttemptIs(f, 0, iterations);
    OneAttemptIs(f, 1, iterations);
    OneAttemptIs(f, 2, iterations);
    ForTaskSnoc(front, a, id);
    ForTaskSnoc(front + [a], b, id);
    ForTaskSnoc(front + [a] + [b], c, id);
    if f.task.id == id {
      ThriceInSteps(ForTask(front, id), f, iterations);
    } else {
      assert ForTask(front, id) + [] + [] + [] == ForTask(front, id) + [];
    }
  }

  lemma RowOfThree(id: string)
    ensures Row(id, 3) == [Slot(id, 0), Slot(id, 1), Slot(id, 2)]
  {
    assert Row(id, 3) == Row(id, 2) + [Slot(id, 2)];
    assert Row(id, 2) == [Slot(id, 0), Slot(id, 1)];
  }

  lemma ThriceSlots(front: seq<AttemptSummary>, f: Fate, iterations: int)
    ensures Slots(front + Thrice(f, iterations)) == Slots(front) + Row(f.task.id, 3)
  {
    hide Slots, Row;
    RowOfThree(f.task.id);
  }

  lemma AttemptsEnd(front: seq<Fate>, f: Fate, iterations: int)
    ensures AttemptsOf(front + [f], iterations) == AttemptsOf(front, iterations) + Thrice(f, iterations)
    ensures IdsOf(front + [f]) == IdsOf(front) + [f.task.id]
  {
    hide Thrice;
    assert (front + [f])[..|front|] == front;
  }

  ghost predicate Alike(attempts: seq<AttemptSummary>, iterations: int) {
    forall k | 0 <= k < |attempts| ::
      attempts[k].iterations == iterations && attempts[k].totalTokens == 100 && attempts[k].durationMs == Some(100)
  }

  lemma ThriceAlike(front: seq<AttemptSummary>, f: Fate, iterations: int)
    requires Alike(front, iterations)
    ensures Alike(front + Thrice(f, iterations), iterations)
  {
  }

  lemma ScheduleEnd(ids: seq<string>, id: string)
    ensures Schedule(ids + [id], 3) == Schedule(ids, 3) + Row(id, 3)
  {
    hide Row;
    assert (ids + [id])[..|ids|] == ids;
  }

  lemma NothingFollows(iterations: int)
    ensures AttemptsOf([], iterations) == [] && IdsOf([]) == [] && Slots([]) == Schedule([], 3) && Alike([], iterations)
    ensures Passes([]) == 0 == Passing([])
  {
  }

  lemma {:induction false} AttemptsFollow(fs: seq<Fate>, iterations: int)
    ensures Slots(AttemptsOf(fs, iterations)) == Schedule(IdsOf(fs), 3)
    ensures Alike(AttemptsOf(fs, iterations), iterations)
    ensures |AttemptsOf(fs, iterations)| == 3 * |fs|
  {
    hide *;
    if fs == [] {
      NothingFollows(iterations);
    } else {
      var front, f := fs[..|fs| - 1], fs[|fs| - 1];
      assert fs == front + [f];
      AttemptsFollow(front, iterations);
      AttemptsEnd(front, f, iterations);
      ThriceSlots(AttemptsOf(front, iterations), f, iterations);
      ThriceAlike(AttemptsOf(front, iterations), f, iterations);
      ThriceInSteps(AttemptsOf(front, iterations), f, iterations);
      ScheduleEnd(IdsOf(front), f.task.id);
    }
  }

  function Passing(fs: seq<Fate>): nat {
    if fs == [] then 0 else Passing(fs[..|fs| - 1]) + PassesOf(fs[|fs| - 1])
  }

  lemma PassingEnd(front: seq<Fate>, f: Fate)
    ensures Passing(front + [f]) == Passing(front) + PassesOf(f)
  {
    assert (front + [f])[..|front|] == front;
  }

  lemma {:induction false} PassesFollow(fs: seq<Fate>, iterations: int)
    ensures Passes(AttemptsOf(fs, iterations)) == Passing(fs)
  {
    hide *;
    if fs == [] {
      NothingFollows(iterations);
    } else {
      var front, f := fs[..|fs| - 1], fs[|fs| - 1];
      assert fs == front + [f];
      PassesFollow(front, iterations);
      AttemptsEnd(front, f, iterations);
      PassingEnd(front, f);
      ThricePassed(AttemptsOf(front, iterations), f, iterations);
    }
  }

  lemma {:induction false} OthersHaveNone(fs: seq<Fate>, iterations: int, id: string)
    requires forall k | 0 <= k < |fs| :: fs[k].task.id != id
    ensures ForTask(AttemptsOf(fs, iterations), id) == []
  {
    hide *;
    if fs == [] {
      NothingFollows(iterations);
      NoAttempts(id);
    } else {
      var front, f := fs[..|fs| - 1], fs[|fs| - 1];
      assert fs == front + [f];
      OthersHaveNone(front, iterations, id);
      AttemptsEnd(front, f, iterations);
      ThriceOfTask(AttemptsOf(front, iterations), f, iterations, id);
    }
  }

  lemma {:induction false} TaskFollows(fs: seq<Fate>, iterations: int, k: nat)
    requires k < |fs| && forall j | 0 <= j < |fs| && j != k :: fs[j].task.id != fs[k].task.id
    ensures ForTask(AttemptsOf(fs, iterations), fs[k].task.id) == Thrice(fs[k], iterations)
  {
    hide *;
    var front, f, id := fs[..|fs| - 1], fs[|fs| - 1], fs[k].task.id;
    assert fs == front + [f];
    AttemptsEnd(front, f, iterations);
    ThriceOfTask(AttemptsOf(front, iterations), f, iterations, id);
    if k < |fs| - 1 {
      TaskFollows(front, iterations, k);
      assert Thrice(fs[k], iterations) + [] == Thrice(fs[k], iterations);
    } else {
      OthersHaveNone(front, iterations, id);
      assert [] + Thrice(f, iterations) == Thrice(f, iterations);
    }
  }

  lemma ThricePasses(f: Fate, iterations: int)
    ensures Passes(Thrice(f, iterations)) == PassesOf(f)
  {
    ThricePassed([], f, iterations);
    assert Passes([]) == 0;
    assert [] + Thrice(f, iterations) == Thrice(f, iterations);
    hide Passes;
  }

  lemma TaskNumbersFollow(fs: seq<Fate>, iterations: int, k: nat)
    requires UniqueIds(IdsOf(fs)) && k < |fs|
    ensures var t, mine := TasksOf(fs)[k], ForTask(AttemptsOf(fs, iterations), fs[k].task.id);
      t.attempts == |mine| && t.passes == Passes(mine) && t.passRate == Rate(Passes(mine), |mine|)
  {
    hide ForTask, Passes, Rate, AttemptsOf;
    assert forall j | 0 <= j < |fs| :: IdsOf(fs)[j] == fs[j].task.id;
    TaskFollows(fs, iterations, k);
    ThricePasses(fs[k], iterations);
  }

  lemma IdsAgree(fs: seq<Fate>)
    ensures ResultIds(TasksOf(fs)) == IdsOf(fs)
  {
  }

  lemma ResultIsComplete(fs: seq<Fate>, suiteId: string, versionId: string, iterations: int)
    requires UniqueIds(IdsOf(fs))
    ensures var r := ResultOf(fs, suiteId, versionId, iterations); Complete(r) && ResultIds(r.tasks) == IdsOf(fs)
    ensures ResultOf(fs, suiteId, versionId, iterations).passRate == Rate(Passing(fs), 3 * |fs|)
  {
    hide ForTask, Passes, Rate, Evaluation.TotalTokens, Slots, Schedule, AttemptsOf, Passing, ResultIds, IdsOf,
      PassesOf;
    IdsAgree(fs);
    AttemptsFollow(fs, iterations);
    PassesFollow(fs, iterations);
    forall k | 0 <= k < |fs|
      ensures var t, mine := TasksOf(fs)[k], ForTask(AttemptsOf(fs, iterations), TasksOf(fs)[k].taskId);
        t.attempts == |mine| && t.passes == Passes(mine) && t.passRate == Rate(Passes(mine), |mine|)
    {
      TaskNumbersFollow(fs, iterations, k);
    }
  }

  /** Two thirds of the attempts pass when every task is known, and fewer otherwise. */
  lemma {:induction false} KnownTasksPass(fs: seq<Fate>)
    ensures Passing(fs) <= 2 * |fs|
    ensures Passing(fs) == 2 * |fs| <==> forall k | 0 <= k < |fs| :: fs[k].known
  {
    if fs != [] {
      var front, f := fs[..|fs| - 1], fs[|fs| - 1];
      assert fs == front + [f];
      KnownTasksPass(front);
      PassingEnd(front, f);
    }
  }

  // --- metrics that never vary --------------------------------------------------------------------

  ghost predicate Steady(attempts: seq<AttemptSummary>, m: Metric, x: real) {
    forall k | 0 <= k < |attempts| :: ValueOf(attempts[k], m) == Some(x)
  }

  lemma {:induction false} SteadySamples(attempts: seq<AttemptSummary>, m: Metric, x: real)
    requires Steady(attempts, m, x)
    ensures AllReported(attempts, m)
    ensures forall k | 0 <= k < |attempts| :: Samples(attempts, m)[k] == Sample(attempts[k].taskId, x)
  {
    hide ValueOf;
    if attempts != [] { SteadySamples(attempts[..|attempts| - 1], m, x); }
  }

  lemma ConstantMean(xs: seq<real>, x: real)
    requires |xs| >= 2 && forall k | 0 <= k < |xs| :: xs[k] == x
    ensures Mean(xs) == x && Variance(xs) == Some(0.0)
  {
    hide Sum, Scatter, SquaredDeviation;
    ConstantDeviation(xs, x);
    ConstantScatter(xs, x);
    assert |xs| as real * x / |xs| as real == x;
  }

  lemma SteadyMean(ss: seq<Sample>, x: real)
    requires |ss| >= 2 && forall k | 0 <= k < |ss| :: ss[k].value == x
    ensures Mean(Values(ss)) == x && Variance(Values(ss)) == Some(0.0) && Deterministic(ss)
  {
    hide Values, Mean, Variance;
    ConstantMean(Values(ss), x);
  }

  lemma NothingAcross(sb: seq<Sample>, sc: seq<Sample>)
    requires Variance(Values(sb)) == Some(0.0) == Variance(Values(sc))
    ensures PooledAcross(sb, sc) == Some(0.0)
  {
    hide Variance, Values;
  }

  lemma DeltaOfMeans(sb: seq<Sample>, sc: seq<Sample>, x: real, y: real)
    requires sb != [] && sc != [] && Mean(Values(sb)) == x && Mean(Values(sc)) == y
    ensures Delta(sb, sc) == y - x
  {
    hide Mean, Values;
  }

  /** Nothing varies on either side, so any movement at all is beyond both noise estimates. */
  lemma SteadyPools(sb: seq<Sample>, sc: seq<Sample>, x: real, y: real)
    requires |sb| >= 2 && |sc| >= 2 && sb[|sb| - 2].task == sb[|sb| - 1].task
    requires forall k | 0 <= k < |sb| :: sb[k].value == x
    requires forall k | 0 <= k < |sc| :: sc[k].value == y
    ensures Mean(Values(sb)) == x && Mean(Values(sc)) == y && Delta(sb, sc) == y - x
    ensures PooledWithin(sb, sc) == Some(0.0) && PooledAcross(sb, sc) == Some(0.0)
  {
    hide *;
    SteadyMean(sb, x);
    SteadyMean(sc, y);
    NothingAcross(sb, sc);
    DeltaOfMeans(sb, sc, x, y);
    var n := |sb| - 2;
    assert sb == sb[..n] + [sb[n]] + [sb[n + 1]];
    TwoSamplesPool(sb, sc, sb[..n], sb[n], sb[n + 1]);
    ZeroPooled(sb, sc);
  }

  lemma SteadyCompared(b: SuiteResult, c: SuiteResult, m: Metric, x: real, y: real)
    requires Steady(b.attemptSummaries, m, x) && Steady(c.attemptSummaries, m, y)
    requires |b.attemptSummaries| >= 2 && |c.attemptSummaries| >= 2
    requires var bs := b.attemptSummaries; bs[|bs| - 2].taskId == bs[|bs| - 1].taskId
    ensures Comparable(b, c, m)
    ensures Compared(b, c, m) == Some(MetricDelta(m, x, y, y - x, y != x))
    ensures var sb, sc := Samples(b.attemptSummaries, m), Samples(c.attemptSummaries, m);
      BeyondNoise(Delta(sb, sc), PooledAcross(sb, sc)) <==> y != x
  {
    SteadySamples(b.attemptSummaries, m, x);
    SteadySamples(c.attemptSummaries, m, y);
    SteadyPools(Samples(b.attemptSummaries, m), Samples(c.attemptSummaries, m), x, y);
    hide AllReported, Samples, Mean, Values, Delta, PooledWithin, PooledAcross, Steady, ValueOf;
  }

  lemma AttemptsSteady(fs: seq<Fate>, iterations: int, m: Metric, x: real)
    requires (m == Iterations && x == iterations as real) || (m in {Metric.TotalTokens, DurationMs} && x == 100.0)
    ensures Steady(AttemptsOf(fs, iterations), m, x)
  {
    AttemptsFollow(fs, iterations);
    hide AttemptsOf, Slots, Schedule;
  }

  /** The last repeat of the last task never passes. */
  lemma EndsWithOneTask(fs: seq<Fate>, iterations: int)
    requires fs != []
    ensures var bs := AttemptsOf(fs, iterations);
      |bs| >= 2 && bs[|bs| - 2].taskId == bs[|bs| - 1].taskId && !bs[|bs| - 1].passed
  {
    hide *;
    var front, f := fs[..|fs| - 1], fs[|fs| - 1];
    assert fs == front + [f];
    AttemptsEnd(front, f, iterations);
    ThriceInSteps(AttemptsOf(front, iterations), f, iterations);
    OneAttemptIs(f, 1, iterations);
    OneAttemptIs(f, 2, iterations);
  }
}
