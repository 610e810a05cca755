/** What the guardian's noise floor measures (guardian.ts:82-202) and how it relates to the
    verifier's recomputation (roles.ts:218-252). */
module NoiseFloor {
  import opened Statistics

  // --- shifting every attempt of a task by that task's constant ---------------------------------

  function ShiftAll(xs: seq<real>, k: real): (ys: seq<real>)
    ensures |ys| == |xs|
  {
    if xs == [] then [] else ShiftAll(xs[..|xs| - 1], k) + [xs[|xs| - 1] + k]
  }

  function Shifted(ss: seq<Sample>, c: string -> real): (rs: seq<Sample>)
    ensures |rs| == |ss|
  {
    if ss == [] then []
    else
      var s := ss[|ss| - 1];
      Shifted(ss[..|ss| - 1], c) + [Sample(s.task, s.value + c(s.task))]
  }

  lemma {:induction false} ShiftSum(xs: seq<real>, k: real)
    ensures Sum(ShiftAll(xs, k)) == Sum(xs) + |xs| as real * k
  {
    if xs != [] {
      var n := |xs| - 1;
      ShiftSum(xs[..n], k);
      assert ShiftAll(xs, k)[..n] == ShiftAll(xs[..n], k);
      assert (n as real + 1.0) * k == n as real * k + k;
    }
  }

  lemma SplitQuotient(s: real, k: real, n: real)
    requires n != 0.0
    ensures (s + n * k) / n == s / n + k
  {
  }

  lemma ShiftMean(xs: seq<real>, k: real)
    requires xs != []
    ensures Mean(ShiftAll(xs, k)) == Mean(xs) + k
  {
    ShiftSum(xs, k);
    var n := |xs| as real;
    SplitQuotient(Sum(xs), k, n);
    hide Sum, ShiftAll;
    assert |ShiftAll(xs, k)| == |xs|;
  }

  lemma {:induction false} ShiftDeviation(xs: seq<real>, k: real, mu: real)
    ensures SquaredDeviation(ShiftAll(xs, k), mu + k) == SquaredDeviation(xs, mu)
  {
    if xs != [] {
      var n := |xs| - 1;
      ShiftDeviation(xs[..n], k, mu);
      assert ShiftAll(xs, k)[..n] == ShiftAll(xs[..n], k);
      assert (xs[n] + k) - (mu + k) == xs[n] - mu;
      hide Square;
    }
  }

  lemma ShiftScatter(xs: seq<real>, k: real)
    ensures Scatter(ShiftAll(xs, k)) == Scatter(xs)
  {
    if xs != [] {
      ShiftMean(xs, k);
      ShiftDeviation(xs, k, Mean(xs));
    }
  }

  lemma ShiftedSnoc(ss: seq<Sample>, s: Sample, c: string -> real)
    ensures Shifted(ss + [s], c) == Shifted(ss, c) + [Sample(s.task, s.value + c(s.task))]
  {
    assert (ss + [s])[..|ss|] == ss;
  }

  lemma ShiftAllSnoc(xs: seq<real>, x: real, k: real)
    ensures ShiftAll(xs + [x], k) == ShiftAll(xs, k) + [x + k]
  {
    assert (xs + [x])[..|xs|] == xs;
  }

  lemma {:induction false} ShiftedTasks(ss: seq<Sample>, c: string -> real)
    ensures Tasks(Shifted(ss, c)) == Tasks(ss)
  {
    if ss != [] {
      hide *;
      var front, s := ss[..|ss| - 1], ss[|ss| - 1];
      ShiftedTasks(front, c);
      assert ss == front + [s];
      ShiftedSnoc(front, s, c);
      TasksSnoc(front, s);
      TasksSnoc(Shifted(front, c), Sample(s.task, s.value + c(s.task)));
    }
  }

  lemma ShiftedOfTaskStep(front: seq<Sample>, s: Sample, c: string -> real, t: string)
    requires OfTask(Shifted(front, c), t) == ShiftAll(OfTask(front, t), c(t))
    ensures OfTask(Shifted(front + [s], c), t) == ShiftAll(OfTask(front + [s], t), c(t))
  {
    hide *;
    ShiftedSnoc(front, s, c);
    OfTaskSnoc(front, s, t);
    OfTaskSnoc(Shifted(front, c), Sample(s.task, s.value + c(s.task)), t);
    ShiftAllSnoc(OfTask(front, t), s.value, c(t));
    assert OfTask(front, t) + [] == OfTask(front, t);
  }

  lemma {:induction false} ShiftedOfTask(ss: seq<Sample>, c: string -> real, t: string)
    ensures OfTask(Shifted(ss, c), t) == ShiftAll(OfTask(ss, t), c(t))
  {
    if ss != [] {
      hide *;
      var front, s := ss[..|ss| - 1], ss[|ss| - 1];
      ShiftedOfTask(front, c, t);
      ShiftedOfTaskStep(front, s, c, t);
      assert ss == front + [s];
    }
  }

  lemma {:induction false} ShiftedWithin(ss: seq<Sample>, c: string -> real, ts: seq<string>)
    ensures WithinScatter(Shifted(ss, c), ts) == WithinScatter(ss, ts)
    ensures WithinFreedom(Shifted(ss, c), ts) == WithinFreedom(ss, ts)
  {
    if ts != [] {
      var t := ts[|ts| - 1];
      ShiftedWithin(ss, c, ts[..|ts| - 1]);
      ShiftedOfTask(ss, c, t);
      ShiftScatter(OfTask(ss, t), c(t));
      hide Scatter, ShiftAll, Shifted;
    }
  }

  /** Main result: how hard each task is does not enter the pooled spread at all. */
  lemma DifficultyIsNotNoise(b: seq<Sample>, c: seq<Sample>, shift: string -> real)
    ensures PooledWithin(Shifted(b, shift), Shifted(c, shift)) == PooledWithin(b, c)
  {
    ShiftedTasks(b, shift);
    ShiftedTasks(c, shift);
    ShiftedWithin(b, shift, Tasks(b));
    ShiftedWithin(c, shift, Tasks(c));
    hide Tasks, Shifted, WithinScatter, WithinFreedom;
  }

  // --- the shift and the delta ------------------------------------------------------------------

  function TaskNames(ss: seq<Sample>): (ts: seq<string>)
    ensures |ts| == |ss| && forall k | 0 <= k < |ss| :: ts[k] == ss[k].task
  {
    if ss == [] then [] else TaskNames(ss[..|ss| - 1]) + [ss[|ss| - 1].task]
  }

  function TotalShift(ts: seq<string>, c: string -> real): real {
    if ts == [] then 0.0 else TotalShift(ts[..|ts| - 1], c) + c(ts[|ts| - 1])
  }

  lemma {:induction false} ShiftedSum(ss: seq<Sample>, c: string -> real)
    ensures Sum(Values(Shifted(ss, c))) == Sum(Values(ss)) + TotalShift(TaskNames(ss), c)
  {
    if ss != [] {
      var n := |ss| - 1;
      ShiftedSum(ss[..n], c);
      assert Shifted(ss, c)[..n] == Shifted(ss[..n], c);
      assert Values(Shifted(ss, c))[..n] == Values(Shifted(ss[..n], c));
      assert Values(ss)[..n] == Values(ss[..n]);
      assert TaskNames(ss)[..n] == TaskNames(ss[..n]);
    }
  }

  lemma {:induction false} TotalShiftWithout(ts: seq<string>, c: string -> real, k: nat)
    requires k < |ts|
    ensures TotalShift(ts, c) == TotalShift(ts[..k] + ts[k + 1..], c) + c(ts[k])
  {
    var n := |ts| - 1;
    if k == n {
      assert ts[..k] + ts[k + 1..] == ts[..n];
    } else {
      TotalShiftWithout(ts[..n], c, k);
      var rest := ts[..k] + ts[k + 1..];
      assert rest[..n - 1] == ts[..n][..k] + ts[..n][k + 1..];
      assert rest[n - 1] == ts[n];
    }
  }

  lemma WithoutOne(us: seq<string>, k: nat)
    requires k < |us|
    ensures multiset(us[..k] + us[k + 1..]) == multiset(us) - multiset{us[k]}
  {
    assert us == us[..k] + [us[k]] + us[k + 1..];
  }

  lemma RemoveOne(ts: seq<string>, us: seq<string>) returns (k: nat)
    requires multiset(ts) == multiset(us) && ts != []
    ensures k < |us| && us[k] == ts[|ts| - 1]
    ensures multiset(ts[..|ts| - 1]) == multiset(us[..k] + us[k + 1..])
  {
    var n := |ts| - 1;
    assert ts[n] in multiset(us);
    k :| 0 <= k < |us| && us[k] == ts[n];
    WithoutOne(us, k);
    WithoutOne(ts, n);
    assert ts[..n] + ts[n + 1..] == ts[..n];
  }

  lemma TotalShiftLast(ts: seq<string>, c: string -> real)
    requires ts != []
    ensures TotalShift(ts, c) == TotalShift(ts[..|ts| - 1], c) + c(ts[|ts| - 1])
  {
  }

  lemma {:induction false} TotalShiftPermutes(ts: seq<string>, us: seq<string>, c: string -> real)
    requires multiset(ts) == multiset(us)
    ensures TotalShift(ts, c) == TotalShift(us, c)
  {
    hide *;
    if ts == [] {
      assert |us| == |multiset(us)|;
    } else {
      var k := RemoveOne(ts, us);
      TotalShiftLast(ts, c);
      TotalShiftWithout(us, c, k);
      TotalShiftPermutes(ts[..|ts| - 1], us[..k] + us[k + 1..], c);
    }
  }

  function Quotient(s: real, n: real): real
    requires n != 0.0
  {
    s / n
  }

  lemma AddToBothMeans(sb: real, sc: real, w: real, n: real)
    requires n != 0.0
    ensures Quotient(sc + w, n) - Quotient(sb + w, n) == Quotient(sc, n) - Quotient(sb, n)
  {
  }

  lemma DeltaOfSums(b: seq<Sample>, c: seq<Sample>, n: real)
    requires b != [] && |b| == |c| && n == |b| as real
    ensures Delta(b, c) == Quotient(Sum(Values(c)), n) - Quotient(Sum(Values(b)), n)
  {
    hide Sum;
  }

  lemma ShiftedDelta(b: seq<Sample>, c: seq<Sample>, shift: string -> real)
    requires b != [] && c != [] && |b| == |c|
    requires TotalShift(TaskNames(b), shift) == TotalShift(TaskNames(c), shift)
    ensures Delta(Shifted(b, shift), Shifted(c, shift)) == Delta(b, c)
  {
    hide *;
    var n := |b| as real;
    ShiftedSum(b, shift);
    ShiftedSum(c, shift);
    DeltaOfSums(b, c, n);
    DeltaOfSums(Shifted(b, shift), Shifted(c, shift), n);
    AddToBothMeans(Sum(Values(b)), Sum(Values(c)), TotalShift(TaskNames(b), shift), n);
    hide Sum, TotalShift, TaskNames, Values, Shifted, Quotient, Delta;
  }

  /** Main result: with equal attempts per task on both sides, shifting tasks by constants moves
      neither the delta nor the verdict that it clears the noise. */
  lemma DifficultyMovesNoVerdict(b: seq<Sample>, c: seq<Sample>, shift: string -> real)
    requires b != [] && multiset(TaskNames(b)) == multiset(TaskNames(c))
    ensures |b| == |c| && c != []
    ensures Delta(Shifted(b, shift), Shifted(c, shift)) == Delta(b, c)
    ensures BeyondNoise(Delta(Shifted(b, shift), Shifted(c, shift)), PooledWithin(Shifted(b, shift), Shifted(c, shift)))
       <==> BeyondNoise(Delta(b, c), PooledWithin(b, c))
  {
    assert |multiset(TaskNames(b))| == |b| && |multiset(TaskNames(c))| == |c|;
    TotalShiftPermutes(TaskNames(b), TaskNames(c), shift);
    ShiftedDelta(b, c, shift);
    DifficultyIsNotNoise(b, c, shift);
    hide BeyondNoise, PooledWithin, Sum, TotalShift, TaskNames, Values, Delta, Shifted;
  }

  // --- total scatter splits into within and between tasks ---------------------------------------

  function DeviationByTask(ss: seq<Sample>, ts: seq<string>, mu: real): real {
    if ts == [] then 0.0
    else DeviationByTask(ss, ts[..|ts| - 1], mu) + SquaredDeviation(OfTask(ss, ts[|ts| - 1]), mu)
  }

  /** The tasks' own means measured from `mu`, weighted by their sample counts. */
  function BetweenTasks(ss: seq<Sample>, ts: seq<string>, mu: real): real {
    if ts == [] then 0.0
    else
      var xs := OfTask(ss, ts[|ts| - 1]);
      BetweenTasks(ss, ts[..|ts| - 1], mu) + (if xs == [] then 0.0 else OffMean(|xs| as real, Mean(xs), mu))
  }

  lemma DeviationSnoc(xs: seq<real>, x: real, mu: real)
    ensures SquaredDeviation(xs + [x], mu) == SquaredDeviation(xs, mu) + Square(x - mu)
  {
    assert (xs + [x])[..|xs|] == xs;
  }

  lemma DeviationByTaskSnoc(ss: seq<Sample>, ts: seq<string>, t: string, mu: real)
    ensures DeviationByTask(ss, ts + [t], mu) == DeviationByTask(ss, ts, mu) + SquaredDeviation(OfTask(ss, t), mu)
  {
    assert (ts + [t])[..|ts|] == ts;
  }

  lemma OneMoreInTask(ss: seq<Sample>, s: Sample, t: string, mu: real)
    ensures SquaredDeviation(OfTask(ss + [s], t), mu)
      == SquaredDeviation(OfTask(ss, t), mu) + (if s.task == t then Square(s.value - mu) else 0.0)
  {
    hide *;
    OfTaskSnoc(ss, s, t);
    DeviationSnoc(OfTask(ss, t), s.value, mu);
    assert OfTask(ss, t) + [] == OfTask(ss, t);
  }

  lemma NoTasksDeviate(ss: seq<Sample>, mu: real)
    ensures DeviationByTask(ss, [], mu) == 0.0
  {
  }

  lemma {:induction false} OneMoreSample(ss: seq<Sample>, s: Sample, ts: seq<string>, mu: real)
    requires forall i, j | 0 <= i < j < |ts| :: ts[i] != ts[j]
    ensures DeviationByTask(ss + [s], ts, mu)
         == DeviationByTask(ss, ts, mu) + (if s.task in ts then Square(s.value - mu) else 0.0)
  {
    hide *;
    if ts == [] {
      NoTasksDeviate(ss, mu);
      NoTasksDeviate(ss + [s], mu);
    } else {
      var front, t := ts[..|ts| - 1], ts[|ts| - 1];
      assert ts == front + [t];
      OneMoreSample(ss, s, front, mu);
      OneMoreInTask(ss, s, t, mu);
      DeviationByTaskSnoc(ss, front, t, mu);
      DeviationByTaskSnoc(ss + [s], front, t, mu);
    }
  }

  lemma ValuesSnoc(ss: seq<Sample>, s: Sample)
    ensures Values(ss + [s]) == Values(ss) + [s.value]
  {
    assert (ss + [s])[..|ss|] == ss;
  }

  lemma DeviationStepOld(front: seq<Sample>, s: Sample, mu: real)
    requires s.task in Tasks(front)
    ensures DeviationByTask(front + [s], Tasks(front + [s]), mu)
         == DeviationByTask(front, Tasks(front), mu) + Square(s.value - mu)
  {
    TasksSnoc(front, s);
    assert Tasks(front) + [] == Tasks(front);
    OneMoreSample(front, s, Tasks(front), mu);
    hide *;
  }

  lemma NewTaskDeviation(front: seq<Sample>, s: Sample, mu: real)
    requires s.task !in Tasks(front)
    ensures SquaredDeviation(OfTask(front + [s], s.task), mu) == Square(s.value - mu)
  {
    AbsentTask(front, s.task);
    OfTaskSnoc(front, s, s.task);
    assert [] + [s.value] == [s.value];
    DeviationSnoc([], s.value, mu);
  }

  lemma DeviationStepNew(front: seq<Sample>, s: Sample, mu: real)
    requires s.task !in Tasks(front)
    ensures DeviationByTask(front + [s], Tasks(front + [s]), mu)
         == DeviationByTask(front, Tasks(front), mu) + Square(s.value - mu)
  {
    hide *;
    TasksSnoc(front, s);
    OneMoreSample(front, s, Tasks(front), mu);
    DeviationByTaskSnoc(front + [s], Tasks(front), s.task, mu);
    NewTaskDeviation(front, s, mu);
  }

  lemma DeviationStep(front: seq<Sample>, s: Sample, mu: real)
    requires SquaredDeviation(Values(front), mu) == DeviationByTask(front, Tasks(front), mu)
    ensures SquaredDeviation(Values(front + [s]), mu) == DeviationByTask(front + [s], Tasks(front + [s]), mu)
  {
    ValuesSnoc(front, s);
    DeviationSnoc(Values(front), s.value, mu);
    if s.task in Tasks(front) { DeviationStepOld(front, s, mu); } else { DeviationStepNew(front, s, mu); }
    hide *;
  }

  lemma NothingDeviates(mu: real)
    ensures SquaredDeviation(Values([]), mu) == DeviationByTask([], Tasks([]), mu)
  {
    assert Values([]) == [];
    assert Tasks([]) == [];
    hide Values, Tasks, OfTask;
  }

  lemma {:induction false} DeviationSplitsByTask(ss: seq<Sample>, mu: real)
    ensures SquaredDeviation(Values(ss), mu) == DeviationByTask(ss, Tasks(ss), mu)
  {
    hide *;
    if ss == [] {
      NothingDeviates(mu);
    } else {
      var front, s := ss[..|ss| - 1], ss[|ss| - 1];
      DeviationSplitsByTask(front, mu);
      assert ss == front + [s];
      DeviationStep(front, s, mu);
    }
  }

  lemma SingleScatter(x: real)
    ensures Scatter([x]) == 0.0
  {
    assert [x][..0] == [];
    assert Sum([x]) == Sum([]) + x;
    assert Mean([x]) == x;
    assert SquaredDeviation([x], x) == SquaredDeviation([], x) + Square(x - x);
  }

  lemma {:induction false} WithinPlusBetween(ss: seq<Sample>, ts: seq<string>, mu: real)
    ensures DeviationByTask(ss, ts, mu) == WithinScatter(ss, ts) + BetweenTasks(ss, ts, mu)
  {
    if ts != [] {
      var n := |ts| - 1;
      WithinPlusBetween(ss, ts[..n], mu);
      var xs := OfTask(ss, ts[n]);
      if xs != [] {
        DeviationAbout(xs, mu);
        if |xs| == 1 { SingleScatter(xs[0]); }
      }
      hide Scatter, OffMean, Mean;
    }
  }

  /** Main result: total squared deviation is the within-task part the guardian pools plus the
      between-task part it leaves out. */
  lemma TotalScatterSplits(ss: seq<Sample>)
    requires ss != []
    ensures Scatter(Values(ss)) == WithinScatter(ss, Tasks(ss)) + BetweenTasks(ss, Tasks(ss), Mean(Values(ss)))
  {
    DeviationSplitsByTask(ss, Mean(Values(ss)));
    WithinPlusBetween(ss, Tasks(ss), Mean(Values(ss)));
  }

  // --- where the two estimates agree, and where they do not -------------------------------------

  lemma {:induction false} OneTaskOnly(ss: seq<Sample>, t: string)
    requires ss != [] && forall k | 0 <= k < |ss| :: ss[k].task == t
    ensures Tasks(ss) == [t] && OfTask(ss, t) == Values(ss)
  {
    var n := |ss| - 1;
    if n > 0 {
      OneTaskOnly(ss[..n], t);
    } else {
      assert ss[..n] == [];
    }
  }

  lemma OneTaskWithin(ss: seq<Sample>, t: string)
    requires |ss| >= 2 && forall k | 0 <= k < |ss| :: ss[k].task == t
    ensures WithinScatter(ss, Tasks(ss)) == Scatter(Values(ss))
    ensures WithinFreedom(ss, Tasks(ss)) == |ss| - 1
  {
    OneTaskOnly(ss, t);
    assert [t][..0] == [];
    assert WithinScatter(ss, []) == 0.0 && WithinFreedom(ss, []) == 0;
    hide Scatter;
  }

  lemma AverageOfQuotients(x: real, y: real, n: real)
    requires n > 0.0
    ensures (x + y) / (n + n) == (x / n + y / n) / 2.0
  {
    assert (x + y) / (n + n) == (x + y) / (2.0 * n);
    assert x / n + y / n == (x + y) / n;
    assert (x + y) / (2.0 * n) * (2.0 * n) == (x + y) / n * n;
  }

  lemma SingleFreedom(ss: seq<Sample>, t: string)
    requires |OfTask(ss, t)| == 1
    ensures WithinFreedom(ss, [t]) == 0
  {
    assert [t][..0] == [];
    assert WithinFreedom(ss, []) == 0;
  }

  /** Main result: on a single task with equally many attempts per side the guardian's and the
      verifier's estimates, and so their verdicts, are the same. */
  lemma EstimatesAgreeOnOneTask(b: seq<Sample>, c: seq<Sample>, t: string)
    requires |b| == |c| > 0
    requires (forall k | 0 <= k < |b| :: b[k].task == t) && (forall k | 0 <= k < |c| :: c[k].task == t)
    ensures PooledWithin(b, c) == PooledAcross(b, c)
  {
    if |b| >= 2 {
      OneTaskWithin(b, t);
      OneTaskWithin(c, t);
      AverageOfQuotients(Scatter(Values(b)), Scatter(Values(c)), (|b| - 1) as real);
      hide Scatter, WithinScatter, WithinFreedom, Values;
    } else {
      OneTaskOnly(b, t);
      OneTaskOnly(c, t);
      SingleFreedom(b, t);
      SingleFreedom(c, t);
    }
  }
}
