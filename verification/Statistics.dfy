/** Means, scatter and the two noise estimates AXIOM uses: pooled within tasks (guardian.ts:93-164)
    and over all attempts of a side (roles.ts:218-252).  Values are reals and a spread is kept as
    its square, so no square root is needed. */
module Statistics {
  import opened Domain

  datatype Sample = Sample(task: string, value: real)

  // --- sums -------------------------------------------------------------------------------------

  function Sum(xs: seq<real>): real {
    if xs == [] then 0.0 else Sum(xs[..|xs| - 1]) + xs[|xs| - 1]
  }

  function Mean(xs: seq<real>): real
    requires xs != []
  {
    Sum(xs) / |xs| as real
  }

  function Square(x: real): real { x * x }

  function SquaredDeviation(xs: seq<real>, mu: real): real {
    if xs == [] then 0.0 else SquaredDeviation(xs[..|xs| - 1], mu) + Square(xs[|xs| - 1] - mu)
  }

  /** The sum of squared deviations from the sequence's own mean. */
  function Scatter(xs: seq<real>): real {
    if xs == [] then 0.0 else SquaredDeviation(xs, Mean(xs))
  }

  /** The sample variance; undefined below two values. */
  function Variance(xs: seq<real>): Option<real> {
    if |xs| < 2 then None else Some(Scatter(xs) / (|xs| - 1) as real)
  }

  // --- grouping by task -------------------------------------------------------------------------

  function Values(ss: seq<Sample>): (xs: seq<real>)
    ensures |xs| == |ss| && forall k | 0 <= k < |ss| :: xs[k] == ss[k].value
  {
    if ss == [] then [] else Values(ss[..|ss| - 1]) + [ss[|ss| - 1].value]
  }

  /** The distinct tasks, in the order of their first sample. */
  function Tasks(ss: seq<Sample>): (ts: seq<string>)
    ensures forall k | 0 <= k < |ss| :: ss[k].task in ts
    ensures forall i, j | 0 <= i < j < |ts| :: ts[i] != ts[j]
  {
    if ss == [] then []
    else
      var front, t := Tasks(ss[..|ss| - 1]), ss[|ss| - 1].task;
      if t in front then front else front + [t]
  }

  function OfTask(ss: seq<Sample>, t: string): seq<real> {
    if ss == [] then []
    else if ss[|ss| - 1].task == t then OfTask(ss[..|ss| - 1], t) + [ss[|ss| - 1].value]
    else OfTask(ss[..|ss| - 1], t)
  }

  // --- the pooled within-task estimate ----------------------------------------------------------

  /** Squared deviation within the tasks `ts` that have at least two samples. */
  function WithinScatter(ss: seq<Sample>, ts: seq<string>): real {
    if ts == [] then 0.0
    else
      var xs := OfTask(ss, ts[|ts| - 1]);
      WithinScatter(ss, ts[..|ts| - 1]) + (if |xs| < 2 then 0.0 else Scatter(xs))
  }

  function WithinFreedom(ss: seq<Sample>, ts: seq<string>): int {
    if ts == [] then 0
    else
      var xs := OfTask(ss, ts[|ts| - 1]);
      WithinFreedom(ss, ts[..|ts| - 1]) + (if |xs| < 2 then 0 else |xs| - 1)
  }

  /** The variance pooled within the tasks of both sides. */
  function PooledWithin(b: seq<Sample>, c: seq<Sample>): Option<real> {
    var df := WithinFreedom(b, Tasks(b)) + WithinFreedom(c, Tasks(c));
    if df == 0 then None
    else Some((WithinScatter(b, Tasks(b)) + WithinScatter(c, Tasks(c))) / df as real)
  }

  /** The verifier's estimate: the mean of the two sides' variances. */
  function PooledAcross(b: seq<Sample>, c: seq<Sample>): Option<real> {
    var vb, vc := Variance(Values(b)), Variance(Values(c));
    if vb.Some? && vc.Some? then Some((vb.value + vc.value) / 2.0) else None
  }

  /** Whether a movement clears a squared spread. */
  predicate BeyondNoise(delta: real, variance: Option<real>) {
    match variance
    case None => false
    case Some(v) => if v == 0.0 then delta != 0.0 else Square(delta) > v
  }

  function Delta(b: seq<Sample>, c: seq<Sample>): real
    requires b != [] && c != []
  {
    Mean(Values(c)) - Mean(Values(b))
  }

  // --- the methods that accumulate them ---------------------------------------------------------

  /** A map from task to its values, with its insertion order. */
  datatype Groups = Groups(order: seq<string>, values: map<string, seq<real>>)

  ghost predicate GroupsOf(g: Groups, ss: seq<Sample>) {
    && g.order == Tasks(ss)
    && (forall t :: t in g.values <==> t in g.order)
    && (forall t | t in g.values :: g.values[t] == OfTask(ss, t))
  }

  lemma OfTaskSnoc(ss: seq<Sample>, s: Sample, t: string)
    ensures OfTask(ss + [s], t) == OfTask(ss, t) + (if s.task == t then [s.value] else [])
  {
    assert (ss + [s])[..|ss|] == ss;
    assert OfTask(ss, t) + [] == OfTask(ss, t);
  }

  lemma TasksSnoc(ss: seq<Sample>, s: Sample)
    ensures Tasks(ss + [s]) == Tasks(ss) + (if s.task in Tasks(ss) then [] else [s.task])
  {
    assert (ss + [s])[..|ss|] == ss;
    assert Tasks(ss) + [] == Tasks(ss);
  }

  lemma {:induction false} AbsentTask(ss: seq<Sample>, t: string)
    requires t !in Tasks(ss)
    ensures OfTask(ss, t) == []
  {
    if ss != [] {
      hide *;
      var front, s := ss[..|ss| - 1], ss[|ss| - 1];
      assert ss == front + [s];
      TasksSnoc(front, s);
      OfTaskSnoc(front, s, t);
      AbsentTask(front, t);
    }
  }

  lemma NoGroups()
    ensures GroupsOf(Groups([], map[]), [])
  {
  }

  lemma KnownTask(g: Groups, ss: seq<Sample>, s: Sample)
    requires GroupsOf(g, ss) && s.task in g.values
    ensures GroupsOf(g.(values := g.values[s.task := g.values[s.task] + [s.value]]), ss + [s])
  {
    hide Tasks, OfTask;
    TasksSnoc(ss, s);
    assert Tasks(ss) + [] == Tasks(ss);
    forall t | t in g.values ensures OfTask(ss + [s], t) == OfTask(ss, t) + (if s.task == t then [s.value] else []) {
      OfTaskSnoc(ss, s, t);
    }
  }

  lemma NewTask(g: Groups, ss: seq<Sample>, s: Sample)
    requires GroupsOf(g, ss) && s.task !in g.values
    ensures GroupsOf(Groups(g.order + [s.task], g.values[s.task := [s.value]]), ss + [s])
  {
    hide Tasks, OfTask;
    TasksSnoc(ss, s);
    AbsentTask(ss, s.task);
    forall t | t in g.values || t == s.task
      ensures OfTask(ss + [s], t) == OfTask(ss, t) + (if s.task == t then [s.value] else [])
    {
      OfTaskSnoc(ss, s, t);
    }
    assert [] + [s.value] == [s.value];
  }

  method ValuesByTask(ss: seq<Sample>) returns (g: Groups)
    ensures GroupsOf(g, ss)
  {
    g := Groups([], map[]);
    hide GroupsOf;
    NoGroups();
    assert ss[..0] == [];
    for n := 0 to |ss|
      invariant GroupsOf(g, ss[..n])
    {
      assert ss[..n + 1] == ss[..n] + [ss[n]];
      var t, v := ss[n].task, ss[n].value;
      if t in g.values {
        KnownTask(g, ss[..n], ss[n]);
        g := g.(values := g.values[t := g.values[t] + [v]]);
      } else {
        NewTask(g, ss[..n], ss[n]);
        g := Groups(g.order + [t], g.values[t := [v]]);
      }
    }
    assert ss[..|ss|] == ss;
  }

  method AddScatter(xs: seq<real>, mu: real, ss0: real) returns (ss: real)
    ensures ss == ss0 + SquaredDeviation(xs, mu)
  {
    ss := ss0;
    for n := 0 to |xs|
      invariant ss == ss0 + SquaredDeviation(xs[..n], mu)
    {
      assert xs[..n + 1][..n] == xs[..n];
      ss := ss + Square(xs[n] - mu);
    }
    assert xs[..|xs|] == xs;
  }

  method AddSide(g: Groups, ghost side: seq<Sample>, ss0: real, df0: int) returns (ss: real, df: int)
    requires GroupsOf(g, side)
    ensures ss == ss0 + WithinScatter(side, Tasks(side))
    ensures df == df0 + WithinFreedom(side, Tasks(side))
  {
    ss, df := ss0, df0;
    for n := 0 to |g.order|
      invariant ss == ss0 + WithinScatter(side, g.order[..n])
      invariant df == df0 + WithinFreedom(side, g.order[..n])
    {
      assert g.order[..n + 1][..n] == g.order[..n];
      assert g.order[n] in g.order;
      var xs := g.values[g.order[n]];
      if |xs| < 2 { continue; }
      ss := AddScatter(xs, Mean(xs), ss);
      df := df + |xs| - 1;
    }
    assert g.order[..|g.order|] == g.order;
  }

  method WithinTaskSpread(b: seq<Sample>, c: seq<Sample>) returns (variance: Option<real>)
    ensures variance == PooledWithin(b, c)
  {
    hide GroupsOf, WithinScatter, WithinFreedom, Tasks;
    var gb := ValuesByTask(b);
    var gc := ValuesByTask(c);
    var ss, df := AddSide(gb, b, 0.0, 0);
    ss, df := AddSide(gc, c, ss, df);
    variance := if df == 0 then None else Some(ss / df as real);
  }

  // --- scatter about any point ------------------------------------------------------------------

  function SumOfSquares(xs: seq<real>): real {
    if xs == [] then 0.0 else SumOfSquares(xs[..|xs| - 1]) + Square(xs[|xs| - 1])
  }

  lemma ExpandSquare(x: real, mu: real)
    ensures Square(x - mu) == Square(x) - 2.0 * mu * x + Square(mu)
  {
  }

  /** The deviation about `mu` of `n` values with sum `s` and sum of squares `q`. */
  function Expanded(q: real, s: real, n: real, mu: real): real {
    q - 2.0 * mu * s + n * (mu * mu)
  }

  lemma ExpandStep(q: real, s: real, n: real, mu: real, x: real)
    ensures Expanded(q, s, n, mu) + Square(x - mu) == Expanded(q + Square(x), s + x, n + 1.0, mu)
  {
    ExpandSquare(x, mu);
    assert (n + 1.0) * (mu * mu) == n * (mu * mu) + mu * mu;
    assert 2.0 * mu * (s + x) == 2.0 * mu * s + 2.0 * mu * x;
  }

  lemma {:induction false} DeviationExpands(xs: seq<real>, mu: real)
    ensures SquaredDeviation(xs, mu) == Expanded(SumOfSquares(xs), Sum(xs), |xs| as real, mu)
  {
    if xs != [] {
      var n := |xs| - 1;
      DeviationExpands(xs[..n], mu);
      ExpandStep(SumOfSquares(xs[..n]), Sum(xs[..n]), n as real, mu, xs[n]);
      assert |xs| as real == n as real + 1.0;
      hide Square, Expanded;
    }
  }

  lemma SumFromMean(xs: seq<real>)
    requires xs != []
    ensures Sum(xs) == |xs| as real * Mean(xs)
  {
  }

  /** What `n` values with mean `m` add to the deviation by being measured from `mu`. */
  function OffMean(n: real, m: real, mu: real): real {
    n * Square(m - mu)
  }

  lemma ExpandAbout(q: real, s: real, n: real, m: real, mu: real)
    requires s == n * m
    ensures Expanded(q, s, n, mu) == Expanded(q, s, n, m) + OffMean(n, m, mu)
  {
    ExpandSquare(m, mu);
    assert n * (m * m - 2.0 * mu * m + mu * mu) == n * (m * m) - 2.0 * mu * (n * m) + n * (mu * mu);
    assert 2.0 * m * (n * m) == 2.0 * (n * (m * m));
  }

  /** Deviation about any point is the scatter plus what moving off the mean adds. */
  lemma DeviationAbout(xs: seq<real>, mu: real)
    requires xs != []
    ensures SquaredDeviation(xs, mu) == Scatter(xs) + OffMean(|xs| as real, Mean(xs), mu)
  {
    hide Mean, Square, Sum, SumOfSquares, Expanded, SquaredDeviation, OffMean;
    DeviationExpands(xs, mu);
    DeviationExpands(xs, Mean(xs));
    SumFromMean(xs);
    ExpandAbout(SumOfSquares(xs), Sum(xs), |xs| as real, Mean(xs), mu);
  }
}
