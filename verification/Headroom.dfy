/** Where the guardian's and the verifier's noise estimates part ways on pass rates: the verifier's
    estimate counts the spread between tasks (roles.ts:230-247), so it leaves no room for a gain when
    two thirds of the baseline already passes. */
module Headroom {
  import opened Domain
  import opened Statistics

  predicate Binary(xs: seq<real>) {
    forall k | 0 <= k < |xs| :: xs[k] == 0.0 || xs[k] == 1.0
  }

  lemma {:induction false} BinarySquares(xs: seq<real>)
    requires Binary(xs)
    ensures SumOfSquares(xs) == Sum(xs) && 0.0 <= Sum(xs) <= |xs| as real
  {
    if xs != [] {
      BinarySquares(xs[..|xs| - 1]);
    }
  }

  /** The scatter of `n` zeros and ones with mean `m`. */
  lemma BinaryScatter(xs: seq<real>)
    requires Binary(xs) && xs != []
    ensures 0.0 <= Mean(xs) <= 1.0
    ensures Scatter(xs) == |xs| as real * (Mean(xs) * (1.0 - Mean(xs)))
  {
    var n, m := |xs| as real, Mean(xs);
    BinarySquares(xs);
    SumFromMean(xs);
    assert 0.0 <= n * m <= n * 1.0;
    MeanInUnit(n, m);
    DeviationExpands(xs, m);
    hide Mean, Sum, SumOfSquares, SquaredDeviation;
    assert n * m - 2.0 * m * (n * m) + n * (m * m) == n * (m * (1.0 - m));
  }

  lemma MulNonNegative(a: real, b: real)
    requires a >= 0.0 && b >= 0.0
    ensures a * b >= 0.0
  {
  }

  lemma MulMonotone(a: real, b: real, k: real)
    requires a <= b && k >= 0.0
    ensures a * k <= b * k
  {
    MulNonNegative(b - a, k);
  }

  lemma MeanInUnit(n: real, m: real)
    requires n > 0.0 && 0.0 <= n * m <= n
    ensures 0.0 <= m <= 1.0
  {
  }

  lemma ScatterNonNegative(xs: seq<real>)
    requires Binary(xs) && xs != []
    ensures Scatter(xs) >= 0.0
  {
    BinaryScatter(xs);
    MulNonNegative(Mean(xs), 1.0 - Mean(xs));
    MulNonNegative(|xs| as real, Mean(xs) * (1.0 - Mean(xs)));
    hide Scatter, Mean;
  }

  function HalfOf(n: real, v: real): real
    requires n > 1.0
  {
    n * v / (n - 1.0) / 2.0
  }

  /** Half the sample variance of `n` zeros and ones with mean `m`. */
  function HalfVariance(n: real, m: real): real
    requires n > 1.0
  {
    HalfOf(n, m * (1.0 - m))
  }

  lemma HalfAtLeast(n: real, v: real, x: real)
    requires n >= 2.0 && v >= 0.0 && 2.0 * x <= v
    ensures x <= HalfOf(n, v)
  {
    MulMonotone(n - 1.0, n, v);
    QuotientAtLeast(n * v, n - 1.0, v);
  }

  /** With at most one third of zeros, their squared share stays under half the variance. */
  lemma ThirdIsTooLittle(n: real, m: real)
    requires m <= 1.0 && 3.0 * (1.0 - m) <= 1.0 && n >= 2.0
    ensures Square(1.0 - m) <= HalfVariance(n, m)
  {
    var f := 1.0 - m;
    MulMonotone(2.0 * f, m, f);
    assert 2.0 * f * f == 2.0 * Square(f);
    MulNonNegative(m, f);
    HalfAtLeast(n, m * f, Square(f));
  }

  lemma QuotientAtLeast(x: real, d: real, v: real)
    requires d > 0.0 && x >= d * v
    ensures x / d >= v
  {
  }

  lemma ProductOfNegatives(a: real, b: real)
    requires a < 0.0 && b < 0.0
    ensures 0.0 < a * b
  {
  }

  lemma SquarePositive(d: real)
    requires d != 0.0
    ensures 0.0 < Square(d)
  {
    if d < 0.0 {
      ProductOfNegatives(d, d);
    } else {
      ProductOfNegatives(-d, -d);
      assert (-d) * (-d) == d * d;
    }
    calc { 0.0; < d * d; == Square(d); }
  }

  lemma SquareMonotone(d: real, f: real)
    requires 0.0 <= d <= f
    ensures Square(d) <= Square(f)
  {
    MulMonotone(d, f, d);
    MulMonotone(d, f, f);
  }

  lemma NotBeyond(d: real, v: real)
    requires Square(d) <= v
    ensures !BeyondNoise(d, Some(v))
  {
    if d != 0.0 { SquarePositive(d); }
  }

  lemma BinaryVariance(xs: seq<real>)
    requires |xs| >= 2 && Binary(xs)
    ensures Variance(xs).Some? && Variance(xs).value >= 0.0
    ensures Variance(xs).value / 2.0 == HalfVariance(|xs| as real, Mean(xs))
  {
    BinaryScatter(xs);
    ScatterNonNegative(xs);
    QuotientAtLeast(Scatter(xs), |xs| as real - 1.0, 0.0);
    hide Scatter, Mean;
    assert (|xs| - 1) as real == |xs| as real - 1.0;
  }

  /** The verifier's estimate for two sides of zeros and ones. */
  lemma AcrossAtLeastHalf(b: seq<Sample>, c: seq<Sample>)
    requires |b| >= 2 && |c| >= 2 && Binary(Values(b)) && Binary(Values(c))
    ensures PooledAcross(b, c).Some?
    ensures PooledAcross(b, c).value >= HalfVariance(|b| as real, Mean(Values(b)))
  {
    BinaryVariance(Values(b));
    BinaryVariance(Values(c));
    hide Variance, HalfVariance, Mean, Values, Binary;
  }

  /** A movement that stays on the pass-rate scale is at most the baseline's fail share. */
  lemma DeltaAtMostFailShare(b: seq<Sample>, c: seq<Sample>)
    requires b != [] && c != [] && Binary(Values(c))
    ensures Delta(b, c) <= 1.0 - Mean(Values(b))
  {
    BinaryScatter(Values(c));
    hide Mean, Scatter;
  }

  lemma BeyondNeedsRoom(d: real, f: real, half: real, estimate: Option<real>)
    requires 0.0 <= d <= f && Square(f) <= half && estimate.Some? && half <= estimate.value
    ensures !BeyondNoise(d, estimate)
  {
    SquareMonotone(d, f);
    NotBeyond(d, estimate.value);
  }

  /** Main result: when at most a third of the baseline's attempts fail, no gain in pass rate, however
      large and however often repeated, clears the verifier's estimate. */
  lemma NoRoomAboveTwoThirds(b: seq<Sample>, c: seq<Sample>)
    requires |b| >= 2 && |c| >= 2 && Binary(Values(b)) && Binary(Values(c))
    requires 3.0 * (1.0 - Mean(Values(b))) <= 1.0
    ensures Delta(b, c) >= 0.0 ==> !BeyondNoise(Delta(b, c), PooledAcross(b, c))
  {
    hide *;
    var n, m := |b| as real, Mean(Values(b));
    BinaryScatter(Values(b));
    AcrossAtLeastHalf(b, c);
    ThirdIsTooLittle(n, m);
    DeltaAtMostFailShare(b, c);
    if Delta(b, c) >= 0.0 {
      BeyondNeedsRoom(Delta(b, c), 1.0 - m, HalfVariance(n, m), PooledAcross(b, c));
    }
  }

  // --- exactly how much room there is -------------------------------------------------------------

  /** How many of the values are zeros. */
  function Fails(xs: seq<real>): (k: nat)
    ensures k <= |xs|
  {
    if xs == [] then 0 else Fails(xs[..|xs| - 1]) + (if xs[|xs| - 1] == 0.0 then 1 else 0)
  }

  lemma {:induction false} PassesAndFails(xs: seq<real>)
    requires Binary(xs)
    ensures Sum(xs) == |xs| as real - Fails(xs) as real
  {
    if xs != [] { PassesAndFails(xs[..|xs| - 1]); }
  }

  lemma CancelFactor(a: real, b: real, k: real)
    requires k > 0.0
    ensures a * k <= b * k <==> a <= b
  {
    if a > b {
      PositiveProduct(a - b, k);
      assert (a - b) * k == a * k - b * k;
    } else {
      MulMonotone(a, b, k);
    }
  }

  lemma PositiveProduct(a: real, b: real)
    requires a > 0.0 && b > 0.0
    ensures a * b > 0.0
  {
  }

  lemma UnderQuotient(y: real, x: real, d: real)
    requires d > 0.0
    ensures y <= x / d <==> y * d <= x
  {
    assert x / d * d == x;
    CancelFactor(y, x / d, d);
  }

  lemma UnderHalf(y: real, n: real, v: real)
    requires n > 1.0
    ensures y <= HalfOf(n, v) <==> 2.0 * y * (n - 1.0) <= n * v
  {
    UnderQuotient(2.0 * y, n * v, n - 1.0);
  }

  function Reach(f: real, n: real): real { f * (3.0 * n - 2.0) }

  /** The squared fail share stays under half the variance exactly up to this share. */
  lemma RoomIff(n: real, f: real)
    requires n >= 2.0 && 0.0 <= f <= 1.0
    ensures Square(f) <= HalfVariance(n, 1.0 - f) <==> Reach(f, n) <= n
  {
    UnderHalf(Square(f), n, (1.0 - f) * f);
    Reordered(n, f);
    if f == 0.0 {
      assert n * ((1.0 - f) * f) == 0.0;
    } else {
      CancelFactor(2.0 * f * (n - 1.0), n * (1.0 - f), f);
      LinearInShare(n, f);
    }
  }

  lemma Reordered(n: real, f: real)
    ensures (1.0 - f) * (1.0 - (1.0 - f)) == (1.0 - f) * f
    ensures 2.0 * Square(f) * (n - 1.0) == 2.0 * f * (n - 1.0) * f
    ensures n * ((1.0 - f) * f) == n * (1.0 - f) * f
  {
  }

  lemma LinearInShare(n: real, f: real)
    ensures 2.0 * f * (n - 1.0) <= n * (1.0 - f) <==> f * (3.0 * n - 2.0) <= n
  {
    assert f * (3.0 * n - 2.0) == 2.0 * f * (n - 1.0) + n * f;
    assert n * (1.0 - f) == n - n * f;
  }

  lemma BeyondIsBySquares(d: real, v: real)
    requires v >= 0.0
    ensures BeyondNoise(d, Some(v)) <==> Square(d) > v
  {
    if d != 0.0 { SquarePositive(d); }
  }

  /** More than this many of n attempts must fail for any gain to clear the verifier's estimate. */
  predicate LeavesRoom(k: nat, n: nat) {
    k * (3 * n - 2) > n * n
  }

  function Times(f: real, n: real): real { f * n }

  lemma RoomInCounts(k: nat, n: nat, f: real)
    requires n >= 2 && Times(f, n as real) == k as real
    ensures Reach(f, n as real) > n as real <==> LeavesRoom(k, n)
  {
    var r := n as real;
    CancelFactor(Reach(f, r), r, r);
    assert Reach(f, r) * r == k as real * (3.0 * r - 2.0) by { assert Reach(f, r) * r == f * r * (3.0 * r - 2.0); }
    assert 3.0 * r - 2.0 == (3 * n - 2) as real;
    RealProduct(k, 3 * n - 2);
    RealProduct(n, n);
  }

  lemma RealProduct(a: int, b: int)
    ensures a as real * b as real == (a * b) as real
  {
  }

  /** From three attempts on, that is more than a third. */
  lemma RoomIsAThird(k: nat, n: nat)
    requires n >= 3
    ensures LeavesRoom(k, n) <==> 3 * k > n
  {
    if 3 * k > n {
      IntProduct(n + 1, 3 * k, 3 * n - 2);
      assert (n + 1) * (3 * n - 2) == 3 * (n * n) + n - 2;
      assert 3 * k * (3 * n - 2) == 3 * (k * (3 * n - 2));
    } else {
      IntProduct(3 * k, n, 3 * n - 2);
      assert n * (3 * n - 2) == 3 * (n * n) - 2 * n;
      assert 3 * k * (3 * n - 2) == 3 * (k * (3 * n - 2));
      assert n * n >= 0;
    }
  }

  lemma IntProduct(a: int, b: int, k: nat)
    requires a <= b
    ensures a * k <= b * k
  {
  }

  /** The same tasks and repeats, every attempt passing. */
  function Repaired(b: seq<Sample>): (c: seq<Sample>)
    ensures |c| == |b| && forall k | 0 <= k < |b| :: c[k] == Sample(b[k].task, 1.0)
  {
    seq(|b|, k requires 0 <= k < |b| => Sample(b[k].task, 1.0))
  }

  lemma {:induction false} RepairedValues(b: seq<Sample>)
    ensures forall k | 0 <= k < |b| :: Values(Repaired(b))[k] == 1.0
  {
    hide Sum;
  }

  lemma AllPassing(xs: seq<real>)
    requires |xs| >= 2 && forall k | 0 <= k < |xs| :: xs[k] == 1.0
    ensures Binary(xs) && Mean(xs) == 1.0 && Variance(xs) == Some(0.0)
  {
    hide SquaredDeviation, Sum, Scatter;
    ConstantDeviation(xs, 1.0);
    ConstantScatter(xs, 1.0);
    assert Sum(xs) == |xs| as real;
  }

  lemma RepairedMean(b: seq<Sample>)
    requires |b| >= 2
    ensures Binary(Values(Repaired(b))) && Mean(Values(Repaired(b))) == 1.0
    ensures Variance(Values(Repaired(b))) == Some(0.0)
  {
    hide *;
    RepairedValues(b);
    AllPassing(Values(Repaired(b)));
  }

  /** The share of the attempts that failed. */
  function Share(b: seq<Sample>): real
    requires b != []
  {
    1.0 - Mean(Values(b))
  }

  lemma ShareFromSum(n: real, m: real, s: real, k: real)
    requires s == n * m && s == n - k
    ensures Times(1.0 - m, n) == k
  {
    assert (1.0 - m) * n == n - n * m;
  }

  lemma MeanOfBinary(xs: seq<real>)
    requires Binary(xs) && xs != []
    ensures 0.0 <= Mean(xs) <= 1.0
  {
    hide *;
    BinaryScatter(xs);
  }

  lemma ShareOfSum(xs: seq<real>)
    requires xs != []
    ensures Times(1.0 - Mean(xs), |xs| as real) == |xs| as real - Sum(xs)
  {
    hide *;
    SumFromMean(xs);
    ShareFromSum(|xs| as real, Mean(xs), Sum(xs), |xs| as real - Sum(xs));
  }

  lemma FailShare(b: seq<Sample>)
    requires b != [] && Binary(Values(b))
    ensures 0.0 <= Share(b) <= 1.0 && Times(Share(b), |b| as real) == Fails(Values(b)) as real
  {
    hide *;
    var xs := Values(b);
    MeanOfBinary(xs);
    PassesAndFails(xs);
    ShareOfSum(xs);
    ShareIsWhatPassesNot(b);
    assert Share(b) == 1.0 - Mean(xs);
  }

  lemma AcrossWithoutSpread(b: seq<Sample>, c: seq<Sample>)
    requires Variance(Values(b)).Some? && Variance(Values(c)) == Some(0.0)
    ensures PooledAcross(b, c).Some? && PooledAcross(b, c).value == Variance(Values(b)).value / 2.0
  {
    hide Variance, Values;
  }

  lemma DeltaToPerfect(b: seq<Sample>, c: seq<Sample>)
    requires b != [] && c != [] && Mean(Values(c)) == 1.0
    ensures Delta(b, c) == Share(b)
  {
    hide Mean, Values;
  }

  lemma ShareIsWhatPassesNot(b: seq<Sample>)
    requires b != []
    ensures 1.0 - Share(b) == Mean(Values(b))
  {
    hide Mean, Values;
  }

  lemma HalfTheVariance(b: seq<Sample>, v: real)
    requires |b| >= 2 && Binary(Values(b)) && Variance(Values(b)) == Some(v)
    ensures v / 2.0 == HalfVariance(|b| as real, Mean(Values(b))) && v / 2.0 >= 0.0
  {
    hide *;
    BinaryVariance(Values(b));
    HalfOfNatural(v);
  }

  lemma HasVariance(xs: seq<real>)
    requires |xs| >= 2
    ensures Variance(xs).Some?
  {
    hide Scatter;
  }

  lemma RepairedEstimate(b: seq<Sample>)
    requires |b| >= 2 && Binary(Values(b))
    ensures Delta(b, Repaired(b)) == Share(b)
    ensures PooledAcross(b, Repaired(b)).Some?
    ensures PooledAcross(b, Repaired(b)).value == HalfVariance(|b| as real, Mean(Values(b))) >= 0.0
  {
    hide *;
    RepairedMean(b);
    DeltaToPerfect(b, Repaired(b));
    RepairedPools(b);
  }

  lemma RepairedPools(b: seq<Sample>)
    requires |b| >= 2 && Binary(Values(b))
    ensures PooledAcross(b, Repaired(b)).Some?
    ensures PooledAcross(b, Repaired(b)).value == HalfVariance(|b| as real, Mean(Values(b))) >= 0.0
  {
    hide *;
    HasVariance(Values(b));
    RepairedMean(b);
    AcrossWithoutSpread(b, Repaired(b));
    HalfTheVariance(b, Variance(Values(b)).value);
  }

  lemma HalfOfNatural(v: real)
    requires v >= 0.0
    ensures v / 2.0 >= 0.0
  {
  }

  /** Moving by the whole fail share f = 1 - m clears half the variance exactly when there is room. */
  lemma ShareClearsIff(k: nat, n: nat, m: real, f: real)
    requires n >= 2 && 0.0 <= f <= 1.0 && m == 1.0 - f
    requires Times(f, n as real) == k as real
    ensures Square(f) > HalfVariance(n as real, m) <==> LeavesRoom(k, n)
  {
    hide *;
    RoomIff(n as real, f);
    RoomInCounts(k, n, f);
  }

  /** A repair of everything clears the verifier's estimate exactly when there is room. */
  lemma RepairClearsIff(b: seq<Sample>)
    requires |b| >= 2 && Binary(Values(b))
    ensures BeyondNoise(Delta(b, Repaired(b)), PooledAcross(b, Repaired(b))) <==> LeavesRoom(Fails(Values(b)), |b|)
  {
    hide *;
    FailShare(b);
    RepairedEstimate(b);
    ShareIsWhatPassesNot(b);
    ShareClearsIff(Fails(Values(b)), |b|, Mean(Values(b)), Share(b));
    BeyondIsBySquares(Share(b), HalfVariance(|b| as real, Mean(Values(b))));
  }

  /** A measured gain in pass rate that clears the verifier's estimate. */
  ghost predicate GainClears(b: seq<Sample>, c: seq<Sample>)
    requires b != []
  {
    |c| >= 2 && Binary(Values(c)) && Delta(b, c) >= 0.0 && BeyondNoise(Delta(b, c), PooledAcross(b, c))
  }

  lemma NoGainClears(b: seq<Sample>, c: seq<Sample>)
    requires |b| >= 2 && Binary(Values(b)) && GainClears(b, c)
    ensures LeavesRoom(Fails(Values(b)), |b|)
  {
    hide Binary, Mean, Values, HalfVariance, BeyondNoise, PooledAcross, LeavesRoom, Fails, Delta, Times, Reach, Share,
      Square;
    var n, f, m := |b| as real, Share(b), Mean(Values(b));
    FailShare(b);
    AcrossAtLeastHalf(b, c);
    DeltaAtMostFailShare(b, c);
    ShareIsWhatPassesNot(b);
    ShareClearsIff(Fails(Values(b)), |b|, m, f);
    if Square(f) <= HalfVariance(n, m) {
      BeyondNeedsRoom(Delta(b, c), f, HalfVariance(n, m), PooledAcross(b, c));
    }
  }

  /** Main result: some gain in pass rate clears the verifier's estimate if and only if k failed of n
      baseline attempts satisfy k(3n - 2) > n * n; from three attempts on, if and only if more than a
      third failed. */
  lemma SomeGainClearsIff(b: seq<Sample>)
    requires |b| >= 2 && Binary(Values(b))
    ensures (exists c :: GainClears(b, c)) <==> LeavesRoom(Fails(Values(b)), |b|)
    ensures |b| >= 3 ==> ((exists c :: GainClears(b, c)) <==> 3 * Fails(Values(b)) > |b|)
  {
    hide Fails, LeavesRoom, Values, Binary, Share, Times, Mean, HalfVariance, PooledAcross, Delta, Repaired;
    RepairClearsIff(b);
    FailShare(b);
    RepairedMean(b);
    RepairedEstimate(b);
    if LeavesRoom(Fails(Values(b)), |b|) {
      assert GainClears(b, Repaired(b));
    }
    hide GainClears;
    forall c | GainClears(b, c) ensures LeavesRoom(Fails(Values(b)), |b|) { NoGainClears(b, c); }
    if |b| >= 3 { RoomIsAThird(Fails(Values(b)), |b|); }
  }

  // --- a whole task repaired --------------------------------------------------------------------

  predicate Deterministic(ss: seq<Sample>) {
    forall i, j | 0 <= i < |ss| && 0 <= j < |ss| && ss[i].task == ss[j].task :: ss[i].value == ss[j].value
  }

  lemma {:induction false} OfTaskConstant(ss: seq<Sample>, t: string, x: real)
    requires forall k | 0 <= k < |ss| && ss[k].task == t :: ss[k].value == x
    ensures forall k | 0 <= k < |OfTask(ss, t)| :: OfTask(ss, t)[k] == x
  {
    if ss != [] { OfTaskConstant(ss[..|ss| - 1], t, x); }
  }

  lemma {:induction false} ConstantDeviation(xs: seq<real>, x: real)
    requires forall k | 0 <= k < |xs| :: xs[k] == x
    ensures SquaredDeviation(xs, x) == 0.0 && Sum(xs) == |xs| as real * x
  {
    if xs != [] {
      var n := |xs| - 1;
      ConstantDeviation(xs[..n], x);
      assert (n as real + 1.0) * x == n as real * x + x;
    }
  }

  lemma ConstantScatter(xs: seq<real>, x: real)
    requires xs != [] && forall k | 0 <= k < |xs| :: xs[k] == x
    ensures Scatter(xs) == 0.0
  {
    ConstantDeviation(xs, x);
    assert |xs| as real * x / |xs| as real == x;
  }

  lemma {:induction false} DeterministicWithin(ss: seq<Sample>, ts: seq<string>)
    requires Deterministic(ss)
    ensures WithinScatter(ss, ts) == 0.0
  {
    if ts != [] {
      var n := |ts| - 1;
      DeterministicWithin(ss, ts[..n]);
      var xs := OfTask(ss, ts[n]);
      var x := if exists i :: 0 <= i < |ss| && ss[i].task == ts[n]
               then var i :| 0 <= i < |ss| && ss[i].task == ts[n]; ss[i].value else 0.0;
      OfTaskConstant(ss, ts[n], x);
      if xs != [] { ConstantScatter(xs, x); }
    }
  }

  /** Main result: a repair the guardian's floor was designed to accept is refused by the verifier.
      Every task answers the same way on every repeat, the candidate passes more, and at most a third
      of the baseline failed: the guardian sees no noise at all, the verifier too much. */
  lemma GuardianAcceptsWhatVerifierRefuses(b: seq<Sample>, c: seq<Sample>)
    requires |b| >= 2 && |c| >= 2 && Binary(Values(b)) && Binary(Values(c))
    requires Deterministic(b) && Deterministic(c) && PooledWithin(b, c).Some?
    requires 3.0 * (1.0 - Mean(Values(b))) <= 1.0 && Delta(b, c) > 0.0
    ensures BeyondNoise(Delta(b, c), PooledWithin(b, c))
    ensures !BeyondNoise(Delta(b, c), PooledAcross(b, c))
  {
    ZeroPooled(b, c);
    hide PooledWithin, PooledAcross, Delta, Mean, Values, Deterministic, Binary;
    NoRoomAboveTwoThirds(b, c);
  }

  /** For repairs of everything, the two estimators part exactly when something failed and there is no
      room. */
  lemma EstimatorsPartIff(b: seq<Sample>)
    requires |b| >= 2 && Binary(Values(b)) && Deterministic(b) && PooledWithin(b, Repaired(b)).Some?
    ensures BeyondNoise(Delta(b, Repaired(b)), PooledWithin(b, Repaired(b)))
        && !BeyondNoise(Delta(b, Repaired(b)), PooledAcross(b, Repaired(b)))
      <==> Fails(Values(b)) > 0 && !LeavesRoom(Fails(Values(b)), |b|)
  {
    hide *;
    RepairedIsDeterministic(b);
    ZeroPooled(b, Repaired(b));
    RepairClearsIff(b);
    FailShare(b);
    RepairedEstimate(b);
    BeyondNothing(Share(b));
    NoFailsNoShare(Share(b), |b| as real);
  }

  lemma RepairedIsDeterministic(b: seq<Sample>)
    ensures Deterministic(Repaired(b))
  {
  }

  lemma BeyondNothing(d: real)
    ensures BeyondNoise(d, Some(0.0)) <==> d != 0.0
  {
  }

  lemma NoFailsNoShare(f: real, n: real)
    requires n > 0.0
    ensures Times(f, n) == 0.0 <==> f == 0.0
  {
  }

  /** Three tasks run twice, the last failing both times. */
  function OneTaskFails(): seq<Sample> {
    [Sample("a", 1.0), Sample("a", 1.0), Sample("b", 1.0), Sample("b", 1.0), Sample("c", 0.0), Sample("c", 0.0)]
  }

  lemma ZeroPooled(b: seq<Sample>, c: seq<Sample>)
    requires Deterministic(b) && Deterministic(c) && PooledWithin(b, c).Some?
    ensures PooledWithin(b, c) == Some(0.0)
  {
    DeterministicWithin(b, Tasks(b));
    DeterministicWithin(c, Tasks(c));
    hide Deterministic, WithinScatter, WithinFreedom, Tasks;
  }

  lemma ValuesOne(ss: seq<Sample>, s: Sample)
    ensures Values(ss + [s]) == Values(ss) + [s.value]
  {
    assert (ss + [s])[..|ss|] == ss;
  }

  lemma FailsOne(xs: seq<real>, x: real)
    ensures Fails(xs + [x]) == Fails(xs) + (if x == 0.0 then 1 else 0)
  {
    assert (xs + [x])[..|xs|] == xs;
  }

  lemma {:induction false} ConcreteFails(ss: seq<Sample>, k: nat)
    requires k <= |ss| && forall j | 0 <= j < |ss| :: ss[j].value == if j < k then 1.0 else 0.0
    ensures Fails(Values(ss)) == |ss| - k && Binary(Values(ss))
  {
    if ss == [] {
      assert Values([]) == [];
    } else {
      var front, s := ss[..|ss| - 1], ss[|ss| - 1];
      assert ss == front + [s];
      ConcreteFails(front, if k < |ss| then k else k - 1);
      hide Values, Fails;
      ValuesOne(front, s);
      FailsOne(Values(front), s.value);
    }
  }

  lemma {:induction false} FreedomIsNatural(ss: seq<Sample>, ts: seq<string>)
    ensures WithinFreedom(ss, ts) >= 0
    ensures (exists t | t in ts :: |OfTask(ss, t)| >= 2) ==> WithinFreedom(ss, ts) > 0
  {
    if ts != [] {
      var front, t := ts[..|ts| - 1], ts[|ts| - 1];
      FreedomIsNatural(ss, front);
      assert ts == front + [t];
      hide OfTask;
    }
  }

  /** A task with two samples gives the pooled spread something to pool. */
  lemma TwoSamplesPool(b: seq<Sample>, c: seq<Sample>, front: seq<Sample>, s: Sample, t: Sample)
    requires b == front + [s] + [t] && s.task == t.task
    ensures PooledWithin(b, c).Some?
  {
    hide OfTask, Tasks, WithinFreedom, WithinScatter;
    OfTaskSnoc(front, s, s.task);
    OfTaskSnoc(front + [s], t, s.task);
    assert b[|front|] == s;
    FreedomIsNatural(b, Tasks(b));
    FreedomIsNatural(c, Tasks(c));
  }

  /** An input on which the estimators part: one task of three, always failing, is repaired. */
  lemma OneTaskRepairedIsRefused()
    ensures var b := OneTaskFails(); var c := Repaired(b);
      && Binary(Values(b)) && Binary(Values(c)) && Deterministic(b) && Deterministic(c)
      && PooledWithin(b, c).Some? && 3.0 * (1.0 - Mean(Values(b))) <= 1.0 && Delta(b, c) > 0.0
      && BeyondNoise(Delta(b, c), PooledWithin(b, c)) && !BeyondNoise(Delta(b, c), PooledAcross(b, c))
  {
    var b := OneTaskFails();
    ConcreteFails(b, 4);
    OneTaskIsDeterministic();
    assert b == b[..4] + [b[4]] + [b[5]] && b[4].task == b[5].task;
    hide *;
    TwoSamplesPool(b, Repaired(b), b[..4], b[4], b[5]);
    RepairedMean(b);
    RepairedIsDeterministic(b);
    FailShare(b);
    RepairedEstimate(b);
    ShareIsWhatPassesNot(b);
    AThird(Share(b));
    GuardianAcceptsWhatVerifierRefuses(b, Repaired(b));
  }

  lemma AThird(f: real)
    requires Times(f, 6.0) == 2.0
    ensures 3.0 * f == 1.0
  {
  }

  lemma OneTaskIsDeterministic()
    ensures Deterministic(OneTaskFails())
  {
  }
}
