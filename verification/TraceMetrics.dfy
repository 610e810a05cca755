/** A run reduced to numbers (packages/axiom-core/src/trace.ts:105-165).  Durations, token sums and the
    assistant's texts, which are copied, are left out. */
module TraceMetrics {
  import opened Domain
  import opened PairingLaws
  import opened TracePairing

  /** What repeats are found by: the name, a NUL, the raw arguments. */
  function KeyOf(inv: ToolInvocation): string { inv.name + "\0" + inv.args }

  function Keys(out: seq<ToolInvocation>): (keys: seq<string>)
    ensures |keys| == |out| && forall k | 0 <= k < |out| :: keys[k] == KeyOf(out[k])
  {
    seq(|out|, k requires 0 <= k < |out| => KeyOf(out[k]))
  }

  /** Some calls of these two names share a key. */
  ghost predicate MayCollide(p: string, q: string) {
    exists a, b :: IsCallOf(a, p) && IsCallOf(b, q) && KeyOf(a) == KeyOf(b)
  }

  predicate IsCallOf(inv: ToolInvocation, name: string) { inv.name == name }

  /** The shorter of two names that share a key, with its NUL, begins the longer. */
  lemma SharedKeyNests(a: ToolInvocation, b: ToolInvocation)
    requires KeyOf(a) == KeyOf(b) && |a.name| <= |b.name|
    ensures a.name == b.name || a.name + "\0" <= b.name
  {
    var key := KeyOf(a);
    assert key[..|a.name|] == a.name && key[|a.name|] == '\0' && key[..|b.name|] == b.name;
    if |a.name| < |b.name| {
      assert b.name[..|a.name| + 1] == key[..|a.name| + 1] == a.name + "\0";
    } else {
      assert a.name == b.name;
    }
  }

  function CallOf(name: string, args: string): ToolInvocation {
    ToolInvocation(0, name, args, false, None, false, None, None)
  }

  lemma NestedNamesCollide(p: string, q: string)
    requires p + "\0" <= q
    ensures MayCollide(p, q)
  {
    var rest := q[|p| + 1..];
    assert q == p + "\0" + rest;
    var a, b := CallOf(p, rest + "\0"), CallOf(q, "");
    assert KeyOf(a) == p + "\0" + (rest + "\0");
    assert KeyOf(b) == q + "\0" + "";
    assert IsCallOf(a, p) && IsCallOf(b, q);
  }

  lemma CollisionIsSymmetric(p: string, q: string)
    requires MayCollide(p, q)
    ensures MayCollide(q, p)
  {
    var a, b :| IsCallOf(a, p) && IsCallOf(b, q) && KeyOf(a) == KeyOf(b);
  }

  /** Calls of two names can share a key if and only if the names are equal or one, with a NUL behind it,
      begins the other. */
  lemma NamesCollideIff(p: string, q: string)
    ensures MayCollide(p, q) <==> p == q || p + "\0" <= q || q + "\0" <= p
  {
    if MayCollide(p, q) {
      var a, b :| IsCallOf(a, p) && IsCallOf(b, q) && KeyOf(a) == KeyOf(b);
      if |p| <= |q| { SharedKeyNests(a, b); } else { SharedKeyNests(b, a); }
    }
    if p == q {
      assert IsCallOf(CallOf(p, ""), p) && KeyOf(CallOf(p, "")) == KeyOf(CallOf(q, ""));
    }
    if p + "\0" <= q { NestedNamesCollide(p, q); }
    if q + "\0" <= p {
      NestedNamesCollide(q, p);
      CollisionIsSymmetric(q, p);
    }
  }

  lemma NestingNeedsNul(p: string, q: string)
    requires p + "\0" <= q
    ensures '\0' in q
  {
    assert q[|p|] == (p + "\0")[|p|];
  }

  /** So names without a NUL are told apart from their arguments. */
  lemma KeysTellCallsApart(a: ToolInvocation, b: ToolInvocation)
    requires '\0' !in a.name && '\0' !in b.name
    ensures KeyOf(a) == KeyOf(b) <==> a.name == b.name && a.args == b.args
  {
    NamesCollideIff(a.name, b.name);
    forall p, q | p + "\0" <= q ensures '\0' in q { NestingNeedsNul(p, q); }
    if KeyOf(a) == KeyOf(b) {
      assert IsCallOf(a, a.name) && IsCallOf(b, b.name);
      assert a.args == KeyOf(a)[|a.name| + 1..] == KeyOf(b)[|b.name| + 1..] == b.args;
    }
  }

  /** And every name holding a NUL collides with what stands before it. */
  lemma NulNamesCollide(name: string, i: nat)
    requires i < |name| && name[i] == '\0'
    ensures MayCollide(name[..i], name) && name[..i] != name
  {
    assert name[..i] + "\0" == name[..i + 1] <= name;
    NamesCollideIff(name[..i], name);
  }

  /** One such pair. */
  lemma CollidingCalls(a: ToolInvocation, b: ToolInvocation)
    requires a.name == "x\0y" && a.args == "z" && b.name == "x" && b.args == "y\0z"
    ensures KeyOf(a) == KeyOf(b) && a.name != b.name
  {
    assert KeyOf(a) == "x\0y\0z" == KeyOf(b);
  }

  // --- the longest streak -------------------------------------------------------------------------

  /** n equal keys in a row, from position i on. */
  predicate IsRun(keys: seq<string>, i: int, n: int) {
    0 <= i && 0 < n && i + n <= |keys| && forall k | i <= k < i + n :: keys[k] == keys[i]
  }

  datatype Repeat = Repeat(start: nat, count: nat)

  /** No run that ends by `end` is longer, and none as long starts earlier. */
  ghost predicate IsLongest(keys: seq<string>, end: nat, best: Option<Repeat>) {
    && (best.None? ==> forall i, n | IsRun(keys, i, n) && i + n <= end :: n == 1)
    && (best.Some? ==>
          && best.value.count >= 2 && IsRun(keys, best.value.start, best.value.count)
          && best.value.start + best.value.count <= end
          && forall i, n | IsRun(keys, i, n) && i + n <= end ::
              n <= best.value.count && (n == best.value.count ==> best.value.start <= i))
  }

  lemma RunsEndingHere(keys: seq<string>, start: nat, count: nat, i: int, n: int)
    requires IsRun(keys, start, count) && (start > 0 ==> keys[start - 1] != keys[start])
    requires IsRun(keys, i, n) && i + n == start + count
    ensures n <= count
  {
  }

  method LongestRepeat(keys: seq<string>) returns (best: Option<Repeat>)
    ensures IsLongest(keys, |keys|, best)
  {
    best := None;
    var streak, streakStart := 0, 0;
    var i := 0;
    while i < |keys|
      invariant i <= |keys| && IsLongest(keys, i, best)
      invariant if i == 0 then streak == 0 else streakStart + streak == i && IsRun(keys, streakStart, streak)
      invariant 0 <= streakStart && (0 < streakStart < |keys| ==> keys[streakStart - 1] != keys[streakStart])
    {
      if i > 0 && keys[i] == keys[i - 1] {
        streak := streak + 1;
      } else {
        streak, streakStart := 1, i;
      }
      assert IsRun(keys, streakStart, streak);
      forall j, n | IsRun(keys, j, n) && j + n == i + 1 ensures n <= streak {
        RunsEndingHere(keys, streakStart, streak, j, n);
      }
      if streak >= 2 && (best.None? || streak > best.value.count) {
        best := Some(Repeat(streakStart, streak));
      }
      i := i + 1;
    }
  }

  // --- the counts ---------------------------------------------------------------------------------

  predicate IsFailure(inv: ToolInvocation) { inv.ok == Some(false) && !inv.denied }

  predicate IsUnanswered(inv: ToolInvocation) { inv.resultSeq.None? }

  function CountIf(out: seq<ToolInvocation>, p: ToolInvocation -> bool): nat {
    if out == [] then 0 else CountIf(out[..|out| - 1], p) + (if p(out[|out| - 1]) then 1 else 0)
  }

  method Count(out: seq<ToolInvocation>, p: ToolInvocation -> bool) returns (n: nat)
    ensures n == CountIf(out, p)
  {
    n := 0;
    var k := 0;
    while k < |out|
      invariant k <= |out| && n == CountIf(out[..k], p)
    {
      assert out[..k + 1][..k] == out[..k];
      if p(out[k]) {
        n := n + 1;
      }
      k := k + 1;
    }
    assert out[..k] == out;
  }

  lemma {:induction false} CountIfIs(out: seq<ToolInvocation>, p: ToolInvocation -> bool)
    ensures CountIf(out, p) == |set k | 0 <= k < |out| && p(out[k])|
  {
    if out != [] {
      var n := |out| - 1;
      CountIfIs(out[..n], p);
      var fewer := set k | 0 <= k < n && p(out[..n][k]);
      assert (set k | 0 <= k < |out| && p(out[k])) == fewer + (if p(out[n]) then {n} else {});
    }
  }

  lemma {:induction false} CountIfSplit(out: seq<ToolInvocation>, p: ToolInvocation -> bool, m: nat)
    requires m <= |out|
    requires forall k | 0 <= k < |out| :: p(out[k]) <==> m <= k
    ensures CountIf(out, p) == |out| - m
  {
    if out != [] {
      if m < |out| { CountIfSplit(out[..|out| - 1], p, m); } else { CountIfSplit(out[..|out| - 1], p, m - 1); }
    }
  }

  /** The unanswered calls of a name, counted in the result, are those its ledger leaves open. */
  lemma UnansweredCallsOfAName(steps: seq<TraceStep>, name: string, out: seq<ToolInvocation>, unreadable: Unreadable)
    requires IsPairing(steps, out, unreadable)
    ensures CountIf(Named(out, name), IsUnanswered) == Unanswered(steps, name)
  {
    AnsweredIsAPrefix(steps, name, out, unreadable);
    hide LedgerOf, Named, IsPairing, CountIf;
    CountIfSplit(Named(out, name), IsUnanswered, |LedgerOf(steps, name).answers|);
  }

  lemma {:induction false} AtMostOneVerdict(out: seq<ToolInvocation>)
    requires forall inv | inv in out && IsUnanswered(inv) :: inv.ok.None? && !inv.denied
    requires forall inv | inv in out && inv.denied :: inv.ok == Some(false)
    ensures CountIf(out, IsUnanswered) + CountIf(out, (inv: ToolInvocation) => inv.denied) + CountIf(out, IsFailure)
      <= |out|
  {
    if out != [] {
      AtMostOneVerdict(out[..|out| - 1]);
    }
  }

  lemma VerdictsAreConsistent(
    steps: seq<TraceStep>, out: seq<ToolInvocation>, unreadable: Unreadable, inv: ToolInvocation)
    requires IsPairing(steps, out, unreadable) && inv in out
    ensures (IsUnanswered(inv) ==> inv.ok.None? && !inv.denied) && (inv.denied ==> inv.ok == Some(false))
  {
    var i :| 0 <= i < |out| && out[i] == inv;
    var j := PositionOf(out, i);
    AnsweredIsAPrefix(steps, inv.name, out, unreadable);
    hide LedgerOf, Calls, IsPairing, Positions;
    assert Named(out, inv.name)[j] == inv;
  }

  // --- claimed done, and checked before that --------------------------------------------------------

  /** The earliest `done` step's seq. */
  ghost predicate IsFirstDone(steps: seq<TraceStep>, first: Option<int>) {
    && (first.None? ==> forall k | 0 <= k < |steps| :: steps[k].kind != Done)
    && (first.Some? ==>
          && (exists k :: 0 <= k < |steps| && steps[k].kind == Done && steps[k].seqNo == first.value)
          && forall k | 0 <= k < |steps| && steps[k].kind == Done :: first.value <= steps[k].seqNo)
  }

  method FirstDone(steps: seq<TraceStep>) returns (first: Option<int>)
    ensures IsFirstDone(steps, first)
  {
    first := None;
    var n := 0;
    while n < |steps|
      invariant n <= |steps| && IsFirstDone(steps[..n], first)
    {
      assert steps[..n + 1] == steps[..n] + [steps[n]];
      if steps[n].kind == Done && (first.None? || steps[n].seqNo < first.value) {
        first := Some(steps[n].seqNo);
        assert steps[..n + 1][n] == steps[n];
      }
      assert forall k | 0 <= k < n :: steps[..n + 1][k] == steps[..n][k];
      n := n + 1;
    }
    assert steps[..n] == steps;
  }

  /** The agent loop's own judgement of what checks the work, injected. */
  type Policy = (string, string) -> bool

  /** A check made no later than the first claim of being done. */
  predicate Verifies(inv: ToolInvocation, first: Option<int>, policy: Policy) {
    (first.None? || inv.seqNo <= first.value) && policy(inv.name, inv.args)
  }

  datatype RunMetrics = RunMetrics(
    toolCalls: nat,
    toolFailures: nat,
    deniedCalls: nat,
    unansweredCalls: nat,
    distinctToolCalls: nat,
    longestRepeatRun: Option<LongestRun>,
    firstDoneSeq: Option<int>,
    verificationCalls: nat,
    invocations: seq<ToolInvocation>)

  datatype LongestRun = LongestRun(name: string, args: string, count: nat, firstSeq: int)

  /** The four counts: calls without an answer, calls that failed without having been denied, denied calls, and
      calls the policy takes for a check no later than the first claim of being done. */
  ghost predicate CountsOf(m: RunMetrics, policy: Policy) {
    var invs := m.invocations;
    && m.unansweredCalls == |set k | 0 <= k < |invs| && invs[k].resultSeq.None?|
    && m.toolFailures == |set k | 0 <= k < |invs| && invs[k].ok == Some(false) && !invs[k].denied|
    && m.deniedCalls == |set k | 0 <= k < |invs| && invs[k].denied|
    && m.verificationCalls
       == |set k | 0 <= k < |invs| && (m.firstDoneSeq.Some? ==> invs[k].seqNo <= m.firstDoneSeq.value)
                   && policy(invs[k].name, invs[k].args)|
  }

  lemma CountsAre(m: RunMetrics, policy: Policy, denied: ToolInvocation -> bool, verifies: ToolInvocation -> bool)
    requires forall inv :: denied(inv) <==> inv.denied
    requires forall inv :: verifies(inv) <==> Verifies(inv, m.firstDoneSeq, policy)
    requires m.unansweredCalls == CountIf(m.invocations, IsUnanswered)
    requires m.toolFailures == CountIf(m.invocations, IsFailure)
    requires m.deniedCalls == CountIf(m.invocations, denied)
    requires m.verificationCalls == CountIf(m.invocations, verifies)
    ensures CountsOf(m, policy)
  {
    hide CountIf;
    var invs := m.invocations;
    var open: ToolInvocation -> bool, failed: ToolInvocation -> bool := IsUnanswered, IsFailure;
    CountIfIs(invs, open);
    CountIfIs(invs, failed);
    CountIfIs(invs, denied);
    CountIfIs(invs, verifies);
    assert (set k | 0 <= k < |invs| && open(invs[k])) == set k | 0 <= k < |invs| && invs[k].resultSeq.None?;
    assert (set k | 0 <= k < |invs| && failed(invs[k]))
      == set k | 0 <= k < |invs| && invs[k].ok == Some(false) && !invs[k].denied;
    assert (set k | 0 <= k < |invs| && denied(invs[k])) == set k | 0 <= k < |invs| && invs[k].denied;
    assert (set k | 0 <= k < |invs| && verifies(invs[k]))
      == set k | 0 <= k < |invs| && (m.firstDoneSeq.Some? ==> invs[k].seqNo <= m.firstDoneSeq.value)
                 && policy(invs[k].name, invs[k].args);
  }

  method DeriveMetrics(steps: seq<TraceStep>, unreadable: Unreadable, policy: Policy) returns (m: RunMetrics)
    ensures IsPairing(BySeq(steps), m.invocations, unreadable)
    ensures m.toolCalls == |m.invocations|
    ensures m.unansweredCalls == CountIf(m.invocations, IsUnanswered)
    ensures CountsOf(m, policy)
    ensures m.unansweredCalls + m.deniedCalls + m.toolFailures <= m.toolCalls
    ensures IsFirstDone(steps, m.firstDoneSeq)
    ensures m.distinctToolCalls == |set key | key in Keys(m.invocations)|
    ensures m.longestRepeatRun.None? ==> IsLongest(Keys(m.invocations), m.toolCalls, None)
    ensures m.longestRepeatRun.Some? ==> exists start: nat | start < m.toolCalls ::
        && IsLongest(Keys(m.invocations), m.toolCalls, Some(Repeat(start, m.longestRepeatRun.value.count)))
        && m.longestRepeatRun.value.firstSeq == m.invocations[start].seqNo
        && m.longestRepeatRun.value.name + "\0" + m.longestRepeatRun.value.args == KeyOf(m.invocations[start])
  {
    var invocations := PairInvocations(steps, unreadable);
    forall inv | inv in invocations
      ensures (IsUnanswered(inv) ==> inv.ok.None? && !inv.denied) && (inv.denied ==> inv.ok == Some(false))
    {
      VerdictsAreConsistent(BySeq(steps), invocations, unreadable, inv);
    }
    AtMostOneVerdict(invocations);
    hide IsPairing, CountIf, BySeq, CountsOf;
    var keys := Keys(invocations);
    var failures := Count(invocations, IsFailure);
    var isDenied := (inv: ToolInvocation) => inv.denied;
    var denied := Count(invocations, isDenied);
    var open := Count(invocations, IsUnanswered);
    var best := LongestRepeat(keys);
    var first := FirstDone(steps);
    var verifies := (inv: ToolInvocation) => Verifies(inv, first, policy);
    var verifications := Count(invocations, verifies);
    var longest := None;
    if best.Some? {
      var inv := invocations[best.value.start + best.value.count - 1];
      assert keys[best.value.start] == keys[best.value.start + best.value.count - 1];
      longest := Some(LongestRun(inv.name, inv.args, best.value.count, invocations[best.value.start].seqNo));
    }
    hide IsLongest, KeyOf;
    m := RunMetrics(|invocations|, failures, denied, open, |set key | key in keys|, longest, first, verifications,
                    invocations);
    CountsAre(m, policy, isDenied, verifies);
  }
}
