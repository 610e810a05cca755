/** What pairing promises (packages/axiom-core/src/trace.ts:53-103). */
module PairingLaws {
  import opened Domain
  import opened TracePairing

  // --- the order of the steps ---------------------------------------------------------------------

  /** Behind everything not later. */
  function Insert(ordered: seq<TraceStep>, s: TraceStep): seq<TraceStep> {
    if ordered == [] || ordered[|ordered| - 1].seqNo <= s.seqNo then ordered + [s]
    else Insert(ordered[..|ordered| - 1], s) + [ordered[|ordered| - 1]]
  }

  /** The stable sort by seq. */
  function BySeq(steps: seq<TraceStep>): seq<TraceStep> {
    if steps == [] then [] else Insert(BySeq(steps[..|steps| - 1]), steps[|steps| - 1])
  }

  predicate InOrder(steps: seq<TraceStep>) {
    forall j, k | 0 <= j < k < |steps| :: steps[j].seqNo <= steps[k].seqNo
  }

  predicate DistinctSeqs(steps: seq<TraceStep>) {
    forall j, k | 0 <= j < k < |steps| :: steps[j].seqNo != steps[k].seqNo
  }

  function WithSeq(steps: seq<TraceStep>, n: int): seq<TraceStep> {
    if steps == [] then []
    else
      var last := steps[|steps| - 1];
      WithSeq(steps[..|steps| - 1], n) + (if last.seqNo == n then [last] else [])
  }

  lemma WithSeqSnoc(steps: seq<TraceStep>, s: TraceStep, n: int)
    ensures WithSeq(steps + [s], n) == WithSeq(steps, n) + (if s.seqNo == n then [s] else [])
  {
    assert (steps + [s])[..|steps|] == steps;
  }

  lemma {:induction false} InsertAdds(ordered: seq<TraceStep>, s: TraceStep)
    ensures multiset(Insert(ordered, s)) == multiset(ordered) + multiset{s}
  {
    if ordered != [] && ordered[|ordered| - 1].seqNo > s.seqNo {
      var init, last := ordered[..|ordered| - 1], ordered[|ordered| - 1];
      assert ordered == init + [last];
      InsertAdds(init, s);
    }
  }

  lemma {:induction false} InsertKeepsOrder(ordered: seq<TraceStep>, s: TraceStep)
    requires InOrder(ordered)
    ensures InOrder(Insert(ordered, s))
  {
    if ordered != [] && ordered[|ordered| - 1].seqNo > s.seqNo {
      var init, last := ordered[..|ordered| - 1], ordered[|ordered| - 1];
      InsertKeepsOrder(init, s);
      InsertAdds(init, s);
      var now := Insert(init, s);
      hide Insert;
      forall k | 0 <= k < |now| ensures now[k].seqNo <= last.seqNo {
        assert now[k] in multiset(now);
        assert now[k] in multiset(init) || now[k] == s;
      }
    }
  }

  lemma {:induction false} InsertBehindItsSeq(ordered: seq<TraceStep>, s: TraceStep, n: int)
    requires InOrder(ordered)
    ensures WithSeq(Insert(ordered, s), n) == WithSeq(ordered, n) + (if s.seqNo == n then [s] else [])
  {
    if ordered == [] || ordered[|ordered| - 1].seqNo <= s.seqNo {
      WithSeqSnoc(ordered, s, n);
    } else {
      var init, last := ordered[..|ordered| - 1], ordered[|ordered| - 1];
      InsertBehindItsSeq(init, s, n);
      WithSeqSnoc(Insert(init, s), last, n);
    }
  }

  /** A sort: in order, the same steps, and steps of one seq in the order they came in. */
  lemma {:induction false} BySeqSorts(steps: seq<TraceStep>, n: int)
    ensures InOrder(BySeq(steps)) && multiset(BySeq(steps)) == multiset(steps)
    ensures WithSeq(BySeq(steps), n) == WithSeq(steps, n)
  {
    if steps != [] {
      var init, last := steps[..|steps| - 1], steps[|steps| - 1];
      assert steps == init + [last];
      BySeqSorts(init, n);
      InsertAdds(BySeq(init), last);
      InsertKeepsOrder(BySeq(init), last);
      InsertBehindItsSeq(BySeq(init), last, n);
      hide Insert;
    }
  }

  ghost predicate SameMembers(a: seq<TraceStep>, b: seq<TraceStep>) {
    forall s :: s in a <==> s in b
  }

  lemma LatestIn(a: seq<TraceStep>, b: seq<TraceStep>)
    requires a != [] && b != [] && InOrder(b) && SameMembers(a, b)
    ensures a[|a| - 1].seqNo <= b[|b| - 1].seqNo
  {
    assert a[|a| - 1] in b;
    var i :| 0 <= i < |b| && b[i] == a[|a| - 1];
  }

  lemma InitMembers(a: seq<TraceStep>, s: TraceStep)
    requires a != [] && DistinctSeqs(a)
    ensures s in a[..|a| - 1] <==> s in a && s != a[|a| - 1]
  {
    var init, last := a[..|a| - 1], a[|a| - 1];
    assert a == init + [last];
    forall k | 0 <= k < |init| ensures init[k] != last { assert a[k].seqNo != a[|init|].seqNo; }
  }

  lemma SameLatest(a: seq<TraceStep>, b: seq<TraceStep>)
    requires a != [] && b != [] && InOrder(a) && InOrder(b) && DistinctSeqs(b) && SameMembers(a, b)
    ensures a[|a| - 1] == b[|b| - 1]
  {
    LatestIn(a, b);
    LatestIn(b, a);
    assert a[|a| - 1] in b;
    assert forall i | 0 <= i < |b| - 1 :: b[i].seqNo != b[|b| - 1].seqNo;
  }

  lemma {:induction false} OrderedIsUnique(a: seq<TraceStep>, b: seq<TraceStep>)
    requires InOrder(a) && InOrder(b) && DistinctSeqs(a) && DistinctSeqs(b) && SameMembers(a, b)
    ensures a == b
  {
    assert a != [] ==> a[0] in b;
    assert b != [] ==> b[0] in a;
    if a != [] && b != [] {
      SameLatest(a, b);
      var p, q := a[..|a| - 1], b[..|b| - 1];
      forall s ensures s in p <==> s in q {
        InitMembers(a, s);
        InitMembers(b, s);
      }
      OrderedIsUnique(p, q);
      assert a == p + [a[|a| - 1]] && b == q + [b[|b| - 1]];
    }
  }

  method PairInvocations(steps: seq<TraceStep>, unreadable: Unreadable) returns (out: seq<ToolInvocation>)
    ensures IsPairing(BySeq(steps), out, unreadable)
  {
    out := PairOrdered(BySeq(steps), unreadable);
  }

  /** A pairing is determined by the ordered steps. */
  lemma PairingIsUnique(steps: seq<TraceStep>, a: seq<ToolInvocation>, b: seq<ToolInvocation>, unreadable: Unreadable)
    requires IsPairing(steps, a, unreadable) && IsPairing(steps, b, unreadable)
    ensures a == b
  {
    hide Calls, LedgerOf, Paired;
    forall k | 0 <= k < |a| ensures a[k] == b[k] {
      var name := a[k].name;
      PositionsDependOnNames(a, b, name);
      var j := PositionOf(a, k);
      assert Named(a, name)[j] == a[k] && Named(b, name)[j] == b[k];
    }
  }

  lemma {:induction false} PositionOf(out: seq<ToolInvocation>, k: nat) returns (j: nat)
    requires k < |out|
    ensures j < |Positions(out, out[k].name)| && Positions(out, out[k].name)[j] == k
  {
    var init := out[..|out| - 1];
    if k == |init| {
      j := |Positions(init, out[k].name)|;
    } else {
      j := PositionOf(init, k);
    }
  }

  lemma {:induction false} AtMostOnce(a: seq<TraceStep>, s: TraceStep)
    requires DistinctSeqs(a)
    ensures multiset(a)[s] <= 1
  {
    if a != [] {
      var init, last := a[..|a| - 1], a[|a| - 1];
      assert a == init + [last];
      AtMostOnce(init, s);
      InitMembers(a, last);
      assert last !in multiset(init);
    }
  }

  lemma PermutationKeepsDistinct(a: seq<TraceStep>, b: seq<TraceStep>)
    requires multiset(a) == multiset(b) && DistinctSeqs(a)
    ensures DistinctSeqs(b)
  {
    forall j, k | 0 <= j < k < |b| ensures b[j].seqNo != b[k].seqNo {
      AtMostOnce(a, b[j]);
      assert b == b[..k] + b[k..];
      assert b[j] in b[..k] && b[k] in b[k..];
      assert b[j] != b[k];
      assert b[j] in multiset(a) && b[k] in multiset(a);
      var x :| 0 <= x < |a| && a[x] == b[j];
      var y :| 0 <= y < |a| && a[y] == b[k];
      assert if x < y then a[x].seqNo != a[y].seqNo else a[y].seqNo != a[x].seqNo;
    }
  }

  lemma SameStepsSameOrder(steps: seq<TraceStep>, shuffled: seq<TraceStep>)
    requires multiset(steps) == multiset(shuffled) && DistinctSeqs(steps)
    ensures BySeq(steps) == BySeq(shuffled)
  {
    BySeqSorts(steps, 0);
    BySeqSorts(shuffled, 0);
    var a, b := BySeq(steps), BySeq(shuffled);
    hide BySeq;
    PermutationKeepsDistinct(steps, a);
    PermutationKeepsDistinct(steps, b);
    forall s ensures s in a <==> s in b {
      assert s in a <==> s in multiset(a);
      assert s in b <==> s in multiset(b);
    }
    OrderedIsUnique(a, b);
  }

  /** With distinct seqs, the steps may arrive in any order. */
  lemma ArrivalOrderDoesNotMatter(steps: seq<TraceStep>, shuffled: seq<TraceStep>, a: seq<ToolInvocation>,
                                  b: seq<ToolInvocation>, unreadable: Unreadable)
    requires multiset(steps) == multiset(shuffled) && DistinctSeqs(steps)
    requires IsPairing(BySeq(steps), a, unreadable) && IsPairing(BySeq(shuffled), b, unreadable)
    ensures a == b
  {
    hide IsPairing, BySeq;
    SameStepsSameOrder(steps, shuffled);
    PairingIsUnique(BySeq(steps), a, b, unreadable);
  }

  // --- one name among others ----------------------------------------------------------------------

  function OfName(steps: seq<TraceStep>, name: string): seq<TraceStep> {
    if steps == [] then []
    else
      var last := steps[|steps| - 1];
      OfName(steps[..|steps| - 1], name) + (if NameOf(last) == name then [last] else [])
  }

  lemma {:induction false} OnlyItsOwnStepsCount(steps: seq<TraceStep>, name: string)
    ensures LedgerOf(steps, name) == LedgerOf(OfName(steps, name), name)
  {
    hide NameOf, Enter;
    if steps != [] {
      var init, last := steps[..|steps| - 1], steps[|steps| - 1];
      OnlyItsOwnStepsCount(init, name);
      LedgerSnoc(OfName(init, name), last, name);
      assert NameOf(last) != name ==> OfName(steps, name) == OfName(init, name);
    }
  }

  /** Whatever else interleaves, a name's pairing depends only on the steps carrying that name. */
  lemma InterleavingDoesNotMatter(steps: seq<TraceStep>, others: seq<TraceStep>, name: string, a: seq<ToolInvocation>,
                                  b: seq<ToolInvocation>, unreadable: Unreadable)
    requires OfName(steps, name) == OfName(others, name)
    requires IsPairing(steps, a, unreadable) && IsPairing(others, b, unreadable)
    ensures Named(a, name) == Named(b, name)
  {
    OnlyItsOwnStepsCount(steps, name);
    OnlyItsOwnStepsCount(others, name);
    hide LedgerOf, OfName, Named, Paired, Calls;
  }

  /** The answered calls of a name are a prefix of its calls; the rest stay unanswered. */
  lemma AnsweredIsAPrefix(steps: seq<TraceStep>, name: string, out: seq<ToolInvocation>, unreadable: Unreadable)
    requires IsPairing(steps, out, unreadable)
    ensures var l := LedgerOf(steps, name); var mine := Named(out, name);
      && |mine| == |l.calls|
      && (forall k | 0 <= k < |mine| :: mine[k].seqNo == l.calls[k].seqNo
            && mine[k].args == (if l.calls[k].detail.Some? then l.calls[k].detail.value else "")
            && mine[k].argsUnparsed == unreadable(l.calls[k].detail))
      && (forall k | 0 <= k < |l.answers| :: mine[k].resultSeq == Some(l.answers[k].seqNo)
            && mine[k].resultDetail == l.answers[k].detail && mine[k].denied == (l.answers[k].kind == Denied)
            && mine[k].ok == if l.answers[k].kind == Denied then Some(false) else l.answers[k].ok)
      && (forall k | |l.answers| <= k < |mine| :: mine[k].resultSeq.None? && mine[k].ok.None? && !mine[k].denied)
  {
    hide LedgerOf, Calls;
    var l := LedgerOf(steps, name);
    assert Named(out, name) == Paired(l, unreadable);
    hide Named, IsPairing;
  }

  /** Where in the run the k-th call, and the k-th answer that found a call, stand. */
  datatype Places = Places(calls: seq<nat>, answers: seq<nat>)

  function PlacesOf(steps: seq<TraceStep>, name: string): (p: Places)
    ensures |p.answers| <= |p.calls|
  {
    if steps == [] then Places([], [])
    else
      var n := |steps| - 1;
      var before := PlacesOf(steps[..n], name);
      if NameOf(steps[n]) != name then before
      else if IsCall(steps[n]) then before.(calls := before.calls + [n])
      else if IsAnswer(steps[n]) && |before.answers| < |before.calls| then before.(answers := before.answers + [n])
      else before
  }

  /** The places, read off the run, are the ledger. */
  ghost predicate PlacesMatch(steps: seq<TraceStep>, l: Ledger, p: Places) {
    && |p.calls| == |l.calls| && |p.answers| == |l.answers| <= |l.calls|
    && (forall k | 0 <= k < |p.calls| :: p.calls[k] < |steps| && steps[p.calls[k]] == l.calls[k])
    && (forall k | 0 <= k < |p.answers| :: p.answers[k] < |steps| && steps[p.answers[k]] == l.answers[k])
  }

  /** The step carries this name; a step without a label carries "?". */
  predicate Carries(s: TraceStep, name: string) {
    s.labelText == Some(name) || (s.labelText.None? && name == "?")
  }

  predicate CallsBy(s: TraceStep, name: string) { s.kind == ToolCall && Carries(s, name) }

  predicate Answers(s: TraceStep) { s.kind == ToolResult || s.kind == Denied }

  lemma CarriesIff(s: TraceStep, name: string)
    ensures NameOf(s) == name <==> Carries(s, name)
  {
  }

  /** Each answer serves at most one call, of its own name and earlier in the run. */
  lemma {:induction false} AnswersServeEarlierCalls(steps: seq<TraceStep>, name: string)
    ensures var p := PlacesOf(steps, name);
      && PlacesMatch(steps, LedgerOf(steps, name), p)
      && (forall k | 0 <= k < |p.calls| :: IsCall(steps[p.calls[k]]) && NameOf(steps[p.calls[k]]) == name)
      && (forall k | 0 <= k < |p.answers| :: IsAnswer(steps[p.answers[k]]) && NameOf(steps[p.answers[k]]) == name)
      && (forall k | 0 <= k < |p.answers| :: p.calls[k] < p.answers[k])
      && (forall j, k | 0 <= j < k < |p.answers| :: p.answers[j] < p.answers[k])
      && (forall j, k | 0 <= j < k < |p.calls| :: p.calls[j] < p.calls[k])
  {
    hide NameOf;
    if steps != [] {
      AnswersServeEarlierCalls(steps[..|steps| - 1], name);
    }
  }

  /** The places of a name's calls are all the tool calls that carry it. */
  lemma {:induction false} CallsAreAll(steps: seq<TraceStep>, name: string)
    ensures forall n | n in PlacesOf(steps, name).calls :: 0 <= n < |steps| && CallsBy(steps[n], name)
    ensures forall n | 0 <= n < |steps| && CallsBy(steps[n], name) :: n in PlacesOf(steps, name).calls
  {
    hide NameOf, Carries;
    if steps != [] {
      CallsAreAll(steps[..|steps| - 1], name);
      CarriesIff(steps[|steps| - 1], name);
    }
  }

  /** A name's answers carry it, and one goes unused only when it finds every call before it answered. */
  lemma {:induction false} AnswersAreThose(steps: seq<TraceStep>, name: string)
    ensures forall n | n in PlacesOf(steps, name).answers ::
        0 <= n < |steps| && Answers(steps[n]) && Carries(steps[n], name)
    ensures forall n | 0 <= n < |steps| && Answers(steps[n]) && Carries(steps[n], name) ::
        || n in PlacesOf(steps, name).answers
        || |PlacesOf(steps[..n], name).answers| == |PlacesOf(steps[..n], name).calls|
  {
    hide NameOf, Carries;
    if steps != [] {
      var m := |steps| - 1;
      AnswersAreThose(steps[..m], name);
      CarriesIff(steps[m], name);
      forall n | 0 <= n < m ensures steps[..m][..n] == steps[..n] {}
    }
  }

  // --- how many stay unanswered -------------------------------------------------------------------

  function CountCalls(steps: seq<TraceStep>, name: string): nat {
    if steps == [] then 0
    else
      var last := steps[|steps| - 1];
      CountCalls(steps[..|steps| - 1], name) + (if last.kind == ToolCall && Carries(last, name) then 1 else 0)
  }

  function CountAnswers(steps: seq<TraceStep>, name: string): nat {
    if steps == [] then 0
    else
      var last := steps[|steps| - 1];
      CountAnswers(steps[..|steps| - 1], name) + (if Answers(last) && Carries(last, name) then 1 else 0)
  }

  /** Calls minus answers. */
  function Excess(steps: seq<TraceStep>, name: string): int { CountCalls(steps, name) - CountAnswers(steps, name) }

  function Unanswered(steps: seq<TraceStep>, name: string): nat {
    |LedgerOf(steps, name).calls| - |LedgerOf(steps, name).answers|
  }

  function Delta(s: TraceStep, name: string): int {
    if NameOf(s) != name then 0 else if IsCall(s) then 1 else if IsAnswer(s) then -1 else 0
  }

  lemma ExcessSnoc(steps: seq<TraceStep>, k: nat, name: string)
    requires k < |steps|
    ensures var init, last := steps[..|steps| - 1], steps[|steps| - 1];
      Excess(steps[k..], name) == Excess(init[k..], name) + Delta(last, name)
  {
    assert steps[k..][..|steps| - 1 - k] == steps[..|steps| - 1][k..];
    hide NameOf;
  }

  lemma UnansweredSnoc(init: seq<TraceStep>, last: TraceStep, name: string)
    ensures Unanswered(init + [last], name)
      == if Unanswered(init, name) + Delta(last, name) < 0 then 0 else Unanswered(init, name) + Delta(last, name)
  {
    LedgerSnoc(init, last, name);
    hide LedgerOf, NameOf;
  }

  /** A name's unanswered calls are the maximum, over all suffixes of the run, of calls minus answers. */
  lemma {:induction false} UnansweredIsTheMaximalSuffix(steps: seq<TraceStep>, name: string) returns (at: nat)
    ensures forall k | 0 <= k <= |steps| :: Excess(steps[k..], name) <= Unanswered(steps, name)
    ensures at <= |steps| && Excess(steps[at..], name) == Unanswered(steps, name)
  {
    at := |steps|;
    assert Excess([], name) == 0;
    assert steps[|steps|..] == [];
    if steps != [] {
      var init, last := steps[..|steps| - 1], steps[|steps| - 1];
      assert steps == init + [last];
      UnansweredSnoc(init, last, name);
      var before := UnansweredIsTheMaximalSuffix(init, name);
      hide Excess, Unanswered, Delta;
      forall k | 0 <= k < |steps| ensures Excess(steps[k..], name) == Excess(init[k..], name) + Delta(last, name) {
        ExcessSnoc(steps, k, name);
      }
      if Unanswered(init, name) + Delta(last, name) >= 0 {
        at := before;
      }
    }
  }
}
