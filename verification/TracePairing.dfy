/** Pairing tool calls with their answers through one queue per tool name
    (packages/axiom-core/src/trace.ts:53-103). */
module TracePairing {
  import opened Domain

  datatype StepKind = ToolCall | ToolResult | Denied | Assistant | Done | OtherKind

  datatype TraceStep = TraceStep(
    seqNo: int, kind: StepKind, labelText: Option<string>, detail: Option<string>, ok: Option<bool>)

  datatype ToolInvocation = ToolInvocation(
    seqNo: int,
    name: string,
    args: string,
    argsUnparsed: bool,
    ok: Option<bool>,
    denied: bool,
    resultSeq: Option<int>,
    resultDetail: Option<string>)

  /** A missing label reads as "?". */
  function NameOf(s: TraceStep): string { s.labelText.GetOr("?") }

  predicate IsAnswer(s: TraceStep) { s.kind == ToolResult || s.kind == Denied }

  predicate IsCall(s: TraceStep) { s.kind == ToolCall }

  /** Whether stored arguments fail to read as a JSON object; the parser itself is not modelled. */
  type Unreadable = Option<string> -> bool

  function Opened(s: TraceStep, unreadable: Unreadable): ToolInvocation {
    ToolInvocation(s.seqNo, NameOf(s), s.detail.GetOr(""), unreadable(s.detail), None, false, None, None)
  }

  function Closed(inv: ToolInvocation, s: TraceStep): ToolInvocation {
    inv.(ok := if s.kind == Denied then Some(false) else s.ok, resultSeq := Some(s.seqNo), resultDetail := s.detail,
         denied := s.kind == Denied)
  }

  // --- first in, first out ------------------------------------------------------------------------

  /** The calls of one name so far and the answers that found one waiting, both in order. */
  datatype Ledger = Ledger(calls: seq<TraceStep>, answers: seq<TraceStep>)

  function Enter(l: Ledger, s: TraceStep): Ledger {
    if IsCall(s) then l.(calls := l.calls + [s])
    else if IsAnswer(s) && |l.answers| < |l.calls| then l.(answers := l.answers + [s])
    else l
  }

  /** The ledger of one name: only the steps carrying that name count. */
  function LedgerOf(steps: seq<TraceStep>, name: string): (l: Ledger)
    ensures |l.answers| <= |l.calls|
  {
    if steps == [] then Ledger([], [])
    else
      var before := LedgerOf(steps[..|steps| - 1], name);
      if NameOf(steps[|steps| - 1]) == name then Enter(before, steps[|steps| - 1]) else before
  }

  /** The k-th answer goes to the k-th call. */
  function PairedAt(l: Ledger, k: nat, unreadable: Unreadable): ToolInvocation
    requires k < |l.calls|
  {
    var inv := Opened(l.calls[k], unreadable);
    if k < |l.answers| then Closed(inv, l.answers[k]) else inv
  }

  function Paired(l: Ledger, unreadable: Unreadable): (r: seq<ToolInvocation>)
    ensures |r| == |l.calls|
    ensures forall k | 0 <= k < |r| :: r[k] == PairedAt(l, k, unreadable)
  {
    seq(|l.calls|, k requires 0 <= k < |l.calls| => PairedAt(l, k, unreadable))
  }

  /** Where the invocations of one name stand. */
  function Positions(out: seq<ToolInvocation>, name: string): (r: seq<nat>)
    ensures forall k | 0 <= k < |r| :: r[k] < |out| && out[r[k]].name == name
    ensures forall j, k | 0 <= j < k < |r| :: r[j] < r[k]
  {
    if out == [] then []
    else
      var init := out[..|out| - 1];
      Positions(init, name) + (if out[|out| - 1].name == name then [|out| - 1] else [])
  }

  function At(out: seq<ToolInvocation>, positions: seq<nat>): (r: seq<ToolInvocation>)
    requires forall k | 0 <= k < |positions| :: positions[k] < |out|
    ensures |r| == |positions| && forall k | 0 <= k < |r| :: r[k] == out[positions[k]]
  {
    seq(|positions|, k requires 0 <= k < |positions| => out[positions[k]])
  }

  function Named(out: seq<ToolInvocation>, name: string): seq<ToolInvocation> {
    At(out, Positions(out, name))
  }

  function Calls(steps: seq<TraceStep>): seq<TraceStep> {
    if steps == [] then []
    else
      var last := steps[|steps| - 1];
      Calls(steps[..|steps| - 1]) + (if IsCall(last) then [last] else [])
  }

  /** One invocation per call, in the order of the calls. */
  ghost predicate SameCalls(out: seq<ToolInvocation>, calls: seq<TraceStep>, unreadable: Unreadable) {
    && |out| == |calls|
    && forall k | 0 <= k < |out| ::
        && out[k].seqNo == calls[k].seqNo && out[k].argsUnparsed == unreadable(calls[k].detail)
        && out[k].name == (if calls[k].labelText.Some? then calls[k].labelText.value else "?")
        && out[k].args == (if calls[k].detail.Some? then calls[k].detail.value else "")
  }

  /** The invocations are those of the calls, in order, and each name's are what its own steps make them. */
  ghost predicate IsPairing(steps: seq<TraceStep>, out: seq<ToolInvocation>, unreadable: Unreadable) {
    && SameCalls(out, Calls(steps), unreadable)
    && forall name: string :: Named(out, name) == Paired(LedgerOf(steps, name), unreadable)
  }

  // --- the queues ---------------------------------------------------------------------------------

  type Queues = map<string, seq<nat>>

  function Waiting(pending: Queues, name: string): seq<nat> {
    if name in pending then pending[name] else []
  }

  /** Each queue holds where the unanswered calls of its name stand. */
  ghost predicate QueuesMatch(steps: seq<TraceStep>, out: seq<ToolInvocation>, pending: Queues) {
    forall name: string ::
      var l := LedgerOf(steps, name);
      |Positions(out, name)| == |l.calls| && Waiting(pending, name) == Positions(out, name)[|l.answers|..]
  }

  lemma LedgerSnoc(steps: seq<TraceStep>, s: TraceStep, name: string)
    ensures LedgerOf(steps + [s], name)
      == if NameOf(s) == name then Enter(LedgerOf(steps, name), s) else LedgerOf(steps, name)
  {
    assert (steps + [s])[..|steps|] == steps;
  }

  lemma CallsSnoc(steps: seq<TraceStep>, s: TraceStep)
    ensures Calls(steps + [s]) == if IsCall(s) then Calls(steps) + [s] else Calls(steps)
  {
    assert (steps + [s])[..|steps|] == steps;
  }

  lemma PositionsSnoc(out: seq<ToolInvocation>, inv: ToolInvocation, name: string)
    ensures Positions(out + [inv], name) == Positions(out, name) + (if inv.name == name then [|out|] else [])
    ensures Named(out + [inv], name) == Named(out, name) + (if inv.name == name then [inv] else [])
  {
    assert (out + [inv])[..|out|] == out;
  }

  lemma {:induction false} PositionsDependOnNames(a: seq<ToolInvocation>, b: seq<ToolInvocation>, name: string)
    requires |a| == |b| && forall k | 0 <= k < |a| :: a[k].name == b[k].name
    ensures Positions(a, name) == Positions(b, name)
  {
    if a != [] {
      PositionsDependOnNames(a[..|a| - 1], b[..|b| - 1], name);
    }
  }

  /** Answering the invocation at a name's k-th position changes that name's k-th only. */
  lemma AnsweredAt(out: seq<ToolInvocation>, own: string, k: nat, inv: ToolInvocation, name: string)
    requires k < |Positions(out, own)| && inv.name == own
    ensures var now := out[Positions(out, own)[k] := inv];
      && Positions(now, name) == Positions(out, name)
      && Named(now, name) == if name == own then Named(out, name)[k := inv] else Named(out, name)
  {
    var p := Positions(out, own)[k];
    var now := out[p := inv];
    PositionsDependOnNames(out, now, name);
    var ps := Positions(out, name);
    if name == own {
      assert forall j | 0 <= j < |ps| :: ps[j] == p <==> j == k;
      assert Named(now, name) == Named(out, name)[k := inv];
    } else {
      assert forall j | 0 <= j < |ps| :: ps[j] != p;
      assert Named(now, name) == Named(out, name);
    }
  }

  lemma PairedCall(l: Ledger, s: TraceStep, unreadable: Unreadable)
    requires IsCall(s) && |l.answers| <= |l.calls|
    ensures Paired(Enter(l, s), unreadable) == Paired(l, unreadable) + [Opened(s, unreadable)]
  {
    hide Opened, Closed;
  }

  lemma PairedAnswer(l: Ledger, s: TraceStep, unreadable: Unreadable)
    requires IsAnswer(s) && |l.answers| < |l.calls|
    ensures var k := |l.answers|;
      && PairedAt(l, k, unreadable) == Opened(l.calls[k], unreadable)
      && Paired(Enter(l, s), unreadable) == Paired(l, unreadable)[k := Closed(PairedAt(l, k, unreadable), s)]
  {
    hide Opened, Closed;
    var k := |l.answers|;
    var now := Enter(l, s);
    forall j | 0 <= j < |l.calls| ensures Paired(now, unreadable)[j]
        == Paired(l, unreadable)[k := Closed(PairedAt(l, k, unreadable), s)][j] {}
  }

  ghost predicate Kept(steps: seq<TraceStep>, out: seq<ToolInvocation>, pending: Queues, unreadable: Unreadable) {
    IsPairing(steps, out, unreadable) && QueuesMatch(steps, out, pending)
  }

  lemma CallKeepsPaired(steps: seq<TraceStep>, out: seq<ToolInvocation>, s: TraceStep, unreadable: Unreadable)
    requires IsPairing(steps, out, unreadable) && IsCall(s)
    ensures IsPairing(steps + [s], out + [Opened(s, unreadable)], unreadable)
  {
    var inv := Opened(s, unreadable);
    hide Calls, LedgerOf, Positions, Named, Paired;
    CallsSnoc(steps, s);
    assert SameCalls(out + [inv], Calls(steps + [s]), unreadable);
    assert inv.name == NameOf(s);
    hide SameCalls, Opened, NameOf, Enter;
    forall name: string ensures Named(out + [inv], name) == Paired(LedgerOf(steps + [s], name), unreadable) {
      LedgerSnoc(steps, s, name);
      PositionsSnoc(out, inv, name);
      PairedCall(LedgerOf(steps, name), s, unreadable);
    }
  }

  lemma CallKeepsQueues(
    steps: seq<TraceStep>, out: seq<ToolInvocation>, pending: Queues, s: TraceStep, inv: ToolInvocation)
    requires QueuesMatch(steps, out, pending) && IsCall(s) && inv.name == NameOf(s)
    ensures QueuesMatch(steps + [s], out + [inv], pending[NameOf(s) := Waiting(pending, NameOf(s)) + [|out|]])
  {
    hide LedgerOf, Positions, Named, NameOf;
    var queues := pending[NameOf(s) := Waiting(pending, NameOf(s)) + [|out|]];
    forall name: string
      ensures |Positions(out + [inv], name)| == |LedgerOf(steps + [s], name).calls|
      ensures Waiting(queues, name) == Positions(out + [inv], name)[|LedgerOf(steps + [s], name).answers|..]
    {
      LedgerSnoc(steps, s, name);
      PositionsSnoc(out, inv, name);
    }
  }

  lemma CallKeeps(
    steps: seq<TraceStep>, out: seq<ToolInvocation>, pending: Queues, s: TraceStep, unreadable: Unreadable)
    requires Kept(steps, out, pending, unreadable) && IsCall(s)
    ensures Kept(steps + [s], out + [Opened(s, unreadable)],
                 pending[NameOf(s) := Waiting(pending, NameOf(s)) + [|out|]], unreadable)
  {
    hide IsPairing, QueuesMatch, Waiting;
    CallKeepsPaired(steps, out, s, unreadable);
    CallKeepsQueues(steps, out, pending, s, Opened(s, unreadable));
  }

  lemma ClosedKeepsCalls(
    out: seq<ToolInvocation>, calls: seq<TraceStep>, p: nat, s: TraceStep, unreadable: Unreadable)
    requires SameCalls(out, calls, unreadable) && p < |out|
    ensures SameCalls(out[p := Closed(out[p], s)], calls, unreadable) && Closed(out[p], s).name == out[p].name
  {
  }

  /** The front of a waiting queue is where the earliest unanswered call of that name stands. */
  lemma FrontOfQueue(steps: seq<TraceStep>, out: seq<ToolInvocation>, pending: Queues, name: string)
    requires QueuesMatch(steps, out, pending) && Waiting(pending, name) != []
    ensures var l := LedgerOf(steps, name);
      && |l.answers| < |l.calls| == |Positions(out, name)|
      && Waiting(pending, name)[0] == Positions(out, name)[|l.answers|] < |out|
      && out[Waiting(pending, name)[0]].name == name
  {
    hide LedgerOf, Waiting;
  }

  lemma AnswerKeepsPaired(steps: seq<TraceStep>, out: seq<ToolInvocation>, s: TraceStep, p: nat, unreadable: Unreadable)
    requires IsPairing(steps, out, unreadable) && IsAnswer(s)
    requires var l := LedgerOf(steps, NameOf(s));
      && |l.answers| < |l.calls| == |Positions(out, NameOf(s))|
      && p == Positions(out, NameOf(s))[|l.answers|] < |out| && out[p].name == NameOf(s)
    ensures IsPairing(steps + [s], out[p := Closed(out[p], s)], unreadable)
  {
    hide Calls, LedgerOf, Positions, Paired, SameCalls, Closed, Opened, NameOf, Enter, PairedAt;
    var own := NameOf(s);
    var l, now := LedgerOf(steps, own), out[p := Closed(out[p], s)];
    CallsSnoc(steps, s);
    ClosedKeepsCalls(out, Calls(steps), p, s, unreadable);
    assert Named(out, own)[|l.answers|] == out[p];
    PairedAnswer(l, s, unreadable);
    hide Named;
    forall name: string ensures Named(now, name) == Paired(LedgerOf(steps + [s], name), unreadable) {
      LedgerSnoc(steps, s, name);
      AnsweredAt(out, own, |l.answers|, Closed(out[p], s), name);
    }
  }

  lemma AnswerKeepsQueues(
    steps: seq<TraceStep>, out: seq<ToolInvocation>, pending: Queues, s: TraceStep, p: nat, inv: ToolInvocation)
    requires QueuesMatch(steps, out, pending) && IsAnswer(s) && inv.name == NameOf(s)
    requires var l := LedgerOf(steps, NameOf(s));
      && |l.answers| < |l.calls| == |Positions(out, NameOf(s))|
      && p == Positions(out, NameOf(s))[|l.answers|] < |out|
    ensures Waiting(pending, NameOf(s)) != []
    ensures QueuesMatch(steps + [s], out[p := inv], pending[NameOf(s) := Waiting(pending, NameOf(s))[1..]])
  {
    hide LedgerOf, Positions, Named, NameOf;
    var own := NameOf(s);
    var l, now, queues := LedgerOf(steps, own), out[p := inv], pending[own := Waiting(pending, own)[1..]];
    forall name: string
      ensures |Positions(now, name)| == |LedgerOf(steps + [s], name).calls|
      ensures Waiting(queues, name) == Positions(now, name)[|LedgerOf(steps + [s], name).answers|..]
    {
      LedgerSnoc(steps, s, name);
      AnsweredAt(out, own, |l.answers|, inv, name);
    }
  }

  lemma AnswerKeeps(
    steps: seq<TraceStep>, out: seq<ToolInvocation>, pending: Queues, s: TraceStep, unreadable: Unreadable)
    requires Kept(steps, out, pending, unreadable) && IsAnswer(s) && Waiting(pending, NameOf(s)) != []
    ensures var q := Waiting(pending, NameOf(s));
      && q[0] < |out|
      && Kept(steps + [s], out[q[0] := Closed(out[q[0]], s)], pending[NameOf(s) := q[1..]], unreadable)
  {
    hide IsPairing, QueuesMatch, Waiting, NameOf, Closed, LedgerOf, Positions;
    FrontOfQueue(steps, out, pending, NameOf(s));
    var p := Waiting(pending, NameOf(s))[0];
    ClosedKeepsName(out[p], s);
    AnswerKeepsPaired(steps, out, s, p, unreadable);
    AnswerKeepsQueues(steps, out, pending, s, p, Closed(out[p], s));
  }

  lemma ClosedKeepsName(inv: ToolInvocation, s: TraceStep)
    ensures Closed(inv, s).name == inv.name
  {
  }

  lemma OtherKeeps(
    steps: seq<TraceStep>, out: seq<ToolInvocation>, pending: Queues, s: TraceStep, unreadable: Unreadable)
    requires Kept(steps, out, pending, unreadable) && !IsCall(s)
    requires IsAnswer(s) ==> Waiting(pending, NameOf(s)) == []
    ensures Kept(steps + [s], out, pending, unreadable)
  {
    CallsSnoc(steps, s);
    hide Calls, LedgerOf, Positions, Named, Paired, SameCalls;
    forall name: string ensures LedgerOf(steps + [s], name) == LedgerOf(steps, name) {
      LedgerSnoc(steps, s, name);
    }
  }

  /** The loop over steps already in order. */
  method PairOrdered(ordered: seq<TraceStep>, unreadable: Unreadable) returns (out: seq<ToolInvocation>)
    ensures IsPairing(ordered, out, unreadable)
  {
    out := [];
    var pendingByName: Queues := map[];
    var n := 0;
    hide IsPairing, QueuesMatch;
    NothingPaired(unreadable);
    assert ordered[..0] == [];
    while n < |ordered|
      invariant n <= |ordered| && Kept(ordered[..n], out, pendingByName, unreadable)
    {
      var s := ordered[n];
      assert ordered[..n + 1] == ordered[..n] + [s];
      var name := NameOf(s);
      if s.kind == ToolCall {
        CallKeeps(ordered[..n], out, pendingByName, s, unreadable);
        pendingByName := pendingByName[name := Waiting(pendingByName, name) + [|out|]];
        out := out + [Opened(s, unreadable)];
      } else if s.kind == ToolResult || s.kind == Denied {
        var q := Waiting(pendingByName, name);
        if q == [] {
          OtherKeeps(ordered[..n], out, pendingByName, s, unreadable);
        } else {
          AnswerKeeps(ordered[..n], out, pendingByName, s, unreadable);
          pendingByName := pendingByName[name := q[1..]];
          out := out[q[0] := Closed(out[q[0]], s)];
        }
      } else {
        OtherKeeps(ordered[..n], out, pendingByName, s, unreadable);
      }
      n := n + 1;
    }
    assert ordered[..n] == ordered;
  }

  lemma NothingPaired(unreadable: Unreadable)
    ensures Kept([], [], map[], unreadable)
  {
  }
}
