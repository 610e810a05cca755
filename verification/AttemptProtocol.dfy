/** One text execution as a step machine: the failover loop of the execution engine, resumed by the
    events its adapter, its consumer and the clock can produce
    (packages/router-core/src/execution-engine.ts:119-316). */
module AttemptProtocol {
  import opened ErrorClasses
  import opened Domain

  datatype Candidate = Candidate(provider: string, key: string)

  datatype AttemptOutcome = AttemptOutcome(
    candidate: Candidate, cls: ErrorClass, status: int, retryAfterMs: Option<int>)

  /** What an attempt throws: an HTTP error with what its body was found to say, or anything else. */
  datatype Failure =
    | Http(status: int, midStream: bool, hint: BodyHint, statesTimeout: bool, retryAfterMs: Option<int>)
    | Other

  function StatusOf(f: Failure): int { if f.Http? then f.status else 0 }

  function RetryAfterOf(f: Failure): Option<int> { if f.Http? then f.retryAfterMs else None }

  /** The class of a failure that struck before any output (execution-engine.ts:272-279). */
  function FailureClass(f: Failure): ErrorClass {
    if f.Other? then NETWORK
    else
      ClassifyFailure(
        if f.midStream || Classify(f.status, NoHint) == OK then PARSE_ERROR else Classify(f.status, f.hint),
        f.statesTimeout)
  }

  /** The class of a failure that struck after output was delivered (execution-engine.ts:260-265). */
  function BreakClass(f: Failure): ErrorClass {
    if f.Other? then NETWORK
    else
      ClassifyFailure(
        if Classify(f.status, NoHint) == OK then PARSE_ERROR else Classify(f.status, f.hint),
        f.statesTimeout)
  }

  /** How an execution ends: it answered, saw the abort signal, broke after delivering output, ran out
      of candidates, or was closed by its consumer. */
  datatype Ending = Answered | Aborted | Broke | AllFailed | Closed

  datatype Phase = AtLoopTop | Streaming | Ended(how: Ending)

  const MAX_ATTEMPTS_DEFAULT := 6

  /** `served`, `delivered` and `dialled` name candidates by their index in the plan: `delivered` has
      one entry per chunk or tool call handed to the consumer, `dialled` one per attempt that got a
      slot.  `reported` is what the health tracker has been told. */
  datatype Execution = Execution(
    plan: seq<Candidate>,
    attempts: nat,
    wantsTools: bool,
    i: nat,
    phase: Phase,
    emitted: bool,
    toolCalls: nat,
    served: Option<nat>,
    chain: seq<AttemptOutcome>,
    abortSeen: bool,
    delivered: seq<nat>,
    dialled: seq<nat>,
    reported: seq<AttemptOutcome>)

  function MinInt(a: int, b: int): int { if a < b then a else b }

  function AllowedAttempts(plan: seq<Candidate>, maxAttempts: Option<int>): nat {
    var allowed := MinInt(|plan|, maxAttempts.GetOr(MAX_ATTEMPTS_DEFAULT));
    if allowed < 0 then 0 else allowed
  }

  function Begin(plan: seq<Candidate>, maxAttempts: Option<int>, wantsTools: bool): Execution {
    Execution(plan, AllowedAttempts(plan, maxAttempts), wantsTools, 0, AtLoopTop, false, 0, None, [], false, [], [], [])
  }

  /** What can happen next.  `Proceed` is the loop top, with the abort signal and the limiter's answer;
      the others are the adapter's and the consumer's doing. */
  datatype Event =
    | Proceed(aborted: bool, granted: bool)
    | Chunk
    | ToolCall
    | Finish
    | Fail(failure: Failure, abortedAfter: bool)
    | Return

  /** Which events a state admits: tool calls only when the caller asked for them, a consumer's return
      only before the first step or after a chunk. */
  predicate Admits(e: Execution, ev: Event) {
    match e.phase
    case AtLoopTop => ev.Proceed? || (ev.Return? && e.i == 0)
    case Streaming => (ev.ToolCall? && e.wantsTools) || ev.Chunk? || ev.Finish? || ev.Fail? || (ev.Return? && e.emitted)
    case Ended(_) => false
  }

  predicate Sound(e: Execution) {
    e.attempts <= |e.plan| && (e.phase == Streaming ==> e.i < e.attempts)
  }

  function Outcome(e: Execution, cls: ErrorClass, status: int, retryAfterMs: Option<int>): AttemptOutcome
    requires e.i < |e.plan|
  {
    AttemptOutcome(e.plan[e.i], cls, status, retryAfterMs)
  }

  predicate HasOutput(e: Execution) { e.emitted || e.toolCalls > 0 }

  function AfterLoopTop(e: Execution, aborted: bool, granted: bool): Execution
    requires Sound(e)
  {
    if e.i >= e.attempts then e.(phase := Ended(if e.served.None? then AllFailed else Answered))
    else if aborted then e.(phase := Ended(Aborted), abortSeen := true)
    else if !granted then e.(chain := e.chain + [Outcome(e, RATE_LIMITED, 429, None)], i := e.i + 1)
    else e.(phase := Streaming, emitted := false, toolCalls := 0, dialled := e.dialled + [e.i])
  }

  function AfterFinish(e: Execution): Execution
    requires e.i < |e.plan|
  {
    e.(phase := Ended(Answered),
       reported := e.reported + [Outcome(e, OK, 200, None)],
       chain := if HasOutput(e) then e.chain else e.chain + [Outcome(e, NO_OUTPUT, 200, None)])
  }

  function AfterFailure(e: Execution, f: Failure, abortedAfter: bool): Execution
    requires e.i < |e.plan|
  {
    if HasOutput(e) then
      e.(phase := Ended(Broke), chain := e.chain + [Outcome(e, BreakClass(f), StatusOf(f), None)])
    else
      var outcome := Outcome(e, FailureClass(f), StatusOf(f), RetryAfterOf(f));
      var told := e.(chain := e.chain + [outcome], reported := e.reported + [outcome]);
      if abortedAfter then told.(phase := Ended(Aborted), abortSeen := true)
      else told.(phase := AtLoopTop, i := e.i + 1)
  }

  function Next(e: Execution, ev: Event): Execution
    requires Sound(e) && Admits(e, ev)
  {
    match ev
    case Proceed(aborted, granted) => AfterLoopTop(e, aborted, granted)
    case Chunk =>
      e.(emitted := true, served := if e.emitted then e.served else Some(e.i), delivered := e.delivered + [e.i])
    case ToolCall =>
      e.(toolCalls := e.toolCalls + 1, served := if e.served.None? then Some(e.i) else e.served,
         delivered := e.delivered + [e.i])
    case Finish => AfterFinish(e)
    case Fail(f, abortedAfter) => AfterFailure(e, f, abortedAfter)
    case Return => e.(phase := Ended(Closed))
  }

  // --- what every step keeps --------------------------------------------------------------------

  /** Everything delivered came from `served`, and nothing was dialled after it. */
  ghost predicate OneVoice(e: Execution) {
    && (forall k | k in e.delivered :: e.served == Some(k))
    && (e.served.Some? ==> e.delivered != [] && e.served.value == e.i && e.phase != AtLoopTop)
    && (e.phase == Streaming ==> (HasOutput(e) <==> e.served.Some?))
  }

  /** Candidates are dialled in plan order, each at most once, none beyond the current one. */
  ghost predicate DialledInOrder(e: Execution) {
    && (forall j, k | 0 <= j < k < |e.dialled| :: e.dialled[j] < e.dialled[k])
    && (forall k | k in e.dialled :: k <= e.i)
    && (e.phase == AtLoopTop ==> e.i !in e.dialled)
    && (e.phase == Streaming || e.served.Some? ==> e.dialled != [] && e.dialled[|e.dialled| - 1] == e.i)
  }

  /** Entry k of the fallback chain is plan entry k, and there are never more than allowed. */
  ghost predicate Aligned(e: Execution) {
    && e.attempts <= |e.plan|
    && |e.chain| <= e.attempts
    && e.i <= |e.chain| + 1 && |e.chain| <= e.i + 1
    && (!e.phase.Ended? ==> |e.chain| == e.i)
    && (e.phase == Streaming ==> e.i < e.attempts)
    && (forall k | 0 <= k < |e.chain| :: e.chain[k].candidate == e.plan[k])
  }

  ghost predicate NothingEmpty(chain: seq<AttemptOutcome>) {
    forall k | 0 <= k < |chain| :: chain[k].cls != NO_OUTPUT && chain[k].cls != OK
  }

  /** The all-failed ending means exactly: every allowed entry of the plan failed, with no output
      delivered, no abort seen and no consumer's return. */
  ghost predicate FailsExactlyWhenAllFailed(e: Execution) {
    && (e.abortSeen <==> e.phase == Ended(Aborted))
    && (!e.phase.Ended? ==> NothingEmpty(e.chain))
    && (e.phase.Ended? ==>
         (e.phase.how == AllFailed <==>
           && |e.chain| == e.attempts && NothingEmpty(e.chain) && e.delivered == []
           && !e.abortSeen && e.phase.how != Closed))
  }

  /** The tracker hears of the attempts that were dialled and failed without output, in order and in
      the chain's words, then at most once "OK", of the last one dialled; a skipped candidate is never
      reported. */
  ghost predicate HealthToldTheChain(e: Execution) {
    var fails := if e.phase == Ended(Answered) && e.reported != [] then |e.reported| - 1 else |e.reported|;
    && fails <= |e.dialled|
    && (e.phase == AtLoopTop ==> |e.reported| == |e.dialled|)
    && (e.phase == Streaming ==> |e.reported| + 1 == |e.dialled|)
    && (e.phase == Ended(AllFailed) ==> |e.reported| == |e.dialled|)
    && (e.phase == Ended(Answered) ==>
          && |e.reported| == |e.dialled| > 0 && e.dialled[fails] < |e.plan|
          && e.reported[fails] == AttemptOutcome(e.plan[e.dialled[fails]], OK, 200, None))
    && (forall k | 0 <= k < fails :: e.dialled[k] < |e.chain| && e.reported[k] == e.chain[e.dialled[k]])
  }

  ghost predicate Invariant(e: Execution) {
    OneVoice(e) && DialledInOrder(e) && Aligned(e) && FailsExactlyWhenAllFailed(e) && HealthToldTheChain(e)
  }

  lemma InvariantIsSound(e: Execution)
    requires Aligned(e)
    ensures Sound(e)
  {
  }

  lemma BeginInvariant(plan: seq<Candidate>, maxAttempts: Option<int>, wantsTools: bool)
    ensures Invariant(Begin(plan, maxAttempts, wantsTools))
  {
  }

  lemma FailureClassesAreFailures(f: Failure)
    ensures FailureClass(f) != OK && FailureClass(f) != NO_OUTPUT
    ensures BreakClass(f) != OK && BreakClass(f) != NO_OUTPUT
  {
  }

  /** What a failure before any output is recorded as: anything but an HTTP error is the network; a stated
      timeout is a timeout; a break in mid-stream, or under a status of success, could not be parsed; and
      otherwise the status and the body's hint decide. */
  lemma FailureClassIs(f: Failure)
    ensures var c := FailureClass(f);
      && (f.Other? ==> c == NETWORK)
      && (f.Http? && f.statesTimeout ==> c == TIMEOUT)
      && (f.Http? && !f.statesTimeout ==>
            && (c == PARSE_ERROR <==> f.midStream || 200 <= f.status <= 299)
            && (c != PARSE_ERROR ==> c == Classify(f.status, f.hint)))
  {
    if f.Http? { ClassOf(f.status, f.hint); }
  }

  /** After output has been delivered every HTTP break is read from its status alone. */
  lemma BreakClassIs(f: Failure)
    ensures var c := BreakClass(f);
      && (f.Other? ==> c == NETWORK)
      && (f.Http? && f.statesTimeout ==> c == TIMEOUT)
      && (f.Http? && !f.statesTimeout ==>
            && (c == PARSE_ERROR <==> 200 <= f.status <= 299)
            && (c != PARSE_ERROR ==> c == Classify(f.status, f.hint)))
  {
    if f.Http? { ClassOf(f.status, f.hint); }
  }

  /** What one event adds to the fallback chain, in the words of the candidate it concerns. */
  ghost function Added(e: Execution, ev: Event): seq<AttemptOutcome>
    requires Sound(e) && Admits(e, ev)
  {
    match ev
    case Proceed(aborted, granted) =>
      if e.i < e.attempts && !aborted && !granted then [AttemptOutcome(e.plan[e.i], RATE_LIMITED, 429, None)] else []
    case Finish =>
      if e.emitted || e.toolCalls > 0 then [] else [AttemptOutcome(e.plan[e.i], NO_OUTPUT, 200, None)]
    case Fail(f, _) =>
      var status := if f.Http? then f.status else 0;
      if e.emitted || e.toolCalls > 0 then [AttemptOutcome(e.plan[e.i], BreakClass(f), status, None)]
      else [AttemptOutcome(e.plan[e.i], FailureClass(f), status, if f.Http? then f.retryAfterMs else None)]
    case _ => []
  }

  /** What one event tells the health tracker: a failure before any output in the chain's own words, and the
      success of a stream that ran to its end, whether or not it held anything. */
  ghost function Told(e: Execution, ev: Event): seq<AttemptOutcome>
    requires Sound(e) && Admits(e, ev)
  {
    match ev
    case Finish => [AttemptOutcome(e.plan[e.i], OK, 200, None)]
    case Fail(_, _) => if e.emitted || e.toolCalls > 0 then [] else Added(e, ev)
    case _ => []
  }

  /** What follows an event: another loop top, the stream, or an ending. */
  ghost function PhaseAfter(e: Execution, ev: Event): Phase
    requires Sound(e) && Admits(e, ev)
  {
    match ev
    case Proceed(aborted, granted) =>
      if e.i == e.attempts then Ended(if e.served.None? then AllFailed else Answered)
      else if aborted then Ended(Aborted)
      else if granted then Streaming
      else AtLoopTop
    case Finish => Ended(Answered)
    case Fail(_, abortedAfter) =>
      if e.emitted || e.toolCalls > 0 then Ended(Broke) else if abortedAfter then Ended(Aborted) else AtLoopTop
    case Return => Ended(Closed)
    case _ => Streaming
  }

  lemma NextAdds(e: Execution, ev: Event)
    requires Sound(e) && Admits(e, ev)
    ensures var n := Next(e, ev);
      && n.chain == e.chain + Added(e, ev) && n.reported == e.reported + Told(e, ev)
      && n.delivered == e.delivered + (if ev.Chunk? || ev.ToolCall? then [e.i] else [])
  {
    hide FailureClass, BreakClass;
  }

  lemma NextMoves(e: Execution, ev: Event)
    requires OneVoice(e) && Aligned(e) && Admits(e, ev)
    ensures var n := Next(e, ev);
      && n.plan == e.plan && n.attempts == e.attempts && n.wantsTools == e.wantsTools
      && n.phase == PhaseAfter(e, ev)
      && n.dialled == e.dialled + (if ev.Proceed? && n.phase == Streaming then [e.i] else [])
      && n.i == e.i + (if n.phase == AtLoopTop then 1 else 0)
      && n.served == (if (ev.Chunk? || ev.ToolCall?) && e.served.None? then Some(e.i) else e.served)
  {
    hide FailureClass, BreakClass;
  }

  /** Main result: the step in its effects.  The loop moves on by one candidate exactly when it comes back to
      its top, a candidate is dialled exactly when it gets a slot, and whoever speaks first is served. */
  lemma NextIs(e: Execution, ev: Event)
    requires Invariant(e) && Admits(e, ev)
    ensures Sound(e)
    ensures var n := Next(e, ev);
      && n.plan == e.plan && n.attempts == e.attempts && n.wantsTools == e.wantsTools
      && n.phase == PhaseAfter(e, ev)
      && n.chain == e.chain + Added(e, ev) && n.reported == e.reported + Told(e, ev)
      && n.delivered == e.delivered + (if ev.Chunk? || ev.ToolCall? then [e.i] else [])
      && n.dialled == e.dialled + (if ev.Proceed? && n.phase == Streaming then [e.i] else [])
      && n.i == e.i + (if n.phase == AtLoopTop then 1 else 0)
      && n.served == (if (ev.Chunk? || ev.ToolCall?) && e.served.None? then Some(e.i) else e.served)
      && (n.phase == Streaming ==>
            && (n.emitted <==> ev.Chunk? || (e.phase == Streaming && e.emitted))
            && n.toolCalls == (if ev.Proceed? then 0 else e.toolCalls) + (if ev.ToolCall? then 1 else 0))
  {
    hide FailureClass, BreakClass, OneVoice, DialledInOrder, FailsExactlyWhenAllFailed, HealthToldTheChain, Added, Told,
      PhaseAfter;
    InvariantIsSound(e);
    NextAdds(e, ev);
    NextMoves(e, ev);
  }

  /** Where an execution starts: at the top for the first candidate, with nothing dialled, delivered or told, and
      as many attempts allowed as the bound, or six, says, but never more than the plan has. */
  lemma BeginIs(plan: seq<Candidate>, maxAttempts: Option<int>, wantsTools: bool)
    ensures var e := Begin(plan, maxAttempts, wantsTools);
      var bound := if maxAttempts.Some? then maxAttempts.value else 6;
      && e.plan == plan && e.wantsTools == wantsTools && e.i == 0 && e.phase == AtLoopTop
      && !e.emitted && e.toolCalls == 0 && e.served == None && !e.abortSeen
      && e.chain == [] && e.reported == [] && e.dialled == [] && e.delivered == []
      && e.attempts == if bound >= |plan| then |plan| else if bound >= 0 then bound else 0
  {
  }

  lemma OneVoiceKept(e: Execution, ev: Event)
    requires OneVoice(e) && DialledInOrder(e) && Aligned(e) && Admits(e, ev)
    ensures OneVoice(Next(e, ev))
  {
    hide FailureClass, BreakClass;
  }

  lemma DialledInOrderKept(e: Execution, ev: Event)
    requires OneVoice(e) && DialledInOrder(e) && Aligned(e) && Admits(e, ev)
    ensures DialledInOrder(Next(e, ev))
  {
    hide FailureClass, BreakClass;
    forall k | 0 <= k < |e.dialled| ensures e.dialled[k] <= e.i && (e.phase == AtLoopTop ==> e.dialled[k] < e.i) {
      assert e.dialled[k] in e.dialled;
    }
  }

  lemma AlignedKept(e: Execution, ev: Event)
    requires Aligned(e) && Admits(e, ev)
    ensures Aligned(Next(e, ev))
  {
    hide FailureClass, BreakClass;
  }

  lemma FailsExactlyKept(e: Execution, ev: Event)
    requires OneVoice(e) && Aligned(e) && FailsExactlyWhenAllFailed(e) && Admits(e, ev)
    ensures FailsExactlyWhenAllFailed(Next(e, ev))
  {
    hide FailureClass, BreakClass;
    assert e.delivered != [] ==> e.delivered[0] in e.delivered;
    if ev.Fail? {
      FailureClassesAreFailures(ev.failure);
    } else if ev.Finish? && !HasOutput(e) {
      assert Next(e, ev).chain[|e.chain|].cls == NO_OUTPUT;
    }
  }

  lemma HealthAfterFinish(e: Execution)
    requires Invariant(e) && e.phase == Streaming
    ensures HealthToldTheChain(Next(e, Finish))
  {
    hide OneVoice, FailsExactlyWhenAllFailed;
  }

  lemma HealthAfterFailure(e: Execution, f: Failure, abortedAfter: bool)
    requires Invariant(e) && e.phase == Streaming
    ensures HealthToldTheChain(Next(e, Fail(f, abortedAfter)))
  {
    hide FailureClass, BreakClass, FailsExactlyWhenAllFailed;
  }

  lemma HealthAfterLoopTop(e: Execution, aborted: bool, granted: bool)
    requires Invariant(e) && e.phase == AtLoopTop
    ensures HealthToldTheChain(Next(e, Proceed(aborted, granted)))
  {
    hide FailsExactlyWhenAllFailed;
  }

  lemma HealthAfterDelivery(e: Execution, ev: Event)
    requires Invariant(e) && Admits(e, ev) && (ev.Chunk? || ev.ToolCall? || ev.Return?)
    ensures HealthToldTheChain(Next(e, ev))
  {
    hide FailsExactlyWhenAllFailed, OneVoice;
  }

  lemma HealthToldKept(e: Execution, ev: Event)
    requires Invariant(e) && Admits(e, ev)
    ensures HealthToldTheChain(Next(e, ev))
  {
    InvariantIsSound(e);
    hide Next, HealthToldTheChain, Invariant;
    match ev
    case Finish => HealthAfterFinish(e);
    case Fail(f, abortedAfter) => HealthAfterFailure(e, f, abortedAfter);
    case Proceed(aborted, granted) => HealthAfterLoopTop(e, aborted, granted);
    case _ => HealthAfterDelivery(e, ev);
  }

  lemma NextKeepsInvariant(e: Execution, ev: Event)
    requires Invariant(e) && Admits(e, ev)
    ensures Sound(e) && Invariant(Next(e, ev))
  {
    InvariantIsSound(e);
    OneVoiceKept(e, ev);
    DialledInOrderKept(e, ev);
    AlignedKept(e, ev);
    FailsExactlyKept(e, ev);
    HealthToldKept(e, ev);
    hide Next, OneVoice, DialledInOrder, Aligned, FailsExactlyWhenAllFailed, HealthToldTheChain;
  }

  /** Attempts still to come, twice, plus one while waiting at the loop top. */
  function WorkLeft(e: Execution): nat
    requires Sound(e)
  {
    if e.phase.Ended? then 0
    else if e.i >= e.attempts then 1
    else 2 * (e.attempts - e.i) + (if e.phase == AtLoopTop then 1 else 0)
  }

  /** There is no hidden retry: whatever the adapters do, every event but a delivery uses up work. */
  lemma EveryEventButADeliveryUsesWork(e: Execution, ev: Event)
    requires Invariant(e) && Admits(e, ev)
    ensures Sound(e) && Sound(Next(e, ev))
    ensures ev.Chunk? || ev.ToolCall? ==> WorkLeft(Next(e, ev)) == WorkLeft(e)
    ensures !ev.Chunk? && !ev.ToolCall? ==> WorkLeft(Next(e, ev)) < WorkLeft(e)
  {
    hide FailureClass, BreakClass, OneVoice, DialledInOrder, FailsExactlyWhenAllFailed, HealthToldTheChain;
  }
}
