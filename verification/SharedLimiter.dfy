/** Any number of text and image executions interleaving over one limiter.  An execution runs without
    interruption between two yields or awaits, so a schedule is a list of resumptions, cap changes and new
    requests (packages/router-core/src/execution-engine.ts:140-358, concurrency.ts:50-90). */
module SharedLimiter {
  import opened AttemptProtocol
  import opened Domain
  import opened ImageAttempts
  import opened ProviderLimiting

  datatype System = System(cap: int, inFlight: InFlight, runs: seq<Execution>, images: seq<ImageRun>)

  datatype Step =
    | Start(plan: seq<Candidate>, maxAttempts: Option<int>, wantsTools: bool)
    | StartImage(plan: seq<Candidate>, maxAttempts: Option<int>)
    | SetCap(cap: int)
    | Resume(k: nat, ev: Event)
    | ResumeImage(k: nat, image: ImageEvent)

  /** The event makes this execution ask for a slot. */
  predicate Asks(e: Execution, ev: Event) {
    ev.Proceed? && e.i < e.attempts && !ev.aborted
  }

  predicate Releases(e: Execution, ev: Event) {
    e.phase == Streaming && (ev.Finish? || ev.Fail? || ev.Return?)
  }

  /** What one event does to the shared map. */
  function Slots(m: InFlight, e: Execution, ev: Event): InFlight
    requires Sound(e)
  {
    if Asks(e, ev) && ev.granted then WithOneMore(m, e.plan[e.i].provider)
    else if Releases(e, ev) then WithOneLess(m, e.plan[e.i].provider)
    else m
  }

  predicate ImageAsks(r: ImageRun, ev: ImageEvent) {
    ev.Ask? && r.i < r.limit && !ev.aborted
  }

  function ImageSlots(m: InFlight, r: ImageRun, ev: ImageEvent): InFlight
    requires ImageSound(r) && ImageAdmits(r, ev)
  {
    if ImageAsks(r, ev) && ev.granted then WithOneMore(m, r.plan[r.i].provider)
    else if ev.Answer? then WithOneLess(m, r.plan[r.i].provider)
    else m
  }

  /** The limiter answers by the cap now in force. */
  predicate Answers(cap: int, m: InFlight, e: Execution, ev: Event)
    requires Sound(e)
  {
    Asks(e, ev) ==> ev.granted == HasRoom(cap, m, e.plan[e.i].provider)
  }

  /** A slot not asked for is not granted. */
  predicate AnswersImage(cap: int, m: InFlight, r: ImageRun, ev: ImageEvent)
    requires ImageSound(r)
  {
    ev.Ask? ==> ev.granted == (ImageAsks(r, ev) && HasRoom(cap, m, r.plan[r.i].provider))
  }

  predicate Allowed(s: System, step: Step) {
    match step
    case Start(_, _, _) => true
    case StartImage(_, _) => true
    case SetCap(_) => true
    case Resume(k, ev) =>
      k < |s.runs| && Sound(s.runs[k]) && Admits(s.runs[k], ev) && Answers(s.cap, s.inFlight, s.runs[k], ev)
    case ResumeImage(k, ev) =>
      && k < |s.images| && ImageSound(s.images[k]) && ImageAdmits(s.images[k], ev)
      && AnswersImage(s.cap, s.inFlight, s.images[k], ev)
  }

  function Take(s: System, step: Step): System
    requires Allowed(s, step)
  {
    match step
    case Start(plan, maxAttempts, wantsTools) => s.(runs := s.runs + [Begin(plan, maxAttempts, wantsTools)])
    case StartImage(plan, maxAttempts) => s.(images := s.images + [BeginImage(plan, maxAttempts)])
    case SetCap(cap) => s.(cap := cap)
    case Resume(k, ev) =>
      s.(inFlight := Slots(s.inFlight, s.runs[k], ev), runs := s.runs[k := Next(s.runs[k], ev)])
    case ResumeImage(k, ev) =>
      s.(inFlight := ImageSlots(s.inFlight, s.images[k], ev), images := s.images[k := ImageNext(s.images[k], ev)])
  }

  // --- who holds what -----------------------------------------------------------------------------

  /** The provider a slot of which this execution holds right now. */
  function SlotOf(e: Execution): Option<string> {
    if e.phase == Streaming && e.i < |e.plan| then Some(e.plan[e.i].provider) else None
  }

  function ImageSlotOf(r: ImageRun): Option<string> {
    if r.phase == Generating && r.i < |r.plan| then Some(r.plan[r.i].provider) else None
  }

  function TextHolds(runs: seq<Execution>): (hs: seq<Option<string>>)
    ensures |hs| == |runs| && forall k | 0 <= k < |runs| :: hs[k] == SlotOf(runs[k])
  {
    seq(|runs|, k requires 0 <= k < |runs| => SlotOf(runs[k]))
  }

  function ImageHolds(images: seq<ImageRun>): (hs: seq<Option<string>>)
    ensures |hs| == |images| && forall k | 0 <= k < |images| :: hs[k] == ImageSlotOf(images[k])
  {
    seq(|images|, k requires 0 <= k < |images| => ImageSlotOf(images[k]))
  }

  function Holds(slot: Option<string>, provider: string): nat { if slot == Some(provider) then 1 else 0 }

  function Holders(hs: seq<Option<string>>, provider: string): nat {
    if hs == [] then 0 else Holds(hs[0], provider) + Holders(hs[1..], provider)
  }

  /** How many executions of either kind hold a slot of the provider right now. */
  function Holding(s: System, provider: string): nat {
    Holders(TextHolds(s.runs), provider) + Holders(ImageHolds(s.images), provider)
  }

  ghost predicate CountsMatch(s: System) {
    NoZeroCounts(s.inFlight) && forall p: string :: CountIn(s.inFlight, p) == Holding(s, p)
  }

  ghost predicate Safe(s: System) {
    && CountsMatch(s)
    && (forall k | 0 <= k < |s.runs| :: Invariant(s.runs[k]))
    && (forall k | 0 <= k < |s.images| :: ImageInvariant(s.images[k]))
  }

  lemma {:induction false} HoldersUpdate(hs: seq<Option<string>>, k: nat, h: Option<string>, p: string)
    requires k < |hs|
    ensures Holders(hs[k := h], p) + Holds(hs[k], p) == Holders(hs, p) + Holds(h, p)
  {
    if k == 0 {
      assert hs[k := h][1..] == hs[1..];
    } else {
      assert hs[k := h][1..] == hs[1..][k - 1 := h];
      HoldersUpdate(hs[1..], k - 1, h, p);
    }
  }

  lemma {:induction false} HoldersSnoc(hs: seq<Option<string>>, h: Option<string>, p: string)
    ensures Holders(hs + [h], p) == Holders(hs, p) + Holds(h, p)
  {
    if hs == [] {
      assert ([] + [h])[1..] == [];
    } else {
      assert (hs + [h])[1..] == hs[1..] + [h];
      HoldersSnoc(hs[1..], h, p);
    }
  }

  lemma {:induction false} HolderCounted(hs: seq<Option<string>>, k: nat, p: string)
    requires k < |hs|
    ensures Holders(hs, p) >= Holds(hs[k], p)
  {
    if k > 0 { HolderCounted(hs[1..], k - 1, p); }
  }

  lemma {:induction false} NobodyHolding(hs: seq<Option<string>>, p: string)
    requires forall k | 0 <= k < |hs| :: hs[k] == None
    ensures Holders(hs, p) == 0
  {
    if hs != [] { NobodyHolding(hs[1..], p); }
  }

  // --- one step -----------------------------------------------------------------------------------

  /** One slot changes hands: nothing, a slot taken, or a slot given back. */
  ghost predicate Moves(m: InFlight, next: InFlight, before: Option<string>, after: Option<string>) {
    || (next == m && after == before)
    || (before == None && after.Some? && next == WithOneMore(m, after.value))
    || (before.Some? && after == None && next == WithOneLess(m, before.value))
  }

  lemma TextMoves(m: InFlight, e: Execution, ev: Event)
    requires Sound(e) && Admits(e, ev)
    ensures Moves(m, Slots(m, e, ev), SlotOf(e), SlotOf(Next(e, ev)))
  {
    hide FailureClass, BreakClass, WithOneMore, WithOneLess;
  }

  lemma ImageMoves(m: InFlight, r: ImageRun, ev: ImageEvent)
    requires ImageSound(r) && ImageAdmits(r, ev)
    ensures Moves(m, ImageSlots(m, r, ev), ImageSlotOf(r), ImageSlotOf(ImageNext(r, ev)))
  {
    hide Skipped, Served, Failed, WithOneMore, WithOneLess;
  }

  lemma MovedCount(m: InFlight, next: InFlight, before: Option<string>, after: Option<string>, p: string)
    requires Moves(m, next, before, after) && NoZeroCounts(m) && CountIn(m, p) >= Holds(before, p)
    ensures CountIn(next, p) + Holds(before, p) == CountIn(m, p) + Holds(after, p)
  {
  }

  lemma MovedNoZero(m: InFlight, next: InFlight, before: Option<string>, after: Option<string>)
    requires Moves(m, next, before, after) && NoZeroCounts(m)
    ensures NoZeroCounts(next)
  {
  }

  lemma TextHoldsUpdate(runs: seq<Execution>, k: nat, e: Execution)
    requires k < |runs|
    ensures TextHolds(runs[k := e]) == TextHolds(runs)[k := SlotOf(e)] && TextHolds(runs)[k] == SlotOf(runs[k])
  {
    hide SlotOf;
  }

  lemma ImageHoldsUpdate(images: seq<ImageRun>, k: nat, r: ImageRun)
    requires k < |images|
    ensures ImageHolds(images[k := r]) == ImageHolds(images)[k := ImageSlotOf(r)]
    ensures ImageHolds(images)[k] == ImageSlotOf(images[k])
  {
    hide ImageSlotOf;
  }

  lemma ResumeKeepsCounts(s: System, k: nat, ev: Event)
    requires CountsMatch(s) && Allowed(s, Resume(k, ev))
    ensures CountsMatch(Take(s, Resume(k, ev)))
  {
    var e, t := s.runs[k], Take(s, Resume(k, ev));
    var next := Next(e, ev);
    TextMoves(s.inFlight, e, ev);
    TextHoldsUpdate(s.runs, k, next);
    hide Next, Slots, SlotOf, Moves, TextHolds, ImageHolds, Holders, Holds, CountIn, NoZeroCounts, Admits, Answers;
    MovedNoZero(s.inFlight, t.inFlight, SlotOf(e), SlotOf(next));
    forall p: string ensures CountIn(t.inFlight, p) == Holding(t, p) {
      HoldersUpdate(TextHolds(s.runs), k, SlotOf(next), p);
      HolderCounted(TextHolds(s.runs), k, p);
      MovedCount(s.inFlight, t.inFlight, SlotOf(e), SlotOf(next), p);
    }
  }

  lemma ResumeImageKeepsCounts(s: System, k: nat, ev: ImageEvent)
    requires CountsMatch(s) && Allowed(s, ResumeImage(k, ev))
    ensures CountsMatch(Take(s, ResumeImage(k, ev)))
  {
    var r, t := s.images[k], Take(s, ResumeImage(k, ev));
    var next := ImageNext(r, ev);
    ImageMoves(s.inFlight, r, ev);
    ImageHoldsUpdate(s.images, k, next);
    hide ImageNext, ImageSlots, ImageSlotOf, Moves, TextHolds, ImageHolds, Holders, Holds, CountIn, NoZeroCounts,
      ImageAdmits, AnswersImage;
    MovedNoZero(s.inFlight, t.inFlight, ImageSlotOf(r), ImageSlotOf(next));
    forall p: string ensures CountIn(t.inFlight, p) == Holding(t, p) {
      HoldersUpdate(ImageHolds(s.images), k, ImageSlotOf(next), p);
      HolderCounted(ImageHolds(s.images), k, p);
      MovedCount(s.inFlight, t.inFlight, ImageSlotOf(r), ImageSlotOf(next), p);
    }
  }

  lemma StartKeepsCounts(s: System, e: Execution, r: ImageRun)
    requires CountsMatch(s) && SlotOf(e) == None && ImageSlotOf(r) == None
    ensures CountsMatch(s.(runs := s.runs + [e])) && CountsMatch(s.(images := s.images + [r]))
  {
    assert TextHolds(s.runs + [e]) == TextHolds(s.runs) + [None];
    assert ImageHolds(s.images + [r]) == ImageHolds(s.images) + [None];
    forall p: string
      ensures Holders(TextHolds(s.runs) + [None], p) == Holders(TextHolds(s.runs), p)
      ensures Holders(ImageHolds(s.images) + [None], p) == Holders(ImageHolds(s.images), p)
    {
      HoldersSnoc(TextHolds(s.runs), None, p);
      HoldersSnoc(ImageHolds(s.images), None, p);
    }
    hide Holders, TextHolds, ImageHolds, SlotOf, ImageSlotOf;
  }

  lemma StepKeepsSafe(s: System, step: Step)
    requires Safe(s) && Allowed(s, step)
    ensures Safe(Take(s, step))
  {
    hide CountsMatch, Next, ImageNext, Invariant, ImageInvariant, Slots, ImageSlots, Answers, AnswersImage;
    match step
    case Start(plan, maxAttempts, wantsTools) =>
      BeginInvariant(plan, maxAttempts, wantsTools);
      StartKeepsCounts(s, Begin(plan, maxAttempts, wantsTools), BeginImage([], None));
    case StartImage(plan, maxAttempts) =>
      BeginImageInvariant(plan, maxAttempts);
      StartKeepsCounts(s, Begin([], None, false), BeginImage(plan, maxAttempts));
    case SetCap(cap) =>
      CapKeepsCounts(s, cap);
    case Resume(k, ev) =>
      ResumeKeepsCounts(s, k, ev);
      NextKeepsInvariant(s.runs[k], ev);
    case ResumeImage(k, ev) =>
      ResumeImageKeepsCounts(s, k, ev);
      ImageInvariantKept(s.images[k], ev);
  }

  lemma CapKeepsCounts(s: System, cap: int)
    requires CountsMatch(s)
    ensures CountsMatch(s.(cap := cap))
  {
    hide Holders;
  }

  /** No step takes a count past the cap then in force. */
  lemma NoAcquirePastTheCap(s: System, step: Step, p: string)
    requires Safe(s) && Allowed(s, step)
    ensures var t := Take(s, step);
      CountIn(t.inFlight, p) > CountIn(s.inFlight, p) ==> t.cap <= 0 || CountIn(t.inFlight, p) <= t.cap
  {
    hide Next, ImageNext, Invariant, ImageInvariant, Holders, TextHolds, ImageHolds;
  }

  // --- whole schedules --------------------------------------------------------------------------

  predicate AllAllowed(s: System, steps: seq<Step>)
    decreases |steps|
  {
    steps == [] || (Allowed(s, steps[0]) && AllAllowed(Take(s, steps[0]), steps[1..]))
  }

  function After(s: System, steps: seq<Step>): System
    requires AllAllowed(s, steps)
    decreases |steps|
  {
    if steps == [] then s else After(Take(s, steps[0]), steps[1..])
  }

  function Fresh(cap: int): System { System(cap, map[], [], []) }

  lemma FreshIsSafe(cap: int)
    ensures Safe(Fresh(cap))
  {
  }

  lemma {:induction false} ScheduleKeepsSafe(s: System, steps: seq<Step>)
    requires Safe(s) && AllAllowed(s, steps)
    ensures Safe(After(s, steps))
    decreases |steps|
  {
    hide Safe, Take, Allowed;
    if steps != [] {
      StepKeepsSafe(s, steps[0]);
      ScheduleKeepsSafe(Take(s, steps[0]), steps[1..]);
    }
  }

  /** In every state any schedule reaches: the count of a provider is the number of executions holding
      its slot, no zero is stored, every text execution speaks with one voice, and every image execution is
      what some course of signals, slots and answers makes of its plan. */
  lemma EveryScheduleIsSafe(cap: int, steps: seq<Step>)
    requires AllAllowed(Fresh(cap), steps)
    ensures Safe(After(Fresh(cap), steps))
  {
    FreshIsSafe(cap);
    ScheduleKeepsSafe(Fresh(cap), steps);
  }

  predicate AllEnded(s: System) {
    && (forall k | 0 <= k < |s.runs| :: s.runs[k].phase.Ended?)
    && (forall k | 0 <= k < |s.images| :: s.images[k].phase.Done?)
  }

  /** However the executions ended, once all have, no capacity is still taken. */
  lemma AllEndedAllFree(cap: int, steps: seq<Step>)
    requires AllAllowed(Fresh(cap), steps)
    requires AllEnded(After(Fresh(cap), steps))
    ensures After(Fresh(cap), steps).inFlight == map[]
  {
    EveryScheduleIsSafe(cap, steps);
    var s := After(Fresh(cap), steps);
    hide After, AllAllowed, Invariant, ImageInvariant, Holders;
    forall p: string ensures p !in s.inFlight {
      NobodyHolding(TextHolds(s.runs), p);
      NobodyHolding(ImageHolds(s.images), p);
      assert CountIn(s.inFlight, p) == 0;
    }
  }

  predicate CapsWithin(steps: seq<Step>, bound: int) {
    forall k | 0 <= k < |steps| && steps[k].SetCap? :: 0 < steps[k].cap <= bound
  }

  ghost predicate CountsWithin(s: System, bound: int) {
    0 < s.cap <= bound && forall p: string :: CountIn(s.inFlight, p) <= bound
  }

  /** While every cap ever set lies within a bound, no provider ever has more in flight than it. */
  lemma {:induction false} NeverMoreThanTheBound(s: System, steps: seq<Step>, bound: int)
    requires Safe(s) && CountsWithin(s, bound) && AllAllowed(s, steps) && CapsWithin(steps, bound)
    ensures CountsWithin(After(s, steps), bound)
    decreases |steps|
  {
    if steps != [] {
      var t := Take(s, steps[0]);
      StepKeepsSafe(s, steps[0]);
      assert CountsWithin(t, bound) by {
        forall p: string ensures CountIn(t.inFlight, p) <= bound { NoAcquirePastTheCap(s, steps[0], p); }
        hide Safe, Next;
      }
      hide Safe, Take, Allowed;
      NeverMoreThanTheBound(t, steps[1..], bound);
    }
  }
}
