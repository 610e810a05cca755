/** The two failover loops as they run: objects resumed between yields and awaits, over a limiter they share
    with others (packages/router-core/src/execution-engine.ts:119-358). */
module ExecutionEngine {
  import opened AttemptProtocol
  import opened Domain
  import opened ErrorClasses
  import opened ImageAttempts
  import opened ProviderLimiting
  import SharedLimiter

  class TextExecution {
    const plan: seq<Candidate>
    const attempts: nat
    const wantsTools: bool
    const limiter: ProviderLimiter
    var i: nat
    var phase: Phase
    var emitted: bool
    var toolCalls: nat
    var served: Option<nat>
    var fallbackChain: seq<AttemptOutcome>
    var release: ReleaseHandle?
    /** What `health.recordResult` was called with, in order. */
    var reported: seq<AttemptOutcome>
    ghost var abortSeen: bool
    ghost var delivered: seq<nat>
    ghost var dialled: seq<nat>

    ghost function State(): Execution
      reads this
    {
      Execution(plan, attempts, wantsTools, i, phase, emitted, toolCalls, served, fallbackChain, abortSeen, delivered,
                dialled, reported)
    }

    /** The slot is held exactly while the adapter's stream is open. */
    ghost predicate Valid()
      reads this, limiter, limiter.live
    {
      && Invariant(State())
      && limiter.Valid()
      && (release != null <==> phase == Streaming)
      && (release != null ==>
            && release in limiter.live && release.limiter == limiter && release.owner == this
            && release.provider == plan[i].provider)
    }

    constructor (plan: seq<Candidate>, maxAttempts: Option<int>, wantsTools: bool, limiter: ProviderLimiter)
      requires limiter.Valid()
      ensures Valid() && this.limiter == limiter && State() == Begin(plan, maxAttempts, wantsTools)
    {
      this.plan, this.wantsTools, this.limiter := plan, wantsTools, limiter;
      attempts := AllowedAttempts(plan, maxAttempts);
      i, phase, emitted, toolCalls, served, fallbackChain, release := 0, AtLoopTop, false, 0, None, [], null;
      reported, abortSeen, delivered, dialled := [], false, [], [];
      new;
      BeginInvariant(plan, maxAttempts, wantsTools);
    }

    /** The event the loop top turns out to be, once the limiter has answered. */
    ghost function LoopTop(aborted: bool): Event
      requires Sound(State())
      reads this, limiter
    {
      Proceed(aborted, i < attempts && !aborted && limiter.HasCapacity(plan[i].provider))
    }

    /** Takes a slot for the current candidate, or records it as skipped. */
    method DialOrSkip()
      requires Valid() && phase == AtLoopTop && i < attempts
      modifies this, limiter`inFlight, limiter`live
      ensures limiter.Valid()
      ensures var e := old(State()); var granted := old(limiter.HasCapacity(plan[i].provider));
        && State() == AfterLoopTop(e, false, granted)
        && (granted ==> limiter.inFlight == WithOneMore(old(limiter.inFlight), e.plan[e.i].provider))
        && (!granted ==> limiter.inFlight == old(limiter.inFlight))
        && (release != null <==> granted)
      ensures release != null ==> fresh(release) && release in limiter.live && release.limiter == limiter
      ensures release != null ==> release.provider == plan[i].provider && release.owner == this
      ensures limiter.live == old(limiter.live) + (if release == null then {} else {release})
    {
      hide OneVoice, DialledInOrder, FailsExactlyWhenAllFailed, HealthToldTheChain;
      release := limiter.Acquire(plan[i].provider, this);
      if release == null {
        fallbackChain := fallbackChain + [AttemptOutcome(plan[i], RATE_LIMITED, 429, None)];
        i := i + 1;
      } else {
        phase, emitted, toolCalls := Streaming, false, 0;
        dialled := dialled + [i];
      }
    }

    /** From the loop top to the adapter's call, to the next candidate, or to the end. */
    method Advance(aborted: bool)
      requires Valid() && phase == AtLoopTop
      modifies this, limiter`inFlight, limiter`live
      ensures Valid()
      ensures State() == Next(old(State()), old(LoopTop(aborted)))
      ensures limiter.inFlight == SharedLimiter.Slots(old(limiter.inFlight), old(State()), old(LoopTop(aborted)))
      ensures release != null ==> fresh(release)
      ensures limiter.live == old(limiter.live) + (if release == null then {} else {release})
    {
      NextKeepsInvariant(State(), LoopTop(aborted));
      hide Invariant, WithOneMore, NoZeroCounts;
      if i >= attempts {
        phase := Ended(if served.None? then AllFailed else Answered);
      } else if aborted {
        phase, abortSeen := Ended(Aborted), true;
      } else {
        DialOrSkip();
      }
    }

    /** The adapter yields a chunk. */
    method OnChunk()
      requires Valid() && phase == Streaming
      modifies this
      ensures Valid() && State() == Next(old(State()), Chunk) && release == old(release)
    {
      NextKeepsInvariant(State(), Chunk);
      if !emitted {
        emitted, served := true, Some(i);
      }
      delivered := delivered + [i];
      hide Invariant;
    }

    /** The wrapped callback: a tool call is delivered output too. */
    method OnToolCall()
      requires Valid() && phase == Streaming && wantsTools
      modifies this
      ensures Valid() && State() == Next(old(State()), ToolCall) && release == old(release)
    {
      NextKeepsInvariant(State(), ToolCall);
      if served.None? {
        served := Some(i);
      }
      toolCalls := toolCalls + 1;
      delivered := delivered + [i];
      hide Invariant;
    }

    /** The `finally` arm. */
    method GiveBack()
      requires limiter.Valid() && release != null && release in limiter.live && release.limiter == limiter
      modifies this`release, limiter`inFlight, limiter`live, release`released
      ensures limiter.Valid() && release == null
      ensures limiter.inFlight == WithOneLess(old(limiter.inFlight), old(release).provider)
      ensures limiter.live == old(limiter.live) - {old(release)}
    {
      release.Release();
      release := null;
    }

    method OnFinish()
      requires Valid() && phase == Streaming
      modifies this, limiter`inFlight, limiter`live, release`released
      ensures Valid() && release == null
      ensures State() == Next(old(State()), Finish)
      ensures limiter.inFlight == SharedLimiter.Slots(old(limiter.inFlight), old(State()), Finish)
      ensures limiter.live == old(limiter.live) - {old(release)}
    {
      NextKeepsInvariant(State(), Finish);
      reported := reported + [AttemptOutcome(plan[i], OK, 200, None)];
      if !emitted && toolCalls == 0 {
        fallbackChain := fallbackChain + [AttemptOutcome(plan[i], NO_OUTPUT, 200, None)];
      }
      phase := Ended(Answered);
      hide Invariant;
      GiveBack();
    }

    method OnFailure(f: Failure, abortedAfter: bool)
      requires Valid() && phase == Streaming
      modifies this, limiter`inFlight, limiter`live, release`released
      ensures Valid() && release == null
      ensures State() == Next(old(State()), Fail(f, abortedAfter))
      ensures limiter.inFlight == SharedLimiter.Slots(old(limiter.inFlight), old(State()), Fail(f, abortedAfter))
      ensures limiter.live == old(limiter.live) - {old(release)}
    {
      hide FailureClass, BreakClass, Invariant, NoZeroCounts, CountIn, Held, WithOneLess;
      NextKeepsInvariant(State(), Fail(f, abortedAfter));
      if emitted || toolCalls > 0 {
        fallbackChain := fallbackChain + [AttemptOutcome(plan[i], BreakClass(f), StatusOf(f), None)];
        phase := Ended(Broke);
      } else {
        var outcome := AttemptOutcome(plan[i], FailureClass(f), StatusOf(f), RetryAfterOf(f));
        fallbackChain := fallbackChain + [outcome];
        reported := reported + [outcome];
        if abortedAfter {
          phase, abortSeen := Ended(Aborted), true;
        } else {
          phase := AtLoopTop;
          i := i + 1;
        }
      }
      assert State() == Next(old(State()), Fail(f, abortedAfter));
      GiveBack();
    }

    /** The consumer closes the stream, before it started or after a chunk. */
    method OnReturn()
      requires Valid() && Admits(State(), Return)
      modifies this, limiter`inFlight, limiter`live, release
      ensures Valid() && release == null
      ensures State() == Next(old(State()), Return)
      ensures limiter.inFlight == SharedLimiter.Slots(old(limiter.inFlight), old(State()), Return)
      ensures limiter.live == old(limiter.live) - {old(release)}
    {
      NextKeepsInvariant(State(), Return);
      phase := Ended(Closed);
      hide Invariant;
      if release != null {
        GiveBack();
      }
    }
  }

  class ImageExecution {
    const plan: seq<Candidate>
    const limit: nat
    const limiter: ProviderLimiter
    var i: nat
    var phase: ImagePhase
    var attempts: seq<AttemptOutcome>
    var release: ReleaseHandle?
    /** What `health.recordResult` was called with, in order. */
    var told: seq<AttemptOutcome>
    /** Every event so far. */
    ghost var course: seq<ImageEvent>

    ghost function State(): ImageRun
      reads this
    {
      ImageRun(plan, limit, i, phase, attempts, told, course)
    }

    /** The slot is held exactly while the adapter generates. */
    ghost predicate Valid()
      reads this, limiter, limiter.live
    {
      && ImageSound(State()) && ImageInvariant(State())
      && limiter.Valid()
      && (release != null <==> phase == Generating)
      && (release != null ==>
            && release in limiter.live && release.limiter == limiter && release.owner == this
            && release.provider == plan[i].provider)
    }

    constructor (plan: seq<Candidate>, maxAttempts: Option<int>, limiter: ProviderLimiter)
      requires limiter.Valid()
      ensures Valid() && this.limiter == limiter && State() == BeginImage(plan, maxAttempts)
    {
      this.plan, this.limiter := plan, limiter;
      limit := SliceEnd(|plan|, maxAttempts.GetOr(MAX_ATTEMPTS_DEFAULT));
      i, phase, attempts, release, told, course := 0, AtTop, [], null, [], [];
      new;
      BeginImageInvariant(plan, maxAttempts);
    }

    /** The event the loop top turns out to be, once the limiter has answered. */
    ghost function LoopTop(aborted: bool): ImageEvent
      requires ImageSound(State())
      reads this, limiter
    {
      Ask(aborted, i < limit && !aborted && limiter.HasCapacity(plan[i].provider))
    }

    /** Takes a slot for the current candidate, or records it as skipped. */
    method DialOrSkip()
      requires limiter.Valid() && ImageSound(State()) && phase == AtTop && i < limit && release == null
      modifies this, limiter`inFlight, limiter`live
      ensures limiter.Valid()
      ensures var r := old(State()); var granted := old(limiter.HasCapacity(plan[i].provider));
        && State() == ImageNext(r, Ask(false, granted))
        && (granted ==> limiter.inFlight == WithOneMore(old(limiter.inFlight), r.plan[r.i].provider))
        && (!granted ==> limiter.inFlight == old(limiter.inFlight))
        && (release != null <==> granted)
      ensures release != null ==> fresh(release) && release in limiter.live && release.limiter == limiter
      ensures release != null ==> release.provider == plan[i].provider && release.owner == this
      ensures limiter.live == old(limiter.live) + (if release == null then {} else {release})
    {
      course := course + [Ask(false, limiter.HasCapacity(plan[i].provider))];
      release := limiter.Acquire(plan[i].provider, this);
      hide NoZeroCounts, CountIn, HasRoom, WithOneMore, Held;
      if release == null {
        attempts := attempts + [AttemptOutcome(plan[i], RATE_LIMITED, 429, None)];
        i := i + 1;
      } else {
        phase := Generating;
      }
    }

    /** From the loop top to the adapter's call, to the next candidate, or to the end. */
    method Advance(aborted: bool)
      requires Valid() && phase == AtTop
      modifies this, limiter`inFlight, limiter`live
      ensures Valid()
      ensures State() == ImageNext(old(State()), old(LoopTop(aborted)))
      ensures limiter.inFlight == SharedLimiter.ImageSlots(old(limiter.inFlight), old(State()), old(LoopTop(aborted)))
      ensures release != null ==> fresh(release)
      ensures limiter.live == old(limiter.live) + (if release == null then {} else {release})
    {
      hide ImageInvariant, WithOneMore, NoZeroCounts, CountIn, HasRoom, Held, Skipped;
      ImageInvariantKept(State(), LoopTop(aborted));
      if i >= limit || aborted {
        course := course + [LoopTop(aborted)];
        phase := Done(false);
      } else {
        DialOrSkip();
      }
      assert State() == ImageNext(old(State()), old(LoopTop(aborted)));
    }

    /** The `finally` arm. */
    method GiveBack()
      requires limiter.Valid() && release != null && release in limiter.live && release.limiter == limiter
      modifies this`release, limiter`inFlight, limiter`live, release`released
      ensures limiter.Valid() && release == null
      ensures limiter.inFlight == WithOneLess(old(limiter.inFlight), old(release).provider)
      ensures limiter.live == old(limiter.live) - {old(release)}
    {
      release.Release();
      release := null;
    }

    /** What the answer leaves in the chain and with the tracker. */
    method RecordAnswer(answer: ImageAnswer)
      requires ImageSound(State()) && phase == Generating
      modifies this`i, this`phase, this`attempts, this`told, this`course
      ensures State() == ImageNext(old(State()), Answer(answer))
    {
      hide Classify;
      course := course + [Answer(answer)];
      if answer == Image {
        told := told + [AttemptOutcome(plan[i], OK, 200, None)];
        phase := Done(true);
      } else {
        var outcome := AttemptOutcome(plan[i], NETWORK, 0, None);
        if answer.Refused? {
          outcome := AttemptOutcome(plan[i], Classify(answer.status, NoHint), answer.status, None);
        }
        attempts := attempts + [outcome];
        told := told + [outcome];
        phase, i := AtTop, i + 1;
      }
    }

    /** The adapter answers or throws. */
    method OnAnswer(answer: ImageAnswer)
      requires Valid() && phase == Generating
      modifies this, limiter`inFlight, limiter`live, release`released
      ensures Valid() && release == null && phase != Generating
      ensures State() == ImageNext(old(State()), Answer(answer))
      ensures limiter.inFlight == SharedLimiter.ImageSlots(old(limiter.inFlight), old(State()), Answer(answer))
      ensures limiter.live == old(limiter.live) - {old(release)}
    {
      ImageInvariantKept(State(), Answer(answer));
      InvariantImpliesSound(ImageNext(State(), Answer(answer)));
      hide ImageInvariant, WithOneLess, Served, Failed, NoZeroCounts, CountIn, Held;
      RecordAnswer(answer);
      GiveBack();
    }
  }

  lemma InvariantImpliesSound(r: ImageRun)
    requires ImageInvariant(r)
    ensures ImageSound(r)
  {
  }

  lemma TakenAndGivenBack(m: InFlight, provider: string)
    requires NoZeroCounts(m)
    ensures WithOneLess(WithOneMore(m, provider), provider) == m
  {
  }

  /** Every slot asked for is answered as `w` says. */
  ghost predicate GrantsAs(cap: int, m: InFlight, plan: seq<Candidate>, w: World) {
    forall k: nat | k < |plan| :: w.granted(k) == HasRoom(cap, m, plan[k].provider)
  }

  lemma Granting(cap: int, m: InFlight, plan: seq<Candidate>, w: World)
    requires GrantsAs(cap, m, plan, w)
    ensures forall k: nat | k < |plan| :: w.granted(k) == HasRoom(cap, m, plan[k].provider)
  {
    hide HasRoom;
  }

  /** One candidate, from the loop top to the next or to the end. */
  method TryCandidate(run: ImageExecution, w: World)
    requires run.Valid() && run.phase == AtTop && Follows(run.State(), w)
    requires GrantsAs(run.limiter.maxPerProvider, run.limiter.inFlight, run.plan, w)
    modifies run, run.limiter`inFlight, run.limiter`live
    ensures run.Valid() && run.phase != Generating && Follows(run.State(), w)
    ensures run.limiter.inFlight == old(run.limiter.inFlight) && run.limiter.live == old(run.limiter.live)
    ensures run.phase.Done? || run.i == old(run.i) + 1
  {
    hide Follows, ImageInvariant, WithOneMore, WithOneLess, NoZeroCounts, CountIn, Held, GrantsAs, Served, Failed,
      Skipped, HasRoom;
    ghost var r, m, live := run.State(), run.limiter.inFlight, run.limiter.live;
    ghost var ask := run.LoopTop(w.aborted(run.i));
    Granting(run.limiter.maxPerProvider, m, run.plan, w);
    FollowsKept(r, ask, w);
    run.Advance(w.aborted(run.i));
    if run.phase == Generating {
      FollowsKept(run.State(), Answer(w.answer(run.i)), w);
      TakenAndGivenBack(m, run.plan[run.i].provider);
      ghost var h := run.release;
      run.OnAnswer(w.answer(run.i));
      assert live + {h} - {h} == live;
    }
  }

  /** The whole call when no other request comes between: its outcome is what the signal, the free
      providers and the answers make of the plan, and every slot has been given back. */
  method ExecuteImage(plan: seq<Candidate>, maxAttempts: Option<int>, limiter: ProviderLimiter, w: World)
    returns (run: ImageExecution)
    requires limiter.Valid() && GrantsAs(limiter.maxPerProvider, limiter.inFlight, plan, w)
    modifies limiter`inFlight, limiter`live
    ensures fresh(run) && run.Valid() && run.phase.Done? && Follows(run.State(), w)
    ensures run.plan == plan && run.limit == SliceEnd(|plan|, maxAttempts.GetOr(MAX_ATTEMPTS_DEFAULT))
    ensures limiter.inFlight == old(limiter.inFlight) && limiter.live == old(limiter.live)
  {
    run := new ImageExecution(plan, maxAttempts, limiter);
    BeginFollows(plan, maxAttempts, w);
    hide Follows, ImageInvariant, GrantsAs, NoZeroCounts, CountIn, Held;
    while !run.phase.Done?
      invariant fresh(run) && run.Valid() && run.phase != Generating && Follows(run.State(), w)
      invariant run.limiter == limiter && run.plan == plan
      invariant run.limit == SliceEnd(|plan|, maxAttempts.GetOr(MAX_ATTEMPTS_DEFAULT))
      invariant limiter.inFlight == old(limiter.inFlight) && limiter.live == old(limiter.live)
      decreases run.limit - run.i, if run.phase == AtTop then 1 else 0
    {
      TryCandidate(run, w);
    }
  }

  lemma BeginFollows(plan: seq<Candidate>, maxAttempts: Option<int>, w: World)
    ensures Follows(BeginImage(plan, maxAttempts), w)
  {
  }
}
