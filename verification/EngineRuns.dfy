/** Many executions of one engine over its one limiter, resumed in any order
    (packages/router-core/src/execution-engine.ts:107-358): the objects together behave as the shared
    system does. */
module EngineRuns {
  import opened AttemptProtocol
  import opened Domain
  import opened ExecutionEngine
  import opened ImageAttempts
  import opened ProviderLimiting
  import opened SharedLimiter

  ghost function States(runs: seq<TextExecution>): (r: seq<Execution>)
    reads runs
    ensures |r| == |runs| && forall k | 0 <= k < |runs| :: r[k] == runs[k].State()
  {
    seq(|runs|, k requires 0 <= k < |runs| reads runs => runs[k].State())
  }

  ghost function ImageStates(images: seq<ImageExecution>): (r: seq<ImageRun>)
    reads images
    ensures |r| == |images| && forall k | 0 <= k < |images| :: r[k] == images[k].State()
  {
    seq(|images|, k requires 0 <= k < |images| reads images => images[k].State())
  }

  /** One resumption of one execution: whichever arm of the generator the event drives. */
  method Dispatch(run: TextExecution, ev: Event)
    requires run.Valid() && Admits(run.State(), ev)
    requires Answers(run.limiter.maxPerProvider, run.limiter.inFlight, run.State(), ev)
    modifies run, run.limiter`inFlight, run.limiter`live, run.release
    ensures run.Valid() && run.State() == Next(old(run.State()), ev)
    ensures run.limiter.inFlight == Slots(old(run.limiter.inFlight), old(run.State()), ev)
    ensures fresh(run.limiter.live - old(run.limiter.live))
    ensures forall h | h in old(run.limiter.live) && h != old(run.release) :: h in run.limiter.live
  {
    hide Invariant, NoZeroCounts, WithOneMore, WithOneLess, AfterFinish, AfterFailure;
    match ev
    case Proceed(aborted, _) => run.Advance(aborted);
    case Chunk => run.OnChunk();
    case ToolCall => run.OnToolCall();
    case Finish => run.OnFinish();
    case Fail(f, abortedAfter) => run.OnFailure(f, abortedAfter);
    case Return => run.OnReturn();
  }

  method DispatchImage(run: ImageExecution, ev: ImageEvent)
    requires run.Valid() && ImageAdmits(run.State(), ev)
    requires AnswersImage(run.limiter.maxPerProvider, run.limiter.inFlight, run.State(), ev)
    modifies run, run.limiter`inFlight, run.limiter`live, run.release
    ensures run.Valid() && run.State() == ImageNext(old(run.State()), ev)
    ensures run.limiter.inFlight == ImageSlots(old(run.limiter.inFlight), old(run.State()), ev)
    ensures fresh(run.limiter.live - old(run.limiter.live))
    ensures forall h | h in old(run.limiter.live) && h != old(run.release) :: h in run.limiter.live
  {
    hide ImageInvariant, NoZeroCounts, WithOneMore, WithOneLess, Skipped, Served, Failed;
    match ev
    case Ask(aborted, _) => run.Advance(aborted);
    case Answer(answer) => run.OnAnswer(answer);
  }

  class Engine {
    const limiter: ProviderLimiter
    var runs: seq<TextExecution>
    var images: seq<ImageExecution>

    ghost predicate Separate()
      reads this, runs, images
    {
      && (forall k | 0 <= k < |runs| :: runs[k].limiter == limiter)
      && (forall k | 0 <= k < |images| :: images[k].limiter == limiter)
      && (forall j, k | 0 <= j < k < |runs| :: runs[j] != runs[k])
      && (forall j, k | 0 <= j < k < |images| :: images[j] != images[k])
    }

    ghost predicate Valid()
      reads this, runs, images, limiter, limiter.live
    {
      && Separate()
      && limiter.Valid()
      && (forall k | 0 <= k < |runs| :: runs[k].Valid())
      && (forall k | 0 <= k < |images| :: images[k].Valid())
    }

    ghost function View(): System
      reads this, runs, images, limiter
    {
      System(limiter.maxPerProvider, limiter.inFlight, States(runs), ImageStates(images))
    }

    constructor (cap: int)
      ensures Valid() && View() == Fresh(cap) && fresh(limiter) && limiter.live == {} && runs == [] && images == []
    {
      limiter := new ProviderLimiter(cap);
      runs, images := [], [];
    }

    method Start(plan: seq<Candidate>, maxAttempts: Option<int>, wantsTools: bool)
      requires Valid()
      modifies this`runs
      ensures Valid() && View() == Take(old(View()), SharedLimiter.Start(plan, maxAttempts, wantsTools))
      ensures |runs| == |old(runs)| + 1 && runs[..|old(runs)|] == old(runs) && fresh(runs[|old(runs)|])
    {
      hide Begin, Invariant, ImageInvariant, TextExecution.Valid, ImageExecution.Valid, ProviderLimiter.Valid;
      var run := new TextExecution(plan, maxAttempts, wantsTools, limiter);
      runs := runs + [run];
      assert States(runs) == old(States(runs)) + [run.State()];
    }

    method StartImage(plan: seq<Candidate>, maxAttempts: Option<int>)
      requires Valid()
      modifies this`images
      ensures Valid() && View() == Take(old(View()), SharedLimiter.StartImage(plan, maxAttempts))
      ensures |images| == |old(images)| + 1 && images[..|old(images)|] == old(images) && fresh(images[|old(images)|])
    {
      hide BeginImage, Invariant, ImageInvariant, TextExecution.Valid, ImageExecution.Valid, ProviderLimiter.Valid;
      var run := new ImageExecution(plan, maxAttempts, limiter);
      images := images + [run];
      assert ImageStates(images) == old(ImageStates(images)) + [run.State()];
    }

    method Resume(k: nat, ev: Event)
      requires Valid() && Allowed(View(), SharedLimiter.Resume(k, ev))
      modifies runs[k], limiter`inFlight, limiter`live, runs[k].release
      ensures Valid() && fresh(limiter.live - old(limiter.live))
      ensures View() == Take(old(View()), SharedLimiter.Resume(k, ev))
    {
      hide Invariant, ImageInvariant, NoZeroCounts, Next, Slots, Admits, Answers;
      Dispatch(runs[k], ev);
      assert States(runs) == old(States(runs))[k := runs[k].State()];
      assert ImageStates(images) == old(ImageStates(images));
    }

    method ResumeImage(k: nat, ev: ImageEvent)
      requires Valid() && Allowed(View(), SharedLimiter.ResumeImage(k, ev))
      modifies images[k], limiter`inFlight, limiter`live, images[k].release
      ensures Valid() && fresh(limiter.live - old(limiter.live))
      ensures View() == Take(old(View()), SharedLimiter.ResumeImage(k, ev))
    {
      hide Invariant, ImageInvariant, NoZeroCounts, ImageNext, ImageSlots, ImageAdmits, AnswersImage;
      DispatchImage(images[k], ev);
      assert ImageStates(images) == old(ImageStates(images))[k := images[k].State()];
      assert States(runs) == old(States(runs));
    }

    method SetCap(cap: int)
      requires Valid()
      modifies limiter`maxPerProvider
      ensures Valid() && View() == Take(old(View()), SharedLimiter.SetCap(cap))
    {
      hide Invariant, ImageInvariant;
      limiter.SetCap(cap);
      assert States(runs) == old(States(runs)) && ImageStates(images) == old(ImageStates(images));
    }

    method Do(step: Step)
      requires Valid() && Allowed(View(), step)
      modifies this`runs, this`images, runs, images, limiter, limiter.live
      ensures Valid() && View() == Take(old(View()), step)
      ensures fresh(limiter.live - old(limiter.live))
      ensures forall r | r in runs :: r in old(runs) || fresh(r)
      ensures forall r | r in images :: r in old(images) || fresh(r)
    {
      hide Invariant, ImageInvariant, Next, ImageNext, Begin, BeginImage;
      match step
      case Start(plan, maxAttempts, wantsTools) => Start(plan, maxAttempts, wantsTools);
      case StartImage(plan, maxAttempts) => StartImage(plan, maxAttempts);
      case SetCap(cap) => SetCap(cap);
      case Resume(k, ev) => Resume(k, ev);
      case ResumeImage(k, ev) => ResumeImage(k, ev);
    }
  }

  /** A whole schedule, run on the objects, ends in the state the shared system ends in; so everything
      proved of every schedule holds of them. */
  method Drive(cap: int, steps: seq<Step>) returns (engine: Engine)
    requires AllAllowed(Fresh(cap), steps)
    ensures fresh(engine) && engine.Valid() && engine.View() == After(Fresh(cap), steps)
  {
    engine := new Engine(cap);
    hide Allowed, Take, Invariant, ImageInvariant, NoZeroCounts, Fresh;
    var n := 0;
    while n < |steps|
      invariant n <= |steps|
      invariant engine.Valid() && fresh(engine) && fresh(engine.limiter)
      invariant forall r | r in engine.runs :: fresh(r)
      invariant forall r | r in engine.images :: fresh(r)
      invariant fresh(engine.limiter.live)
      invariant AllAllowed(engine.View(), steps[n..])
      invariant After(engine.View(), steps[n..]) == After(Fresh(cap), steps)
    {
      assert steps[n..][1..] == steps[n + 1..];
      engine.Do(steps[n]);
      n := n + 1;
    }
  }
}
