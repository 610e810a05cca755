/** The image path: the same plan walked without a stream (packages/router-core/src/execution-engine.ts:318-358),
    as a step machine, since other requests run while an adapter generates. */
module ImageAttempts {
  import opened AttemptProtocol
  import opened Domain
  import opened ErrorClasses

  datatype ImageAnswer = Image | Refused(status: int) | Threw

  datatype ImagePhase = AtTop | Generating | Done(served: bool)

  /** `chain` is what the caller is told, `told` what the health tracker hears, `course` every event so far. */
  datatype ImageRun = ImageRun(
    plan: seq<Candidate>,
    limit: nat,
    i: nat,
    phase: ImagePhase,
    chain: seq<AttemptOutcome>,
    told: seq<AttemptOutcome>,
    course: seq<ImageEvent>)

  datatype ImageEvent = Ask(aborted: bool, granted: bool) | Answer(answer: ImageAnswer)

  /** How many entries `slice(0, max)` keeps; a negative bound counts from the end. */
  function SliceEnd(length: nat, max: int): (n: nat)
    ensures n <= length
  {
    if max < 0 then (if length + max < 0 then 0 else length + max)
    else if max < length then max else length
  }

  function BeginImage(plan: seq<Candidate>, maxAttempts: Option<int>): ImageRun {
    ImageRun(plan, SliceEnd(|plan|, maxAttempts.GetOr(MAX_ATTEMPTS_DEFAULT)), 0, AtTop, [], [], [])
  }

  predicate ImageSound(r: ImageRun) {
    r.i <= r.limit <= |r.plan| && (r.phase == Generating ==> r.i < r.limit)
  }

  predicate ImageAdmits(r: ImageRun, ev: ImageEvent) {
    match r.phase
    case AtTop => ev.Ask?
    case Generating => ev.Answer?
    case Done(_) => false
  }

  function Skipped(c: Candidate): AttemptOutcome { AttemptOutcome(c, RATE_LIMITED, 429, None) }

  function Served(c: Candidate): AttemptOutcome { AttemptOutcome(c, OK, 200, None) }

  /** What an attempt that did not serve leaves in the chain. */
  function Failed(c: Candidate, a: ImageAnswer): AttemptOutcome {
    match a
    case Refused(status) => AttemptOutcome(c, Classify(status, NoHint), status, None)
    case _ => AttemptOutcome(c, NETWORK, 0, None)
  }

  function ImageNext(r: ImageRun, ev: ImageEvent): ImageRun
    requires ImageSound(r) && ImageAdmits(r, ev)
  {
    var s := r.(course := r.course + [ev]);
    match ev
    case Ask(aborted, granted) =>
      if r.i >= r.limit || aborted then s.(phase := Done(false))
      else if !granted then s.(chain := r.chain + [Skipped(r.plan[r.i])], i := r.i + 1)
      else s.(phase := Generating)
    case Answer(answer) =>
      var c := r.plan[r.i];
      if answer == Image then s.(phase := Done(true), told := r.told + [Served(c)])
      else
        var outcome := Failed(c, answer);
        s.(phase := AtTop, i := r.i + 1, chain := r.chain + [outcome], told := r.told + [outcome])
  }

  // --- what a whole run amounts to ----------------------------------------------------------------

  /** What the signal, the limiter and the adapter do at each candidate, by its place in the plan. */
  datatype World = World(aborted: nat -> bool, granted: nat -> bool, answer: nat -> ImageAnswer)

  /** What a candidate that did not serve is recorded as: no slot is a rate limit, a refusal is classed by its
      status alone, and whatever is thrown is the network. */
  function EntryFor(c: Candidate, k: nat, w: World): AttemptOutcome {
    if !w.granted(k) then AttemptOutcome(c, RATE_LIMITED, 429, None)
    else
      match w.answer(k)
      case Refused(status) => AttemptOutcome(c, Classify(status, NoHint), status, None)
      case _ => AttemptOutcome(c, NETWORK, 0, None)
  }

  predicate Serves(k: nat, w: World) { w.granted(k) && w.answer(k) == Image }

  /** The first n candidates were tried or skipped in plan order, none served, and no abort was seen. */
  ghost predicate Passed(plan: seq<Candidate>, chain: seq<AttemptOutcome>, n: nat, w: World) {
    && n == |chain| <= |plan|
    && forall k | 0 <= k < n :: !w.aborted(k) && !Serves(k, w) && chain[k] == EntryFor(plan[k], k, w)
  }

  /** The entries whose attempt got a slot. */
  function Granted(chain: seq<AttemptOutcome>, w: World): seq<AttemptOutcome> {
    if chain == [] then []
    else
      var n := |chain| - 1;
      Granted(chain[..n], w) + (if w.granted(n) then [chain[n]] else [])
  }

  /** The run so far is what this world makes of its plan: the first candidate that serves wins; otherwise
      the request fails at the end of the allowed plan or at an abort; the tracker hears of every attempt
      that got a slot and of no other. */
  ghost predicate Follows(r: ImageRun, w: World) {
    && ImageSound(r) && Passed(r.plan, r.chain, r.i, w)
    && r.told == Granted(r.chain, w)
                 + (if r.phase == Done(true) && r.i < r.limit then [AttemptOutcome(r.plan[r.i], OK, 200, None)] else [])
    && match r.phase
      case AtTop => true
      case Generating => !w.aborted(r.i) && w.granted(r.i)
      case Done(served) =>
        if served then r.i < r.limit && !w.aborted(r.i) && Serves(r.i, w) else r.i == r.limit || w.aborted(r.i)
  }

  predicate Accords(r: ImageRun, ev: ImageEvent, w: World) {
    match ev
    case Ask(aborted, granted) =>
      r.i < r.limit ==> aborted == w.aborted(r.i) && (!aborted ==> granted == w.granted(r.i))
    case Answer(answer) => answer == w.answer(r.i)
  }

  lemma GrantedSnoc(chain: seq<AttemptOutcome>, entry: AttemptOutcome, w: World)
    ensures Granted(chain + [entry], w) == Granted(chain, w) + (if w.granted(|chain|) then [entry] else [])
  {
    assert (chain + [entry])[..|chain|] == chain;
  }

  lemma PassedSnoc(plan: seq<Candidate>, chain: seq<AttemptOutcome>, n: nat, w: World)
    requires Passed(plan, chain, n, w) && n < |plan| && !w.aborted(n) && !Serves(n, w)
    ensures |chain| == n && Passed(plan, chain + [EntryFor(plan[n], n, w)], n + 1, w)
  {
    hide EntryFor, Serves;
  }

  lemma AnswerFollows(r: ImageRun, answer: ImageAnswer, w: World)
    requires Follows(r, w) && r.phase == Generating && answer == w.answer(r.i)
    ensures Follows(ImageNext(r, Answer(answer)), w)
  {
    hide Granted, Passed, Classify;
    var entry := EntryFor(r.plan[r.i], r.i, w);
    assert Granted(r.chain, w) + [] == Granted(r.chain, w);
    if answer != Image {
      GrantedSnoc(r.chain, entry, w);
      PassedSnoc(r.plan, r.chain, r.i, w);
      assert Granted(r.chain + [entry], w) + [] == Granted(r.chain + [entry], w);
    }
  }

  lemma AskFollows(r: ImageRun, aborted: bool, granted: bool, w: World)
    requires Follows(r, w) && r.phase == AtTop && Accords(r, Ask(aborted, granted), w)
    ensures Follows(ImageNext(r, Ask(aborted, granted)), w)
  {
    hide Granted, Passed, Classify;
    if r.i < r.limit && !aborted && !granted {
      var entry := EntryFor(r.plan[r.i], r.i, w);
      GrantedSnoc(r.chain, entry, w);
      PassedSnoc(r.plan, r.chain, r.i, w);
      assert Granted(r.chain, w) + [] == Granted(r.chain, w);
      assert Granted(r.chain + [entry], w) + [] == Granted(r.chain + [entry], w);
    }
  }

  lemma FollowsKept(r: ImageRun, ev: ImageEvent, w: World)
    requires Follows(r, w) && ImageAdmits(r, ev) && Accords(r, ev, w)
    ensures Follows(ImageNext(r, ev), w)
  {
    match ev
    case Ask(aborted, granted) => AskFollows(r, aborted, granted, w);
    case Answer(answer) => AnswerFollows(r, answer, w);
  }

  // --- the world that the events made -------------------------------------------------------------

  /** This event is the last for its candidate, and another follows. */
  predicate MovesOn(ev: ImageEvent) {
    match ev
    case Ask(aborted, granted) => !aborted && !granted
    case Answer(answer) => answer != Image
  }

  /** How many candidates were passed over in this course. */
  function Place(course: seq<ImageEvent>): nat {
    if course == [] then 0
    else Place(course[..|course| - 1]) + (if MovesOn(course[|course| - 1]) then 1 else 0)
  }

  /** A world with what happened at candidate i put in. */
  function Observed(w: World, i: nat, ev: ImageEvent): World {
    match ev
    case Ask(aborted, granted) =>
      World(
        (k: nat) => if k == i then aborted else w.aborted(k),
        (k: nat) => if k == i then granted else w.granted(k),
        w.answer)
    case Answer(answer) => w.(answer := (k: nat) => if k == i then answer else w.answer(k))
  }

  /** What the signal, the limiter and the adapter have done in this course, candidate by candidate. */
  function WorldOf(course: seq<ImageEvent>): World {
    if course == [] then World(_ => false, _ => false, _ => Image)
    else
      var front := course[..|course| - 1];
      Observed(WorldOf(front), Place(front), course[|course| - 1])
  }

  /** The run is what its own events make of its plan. */
  ghost predicate ImageInvariant(r: ImageRun) {
    Follows(r, WorldOf(r.course)) && (r.phase != Done(false) ==> r.i == Place(r.course))
  }

  lemma CourseSnoc(course: seq<ImageEvent>, ev: ImageEvent)
    ensures Place(course + [ev]) == Place(course) + (if MovesOn(ev) then 1 else 0)
    ensures WorldOf(course + [ev]) == Observed(WorldOf(course), Place(course), ev)
  {
    assert (course + [ev])[..|course|] == course;
  }

  lemma BeginImageInvariant(plan: seq<Candidate>, maxAttempts: Option<int>)
    ensures ImageInvariant(BeginImage(plan, maxAttempts))
  {
  }

  lemma {:induction false} GrantedAgrees(chain: seq<AttemptOutcome>, w: World, v: World)
    requires forall k: nat | k < |chain| :: w.granted(k) == v.granted(k)
    ensures Granted(chain, w) == Granted(chain, v)
  {
    if chain != [] { GrantedAgrees(chain[..|chain| - 1], w, v); }
  }

  /** A run keeps following when only what is to come is changed. */
  lemma StillFollows(r: ImageRun, ev: ImageEvent, w: World)
    requires Follows(r, w) && ImageAdmits(r, ev)
    ensures Follows(r, Observed(w, r.i, ev)) && Accords(r, ev, Observed(w, r.i, ev))
  {
    var v := Observed(w, r.i, ev);
    GrantedAgrees(r.chain, w, v);
    hide Granted, Skipped, Served, Failed;
    forall k: nat | k < r.i ensures w.aborted(k) == v.aborted(k) && Serves(k, w) == Serves(k, v) {}
    forall k: nat | k < r.i ensures EntryFor(r.plan[k], k, w) == EntryFor(r.plan[k], k, v) {}
  }

  lemma PlaceFollows(r: ImageRun, ev: ImageEvent)
    requires ImageSound(r) && ImageAdmits(r, ev) && r.i == Place(r.course)
    ensures var s := ImageNext(r, ev); s.phase != Done(false) ==> s.i == Place(s.course)
  {
    CourseSnoc(r.course, ev);
    hide Place, Skipped, Served, Failed;
  }

  lemma NextCourse(r: ImageRun, ev: ImageEvent)
    requires ImageSound(r) && ImageAdmits(r, ev)
    ensures ImageNext(r, ev).course == r.course + [ev]
  {
    hide Skipped, Served, Failed;
  }

  lemma ImageInvariantKept(r: ImageRun, ev: ImageEvent)
    requires ImageInvariant(r) && ImageAdmits(r, ev)
    ensures ImageSound(r) && ImageInvariant(ImageNext(r, ev))
  {
    hide Follows, Place, WorldOf, Observed, ImageNext, Accords, ImageSound;
    FollowsIsSound(r, WorldOf(r.course));
    NextCourse(r, ev);
    PlaceFollows(r, ev);
    StillFollows(r, ev, WorldOf(r.course));
    CourseSnoc(r.course, ev);
    FollowsKept(r, ev, Observed(WorldOf(r.course), r.i, ev));
  }

  lemma FollowsIsSound(r: ImageRun, w: World)
    requires Follows(r, w)
    ensures ImageSound(r)
  {
    hide Passed, Granted;
  }

  /** How many entries of the plan the image path goes through: as many as the bound, or six, says; a negative
      bound leaves out so many from the end. */
  lemma ImageLimitIs(plan: seq<Candidate>, maxAttempts: Option<int>)
    ensures var n, bound := BeginImage(plan, maxAttempts).limit, if maxAttempts.Some? then maxAttempts.value else 6;
      && (bound >= |plan| ==> n == |plan|)
      && (0 <= bound < |plan| ==> n == bound)
      && (bound < 0 ==> n == if |plan| + bound >= 0 then |plan| + bound else 0)
  {
  }

  /** The text and the image path allow the same number of attempts unless the bound is negative and
      smaller than the plan: then the text path allows none and the image path all but the last few. */
  lemma PathsAllowTheSameIff(plan: seq<Candidate>, max: int)
    ensures SliceEnd(|plan|, max) == AllowedAttempts(plan, Some(max)) <==> max >= 0 || |plan| + max <= 0
  {
  }
}
