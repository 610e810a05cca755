/** Sliding-window drift detection over the attempt stream (packages/router-core/src/drift-monitor.ts). */
module DriftMonitoring {
  import opened Domain
  import opened ErrorClasses

  const WINDOW_MS_DEFAULT := 900000
  const MIN_ERRORS_DEFAULT := 5
  const MIN_MODELS_DEFAULT := 2
  const COOLDOWN_MS_DEFAULT := 3600000

  datatype DriftAttempt = DriftAttempt(
    providerId: string,
    providerSlug: string,
    model: string,
    requestedModel: string,
    cls: ErrorClass,
    ts: int)

  datatype DriftEvidence = DriftEvidence(
    providerId: string,
    providerSlug: string,
    errors: nat,
    models: seq<string>,
    windowMs: int,
    detectedAt: int)

  /** Left to its defaults a monitor asks for five errors over two models in a quarter of an hour, and rests for
      an hour after a trigger. */
  lemma Defaults()
    ensures WINDOW_MS_DEFAULT == 15 * 60 * 1000 && COOLDOWN_MS_DEFAULT == 60 * 60 * 1000
    ensures MIN_ERRORS_DEFAULT == 5 && MIN_MODELS_DEFAULT == 2
  {
  }

  function Since(attempts: seq<DriftAttempt>, cutoff: int): seq<DriftAttempt> {
    if attempts == [] then []
    else
      var last := attempts[|attempts| - 1];
      Since(attempts[..|attempts| - 1], cutoff) + (if last.ts >= cutoff then [last] else [])
  }

  function Of(attempts: seq<DriftAttempt>, providerId: string): seq<DriftAttempt> {
    if attempts == [] then []
    else
      var last := attempts[|attempts| - 1];
      Of(attempts[..|attempts| - 1], providerId) + (if last.providerId == providerId then [last] else [])
  }

  lemma SinceSnoc(attempts: seq<DriftAttempt>, a: DriftAttempt, cutoff: int)
    ensures Since(attempts + [a], cutoff) == Since(attempts, cutoff) + (if a.ts >= cutoff then [a] else [])
  {
    assert (attempts + [a])[..|attempts|] == attempts;
  }

  /** Pruning a pruned window at a later cutoff is pruning the whole log there. */
  lemma {:induction false} PruneAgain(log: seq<DriftAttempt>, earlier: int, later: int)
    requires earlier <= later
    ensures Since(Since(log, earlier), later) == Since(log, later)
  {
    if log != [] {
      var init, last := log[..|log| - 1], log[|log| - 1];
      PruneAgain(init, earlier, later);
      if last.ts >= earlier {
        SinceSnoc(Since(init, earlier), last, later);
      } else {
        assert Since(log, earlier) == Since(init, earlier) && Since(log, later) == Since(init, later);
      }
    }
  }

  lemma {:induction false} PruneEarlier(log: seq<DriftAttempt>, earlier: int, later: int)
    requires earlier <= later
    ensures Since(Since(log, later), earlier) == Since(log, later)
  {
    if log != [] {
      var init, last := log[..|log| - 1], log[|log| - 1];
      PruneEarlier(init, earlier, later);
      if last.ts >= later {
        SinceSnoc(Since(init, later), last, earlier);
      } else {
        assert Since(log, later) == Since(init, later);
      }
    }
  }

  // --- the pruned window and the whole log --------------------------------------------------------

  /** What the monitor has done with its window, in order.  Each prune reads the clock anew, and the clock
      may be set back. */
  datatype Event = Pushed(attempt: DriftAttempt) | Pruned(cutoff: int)

  /** What is left after these events. */
  function Survivors(trail: seq<Event>): seq<DriftAttempt> {
    if trail == [] then []
    else
      var before := Survivors(trail[..|trail| - 1]);
      match trail[|trail| - 1]
      case Pushed(a) => before + [a]
      case Pruned(cutoff) => Since(before, cutoff)
  }

  /** Every attempt ever pushed. */
  function Log(trail: seq<Event>): seq<DriftAttempt> {
    if trail == [] then []
    else
      var before := Log(trail[..|trail| - 1]);
      match trail[|trail| - 1]
      case Pushed(a) => before + [a]
      case Pruned(_) => before
  }

  /** No attempt that belongs to the window from this cutoff on was pruned after it had been pushed. */
  ghost predicate NothingLost(trail: seq<Event>, cutoff: int) {
    forall j, k | 0 <= j < k < |trail| && trail[j].Pushed? && trail[k].Pruned? && trail[j].attempt.ts >= cutoff ::
      trail[k].cutoff <= trail[j].attempt.ts
  }

  lemma TrailSnoc(trail: seq<Event>, ev: Event)
    ensures var before := Survivors(trail);
      Survivors(trail + [ev]) == if ev.Pushed? then before + [ev.attempt] else Since(before, ev.cutoff)
    ensures Log(trail + [ev]) == (if ev.Pushed? then Log(trail) + [ev.attempt] else Log(trail))
  {
    assert (trail + [ev])[..|trail|] == trail;
  }

  lemma {:induction false} LogIsPushed(trail: seq<Event>)
    ensures forall a :: a in Log(trail) <==> Pushed(a) in trail
  {
    if trail != [] {
      var front, ev := trail[..|trail| - 1], trail[|trail| - 1];
      assert trail == front + [ev];
      LogIsPushed(front);
      TrailSnoc(front, ev);
      hide Log, Survivors;
    }
  }

  /** A later cutoff keeps fewer, and as many only when nothing lies between. */
  lemma {:induction false} LaterKeepsFewer(log: seq<DriftAttempt>, earlier: int, later: int)
    requires earlier <= later
    ensures |Since(log, later)| <= |Since(log, earlier)|
    ensures |Since(log, later)| == |Since(log, earlier)| <==> forall a | a in log && a.ts >= earlier :: a.ts >= later
    ensures |Since(log, later)| == |Since(log, earlier)| ==> Since(log, later) == Since(log, earlier)
  {
    if log != [] {
      var front, last := log[..|log| - 1], log[|log| - 1];
      assert log == front + [last];
      LaterKeepsFewer(front, earlier, later);
    }
  }

  lemma LostSnocPush(trail: seq<Event>, a: DriftAttempt, cutoff: int)
    ensures NothingLost(trail + [Pushed(a)], cutoff) <==> NothingLost(trail, cutoff)
  {
    var next := trail + [Pushed(a)];
    if NothingLost(next, cutoff) {
      forall j, k | 0 <= j < k < |trail| && trail[j].Pushed? && trail[k].Pruned? && trail[j].attempt.ts >= cutoff
        ensures trail[k].cutoff <= trail[j].attempt.ts
      {
        assert next[j] == trail[j] && next[k] == trail[k];
      }
    }
  }

  lemma LostSnocPrune(trail: seq<Event>, c: int, cutoff: int)
    ensures NothingLost(trail + [Pruned(c)], cutoff)
      <==> NothingLost(trail, cutoff) && forall a | a in Log(trail) && a.ts >= cutoff :: a.ts >= c
  {
    LogIsPushed(trail);
    hide Log;
    var next := trail + [Pruned(c)];
    if NothingLost(next, cutoff) {
      forall j, k | 0 <= j < k < |trail| && trail[j].Pushed? && trail[k].Pruned? && trail[j].attempt.ts >= cutoff
        ensures trail[k].cutoff <= trail[j].attempt.ts
      {
        assert next[j] == trail[j] && next[k] == trail[k];
      }
      forall a | a in Log(trail) && a.ts >= cutoff ensures a.ts >= c {
        var j :| 0 <= j < |trail| && trail[j] == Pushed(a);
        assert next[j] == trail[j] && next[|trail|] == Pruned(c);
      }
    }
    if NothingLost(trail, cutoff) && forall a | a in Log(trail) && a.ts >= cutoff :: a.ts >= c {
      forall j, k | 0 <= j < k < |next| && next[j].Pushed? && next[k].Pruned? && next[j].attempt.ts >= cutoff
        ensures next[k].cutoff <= next[j].attempt.ts
      {
        assert next[j] == trail[j] && Pushed(next[j].attempt) in trail;
      }
    }
  }

  lemma LostLater(trail: seq<Event>, earlier: int, later: int)
    requires forall a | a in Log(trail) && a.ts >= earlier :: a.ts >= later
    requires earlier <= later
    ensures NothingLost(trail, earlier) <==> NothingLost(trail, later)
  {
    LogIsPushed(trail);
    hide Log;
    forall j | 0 <= j < |trail| && trail[j].Pushed? && trail[j].attempt.ts >= earlier
      ensures trail[j].attempt.ts >= later
    {
      assert Pushed(trail[j].attempt) in trail;
    }
  }

  /** The window the monitor sees never holds more than the log has for it. */
  ghost predicate Sees(trail: seq<Event>, cutoff: int) {
    var kept, all := Since(Survivors(trail), cutoff), Since(Log(trail), cutoff);
    |kept| <= |all| && (|kept| == |all| <==> kept == all) && (kept == all <==> NothingLost(trail, cutoff))
  }

  lemma SeesAfterPush(trail: seq<Event>, a: DriftAttempt, cutoff: int)
    requires Sees(trail, cutoff)
    ensures Sees(trail + [Pushed(a)], cutoff)
  {
    TrailSnoc(trail, Pushed(a));
    LostSnocPush(trail, a, cutoff);
    SinceSnoc(Survivors(trail), a, cutoff);
    SinceSnoc(Log(trail), a, cutoff);
    hide Survivors, Log, Since, NothingLost;
    var kept, all := Since(Survivors(trail), cutoff), Since(Log(trail), cutoff);
    assert kept + [a] == all + [a] ==> kept == all by {
      if kept + [a] == all + [a] { assert kept == (kept + [a])[..|kept|] && all == (all + [a])[..|all|]; }
    }
    assert kept + [] == kept && all + [] == all;
  }

  lemma SeesAfterPrune(trail: seq<Event>, c: int, cutoff: int)
    requires Sees(trail, cutoff) && Sees(trail, c)
    ensures Sees(trail + [Pruned(c)], cutoff)
  {
    TrailSnoc(trail, Pruned(c));
    LostSnocPrune(trail, c, cutoff);
    hide Survivors, Log, Since, NothingLost;
    var s, log := Survivors(trail), Log(trail);
    if c <= cutoff {
      PruneAgain(s, c, cutoff);
    } else {
      PruneEarlier(s, cutoff, c);
      LaterKeepsFewer(log, cutoff, c);
      if forall a | a in log && a.ts >= cutoff :: a.ts >= c { LostLater(trail, cutoff, c); }
    }
  }

  /** Main result: what the pruned window gives from a cutoff on is what the whole log gives, if and only if
      no attempt of that window had been pruned before. */
  lemma WindowIsWholeIff(trail: seq<Event>, cutoff: int)
    ensures |Since(Survivors(trail), cutoff)| <= |Since(Log(trail), cutoff)|
    ensures Since(Survivors(trail), cutoff) == Since(Log(trail), cutoff) <==> NothingLost(trail, cutoff)
  {
    SeesWindow(trail, cutoff);
    hide Survivors, Log, Since, NothingLost;
  }

  lemma {:induction false} SeesWindow(trail: seq<Event>, cutoff: int)
    ensures Sees(trail, cutoff)
  {
    if trail == [] {
      assert Since([], cutoff) == [];
    } else {
      hide Sees;
      var front, ev := trail[..|trail| - 1], trail[|trail| - 1];
      assert trail == front + [ev];
      SeesWindow(front, cutoff);
      match ev
      case Pushed(a) => SeesAfterPush(front, a, cutoff);
      case Pruned(c) =>
        SeesWindow(front, c);
        SeesAfterPrune(front, c, cutoff);
    }
  }

  /** A clock that never runs back loses nothing. */
  lemma SteadyClockLosesNothing(trail: seq<Event>, cutoff: int)
    requires forall k | 0 <= k < |trail| && trail[k].Pruned? :: trail[k].cutoff <= cutoff
    ensures Since(Survivors(trail), cutoff) == Since(Log(trail), cutoff)
  {
    WindowIsWholeIff(trail, cutoff);
    hide Survivors, Log, Since;
  }

  /** A clock set back by more than the window: an attempt of the window is gone. */
  lemma ClockSetBack(a: DriftAttempt)
    requires a.ts == 100
    ensures var trail := [Pushed(a), Pruned(200)];
      Since(Survivors(trail), 50) == [] && Since(Log(trail), 50) == [a]
  {
    var trail := [Pushed(a), Pruned(200)];
    assert trail[..1] == [Pushed(a)] && [Pushed(a)][..0] == [];
    assert Survivors([Pushed(a)]) == [a] && Log([Pushed(a)]) == [a];
    assert [a][..0] == [] && Since([a], 200) == [] && Since([a], 50) == [a];
    assert Survivors(trail) == Since([a], 200) && Since([], 50) == [];
  }

  function ModelSet(attempts: seq<DriftAttempt>): set<string> {
    set a | a in attempts :: a.model
  }

  /** What these attempts say at this moment: enough errors in the window, over enough models, one of
      which another provider served. */
  ghost predicate Drifting(attempts: seq<DriftAttempt>, providerId: string, cutoff: int, minErrors: int, minModels: int,
                           succeeded: string -> bool)
  {
    var mine := Of(Since(attempts, cutoff), providerId);
    && |mine| >= minErrors
    && |ModelSet(mine)| >= minModels
    && exists k :: 0 <= k < |mine| && succeeded(mine[k].requestedModel)
  }

  /** The evidence counts the provider's attempts among these that lie in the window. */
  ghost predicate CountsFrom(e: DriftEvidence, attempts: seq<DriftAttempt>, providerId: string, cutoff: int) {
    var mine := Of(Since(attempts, cutoff), providerId);
    && e.providerId == providerId
    && e.errors == |mine| > 0
    && e.providerSlug == mine[|mine| - 1].providerSlug
    && |e.models| == |ModelSet(mine)| && forall m: string :: m in e.models <==> m in ModelSet(mine)
  }

  // --- the window by its places in the stream -----------------------------------------------------

  /** The places of the provider's attempts from the cutoff on. */
  function Places(attempts: seq<DriftAttempt>, providerId: string, cutoff: int): set<int> {
    set k | 0 <= k < |attempts| && attempts[k].providerId == providerId && attempts[k].ts >= cutoff
  }

  function ModelsAt(attempts: seq<DriftAttempt>, places: set<int>): set<string> {
    set k | k in places && 0 <= k < |attempts| :: attempts[k].model
  }

  /** These are the attempts at these places, in order. */
  ghost predicate Picks(attempts: seq<DriftAttempt>, places: set<int>, mine: seq<DriftAttempt>) {
    && (forall k | k in places :: 0 <= k < |attempts|)
    && |mine| == |places|
    && (forall a :: a in mine <==> exists k | k in places :: attempts[k] == a)
    && (mine != [] ==> exists k | k in places :: mine[|mine| - 1] == attempts[k] && forall j | j in places :: j <= k)
  }

  lemma WindowSnoc(front: seq<DriftAttempt>, last: DriftAttempt, providerId: string, cutoff: int)
    ensures Of(Since(front + [last], cutoff), providerId) == Of(Since(front, cutoff), providerId)
      + (if last.providerId == providerId && last.ts >= cutoff then [last] else [])
  {
    SinceSnoc(front, last, cutoff);
    assert (Since(front, cutoff) + [last])[..|Since(front, cutoff)|] == Since(front, cutoff);
    assert Since(front, cutoff) + [] == Since(front, cutoff);
  }

  lemma PlacesSnoc(front: seq<DriftAttempt>, last: DriftAttempt, providerId: string, cutoff: int)
    ensures Places(front + [last], providerId, cutoff) == Places(front, providerId, cutoff)
      + (if last.providerId == providerId && last.ts >= cutoff then {|front|} else {})
  {
  }

  lemma PicksMore(front: seq<DriftAttempt>, places: set<int>, mine: seq<DriftAttempt>, last: DriftAttempt)
    requires Picks(front, places, mine)
    ensures Picks(front + [last], places, mine)
    ensures Picks(front + [last], places + {|front|}, mine + [last])
  {
    var attempts, n := front + [last], |front|;
    assert forall k | k in places :: attempts[k] == front[k];
    forall a | a in mine + [last] ensures exists k | k in places + {n} :: attempts[k] == a {
      if a in mine { var k :| k in places && front[k] == a; assert attempts[k] == a; } else { assert attempts[n] == a; }
    }
    assert attempts[n] == last == (mine + [last])[|mine|];
  }

  lemma NothingPicked(providerId: string, cutoff: int)
    ensures Picks([], Places([], providerId, cutoff), Of(Since([], cutoff), providerId))
  {
    assert Since([], cutoff) == [];
  }

  lemma {:induction false} WindowPicks(attempts: seq<DriftAttempt>, providerId: string, cutoff: int)
    ensures Picks(attempts, Places(attempts, providerId, cutoff), Of(Since(attempts, cutoff), providerId))
  {
    hide *;
    if attempts == [] {
      NothingPicked(providerId, cutoff);
    } else {
      var front, last := attempts[..|attempts| - 1], attempts[|attempts| - 1];
      WindowPicks(front, providerId, cutoff);
      WindowSnoc(front, last, providerId, cutoff);
      PlacesSnoc(front, last, providerId, cutoff);
      PicksMore(front, Places(front, providerId, cutoff), Of(Since(front, cutoff), providerId), last);
      assert attempts == front + [last];
      assert Places(front, providerId, cutoff) + {} == Places(front, providerId, cutoff);
      assert Of(Since(front, cutoff), providerId) + [] == Of(Since(front, cutoff), providerId);
    }
  }

  lemma PicksModels(attempts: seq<DriftAttempt>, places: set<int>, mine: seq<DriftAttempt>)
    requires Picks(attempts, places, mine)
    ensures ModelsAt(attempts, places) == ModelSet(mine)
  {
    forall k | k in places ensures attempts[k] in mine {}
  }

  lemma PicksServed(attempts: seq<DriftAttempt>, places: set<int>, mine: seq<DriftAttempt>, succeeded: string -> bool)
    requires Picks(attempts, places, mine)
    ensures (exists k | k in places :: succeeded(attempts[k].requestedModel))
      <==> exists k :: 0 <= k < |mine| && succeeded(mine[k].requestedModel)
  {
    if k :| 0 <= k < |mine| && succeeded(mine[k].requestedModel) { assert mine[k] in mine; }
    if k :| k in places && succeeded(attempts[k].requestedModel) {
      assert attempts[k] in mine;
      var j :| 0 <= j < |mine| && mine[j] == attempts[k];
    }
  }

  /** Main result: what makes a provider drift, counted at the places of the stream. */
  lemma DriftingIff(
    attempts: seq<DriftAttempt>, providerId: string, cutoff: int, minErrors: int, minModels: int,
    succeeded: string -> bool)
    ensures var places := Places(attempts, providerId, cutoff);
      Drifting(attempts, providerId, cutoff, minErrors, minModels, succeeded) <==>
      && |places| >= minErrors
      && |ModelsAt(attempts, places)| >= minModels
      && exists k | k in places :: succeeded(attempts[k].requestedModel)
  {
    hide Of, Since, Places, ModelsAt, ModelSet;
    WindowPicks(attempts, providerId, cutoff);
    PicksModels(attempts, Places(attempts, providerId, cutoff), Of(Since(attempts, cutoff), providerId));
    PicksServed(attempts, Places(attempts, providerId, cutoff), Of(Since(attempts, cutoff), providerId), succeeded);
  }

  /** And what the evidence holds: it counts the attempts and the models there, and goes by the last of them. */
  lemma EvidenceCounts(e: DriftEvidence, attempts: seq<DriftAttempt>, providerId: string, cutoff: int)
    requires CountsFrom(e, attempts, providerId, cutoff)
    ensures var places := Places(attempts, providerId, cutoff);
      && e.providerId == providerId
      && e.errors == |places| > 0
      && (exists k | k in places :: e.providerSlug == attempts[k].providerSlug && forall j | j in places :: j <= k)
      && |e.models| == |ModelsAt(attempts, places)|
      && forall m: string :: m in e.models <==> m in ModelsAt(attempts, places)
  {
    hide Of, Since, Places, ModelsAt, ModelSet;
    WindowPicks(attempts, providerId, cutoff);
    PicksModels(attempts, Places(attempts, providerId, cutoff), Of(Since(attempts, cutoff), providerId));
  }

  /** Only the window matters, to the verdict and to the counts. */
  lemma SameWindowSameCounts(kept: seq<DriftAttempt>, all: seq<DriftAttempt>, providerId: string, cutoff: int)
    requires Since(kept, cutoff) == Since(all, cutoff)
    ensures forall e :: CountsFrom(e, kept, providerId, cutoff) <==> CountsFrom(e, all, providerId, cutoff)
  {
    hide Since, Of, ModelSet;
  }

  lemma DriftingIs(
    attempts: seq<DriftAttempt>, providerId: string, cutoff: int, minErrors: int, minModels: int,
    succeeded: string -> bool)
    ensures var mine := Of(Since(attempts, cutoff), providerId);
      Drifting(attempts, providerId, cutoff, minErrors, minModels, succeeded)
      <==>
      && |mine| >= minErrors
      && |ModelSet(mine)| >= minModels
      && exists k :: 0 <= k < |mine| && succeeded(mine[k].requestedModel)
    ensures forall others | Since(others, cutoff) == Since(attempts, cutoff) ::
        Drifting(others, providerId, cutoff, minErrors, minModels, succeeded)
        == Drifting(attempts, providerId, cutoff, minErrors, minModels, succeeded)
    ensures |Of(Since(attempts, cutoff), providerId)| == 0 ==> |ModelSet(Of(Since(attempts, cutoff), providerId))| == 0
  {
    hide Since, Of;
  }

  /** A prune leaves the log alone; what it leaves of the window counts like the log if nothing was lost. */
  lemma PrunedWindow(trail: seq<Event>, cutoff: int, providerId: string)
    ensures Log(trail + [Pruned(cutoff)]) == Log(trail)
    ensures NothingLost(trail, cutoff) ==>
        forall e ::
          CountsFrom(e, Survivors(trail), providerId, cutoff) <==> CountsFrom(e, Log(trail), providerId, cutoff)
  {
    TrailSnoc(trail, Pruned(cutoff));
    WindowIsWholeIff(trail, cutoff);
    hide Log, Survivors, Since, NothingLost, CountsFrom;
    if NothingLost(trail, cutoff) { SameWindowSameCounts(Survivors(trail), Log(trail), providerId, cutoff); }
  }

  method DistinctModels(mine: seq<DriftAttempt>) returns (models: seq<string>)
    ensures forall j, k | 0 <= j < k < |models| :: models[j] != models[k]
    ensures forall m: string :: m in models <==> m in ModelSet(mine)
    ensures |models| == |ModelSet(mine)|
  {
    models := [];
    ghost var seen: set<string> := {};
    var n := 0;
    while n < |mine|
      invariant n <= |mine|
      invariant forall j, k | 0 <= j < k < |models| :: models[j] != models[k]
      invariant forall m: string :: m in models <==> m in seen
      invariant seen == (set k | 0 <= k < n :: mine[k].model)
      invariant |models| == |seen|
    {
      if mine[n].model !in models {
        models := models + [mine[n].model];
      }
      seen := seen + {mine[n].model};
      n := n + 1;
    }
    assert seen == ModelSet(mine) by {
      forall m: string ensures m in ModelSet(mine) ==> m in seen {
        if m in ModelSet(mine) {
          var a :| a in mine && a.model == m;
          var k :| 0 <= k < |mine| && mine[k] == a;
        }
      }
    }
  }

  datatype Note = Triggered(evidence: DriftEvidence) | Cleared(providerId: string) | WasReset

  predicate Clears(note: Note, providerId: string) {
    note == Cleared(providerId) || note == WasReset
  }

  /** The moment the provider's cooldown runs from. */
  function LastTrigger(history: seq<Note>, providerId: string): Option<int> {
    if history == [] then None
    else TriggerAfter(LastTrigger(history[..|history| - 1], providerId), history[|history| - 1], providerId)
  }

  function TriggerAfter(before: Option<int>, note: Note, providerId: string): Option<int> {
    if note.Triggered? && note.evidence.providerId == providerId then Some(note.evidence.detectedAt)
    else if Clears(note, providerId) then None
    else before
  }

  lemma LastTriggerSnoc(history: seq<Note>, note: Note)
    ensures forall p: string :: LastTrigger(history + [note], p) == TriggerAfter(LastTrigger(history, p), note, p)
  {
    assert (history + [note])[..|history|] == history;
  }

  predicate IsTrigger(history: seq<Note>, k: int, providerId: string) {
    0 <= k < |history| && history[k].Triggered? && history[k].evidence.providerId == providerId
  }

  /** Nothing triggered or cleared the provider strictly between these positions. */
  predicate Quiet(history: seq<Note>, j: int, k: int, providerId: string) {
    forall i | 0 <= i < |history| && j < i < k :: !IsTrigger(history, i, providerId) && !Clears(history[i], providerId)
  }

  /** Successive triggers of one provider, with nothing cleared between, lie a cooldown apart. */
  ghost predicate Spaced(history: seq<Note>, cooldownMs: int) {
    forall j, k, p: string
      | IsTrigger(history, j, p) && IsTrigger(history, k, p) && j < k && Quiet(history, j, k, p) ::
      history[k].evidence.detectedAt - history[j].evidence.detectedAt >= cooldownMs
  }

  lemma {:induction false} LastTriggerIsTheLatest(history: seq<Note>, providerId: string, j: int)
    requires IsTrigger(history, j, providerId) && Quiet(history, j, |history|, providerId)
    ensures LastTrigger(history, providerId) == Some(history[j].evidence.detectedAt)
  {
    var n := |history| - 1;
    if j < n {
      assert !IsTrigger(history, n, providerId) && !Clears(history[n], providerId);
      forall i | j < i < n ensures !IsTrigger(history[..n], i, providerId) && !Clears(history[..n][i], providerId) {
        assert !IsTrigger(history, i, providerId);
      }
      LastTriggerIsTheLatest(history[..n], providerId, j);
    }
  }

  /** A trigger outside the cooldown keeps the history spaced; any other note does anyway. */
  lemma SpacedSnoc(history: seq<Note>, note: Note, cooldownMs: int)
    requires Spaced(history, cooldownMs)
    requires note.Triggered? ==>
      var last := LastTrigger(history, note.evidence.providerId);
      last.Some? ==> note.evidence.detectedAt - last.value >= cooldownMs
    ensures Spaced(history + [note], cooldownMs)
  {
    var next := history + [note];
    forall j, k, p: string
      | IsTrigger(next, j, p) && IsTrigger(next, k, p) && j < k && Quiet(next, j, k, p)
      ensures next[k].evidence.detectedAt - next[j].evidence.detectedAt >= cooldownMs
    {
      hide LastTrigger;
      assert IsTrigger(history, j, p);
      forall i | 0 <= i < |history| && j < i < k ensures !IsTrigger(history, i, p) && !Clears(history[i], p) {
        assert !IsTrigger(next, i, p) && next[i] == history[i];
      }
      if k < |history| {
        assert IsTrigger(history, k, p);
      } else {
        LastTriggerIsTheLatest(history, p, j);
      }
    }
  }

  class DriftMonitor {
    const windowMs: int
    const minErrors: int
    const minModels: int
    const cooldownMs: int
    var attempts: seq<DriftAttempt>
    var lastTrigger: map<string, int>
    /** What was done to `attempts` since the start or the last reset. */
    ghost var trail: seq<Event>
    /** What was triggered (through `onTrigger`) and cleared, in order. */
    ghost var history: seq<Note>

    ghost predicate Valid()
      reads this
    {
      && attempts == Survivors(trail)
      && (forall p: string :: LastTrigger(history, p) == if p in lastTrigger then Some(lastTrigger[p]) else None)
      && Spaced(history, cooldownMs)
    }

    constructor (
      windowMs: int := WINDOW_MS_DEFAULT, minErrors: int := MIN_ERRORS_DEFAULT,
      minModels: int := MIN_MODELS_DEFAULT, cooldownMs: int := COOLDOWN_MS_DEFAULT)
      ensures Valid() && trail == [] && history == []
      ensures this.windowMs == windowMs && this.minErrors == minErrors && this.minModels == minModels
      ensures this.cooldownMs == cooldownMs
    {
      this.windowMs, this.minErrors, this.minModels, this.cooldownMs := windowMs, minErrors, minModels, cooldownMs;
      attempts, lastTrigger := [], map[];
      trail, history := [], [];
    }

    /** Drops what has left the window. */
    method Prune(now: int)
      requires Valid()
      modifies this`attempts, this`trail
      ensures Valid() && trail == old(trail) + [Pruned(now - windowMs)]
      ensures attempts == Since(old(attempts), now - windowMs)
      ensures attempts == Since(Log(trail), now - windowMs) <==> NothingLost(old(trail), now - windowMs)
    {
      hide Survivors, Log, Since, NothingLost, LastTrigger, Spaced;
      TrailSnoc(trail, Pruned(now - windowMs));
      WindowIsWholeIff(trail, now - windowMs);
      attempts := Since(attempts, now - windowMs);
      trail := trail + [Pruned(now - windowMs)];
    }

    /** The provider's cooldown has run out, or never started. */
    ghost predicate CooledDown(providerId: string, now: int)
      reads this
    {
      LastTrigger(history, providerId).None? || now - LastTrigger(history, providerId).value >= cooldownMs
    }

    /** Evaluates one provider.  `now0` and `now` are the two readings of the clock, `succeeded` what the
        caller knows of other providers at that moment. */
    method Evaluate(providerId: string, now0: int, now: int, succeeded: string -> bool)
      returns (triggered: Option<DriftEvidence>)
      requires Valid()
      modifies this
      ensures Valid() && trail == old(trail) + [Pruned(now0 - windowMs)]
      ensures triggered.Some?
        <==>
        && old(CooledDown(providerId, now))
        && Drifting(old(attempts), providerId, now0 - windowMs, minErrors, minModels, succeeded)
      ensures NothingLost(old(trail), now0 - windowMs) ==>
        (triggered.Some? <==>
          && old(CooledDown(providerId, now))
          && Drifting(Log(trail), providerId, now0 - windowMs, minErrors, minModels, succeeded))
      ensures history == old(history) + (if triggered.Some? then [Triggered(triggered.value)] else [])
      ensures triggered.Some? ==>
        && CountsFrom(triggered.value, old(attempts), providerId, now0 - windowMs)
        && (NothingLost(old(trail), now0 - windowMs) ==>
              CountsFrom(triggered.value, Log(trail), providerId, now0 - windowMs))
        && triggered.value.windowMs == windowMs && triggered.value.detectedAt == now
    {
      hide Survivors, Log, Since, Of, NothingLost, LastTrigger, Spaced, ModelSet, Drifting;
      DriftingIs(attempts, providerId, now0 - windowMs, minErrors, minModels, succeeded);
      PrunedWindow(trail, now0 - windowMs, providerId);
      Prune(now0);
      triggered := None;
      if providerId in lastTrigger && now - lastTrigger[providerId] < cooldownMs {
        return;
      }
      var mine := Of(attempts, providerId);
      var models := DistinctModels(mine);
      if |mine| < minErrors || |models| < minModels {
        return;
      }
      if !exists k :: 0 <= k < |mine| && succeeded(mine[k].requestedModel) {
        return;
      }
      lastTrigger := lastTrigger[providerId := now];
      var evidence := DriftEvidence(providerId, mine[|mine| - 1].providerSlug, |mine|, models, windowMs, now);
      triggered := Some(evidence);
      SpacedSnoc(history, Triggered(evidence), cooldownMs);
      LastTriggerSnoc(history, Triggered(evidence));
      history := history + [Triggered(evidence)];
    }

    /** One attempt of the stream.  Only drift-class attempts are kept, and only they read the clock. */
    method Observe(a: DriftAttempt, now: int, now0: int, now1: int, succeeded: string -> bool)
      returns (triggered: Option<DriftEvidence>)
      requires Valid()
      modifies this
      ensures Valid()
      ensures !CountsAsDrift(a.cls) ==> triggered.None? && trail == old(trail) && attempts == old(attempts)
      ensures CountsAsDrift(a.cls) ==>
        trail == old(trail) + [Pushed(a), Pruned(now - windowMs), Pruned(now0 - windowMs)]
      ensures triggered.Some? <==>
          && CountsAsDrift(a.cls)
          && old(CooledDown(a.providerId, now1))
          && Drifting(
               Since(old(attempts) + [a], now - windowMs), a.providerId, now0 - windowMs, minErrors, minModels,
               succeeded)
      ensures NothingLost(old(trail) + [Pushed(a), Pruned(now - windowMs)], now0 - windowMs) ==>
        (triggered.Some? <==>
          && CountsAsDrift(a.cls)
          && old(CooledDown(a.providerId, now1))
          && Drifting(Log(trail), a.providerId, now0 - windowMs, minErrors, minModels, succeeded))
      ensures triggered.Some? ==>
        && CountsFrom(
             triggered.value, Since(old(attempts) + [a], now - windowMs), a.providerId, now0 - windowMs)
        && (NothingLost(old(trail) + [Pushed(a), Pruned(now - windowMs)], now0 - windowMs) ==>
              CountsFrom(triggered.value, Log(trail), a.providerId, now0 - windowMs))
        && triggered.value.windowMs == windowMs && triggered.value.detectedAt == now1
      ensures history == old(history) + (if triggered.Some? then [Triggered(triggered.value)] else [])
    {
      hide Survivors, Log, Since, Of, NothingLost, LastTrigger, Spaced, Drifting, CountsFrom;
      if !CountsAsDrift(a.cls) {
        return None;
      }
      TrailSnoc(trail, Pushed(a));
      attempts := attempts + [a];
      trail := trail + [Pushed(a)];
      Prune(now);
      assert trail == old(trail) + [Pushed(a), Pruned(now - windowMs)];
      triggered := Evaluate(a.providerId, now0, now1, succeeded);
      assert trail == old(trail) + [Pushed(a), Pruned(now - windowMs), Pruned(now0 - windowMs)];
    }

    method ForceClearCooldown(providerId: string)
      requires Valid()
      modifies this`lastTrigger, this`history
      ensures Valid() && history == old(history) + [Cleared(providerId)]
      ensures forall now: int :: CooledDown(providerId, now)
      ensures forall p: string, now: int | p != providerId :: CooledDown(p, now) <==> old(CooledDown(p, now))
    {
      SpacedSnoc(history, Cleared(providerId), cooldownMs);
      LastTriggerSnoc(history, Cleared(providerId));
      history := history + [Cleared(providerId)];
      lastTrigger := lastTrigger - {providerId};
    }

    method Reset()
      requires Valid()
      modifies this`attempts, this`lastTrigger, this`trail, this`history
      ensures Valid() && trail == [] && attempts == [] && history == old(history) + [WasReset]
      ensures forall p: string, now: int :: CooledDown(p, now)
    {
      SpacedSnoc(history, WasReset, cooldownMs);
      LastTriggerSnoc(history, WasReset);
      history := history + [WasReset];
      attempts, lastTrigger, trail := [], map[], [];
    }
  }
}
