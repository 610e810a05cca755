/** How often a key that never authenticates is tried (packages/router-core/src/health-tracker.ts:38-62),
    when attempts on it overlap: a plan keeps the keys usable at its own moment (route-planner.ts:156), and
    other executions may have attempts on the same key under way. */
module DeadKeys {
  import opened Domain
  import opened ErrorClasses
  import opened HealthTracking

  /** What happens to one key.  An attempt begins when planning finds the key usable; it ends when its
      outcome is recorded, or without one when it is skipped or broken off. */
  datatype Event =
    | Begun(key: ApiKey, at: nat)
    | Recorded(entry: Entry)
    | Abandoned(at: nat)
    | Forgotten(at: nat)

  function At(e: Event): nat { if e.Recorded? then e.entry.at else e.at }

  predicate Fails(e: Event) { e.Recorded? && e.entry.cls == AUTH_FAILED }

  predicate Clears(e: Event) { e.Forgotten? || (e.Recorded? && e.entry.cls == OK) }

  function Front(events: seq<Event>): seq<Event>
    requires events != []
  {
    events[..|events| - 1]
  }

  function Last(events: seq<Event>): Event
    requires events != []
  {
    events[|events| - 1]
  }

  function Now(events: seq<Event>): nat { if events == [] then 0 else At(Last(events)) }

  function HealthStep(h: KeyHealth, e: Event): KeyHealth {
    match e
    case Recorded(entry) => Record(h, entry)
    case Forgotten(_) => HEALTHY
    case _ => h
  }

  function Health(events: seq<Event>): KeyHealth {
    if events == [] then HEALTHY else HealthStep(Health(Front(events)), Last(events))
  }

  function Weight(e: Event): int {
    match e
    case Begun(_, _) => 1
    case Recorded(_) => -1
    case Abandoned(_) => -1
    case Forgotten(_) => 0
  }

  /** The attempts begun and not ended. */
  function InFlight(events: seq<Event>): int {
    if events == [] then 0 else InFlight(Front(events)) + Weight(Last(events))
  }

  function Failures(events: seq<Event>): nat {
    if events == [] then 0 else Failures(Front(events)) + (if Fails(Last(events)) then 1 else 0)
  }

  function LastFailure(events: seq<Event>): nat {
    if events == [] then 0
    else if Fails(Last(events)) then At(Last(events))
    else LastFailure(Front(events))
  }

  predicate Quiet(events: seq<Event>) { forall e | e in events :: !Clears(e) }

  predicate FailsWithin(events: seq<Event>, from: nat, to: nat) {
    forall e | e in events && Fails(e) :: from <= At(e) <= to
  }

  predicate Fits(events: seq<Event>, e: Event, c: nat) {
    match e
    case Begun(key, at) => InFlight(events) < c && Usable(Health(events), key, at)
    case Recorded(_) => InFlight(events) > 0
    case Abandoned(_) => InFlight(events) > 0
    case Forgotten(_) => true
  }

  /** Events in the order of their times; an attempt begins only while the key is usable and fewer than c
      are under way, and only an attempt under way ends. */
  predicate Timeline(events: seq<Event>, c: nat) {
    events == [] ||
    (Timeline(Front(events), c) && Now(Front(events)) <= At(Last(events)) && Fits(Front(events), Last(events), c))
  }

  lemma Snoc(events: seq<Event>, e: Event, c: nat)
    ensures Health(events + [e]) == HealthStep(Health(events), e)
    ensures InFlight(events + [e]) == InFlight(events) + Weight(e)
    ensures Now(events + [e]) == At(e)
    ensures Failures(events + [e]) == Failures(events) + (if Fails(e) then 1 else 0)
    ensures LastFailure(events + [e]) == (if Fails(e) then At(e) else LastFailure(events))
    ensures Timeline(events + [e], c) <==> Timeline(events, c) && Now(events) <= At(e) && Fits(events, e, c)
  {
    assert Front(events + [e]) == events && Last(events + [e]) == e;
    hide Front, Last, Record, Usable, Fits, At;
  }

  lemma {:induction false} AtMostInFlight(events: seq<Event>, c: nat)
    requires Timeline(events, c)
    ensures 0 <= InFlight(events) <= c
  {
    if events != [] { AtMostInFlight(Front(events), c); }
  }

  // --- the tracker's view -------------------------------------------------------------------------

  /** The notes these events leave with the tracker. */
  function NotesOf(events: seq<Event>, keyId: string): seq<Note> {
    if events == [] then []
    else match Last(events)
      case Recorded(entry) => NotesOf(Front(events), keyId) + [Told(keyId, entry)]
      case Forgotten(_) => NotesOf(Front(events), keyId) + [Reset(keyId)]
      case _ => NotesOf(Front(events), keyId)
  }

  /** The health used here is the one the tracker keeps. */
  lemma {:induction false} HealthIsTracked(events: seq<Event>, keyId: string)
    ensures Health(events) == Replay(LogOf(NotesOf(events, keyId), keyId))
  {
    if events != [] {
      HealthIsTracked(Front(events), keyId);
      var notes, e := NotesOf(Front(events), keyId), Last(events);
      hide Record;
      if e.Recorded? {
        LogOfSnoc(notes, Told(keyId, e.entry));
        ReplaySnoc(LogOf(notes, keyId), e.entry);
      } else if e.Forgotten? {
        LogOfSnoc(notes, Reset(keyId));
      }
    }
  }

  // --- the bound ----------------------------------------------------------------------------------

  function Minutes(from: nat, t: nat): nat
    requires from <= t
  {
    (t - from) / BREAKER_HALF_OPEN_MS
  }

  /** Two failures leave the breaker closed; then every minute admits as many as can be under way. */
  function Budget(c: nat, minutes: nat): nat { 2 + c * (1 + minutes) }

  lemma BudgetGrows(c: nat, a: nat, b: nat)
    requires a <= b
    ensures 2 + c <= Budget(c, a) <= Budget(c, b) && (a < b ==> Budget(c, a) + c <= Budget(c, b))
  {
    assert c * (1 + b) == c * (1 + a) + c * (b - a);
    if a < b { assert c * (b - a) == c + c * (b - a - 1); }
  }

  /** After n failures, the latest at t, with p attempts under way: all of them fit the budget, unless a
      minute has passed since t. */
  predicate Paced(c: nat, from: nat, n: nat, p: int, t: nat, now: nat) {
    && from <= t
    && n <= Budget(c, Minutes(from, t))
    && (n + p <= Budget(c, Minutes(from, t)) || t + BREAKER_HALF_OPEN_MS <= now)
  }

  lemma ThirdFailure(c: nat, from: nat, p: int, t: nat)
    requires from <= t && 0 < p <= c
    ensures Paced(c, from, 3, p - 1, t, t)
  {
    BudgetGrows(c, 0, Minutes(from, t));
    hide Budget, Minutes;
  }

  lemma NextFailure(c: nat, from: nat, n: nat, p: int, t: nat, now: nat, next: nat)
    requires Paced(c, from, n, p, t, now) && 0 < p <= c && now <= next && t <= next
    ensures Paced(c, from, n + 1, p - 1, next, next)
  {
    var a, b := Minutes(from, t), Minutes(from, next);
    assert a <= b && (t + BREAKER_HALF_OPEN_MS <= next ==> a < b);
    BudgetGrows(c, a, b);
    hide Budget, Minutes;
  }

  lemma OtherEvent(c: nat, from: nat, n: nat, p: int, t: nat, now: nat, p': int, next: nat)
    requires Paced(c, from, n, p, t, now) && now <= next
    requires p' <= p || t + BREAKER_HALF_OPEN_MS <= next
    ensures Paced(c, from, n, p', t, next)
  {
    hide Budget, Minutes;
  }

  /** What holds of the key's health h and of the n failures since the span began. */
  predicate Keeps(h: KeyHealth, n: nat, p: int, t: nat, now: nat, c: nat, from: nat) {
    && h.consecutiveAuthFailures >= n && t <= now
    && (n >= AUTH_BREAKER_THRESHOLD ==> h.breakerOpenAt == Some(t) && Paced(c, from, n, p, t, now))
  }

  lemma FailureKeeps(h: KeyHealth, n: nat, p: int, t: nat, now: nat, c: nat, from: nat, entry: Entry)
    requires Keeps(h, n, p, t, now, c, from) && 0 < p <= c && now <= entry.at && from <= entry.at
    requires entry.cls == AUTH_FAILED
    ensures Keeps(Record(h, entry), n + 1, p - 1, entry.at, entry.at, c, from)
  {
    if n == 2 { ThirdFailure(c, from, p, entry.at); }
    if n > 2 { NextFailure(c, from, n, p, t, now, entry.at); }
    hide Paced;
  }

  lemma EventKeeps(h: KeyHealth, n: nat, p: int, t: nat, now: nat, c: nat, from: nat, e: Event)
    requires Keeps(h, n, p, t, now, c, from) && now <= At(e)
    requires !Clears(e) && !Fails(e)
    requires e.Begun? ==> Usable(h, e.key, e.at)
    ensures Keeps(HealthStep(h, e), n, p + Weight(e), t, At(e), c, from)
  {
    if n >= AUTH_BREAKER_THRESHOLD { OtherEvent(c, from, n, p, t, now, p + Weight(e), At(e)); }
    hide Paced;
  }

  lemma SpanFront(tail: seq<Event>, from: nat, to: nat)
    requires tail != [] && Quiet(tail) && FailsWithin(tail, from, to)
    ensures Quiet(Front(tail)) && FailsWithin(Front(tail), from, to)
    ensures !Clears(Last(tail)) && (Fails(Last(tail)) ==> from <= At(Last(tail)) <= to)
  {
    hide At, Clears, Fails;
  }

  lemma {:induction false} SpanKeeps(before: seq<Event>, tail: seq<Event>, c: nat, from: nat, to: nat)
    requires Timeline(before + tail, c) && Quiet(tail) && FailsWithin(tail, from, to)
    ensures Timeline(before, c)
    ensures Keeps(Health(before + tail), Failures(tail), InFlight(before + tail), LastFailure(tail), Now(before + tail),
                  c, from)
    ensures Failures(tail) > 0 ==> from <= LastFailure(tail) <= to
  {
    if tail == [] {
      assert before + tail == before;
    } else {
      var all, front, e := before + Front(tail), Front(tail), Last(tail);
      assert before + tail == all + [e] && tail == front + [e];
      Snoc(all, e, c);
      Snoc(front, e, c);
      AtMostInFlight(all, c);
      SpanFront(tail, from, to);
      hide Health, InFlight, Failures, LastFailure, Now, Timeline, Front, Last, Quiet, FailsWithin, Keeps;
      SpanKeeps(before, front, c, from, to);
      if Fails(e) {
        FailureKeeps(Health(all), Failures(front), InFlight(all), LastFailure(front), Now(all), c, from, e.entry);
      } else {
        EventKeeps(Health(all), Failures(front), InFlight(all), LastFailure(front), Now(all), c, from, e);
      }
    }
  }

  /** With at most c attempts under way at a time, a key fails authentication at most 2 + c * (1 + L/60000)
      times in a span of length L in which it neither succeeds nor is forgotten. */
  lemma DeadKeyIsRarelyTried(before: seq<Event>, tail: seq<Event>, c: nat, from: nat, to: nat)
    requires Timeline(before + tail, c) && Quiet(tail)
    requires from <= to && FailsWithin(tail, from, to)
    ensures Failures(tail) <= 2 + c * (1 + (to - from) / BREAKER_HALF_OPEN_MS)
  {
    SpanKeeps(before, tail, c, from, to);
    if Failures(tail) >= AUTH_BREAKER_THRESHOLD {
      BudgetGrows(c, Minutes(from, LastFailure(tail)), Minutes(from, to));
    } else {
      BudgetGrows(c, 0, Minutes(from, to));
    }
    hide Failures, Timeline, FailsWithin, Quiet, Health, InFlight, LastFailure, Now;
  }

  // --- the bound is reached -----------------------------------------------------------------------

  function Times(e: Event, n: nat): seq<Event> {
    if n == 0 then [] else Times(e, n - 1) + [e]
  }

  function Failed(at: nat): Event { Recorded(Entry(AUTH_FAILED, None, at)) }

  /** n attempts begin together and all fail. */
  function Wave(key: ApiKey, n: nat, at: nat): seq<Event> { Times(Begun(key, at), n) + Times(Failed(at), n) }

  /** A revoked key, tried by c attempts at once whenever it becomes usable. */
  function RevokedKey(key: ApiKey, c: nat, minutes: nat): seq<Event> {
    if minutes == 0 then Wave(key, 1, 0) + Wave(key, 1, 0) + Wave(key, c, 0)
    else RevokedKey(key, c, minutes - 1) + Wave(key, c, BREAKER_HALF_OPEN_MS * minutes)
  }

  /** The state after events: n failures, none under way, the breaker open since t if it is open. */
  predicate Reaches(events: seq<Event>, c: nat, n: nat, open: Option<nat>, now: nat) {
    && Timeline(events, c) && InFlight(events) == 0 && Now(events) <= now
    && Health(events) == KeyHealth(0, n, open)
    && Failures(events) == n
  }

  lemma {:induction false} BeginTogether(events: seq<Event>, key: ApiKey, c: nat, n: nat, at: nat)
    requires Timeline(events, c) && InFlight(events) + n <= c && Now(events) <= at
    requires Usable(Health(events), key, at)
    ensures var next := events + Times(Begun(key, at), n);
      && Timeline(next, c) && InFlight(next) == InFlight(events) + n && Now(next) <= at
      && Health(next) == Health(events) && Failures(next) == Failures(events)
  {
    hide Timeline, InFlight, Now, Health, Failures, Usable;
    if n == 0 {
      assert events + [] == events;
    } else {
      BeginTogether(events, key, c, n - 1, at);
      var before := events + Times(Begun(key, at), n - 1);
      Snoc(before, Begun(key, at), c);
      assert events + Times(Begun(key, at), n) == before + [Begun(key, at)];
    }
  }

  function OpenAfter(k: nat, n: nat, open: Option<nat>, at: nat): Option<nat> {
    if n > 0 && k + n >= AUTH_BREAKER_THRESHOLD then Some(at) else open
  }

  lemma {:induction false} FailTogether(events: seq<Event>, c: nat, n: nat, at: nat, k: nat, open: Option<nat>)
    requires Timeline(events, c) && InFlight(events) >= n && Now(events) <= at
    requires Health(events) == KeyHealth(0, k, open)
    ensures var next := events + Times(Failed(at), n);
      && Timeline(next, c) && InFlight(next) == InFlight(events) - n && Now(next) <= at
      && Health(next) == KeyHealth(0, k + n, OpenAfter(k, n, open, at)) && Failures(next) == Failures(events) + n
  {
    hide Timeline, InFlight, Now, Health, Failures;
    if n == 0 {
      assert events + [] == events;
    } else {
      FailTogether(events, c, n - 1, at, k, open);
      var before := events + Times(Failed(at), n - 1);
      Snoc(before, Failed(at), c);
      assert events + Times(Failed(at), n) == before + [Failed(at)];
    }
  }

  lemma WaveReaches(events: seq<Event>, key: ApiKey, c: nat, n: nat, at: nat, k: nat, open: Option<nat>)
    requires Reaches(events, c, k, open, at) && n <= c
    requires Usable(KeyHealth(0, k, open), key, at)
    ensures Reaches(events + Wave(key, n, at), c, k + n, OpenAfter(k, n, open, at), at)
  {
    hide Timeline, InFlight, Now, Health, Failures, Usable, Times, OpenAfter;
    BeginTogether(events, key, c, n, at);
    var begun := events + Times(Begun(key, at), n);
    FailTogether(begun, c, n, at, k, open);
    assert events + Wave(key, n, at) == begun + Times(Failed(at), n);
  }

  lemma StillAdmitted(key: ApiKey, at: nat)
    requires RecordAdmits(key, 0)
    ensures RecordAdmits(key, at)
  {
  }

  /** For every number c of attempts under way and every number of minutes the bound is met. */
  lemma {:induction false} BoundIsReached(key: ApiKey, c: nat, minutes: nat)
    requires RecordAdmits(key, 0) && c > 0
    ensures var events, end := RevokedKey(key, c, minutes), BREAKER_HALF_OPEN_MS * minutes;
      Reaches(events, c, 2 + c * (1 + minutes), Some(end), end)
  {
    hide Wave, Reaches, RecordAdmits;
    StillAdmitted(key, BREAKER_HALF_OPEN_MS * minutes);
    if minutes == 0 {
      NothingYet(c);
      WaveReaches([], key, c, 1, 0, 0, None);
      WaveReaches([] + Wave(key, 1, 0), key, c, 1, 0, 1, None);
      WaveReaches([] + Wave(key, 1, 0) + Wave(key, 1, 0), key, c, c, 0, 2, None);
      assert [] + Wave(key, 1, 0) == Wave(key, 1, 0);
    } else {
      BoundIsReached(key, c, minutes - 1);
      var start, at := BREAKER_HALF_OPEN_MS * (minutes - 1), BREAKER_HALF_OPEN_MS * minutes;
      var before, k := RevokedKey(key, c, minutes - 1), 2 + c * minutes;
      assert 2 + c * (1 + minutes) == k + c;
      LaterToo(before, c, k, Some(start), start, at);
      WaveReaches(before, key, c, c, at, k, Some(start));
    }
  }

  lemma NothingYet(c: nat)
    ensures Reaches([], c, 0, None, 0)
  {
  }

  lemma LaterToo(events: seq<Event>, c: nat, n: nat, open: Option<nat>, now: nat, next: nat)
    requires Reaches(events, c, n, open, now) && now <= next
    ensures Reaches(events, c, n, open, next)
  {
    hide Timeline, InFlight, Now, Health, Failures;
  }

  // --- one failure a window -----------------------------------------------------------------------

  lemma {:induction false} NothingAfterNow(events: seq<Event>, c: nat)
    requires Timeline(events, c)
    ensures FailsWithin(events, 0, Now(events))
  {
    if events != [] {
      NothingAfterNow(Front(events), c);
      hide Fails;
      forall e | e in events && Fails(e) ensures At(e) <= Now(events) {
        assert e == Last(events) || e in Front(events);
      }
    }
  }

  lemma {:induction false} TimesAreQuiet(e: Event, n: nat)
    requires !Clears(e)
    ensures Quiet(Times(e, n))
  {
    hide Clears;
    if n > 0 { TimesAreQuiet(e, n - 1); }
  }

  lemma WaveIsQuiet(key: ApiKey, n: nat, at: nat)
    ensures Quiet(Wave(key, n, at))
  {
    TimesAreQuiet(Begun(key, at), n);
    TimesAreQuiet(Failed(at), n);
    hide Clears, Times;
  }

  lemma {:induction false} RevokedIsQuiet(key: ApiKey, c: nat, minutes: nat)
    ensures Quiet(RevokedKey(key, c, minutes))
  {
    hide Clears, Wave;
    if minutes == 0 {
      WaveIsQuiet(key, 1, 0);
      WaveIsQuiet(key, c, 0);
    } else {
      WaveIsQuiet(key, c, BREAKER_HALF_OPEN_MS * minutes);
      RevokedIsQuiet(key, c, minutes - 1);
    }
  }

  /** One failure a window, past the three that open the breaker, in every span. */
  ghost predicate OneFailureAWindow(c: nat) {
    forall before, tail, from: nat, to: nat
      | Timeline(before + tail, c) && Quiet(tail) && from <= to && FailsWithin(tail, from, to) ::
        Failures(tail) <= 3 + (to - from) / BREAKER_HALF_OPEN_MS
  }

  const SOME_KEY := ApiKey("k", Enabled, None)

  lemma OverlapFailsMore(c: nat) returns (events: seq<Event>)
    requires c > 1
    ensures Timeline(events, c) && Quiet(events) && FailsWithin(events, 0, 0) && Failures(events) == 2 + c
  {
    events := RevokedKey(SOME_KEY, c, 0);
    BoundIsReached(SOME_KEY, c, 0);
    RevokedIsQuiet(SOME_KEY, c, 0);
    NothingAfterNow(events, c);
    hide RevokedKey, Timeline, Quiet, FailsWithin, Failures, Health, InFlight, Now;
  }

  /** The source promises one 401 a window of a revoked key.  That holds if and only if attempts on the key
      never overlap. */
  lemma OneFailureAWindowIff(c: nat)
    ensures OneFailureAWindow(c) <==> c <= 1
  {
    hide Timeline, Quiet, FailsWithin, Failures;
    if c <= 1 {
      forall before, tail, from: nat, to: nat
        | Timeline(before + tail, c) && Quiet(tail) && from <= to && FailsWithin(tail, from, to)
        ensures Failures(tail) <= 3 + (to - from) / BREAKER_HALF_OPEN_MS
      {
        DeadKeyIsRarelyTried(before, tail, c, from, to);
        assert c == 0 || c == 1;
      }
    } else {
      var events := OverlapFailsMore(c);
      assert [] + events == events && 0 as nat <= 0 as nat;
    }
  }

  /** Two failures, then two attempts that both begin at 0 and fail at 1: four failures in a millisecond. */
  lemma TwoAtOnce(key: ApiKey, events: seq<Event>)
    requires RecordAdmits(key, 0)
    requires events == Wave(key, 1, 0) + Wave(key, 1, 0) + Times(Begun(key, 0), 2) + Times(Failed(1), 2)
    ensures Timeline(events, 2) && Quiet(events) && FailsWithin(events, 0, 1)
    ensures Failures(events) == 4 > 3 + (1 - 0) / BREAKER_HALF_OPEN_MS
  {
    NothingYet(2);
    WaveIsQuiet(key, 1, 0);
    TimesAreQuiet(Begun(key, 0), 2);
    TimesAreQuiet(Failed(1), 2);
    hide Wave, Times, Quiet, Timeline, Failures, Health, InFlight, Now, FailsWithin;
    WaveReaches([], key, 2, 1, 0, 0, None);
    WaveReaches([] + Wave(key, 1, 0), key, 2, 1, 0, 1, None);
    assert [] + Wave(key, 1, 0) == Wave(key, 1, 0);
    var tried := Wave(key, 1, 0) + Wave(key, 1, 0);
    BeginTogether(tried, key, 2, 2, 0);
    FailTogether(tried + Times(Begun(key, 0), 2), 2, 2, 1, 2, None);
    NothingAfterNow(events, 2);
    QuietTogether(Wave(key, 1, 0), Wave(key, 1, 0));
    QuietTogether(tried, Times(Begun(key, 0), 2));
    QuietTogether(tried + Times(Begun(key, 0), 2), Times(Failed(1), 2));
    SpanWidens(events, Now(events), 1);
  }

  lemma QuietTogether(a: seq<Event>, b: seq<Event>)
    ensures Quiet(a + b) <==> Quiet(a) && Quiet(b)
  {
    hide Clears;
    if Quiet(a + b) {
      forall e | e in a || e in b ensures e in a + b {}
    }
  }

  lemma SpanWidens(events: seq<Event>, now: nat, to: nat)
    requires FailsWithin(events, 0, now) && now <= to
    ensures FailsWithin(events, 0, to)
  {
  }

  // --- attempts one after another -----------------------------------------------------------------

  /** Attempt k started at `starts[k]`, after the previous one was recorded, and only because the key was
      usable then. */
  ghost predicate TriedOneByOne(log: seq<Entry>, starts: seq<nat>, key: ApiKey) {
    && |starts| == |log|
    && forall k | 0 <= k < |log| ::
        && (k > 0 ==> log[k - 1].at <= starts[k])
        && starts[k] <= log[k].at
        && Usable(Replay(log[..k]), key, starts[k])
  }

  function Attempt(key: ApiKey, start: nat, entry: Entry): seq<Event> { [Begun(key, start)] + [Recorded(entry)] }

  function Interleaved(log: seq<Entry>, starts: seq<nat>, key: ApiKey): seq<Event>
    requires |starts| == |log|
  {
    if log == [] then [] else
      var n := |log| - 1;
      Interleaved(log[..n], starts[..n], key) + Attempt(key, starts[n], log[n])
  }

  lemma OneByOnePrefix(log: seq<Entry>, starts: seq<nat>, key: ApiKey, n: nat)
    requires TriedOneByOne(log, starts, key) && n <= |log|
    ensures |starts| == |log| && TriedOneByOne(log[..n], starts[..n], key)
  {
    hide Replay, Usable;
    forall j | 0 <= j < n ensures Usable(Replay(log[..n][..j]), key, starts[j]) {
      assert log[..n][..j] == log[..j];
    }
  }

  lemma OneByOneLast(log: seq<Entry>, starts: seq<nat>, key: ApiKey)
    requires TriedOneByOne(log, starts, key) && log != []
    ensures var n := |log| - 1;
      && |starts| == |log| && (n > 0 ==> log[n - 1].at <= starts[n]) && starts[n] <= log[n].at
      && Usable(Replay(log[..n]), key, starts[n])
      && Replay(log) == Record(Replay(log[..n]), log[n])
  {
    hide Usable, Record;
  }

  /** One more attempt by itself. */
  lemma AttemptFits(events: seq<Event>, key: ApiKey, start: nat, entry: Entry)
    requires Timeline(events, 1) && InFlight(events) == 0 && Now(events) <= start <= entry.at
    requires Usable(Health(events), key, start)
    ensures var next := events + Attempt(key, start, entry);
      && Timeline(next, 1) && InFlight(next) == 0 && Health(next) == Record(Health(events), entry)
      && Now(next) == entry.at
  {
    Snoc(events, Begun(key, start), 1);
    Snoc(events + [Begun(key, start)], Recorded(entry), 1);
    hide Timeline, InFlight, Health, Now, Record, Usable;
    assert events + Attempt(key, start, entry) == events + [Begun(key, start)] + [Recorded(entry)];
  }

  lemma NothingInterleaved(key: ApiKey)
    ensures Interleaved([], [], key) == [] && Timeline([], 1) && InFlight([]) == 0
    ensures Health([]) == HEALTHY == Replay([])
    ensures Now([]) == 0
  {
  }

  lemma {:induction false} OneByOneIsTimeline(log: seq<Entry>, starts: seq<nat>, key: ApiKey)
    requires TriedOneByOne(log, starts, key)
    ensures |starts| == |log|
    ensures var events := Interleaved(log, starts, key);
      && Timeline(events, 1) && InFlight(events) == 0 && Health(events) == Replay(log)
      && Now(events) == (if log == [] then 0 else log[|log| - 1].at)
  {
    OneByOnePrefix(log, starts, key, |log|);
    hide *;
    if log == [] {
      assert starts == [];
      NothingInterleaved(key);
    } else {
      var n := |log| - 1;
      OneByOneLast(log, starts, key);
      OneByOnePrefix(log, starts, key, n);
      OneByOneIsTimeline(log[..n], starts[..n], key);
      InterleavedLast(log, starts, key);
      AttemptFits(Interleaved(log[..n], starts[..n], key), key, starts[n], log[n]);
    }
  }

  lemma InterleavedLast(log: seq<Entry>, starts: seq<nat>, key: ApiKey)
    requires |starts| == |log| > 0
    ensures var n := |log| - 1;
      Interleaved(log, starts, key) == Interleaved(log[..n], starts[..n], key) + Attempt(key, starts[n], log[n])
  {
  }

  lemma {:induction false} InterleavedSplits(log: seq<Entry>, starts: seq<nat>, key: ApiKey, m: nat)
    requires |starts| == |log| && m <= |log|
    ensures var before, since := Interleaved(log[..m], starts[..m], key), Interleaved(log[m..], starts[m..], key);
      Interleaved(log, starts, key) == before + since
  {
    var n := |log| - 1;
    if m == |log| {
      assert log[..m] == log && starts[..m] == starts && log[m..] == [] && starts[m..] == [];
    } else {
      hide *;
      var rest, since := log[m..], starts[m..];
      InterleavedSplits(log[..n], starts[..n], key, m);
      InterleavedLast(log, starts, key);
      InterleavedLast(rest, since, key);
      assert log[..n][..m] == log[..m] && starts[..n][..m] == starts[..m];
      assert rest[..n - m] == log[..n][m..] && since[..n - m] == starts[..n][m..];
      assert rest[n - m] == log[n] && since[n - m] == starts[n];
    }
  }

  lemma AttemptCounts(events: seq<Event>, key: ApiKey, start: nat, entry: Entry, from: nat, to: nat)
    requires Quiet(events) && FailsWithin(events, from, to) && entry.cls != OK && from <= entry.at <= to
    ensures var next := events + Attempt(key, start, entry);
      && Failures(next) == Failures(events) + (if entry.cls == AUTH_FAILED then 1 else 0)
      && Quiet(next) && FailsWithin(next, from, to)
  {
    Snoc(events, Begun(key, start), 1);
    Snoc(events + [Begun(key, start)], Recorded(entry), 1);
    hide Failures;
    assert events + Attempt(key, start, entry) == events + [Begun(key, start)] + [Recorded(entry)];
  }

  lemma {:induction false} InterleavedCounts(log: seq<Entry>, starts: seq<nat>, key: ApiKey, from: nat, to: nat)
    requires |starts| == |log| && Count(log, OK) == 0
    requires forall k | 0 <= k < |log| :: from <= log[k].at <= to
    ensures var events := Interleaved(log, starts, key);
      Failures(events) == Count(log, AUTH_FAILED) && Quiet(events) && FailsWithin(events, from, to)
  {
    if log != [] {
      var n := |log| - 1;
      var before := Interleaved(log[..n], starts[..n], key);
      assert Count(log[..n], OK) == 0 && log[n].cls != OK;
      assert Count(log, AUTH_FAILED) == Count(log[..n], AUTH_FAILED) + (if log[n].cls == AUTH_FAILED then 1 else 0);
      InterleavedCounts(log[..n], starts[..n], key, from, to);
      AttemptCounts(before, key, starts[n], log[n], from, to);
      InterleavedLast(log, starts, key);
      hide Count, Failures, Quiet, FailsWithin, Interleaved;
    }
  }

  /** One attempt after another, a key tried only when usable fails authentication at most 3 + L/60000 times
      in a span of length L without an OK. */
  lemma OneByOneIsRarelyTried(log: seq<Entry>, starts: seq<nat>, key: ApiKey, m: nat, from: nat, to: nat)
    requires TriedOneByOne(log, starts, key)
    requires m <= |log| && Count(log[m..], OK) == 0
    requires from <= to && forall k | m <= k < |log| :: from <= log[k].at <= to
    ensures Count(log[m..], AUTH_FAILED) <= 3 + (to - from) / BREAKER_HALF_OPEN_MS
  {
    OneByOneIsTimeline(log, starts, key);
    InterleavedSplits(log, starts, key, m);
    InterleavedCounts(log[m..], starts[m..], key, from, to);
    DeadKeyIsRarelyTried(Interleaved(log[..m], starts[..m], key), Interleaved(log[m..], starts[m..], key), 1, from, to);
    hide Count, Interleaved, Timeline, Failures;
  }
}
