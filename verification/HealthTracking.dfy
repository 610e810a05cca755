/** Per-key cooldowns and the auth breaker (packages/router-core/src/health-tracker.ts).  Times are
    milliseconds on the clock `Date.now`. */
module HealthTracking {
  import opened Domain
  import opened ErrorClasses

  const AUTH_BREAKER_THRESHOLD := 3
  const COOLDOWN_FLOOR_MS := 1000
  const BREAKER_HALF_OPEN_MS := 60000

  datatype KeyHealth = KeyHealth(cooldownUntil: int, consecutiveAuthFailures: nat, breakerOpenAt: Option<nat>)

  const HEALTHY := KeyHealth(0, 0, None)

  datatype KeyStatus = Enabled | Cooldown | Disabled | Invalid

  datatype ApiKey = ApiKey(id: string, status: KeyStatus, cooldownUntil: Option<nat>)

  /** One call of `recordResult`. */
  datatype Entry = Entry(cls: ErrorClass, retryAfterMs: Option<int>, at: nat)

  function Max(a: int, b: int): int { if a < b then b else a }

  function Wait(retryAfterMs: Option<int>): int { Max(retryAfterMs.GetOr(0), COOLDOWN_FLOOR_MS) }

  function Record(h: KeyHealth, e: Entry): KeyHealth {
    if e.cls == OK then HEALTHY
    else if e.cls == RATE_LIMITED then h.(cooldownUntil := e.at + Wait(e.retryAfterMs))
    else if e.cls == AUTH_FAILED then
      h.(consecutiveAuthFailures := h.consecutiveAuthFailures + 1,
         breakerOpenAt :=
           if h.consecutiveAuthFailures + 1 >= AUTH_BREAKER_THRESHOLD then Some(e.at) else h.breakerOpenAt)
    else h
  }

  predicate BreakerBlocks(h: KeyHealth, now: nat) {
    h.breakerOpenAt.Some? && now < h.breakerOpenAt.value + BREAKER_HALF_OPEN_MS
  }

  /** What the key's own record says, before its health is asked. */
  predicate RecordAdmits(key: ApiKey, now: nat) {
    && key.status != Disabled && key.status != Invalid
    && !(key.cooldownUntil.Some? && key.cooldownUntil.value > now)
  }

  predicate Usable(h: KeyHealth, key: ApiKey, now: nat) {
    RecordAdmits(key, now) && !BreakerBlocks(h, now) && h.cooldownUntil <= now
  }

  // --- the full log of one key ------------------------------------------------------------------

  function Replay(log: seq<Entry>): KeyHealth {
    if log == [] then HEALTHY else Record(Replay(log[..|log| - 1]), log[|log| - 1])
  }

  lemma ReplaySnoc(log: seq<Entry>, e: Entry)
    ensures Replay(log + [e]) == Record(Replay(log), e)
  {
    assert (log + [e])[..|log|] == log;
  }

  function SinceOk(log: seq<Entry>): seq<Entry> {
    if log == [] || log[|log| - 1].cls == OK then [] else SinceOk(log[..|log| - 1]) + [log[|log| - 1]]
  }

  function Count(log: seq<Entry>, cls: ErrorClass): nat {
    if log == [] then 0 else Count(log[..|log| - 1], cls) + (if log[|log| - 1].cls == cls then 1 else 0)
  }

  /** No entry of this class after position k. */
  predicate IsLast(log: seq<Entry>, k: int, cls: ErrorClass) {
    0 <= k < |log| && log[k].cls == cls && forall j | k < j < |log| :: log[j].cls != cls
  }

  /** What the span since the last OK says of this moment: the latest rate limit has been waited out, for a
      second at least, and, after three or more auth failures, a minute has passed since the latest. */
  ghost predicate HistoryAdmits(span: seq<Entry>, now: nat) {
    && (forall k | IsLast(span, k, RATE_LIMITED) ::
          && span[k].at + 1000 <= now
          && (span[k].retryAfterMs.Some? ==> span[k].at + span[k].retryAfterMs.value <= now))
    && (Count(span, AUTH_FAILED) >= 3 ==> forall k | IsLast(span, k, AUTH_FAILED) :: span[k].at + 60000 <= now)
  }

  /** The key is neither disabled nor invalid, and its own cooldown, if it has one, is over. */
  predicate KeyAdmits(key: ApiKey, now: nat) {
    && (key.status == Enabled || key.status == Cooldown)
    && (key.cooldownUntil.Some? ==> key.cooldownUntil.value <= now)
  }

  ghost predicate Mirrors(h: KeyHealth, span: seq<Entry>) {
    && h.consecutiveAuthFailures == Count(span, AUTH_FAILED)
    && (h.breakerOpenAt.Some? <==> Count(span, AUTH_FAILED) >= AUTH_BREAKER_THRESHOLD)
    && (h.breakerOpenAt.Some? ==> exists k :: IsLast(span, k, AUTH_FAILED) && h.breakerOpenAt == Some(span[k].at))
    && (Count(span, RATE_LIMITED) == 0 ==> h.cooldownUntil == 0)
    && (Count(span, RATE_LIMITED) > 0 ==>
          exists k :: IsLast(span, k, RATE_LIMITED) && h.cooldownUntil == span[k].at + Wait(span[k].retryAfterMs))
  }

  lemma IsLastSnoc(span: seq<Entry>, e: Entry, k: int, cls: ErrorClass)
    requires IsLast(span, k, cls) && e.cls != cls
    ensures IsLast(span + [e], k, cls) && (span + [e])[k] == span[k]
  {
  }

  lemma CountSnoc(log: seq<Entry>, e: Entry, cls: ErrorClass)
    ensures Count(log + [e], cls) == Count(log, cls) + (if e.cls == cls then 1 else 0)
  {
    assert (log + [e])[..|log|] == log;
  }

  lemma RecordMirrors(h: KeyHealth, span: seq<Entry>, e: Entry)
    requires Mirrors(h, span) && e.cls != OK
    ensures Mirrors(Record(h, e), span + [e])
  {
    CountSnoc(span, e, AUTH_FAILED);
    CountSnoc(span, e, RATE_LIMITED);
    hide Count, Wait;
    var next := span + [e];
    assert next[|span|] == e;
    if e.cls == AUTH_FAILED || e.cls == RATE_LIMITED {
      assert IsLast(next, |span|, e.cls);
    }
    if e.cls != AUTH_FAILED && h.breakerOpenAt.Some? {
      var k :| IsLast(span, k, AUTH_FAILED) && h.breakerOpenAt == Some(span[k].at);
      IsLastSnoc(span, e, k, AUTH_FAILED);
    }
    if e.cls != RATE_LIMITED && Count(span, RATE_LIMITED) > 0 {
      var k :| IsLast(span, k, RATE_LIMITED) && h.cooldownUntil == span[k].at + Wait(span[k].retryAfterMs);
      IsLastSnoc(span, e, k, RATE_LIMITED);
    }
  }

  lemma {:induction false} ReplayMirrors(log: seq<Entry>)
    ensures Mirrors(Replay(log), SinceOk(log))
  {
    if log != [] {
      var init, e := log[..|log| - 1], log[|log| - 1];
      if e.cls != OK {
        ReplayMirrors(init);
        RecordMirrors(Replay(init), SinceOk(init), e);
      }
    }
  }

  lemma {:induction false} NoneCounted(span: seq<Entry>, k: int, cls: ErrorClass)
    requires 0 <= k < |span| && span[k].cls == cls
    ensures Count(span, cls) > 0
  {
    if k < |span| - 1 { NoneCounted(span[..|span| - 1], k, cls); }
  }

  /** The three fields lose nothing: usability is a predicate on the key's whole history since its last
      OK. */
  lemma UsableIffHistoryAdmits(log: seq<Entry>, key: ApiKey, now: nat)
    ensures Usable(Replay(log), key, now) <==> KeyAdmits(key, now) && HistoryAdmits(SinceOk(log), now)
  {
    ReplayMirrors(log);
    var h, span := Replay(log), SinceOk(log);
    hide Replay, SinceOk;
    forall k | IsLast(span, k, RATE_LIMITED) ensures h.cooldownUntil == span[k].at + Wait(span[k].retryAfterMs) {
      NoneCounted(span, k, RATE_LIMITED);
    }
    forall k | IsLast(span, k, AUTH_FAILED) && h.breakerOpenAt.Some? ensures h.breakerOpenAt.value == span[k].at {
    }
  }

  // --- the tracker ------------------------------------------------------------------------------

  datatype Note = Told(keyId: string, entry: Entry) | Reset(keyId: string)

  /** What the tracker has been told of one key since it last forgot it. */
  function LogOf(notes: seq<Note>, keyId: string): seq<Entry> {
    if notes == [] then []
    else LogAfter(LogOf(notes[..|notes| - 1], keyId), notes[|notes| - 1], keyId)
  }

  function LogAfter(before: seq<Entry>, note: Note, keyId: string): seq<Entry> {
    match note
    case Told(id, e) => if id == keyId then before + [e] else before
    case Reset(id) => if id == keyId then [] else before
  }

  lemma LogOfSnoc(notes: seq<Note>, note: Note)
    ensures forall id: string :: LogOf(notes + [note], id) == LogAfter(LogOf(notes, id), note, id)
  {
    assert (notes + [note])[..|notes|] == notes;
  }

  type Healths = map<string, KeyHealth>

  function HealthIn(keys: Healths, keyId: string): KeyHealth {
    if keyId in keys then keys[keyId] else HEALTHY
  }

  class HealthTracker {
    var keys: Healths
    ghost var notes: seq<Note>

    ghost predicate Valid()
      reads this
    {
      forall id: string :: HealthIn(keys, id) == Replay(LogOf(notes, id))
    }

    constructor ()
      ensures Valid() && notes == [] && keys == map[]
    {
      keys, notes := map[], [];
    }

    /** Asking stores a healthy entry for a key never seen; no answer depends on it. */
    method IsKeyUsable(key: ApiKey, now: nat) returns (r: bool)
      requires Valid()
      modifies this`keys
      ensures Valid()
      ensures forall id: string :: HealthIn(keys, id) == HealthIn(old(keys), id)
      ensures r == Usable(HealthIn(keys, key.id), key, now)
      ensures r <==> KeyAdmits(key, now) && HistoryAdmits(SinceOk(LogOf(notes, key.id)), now)
    {
      UsableIffHistoryAdmits(LogOf(notes, key.id), key, now);
      hide HistoryAdmits, SinceOk, Replay, LogOf;
      if key.status == Disabled || key.status == Invalid {
        return false;
      }
      if key.id !in keys {
        keys := keys[key.id := HEALTHY];
      }
      var h := keys[key.id];
      if BreakerBlocks(h, now) {
        return false;
      }
      if h.cooldownUntil > now {
        return false;
      }
      if key.cooldownUntil.Some? && key.cooldownUntil.value > now {
        return false;
      }
      return true;
    }

    method RecordResult(keyId: string, cls: ErrorClass, retryAfterMs: Option<int>, now: nat)
      requires Valid()
      modifies this
      ensures Valid()
      ensures notes == old(notes) + [Told(keyId, Entry(cls, retryAfterMs, now))]
      ensures keys == old(keys)[keyId := Record(HealthIn(old(keys), keyId), Entry(cls, retryAfterMs, now))]
    {
      ghost var e := Entry(cls, retryAfterMs, now);
      ReplaySnoc(LogOf(notes, keyId), e);
      LogOfSnoc(notes, Told(keyId, e));
      notes := notes + [Told(keyId, e)];
      hide Replay, LogOf;
      var h := if keyId in keys then keys[keyId] else HEALTHY;
      if cls == OK {
        h := KeyHealth(0, 0, None);
      } else if cls == RATE_LIMITED {
        h := h.(cooldownUntil := now + Max(retryAfterMs.GetOr(0), COOLDOWN_FLOOR_MS));
      } else if cls == AUTH_FAILED {
        h := h.(consecutiveAuthFailures := h.consecutiveAuthFailures + 1);
        if h.consecutiveAuthFailures >= AUTH_BREAKER_THRESHOLD {
          h := h.(breakerOpenAt := Some(now));
        }
      }
      keys := keys[keyId := h];
    }

    method ResetKey(keyId: string)
      requires Valid()
      modifies this
      ensures Valid() && notes == old(notes) + [Reset(keyId)] && keys == old(keys) - {keyId}
    {
      LogOfSnoc(notes, Reset(keyId));
      notes := notes + [Reset(keyId)];
      assert Replay([]) == HEALTHY;
      hide LogOf, Replay;
      keys := keys - {keyId};
    }
  }
}
