/** What a client is told to wait after a failed request, against what the tracker enforces
    (packages/router-core/src/execution-engine.ts:371-395, health-tracker.ts:102-113). */
module RetryHints {
  import opened AttemptProtocol
  import opened Domain
  import opened ErrorClasses
  import opened HealthTracking

  predicate Named(o: AttemptOutcome) {
    o.retryAfterMs.Some? && o.retryAfterMs.value > 0
  }

  /** The shortest named wait, floored; zero when no attempt named one. */
  ghost predicate IsHint(r: nat, chain: seq<AttemptOutcome>) {
    && (forall k | 0 <= k < |chain| && Named(chain[k]) :: 0 < r <= Wait(chain[k].retryAfterMs))
    && (r > 0 ==> exists k :: 0 <= k < |chain| && Named(chain[k]) && r == Wait(chain[k].retryAfterMs))
  }

  /** The attempt named this wait; less than a second counts as one. */
  predicate Names(o: AttemptOutcome, wait: int) {
    o.retryAfterMs.Some? && o.retryAfterMs.value > 0
    && wait == if o.retryAfterMs.value < 1000 then 1000 else o.retryAfterMs.value
  }

  lemma NamesIff(o: AttemptOutcome, wait: int)
    ensures Names(o, wait) <==> Named(o) && wait == Wait(o.retryAfterMs)
  {
  }

  method MinRetryAfterMs(chain: seq<AttemptOutcome>) returns (r: nat)
    ensures IsHint(r, chain)
    ensures r == 0 || r >= COOLDOWN_FLOOR_MS
    ensures r == 0 ==> forall k, wait | 0 <= k < |chain| :: !Names(chain[k], wait)
    ensures r > 0 ==> exists k :: 0 <= k < |chain| && Names(chain[k], r)
    ensures forall k, wait | 0 <= k < |chain| && Names(chain[k], wait) :: r <= wait
  {
    forall o, wait { NamesIff(o, wait); }
    hide Names;
    var shortest: Option<nat> := None;
    var n := 0;
    while n < |chain|
      invariant n <= |chain|
      invariant shortest.Some? ==> shortest.value >= COOLDOWN_FLOOR_MS
      invariant forall k | 0 <= k < n && Named(chain[k]) ::
          shortest.Some? && shortest.value <= Wait(chain[k].retryAfterMs)
      invariant shortest.Some? ==>
          exists k :: 0 <= k < n && Named(chain[k]) && shortest.value == Wait(chain[k].retryAfterMs)
    {
      var a := chain[n];
      if a.retryAfterMs.Some? && a.retryAfterMs.value > 0 {
        var wait := Max(a.retryAfterMs.value, COOLDOWN_FLOOR_MS);
        assert Named(chain[n]) && wait == Wait(chain[n].retryAfterMs);
        if shortest.None? || wait < shortest.value {
          shortest := Some(wait);
        }
      }
      n := n + 1;
    }
    r := shortest.GetOr(0);
  }

  // --- the tracker told of a whole chain at one instant --------------------------------------------

  function EntryOf(o: AttemptOutcome, now: nat): Entry { Entry(o.cls, o.retryAfterMs, now) }

  function TellAll(keys: Healths, chain: seq<AttemptOutcome>, now: nat): Healths {
    if chain == [] then keys
    else
      var before := TellAll(keys, chain[..|chain| - 1], now);
      var o := chain[|chain| - 1];
      before[o.candidate.key := Record(HealthIn(before, o.candidate.key), EntryOf(o, now))]
  }

  predicate DistinctKeys(chain: seq<AttemptOutcome>) {
    forall j, k | 0 <= j < k < |chain| :: chain[j].candidate.key != chain[k].candidate.key
  }

  /** Each key of a chain of distinct keys is told exactly its own outcome. */
  lemma {:induction false} EachKeyToldOnce(keys: Healths, chain: seq<AttemptOutcome>, now: nat)
    requires DistinctKeys(chain)
    ensures forall k | 0 <= k < |chain| ::
        HealthIn(TellAll(keys, chain, now), chain[k].candidate.key)
          == Record(HealthIn(keys, chain[k].candidate.key), EntryOf(chain[k], now))
    ensures forall id: string | (forall k | 0 <= k < |chain| :: chain[k].candidate.key != id) ::
        HealthIn(TellAll(keys, chain, now), id) == HealthIn(keys, id)
  {
    hide Record;
    if chain != [] {
      var init := chain[..|chain| - 1];
      EachKeyToldOnce(keys, init, now);
      assert HealthIn(TellAll(keys, init, now), chain[|init|].candidate.key)
        == HealthIn(keys, chain[|init|].candidate.key);
      forall k | 0 <= k < |init| ensures chain[k] == init[k] {}
    }
  }

  /** Every attempt was rate limited, on keys of its own that were usable at that instant. */
  ghost predicate RateLimitedTogether(before: Healths, keys: seq<ApiKey>, chain: seq<AttemptOutcome>, now: nat) {
    && |keys| == |chain| > 0
    && DistinctKeys(chain)
    && forall k | 0 <= k < |chain| ::
        && chain[k].cls == RATE_LIMITED
        && keys[k].id == chain[k].candidate.key
        && Usable(HealthIn(before, keys[k].id), keys[k], now)
  }

  ghost predicate AnyUsable(healths: Healths, keys: seq<ApiKey>, t: nat) {
    exists k :: 0 <= k < |keys| && Usable(HealthIn(healths, keys[k].id), keys[k], t)
  }

  lemma RateLimitedKeyFreesUp(h: KeyHealth, key: ApiKey, o: AttemptOutcome, now: nat, t: nat)
    requires Usable(h, key, now) && o.cls == RATE_LIMITED && now <= t
    ensures Usable(Record(h, EntryOf(o, now)), key, t) <==> now + Wait(o.retryAfterMs) <= t
  {
  }

  lemma FreesUpAt(before: Healths, keys: seq<ApiKey>, chain: seq<AttemptOutcome>, now: nat, t: nat)
    requires RateLimitedTogether(before, keys, chain, now) && now <= t
    ensures AnyUsable(TellAll(before, chain, now), keys, t)
      <==> exists k :: 0 <= k < |chain| && now + Wait(chain[k].retryAfterMs) <= t
  {
    EachKeyToldOnce(before, chain, now);
    var after := TellAll(before, chain, now);
    hide TellAll, Record, DistinctKeys, Wait;
    forall k | 0 <= k < |chain|
      ensures Usable(HealthIn(after, keys[k].id), keys[k], t) <==> now + Wait(chain[k].retryAfterMs) <= t
    {
      RateLimitedKeyFreesUp(HealthIn(before, keys[k].id), keys[k], chain[k], now, t);
    }
    hide Usable, HealthIn;
  }

  ghost predicate HintIsExact(before: Healths, keys: seq<ApiKey>, chain: seq<AttemptOutcome>, now: nat, hint: nat) {
    forall t: nat | now <= t :: AnyUsable(TellAll(before, chain, now), keys, t) <==> now + hint <= t
  }

  /** Either every attempt named its wait, or some named wait is within the floor anyway. */
  ghost predicate HintKnowsTheShortest(chain: seq<AttemptOutcome>) {
    || (forall k | 0 <= k < |chain| :: Named(chain[k]))
    || (exists k :: 0 <= k < |chain| && Named(chain[k]) && chain[k].retryAfterMs.value <= COOLDOWN_FLOOR_MS)
  }

  lemma KnownHintIsExact(before: Healths, keys: seq<ApiKey>, chain: seq<AttemptOutcome>, now: nat, hint: nat)
    requires RateLimitedTogether(before, keys, chain, now) && IsHint(hint, chain) && HintKnowsTheShortest(chain)
    ensures HintIsExact(before, keys, chain, now, hint)
  {
    assert hint > 0 by {
      if forall k | 0 <= k < |chain| :: Named(chain[k]) { assert Named(chain[0]); }
    }
    forall t: nat | now <= t ensures AnyUsable(TellAll(before, chain, now), keys, t) <==> now + hint <= t {
      FreesUpAt(before, keys, chain, now, t);
      hide TellAll, RateLimitedTogether, AnyUsable;
    }
  }

  lemma UnknownHintIsWrong(before: Healths, keys: seq<ApiKey>, chain: seq<AttemptOutcome>, now: nat, hint: nat)
    requires RateLimitedTogether(before, keys, chain, now) && IsHint(hint, chain) && !HintKnowsTheShortest(chain)
    ensures !HintIsExact(before, keys, chain, now, hint)
  {
    var k :| 0 <= k < |chain| && !Named(chain[k]);
    var t := if hint == 0 then now else now + COOLDOWN_FLOOR_MS;
    FreesUpAt(before, keys, chain, now, t);
    hide TellAll, RateLimitedTogether, AnyUsable;
    assert Wait(chain[k].retryAfterMs) == COOLDOWN_FLOOR_MS;
  }

  /** The first moment any of these keys is usable again is exactly the hint later, if and only if the
      hint knows the shortest wait: an attempt that named none is enforced the floor, but not counted. */
  lemma HintIsExactIff(before: Healths, keys: seq<ApiKey>, chain: seq<AttemptOutcome>, now: nat, hint: nat)
    requires RateLimitedTogether(before, keys, chain, now) && IsHint(hint, chain)
    ensures HintIsExact(before, keys, chain, now, hint) <==> HintKnowsTheShortest(chain)
  {
    if HintKnowsTheShortest(chain) {
      KnownHintIsExact(before, keys, chain, now, hint);
    } else {
      UnknownHintIsWrong(before, keys, chain, now, hint);
    }
  }

  // --- the engine's own chain -----------------------------------------------------------------------

  lemma {:induction false} NotBeforeItsPlace(e: Execution, k: nat)
    requires DialledInOrder(e) && k < |e.dialled|
    ensures e.dialled[k] >= k
  {
    if k > 0 {
      NotBeforeItsPlace(e, k - 1);
      assert e.dialled[k - 1] < e.dialled[k];
    }
  }

  lemma {:induction false} NotAfterItsPlace(e: Execution, k: nat, end: nat)
    requires DialledInOrder(e) && k < |e.dialled| == end
    requires forall j | 0 <= j < |e.dialled| :: e.dialled[j] < end
    ensures e.dialled[k] <= k
    decreases end - k
  {
    if k + 1 < end {
      NotAfterItsPlace(e, k + 1, end);
      assert e.dialled[k] < e.dialled[k + 1];
    }
  }

  /** A failed execution that got a slot for every candidate has told the tracker exactly its chain. */
  lemma FailedExecutionToldItsChain(e: Execution)
    requires Invariant(e) && e.phase == Ended(AllFailed) && |e.dialled| == |e.chain|
    ensures e.reported == e.chain
  {
    hide FailsExactlyWhenAllFailed, OneVoice, DialledInOrder, Aligned;
    forall k | 0 <= k < |e.chain| ensures e.reported[k] == e.chain[k] {
      NotBeforeItsPlace(e, k);
      NotAfterItsPlace(e, k, |e.chain|);
    }
  }

  // --- chains in which a saturated candidate was skipped ---------------------------------------------

  /** Fewer places than candidates leave some candidate out. */
  lemma {:induction false} SomeoneIsLeftOut(d: seq<nat>, n: nat, j: nat) returns (k: nat)
    requires j <= |d| < n
    requires forall a, b | 0 <= a < b < |d| :: d[a] < d[b]
    requires forall a | 0 <= a < j :: d[a] < j
    ensures k < n && k !in d
    decreases |d| - j
  {
    if j == |d| {
      k := j;
    } else if d[j] > j {
      k := j;
      assert forall a | j <= a < |d| :: d[a] > j;
    } else {
      assert j > 0 ==> d[j - 1] < d[j];
      k := SomeoneIsLeftOut(d, n, j + 1);
    }
  }

  /** What the tracker heard is the chain's entries at the dialled places. */
  ghost predicate ReportsDialled(e: Execution) {
    && |e.reported| == |e.dialled|
    && forall j | 0 <= j < |e.dialled| :: e.dialled[j] < |e.chain| && e.reported[j] == e.chain[e.dialled[j]]
  }

  lemma FailedReportsDialled(e: Execution)
    requires Invariant(e) && e.phase == Ended(AllFailed)
    ensures ReportsDialled(e) && DialledInOrder(e)
  {
    hide OneVoice, Aligned, FailsExactlyWhenAllFailed;
  }

  lemma ReportedKeysDiffer(e: Execution)
    requires ReportsDialled(e) && DialledInOrder(e) && DistinctKeys(e.chain)
    ensures DistinctKeys(e.reported)
    ensures forall k | 0 <= k < |e.chain| && k !in e.dialled ::
        forall j | 0 <= j < |e.reported| :: e.reported[j].candidate.key != e.chain[k].candidate.key
  {
    forall k, j | 0 <= k < |e.chain| && k !in e.dialled && 0 <= j < |e.reported|
      ensures e.reported[j].candidate.key != e.chain[k].candidate.key
    {
      assert e.dialled[j] != k;
      assert e.dialled[j] < k || k < e.dialled[j];
    }
  }

  lemma StillUsable(h: KeyHealth, key: ApiKey, now: nat, t: nat)
    requires Usable(h, key, now) && now <= t
    ensures Usable(h, key, t)
  {
  }

  /** A skipped key was told nothing, so it is usable from the start. */
  lemma SkippedKeyStaysUsable(e: Execution, before: Healths, keys: seq<ApiKey>, now: nat, t: nat)
    requires Invariant(e) && e.phase == Ended(AllFailed) && |e.dialled| < |e.chain|
    requires RateLimitedTogether(before, keys, e.chain, now) && now <= t
    ensures AnyUsable(TellAll(before, e.reported, now), keys, t)
  {
    FailedReportsDialled(e);
    hide Invariant, TellAll, Usable;
    var k := SomeoneIsLeftOut(e.dialled, |e.chain|, 0);
    ReportedKeysDiffer(e);
    EachKeyToldOnce(before, e.reported, now);
    StillUsable(HealthIn(before, keys[k].id), keys[k], now, t);
  }

  /** What the engine throws, against the tracker it has itself informed: if every candidate got a slot, the
      hint is exact under the condition above; if one was skipped as saturated, its key is usable at once, and
      the hint is exact if and only if no attempt named a wait. */
  lemma EngineHintIsExactIff(e: Execution, before: Healths, keys: seq<ApiKey>, now: nat, hint: nat)
    requires Invariant(e) && e.phase == Ended(AllFailed)
    requires RateLimitedTogether(before, keys, e.chain, now) && IsHint(hint, e.chain)
    ensures |e.dialled| <= |e.chain|
    ensures |e.dialled| == |e.chain| ==>
        (HintIsExact(before, keys, e.reported, now, hint) <==> HintKnowsTheShortest(e.chain))
    ensures |e.dialled| < |e.chain| ==>
        (HintIsExact(before, keys, e.reported, now, hint) <==> forall k | 0 <= k < |e.chain| :: !Named(e.chain[k]))
  {
    hide *;
    NoMoreThanTheChain(e);
    if |e.dialled| == |e.chain| {
      FailedExecutionToldItsChain(e);
      HintIsExactIff(before, keys, e.chain, now, hint);
    } else {
      forall t: nat | now <= t ensures AnyUsable(TellAll(before, e.reported, now), keys, t) {
        SkippedKeyStaysUsable(e, before, keys, now, t);
      }
      UsableAtOnce(before, keys, e.reported, now, hint);
      NoHint(hint, e.chain);
    }
  }

  lemma NoMoreThanTheChain(e: Execution)
    requires Invariant(e) && e.phase == Ended(AllFailed)
    ensures |e.dialled| <= |e.chain|
  {
    FailedReportsDialled(e);
    hide Invariant;
    if e.dialled != [] { NotBeforeItsPlace(e, |e.dialled| - 1); }
  }

  lemma UsableAtOnce(before: Healths, keys: seq<ApiKey>, told: seq<AttemptOutcome>, now: nat, hint: nat)
    requires forall t: nat | now <= t :: AnyUsable(TellAll(before, told, now), keys, t)
    ensures HintIsExact(before, keys, told, now, hint) <==> hint == 0
  {
    hide AnyUsable, TellAll;
    assert AnyUsable(TellAll(before, told, now), keys, now);
  }

  lemma NoHint(hint: nat, chain: seq<AttemptOutcome>)
    requires IsHint(hint, chain)
    ensures hint == 0 <==> forall k | 0 <= k < |chain| :: !Named(chain[k])
  {
    hide Named, Wait;
  }
}
