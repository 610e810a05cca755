/** The per-provider in-flight cap (packages/router-core/src/concurrency.ts). */
module ProviderLimiting {

  const PER_PROVIDER_DEFAULT := 4

  type InFlight = map<string, nat>

  function CountIn(m: InFlight, provider: string): nat {
    if provider in m then m[provider] else 0
  }

  predicate HasRoom(cap: int, m: InFlight, provider: string) {
    cap <= 0 || CountIn(m, provider) < cap
  }

  function WithOneMore(m: InFlight, provider: string): InFlight {
    m[provider := CountIn(m, provider) + 1]
  }

  /** A count that would reach zero is removed rather than stored. */
  function WithOneLess(m: InFlight, provider: string): InFlight {
    if CountIn(m, provider) <= 1 then m - {provider} else m[provider := CountIn(m, provider) - 1]
  }

  predicate NoZeroCounts(m: InFlight) {
    forall p | p in m :: m[p] > 0
  }

  /** The live handles of one provider. */
  ghost function Held(live: set<ReleaseHandle>, provider: string): set<ReleaseHandle> {
    set h | h in live && h.provider == provider
  }

  lemma HeldWithOneMore(live: set<ReleaseHandle>, h: ReleaseHandle, provider: string)
    requires h !in live
    ensures |Held(live + {h}, provider)| == |Held(live, provider)| + (if h.provider == provider then 1 else 0)
  {
    assert Held(live + {h}, provider) == Held(live, provider) + (if h.provider == provider then {h} else {});
  }

  class ProviderLimiter {
    /** Mutable at run time; zero and below mean unlimited. */
    var maxPerProvider: int
    var inFlight: InFlight
    /** The handles handed out and not yet released. */
    ghost var live: set<ReleaseHandle>

    ghost predicate Valid()
      reads this, live
    {
      && NoZeroCounts(inFlight)
      && (forall h | h in live :: h.limiter == this && !h.released)
      && (forall p: string :: CountIn(inFlight, p) == |Held(live, p)|)
    }

    constructor (cap: int := PER_PROVIDER_DEFAULT)
      ensures Valid() && maxPerProvider == cap && inFlight == map[] && live == {} && PER_PROVIDER_DEFAULT == 4
    {
      maxPerProvider, inFlight, live := cap, map[], {};
      new;
      forall p: string ensures |Held(live, p)| == 0 { assert Held(live, p) == {}; }
    }

    method SetCap(cap: int)
      requires Valid()
      modifies this`maxPerProvider
      ensures Valid() && maxPerProvider == cap
    {
      maxPerProvider := cap;
    }

    function HasCapacity(provider: string): bool
      reads this
    {
      HasRoom(maxPerProvider, inFlight, provider)
    }

    /** Reserves a slot, or refuses when the provider is saturated under the cap now in force. */
    method Acquire(provider: string, ghost owner: object) returns (h: ReleaseHandle?)
      requires Valid()
      modifies this`inFlight, this`live
      ensures Valid()
      ensures h == null <==> !old(HasCapacity(provider))
      ensures h == null <==> maxPerProvider > 0 && |old(Held(live, provider))| >= maxPerProvider
      ensures h == null ==> inFlight == old(inFlight) && live == old(live)
      ensures h != null ==>
        && fresh(h) && h.limiter == this && h.provider == provider && h.owner == owner && !h.released
        && inFlight == WithOneMore(old(inFlight), provider)
        && live == old(live) + {h}
        && (maxPerProvider > 0 ==> CountIn(inFlight, provider) <= maxPerProvider)
    {
      if !HasCapacity(provider) {
        return null;
      }
      inFlight := inFlight[provider := CountIn(inFlight, provider) + 1];
      h := new ReleaseHandle(this, provider, owner);
      ghost var was := live;
      live := live + {h};
      forall p: string ensures |Held(live, p)| == |Held(was, p)| + (if p == provider then 1 else 0) {
        HeldWithOneMore(was, h, p);
      }
    }
  }

  /** The closure `acquire` returns, with the flag it captures. */
  class ReleaseHandle {
    const limiter: ProviderLimiter
    const provider: string
    /** The execution that took the slot. */
    ghost const owner: object
    var released: bool

    constructor (limiter: ProviderLimiter, provider: string, ghost owner: object)
      ensures this.limiter == limiter && this.provider == provider && this.owner == owner && !released
    {
      this.limiter, this.provider, this.owner, released := limiter, provider, owner, false;
    }

    /** Gives the slot back, once: every further call changes nothing. */
    method Release()
      requires limiter.Valid() && (!released ==> this in limiter.live)
      modifies this`released, limiter`inFlight, limiter`live
      ensures limiter.Valid() && released && this !in limiter.live
      ensures old(released) ==> limiter.inFlight == old(limiter.inFlight) && limiter.live == old(limiter.live)
      ensures !old(released) ==>
        && limiter.inFlight == WithOneLess(old(limiter.inFlight), provider)
        && limiter.live == old(limiter.live) - {this}
    {
      if released {
        return;
      }
      released := true;
      ghost var was := limiter.live;
      limiter.live := limiter.live - {this};
      assert this in Held(was, provider);
      var next := CountIn(limiter.inFlight, provider) - 1;
      if next <= 0 {
        limiter.inFlight := limiter.inFlight - {provider};
      } else {
        limiter.inFlight := limiter.inFlight[provider := next];
      }
      forall p: string ensures CountIn(limiter.inFlight, p) == |Held(limiter.live, p)| {
        assert Held(limiter.live, p) == Held(was, p) - (if p == provider then {this} else {});
      }
    }
  }

  /** When every handle has been released the map is empty: no provider keeps capacity. */
  lemma NothingLiveNothingCounted(l: ProviderLimiter)
    requires l.Valid()
    ensures l.live == {} <==> l.inFlight == map[]
  {
    if l.live == {} {
      forall p: string ensures p !in l.inFlight { assert Held(l.live, p) == {}; }
    } else {
      var h :| h in l.live;
      assert h in Held(l.live, h.provider);
      assert CountIn(l.inFlight, h.provider) > 0;
    }
  }
}
