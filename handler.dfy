/**
 * SemaphoreHandler: the same counting gate as RlSemaphore, but its grants are
 * Acquisitions that remember whether they were released instead of dropping
 * their gate reference. `notReleased` reports that flag.
 */
module Handlers {
  import opened Seqs

  /** Total weight of a sequence of acquisitions. */
  function Weight(acs: seq<Acquisition>): nat
  {
    if acs == [] then 0 else acs[0].permits + Weight(acs[1..])
  }

  lemma {:induction false} WeightAppend(acs: seq<Acquisition>, a: Acquisition)
    ensures Weight(acs + [a]) == Weight(acs) + a.permits
  {
    if acs != [] {
      assert (acs + [a])[1..] == acs[1..] + [a];
      WeightAppend(acs[1..], a);
    }
  }

  lemma {:induction false} WeightWithout(acs: seq<Acquisition>, a: Acquisition)
    requires Distinct(acs) && a in acs
    ensures Weight(Without(acs, a)) + a.permits == Weight(acs)
    ensures Distinct(Without(acs, a))
  {
    WithoutDistinct(acs, a);
    if acs[0] == a {
      assert a !in acs[1..];
      WithoutAbsent(acs[1..], a);
    } else {
      WeightWithout(acs[1..], a);
    }
  }

  /** When every acquisition weighs at least one permit, there are no more of them than their weight. */
  lemma {:induction false} CountBelowWeight(acs: seq<Acquisition>)
    requires forall i :: 0 <= i < |acs| ==> acs[i].permits >= 1
    ensures |acs| <= Weight(acs)
  {
    if acs != [] {
      CountBelowWeight(acs[1..]);
    }
  }

  /** An acquisition still counted by a gate weighs no more than all of the gate's outstanding ones. */
  lemma {:induction false} WeightCovers(acs: seq<Acquisition>, a: Acquisition)
    requires a in acs
    ensures Weight(acs) >= a.permits
  {
    if acs[0] != a {
      WeightCovers(acs[1..], a);
    }
  }

  class Handler {
    /** The configured maximum number of permits. */
    const permits: nat
    /** The free permits of the wrapped java.util.concurrent.Semaphore. */
    var available: nat
    /** The acquisitions handed out and not yet released. */
    ghost var outstanding: seq<Acquisition>

    ghost predicate Valid()
      reads this
    {
      && available + Weight(outstanding) == permits
      && Distinct(outstanding)
      && (forall i :: 0 <= i < |outstanding| ==>
            outstanding[i].handler == this
            && (outstanding[i].permits == 1 || outstanding[i].permits == permits))
    }

    constructor (permits: nat)
      ensures Valid()
      ensures this.permits == permits && available == permits && outstanding == []
    {
      this.permits := permits;
      available := permits;
      outstanding := [];
    }

    /** Takes one permit if one is free; otherwise returns null and changes nothing. */
    method TryAcquire() returns (a: Acquisition?)
      requires Valid()
      modifies this
      ensures Valid()
      ensures a != null <==> old(available) >= 1
      ensures a != null ==> fresh(a) && a.permits == 1 && a.handler == this && !a.released && a.Valid()
                            && available == old(available) - 1
                            && outstanding == old(outstanding) + [a]
      ensures a == null ==> available == old(available) && outstanding == old(outstanding)
    {
      if available < 1 {
        return null;
      }
      a := Grant(1);
    }

    /** Blocks until one permit is free, then takes it. */
    method Acquire() returns (a: Acquisition)
      requires Valid() && available >= 1
      modifies this
      ensures Valid() && fresh(a)
      ensures a.permits == 1 && a.handler == this && !a.released && a.Valid()
      ensures available == old(available) - 1
      ensures outstanding == old(outstanding) + [a]
    {
      a := Grant(1);
    }

    /** Takes every permit if all are free; otherwise returns null and changes nothing. */
    method TryAcquireAll() returns (a: Acquisition?)
      requires Valid()
      modifies this
      ensures Valid()
      ensures a != null <==> old(available) >= permits
      ensures a != null ==> fresh(a) && a.permits == permits && a.handler == this && !a.released && a.Valid()
                            && available == 0
                            && outstanding == old(outstanding) + [a]
      ensures a == null ==> available == old(available) && outstanding == old(outstanding)
    {
      if available < permits {
        return null;
      }
      a := Grant(permits);
    }

    /** Blocks until every permit is free, then takes them all. */
    method AcquireAll() returns (a: Acquisition)
      requires Valid() && available >= permits
      modifies this
      ensures Valid() && fresh(a)
      ensures a.permits == permits && a.handler == this && !a.released && a.Valid()
      ensures available == 0
      ensures outstanding == old(outstanding) + [a]
    {
      a := Grant(permits);
    }

    /** The bookkeeping shared by the four acquisitions. */
    method Grant(n: nat) returns (a: Acquisition)
      requires Valid() && available >= n && (n == 1 || n == permits)
      modifies this
      ensures Valid() && fresh(a)
      ensures a.permits == n && a.handler == this && !a.released && a.Valid()
      ensures available == old(available) - n
      ensures outstanding == old(outstanding) + [a]
    {
      a := new Acquisition(this, n);
      available := available - n;
      AppendDistinct(outstanding, a);
      WeightAppend(outstanding, a);
      outstanding := outstanding + [a];
    }
  }

  /** A handler whose every grant weighs one permit has at most `permits` grants outstanding. */
  lemma SinglePermitGrants(g: Handler)
    requires g.Valid() && g.permits == 1
    ensures |g.outstanding| <= 1
  {
    CountBelowWeight(g.outstanding);
  }

  /** While an acquisition of the full capacity is unreleased, its gate has no permit free. */
  lemma FullHoldDrains(g: Handler, a: Acquisition)
    requires a.Valid() && a.handler == g && !a.released && a.permits == g.permits
    ensures g.available == 0
  {
    WeightCovers(g.outstanding, a);
  }

  /** While any acquisition is unreleased, its gate has at least its weight fewer permits free. */
  lemma HoldWithholds(g: Handler, a: Acquisition)
    requires a.Valid() && a.handler == g && !a.released
    ensures g.available + a.permits <= g.permits
  {
    WeightCovers(g.outstanding, a);
  }

  class Acquisition {
    /** The gate the permits came from. */
    const handler: Handler
    /** The weight of this grant. */
    const permits: nat
    /** Set by the first `release`. */
    var released: bool

    constructor (handler: Handler, permits: nat)
      ensures this.handler == handler && this.permits == permits && !released
    {
      this.handler := handler;
      this.permits := permits;
      released := false;
    }

    /** The acquisition is unreleased exactly while its gate still counts it. */
    ghost predicate Valid()
      reads this, handler
    {
      handler.Valid() && (!released <==> this in handler.outstanding)
    }

    /** True from creation until the first release. */
    function NotReleased(): (r: bool)
      reads this
      ensures r <==> !released
    {
      !released
    }

    /** Returns the permits the first time; later calls change nothing. */
    method Release()
      requires Valid()
      modifies this, handler
      ensures Valid() && released
      ensures handler.available == old(handler.available) + (if old(released) then 0 else permits)
      ensures handler.outstanding == if old(released) then old(handler.outstanding)
                                     else Without(old(handler.outstanding), this)
    {
      if released {
        return;
      }
      WeightWithout(handler.outstanding, this);
      handler.available := handler.available + permits;
      handler.outstanding := Without(handler.outstanding, this);
      released := true;
    }
  }
}
