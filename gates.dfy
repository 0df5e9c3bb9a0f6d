/**
 * RlSemaphore: a counting gate of `permits` permits. Every grant is a Holder
 * that gives its weight back at most once. Blocking acquisitions are methods
 * whose precondition is that enough permits are free; the try variants always
 * return and either succeed or leave the gate as it was.
 */
module Gates {
  import opened Seqs

  /** Total weight of a sequence of holders. */
  function Weight(hs: seq<Holder>): nat
  {
    if hs == [] then 0 else hs[0].permits + Weight(hs[1..])
  }

  lemma {:induction false} WeightAppend(hs: seq<Holder>, h: Holder)
    ensures Weight(hs + [h]) == Weight(hs) + h.permits
  {
    if hs != [] {
      assert (hs + [h])[1..] == hs[1..] + [h];
      WeightAppend(hs[1..], h);
    }
  }

  /** Taking a distinct member out of the outstanding holders lowers the weight by its permits. */
  lemma {:induction false} WeightWithout(hs: seq<Holder>, h: Holder)
    requires Distinct(hs) && h in hs
    ensures Weight(Without(hs, h)) + h.permits == Weight(hs)
    ensures Distinct(Without(hs, h))
  {
    WithoutDistinct(hs, h);
    if hs[0] == h {
      assert h !in hs[1..];
      WithoutAbsent(hs[1..], h);
    } else {
      WeightWithout(hs[1..], h);
    }
  }

  /** A holder a gate still counts weighs no more than all of the gate's outstanding holders. */
  lemma {:induction false} WeightCovers(hs: seq<Holder>, h: Holder)
    requires h in hs
    ensures Weight(hs) >= h.permits
  {
    if hs[0] != h {
      WeightCovers(hs[1..], h);
    }
  }

  /** While a holder of the gate's full capacity is unreleased, the gate has no permit free. */
  lemma FullHoldDrains(h: Holder)
    requires h.Valid() && h.semaphore != null && h.permits == h.origin.permits
    ensures h.origin.available == 0
  {
    WeightCovers(h.origin.outstanding, h);
  }

  class Semaphore {
    /** The configured maximum number of permits. */
    const permits: nat
    /** The free permits of the wrapped java.util.concurrent.Semaphore. */
    var available: nat
    /** The holders not yet released. */
    ghost var outstanding: seq<Holder>

    ghost predicate Valid()
      reads this
    {
      && available + Weight(outstanding) == permits
      && Distinct(outstanding)
      && (forall i :: 0 <= i < |outstanding| ==> outstanding[i].origin == this)
    }

    constructor (permits: nat)
      ensures Valid()
      ensures this.permits == permits && available == permits && outstanding == []
    {
      this.permits := permits;
      available := permits;
      outstanding := [];
    }

    /** Blocks until one permit is free, then takes it. */
    method Acquire() returns (h: Holder)
      requires Valid() && available >= 1
      modifies this
      ensures Valid() && fresh(h)
      ensures h.permits == 1 && h.Valid() && h.semaphore == this
      ensures available == old(available) - 1
      ensures outstanding == old(outstanding) + [h]
    {
      h := Grant(1);
    }

    /** Takes one permit if one is free; otherwise returns null and changes nothing. */
    method TryAcquire() returns (h: Holder?)
      requires Valid()
      modifies this
      ensures Valid()
      ensures h != null <==> old(available) >= 1
      ensures h != null ==> fresh(h) && h.permits == 1 && h.Valid() && h.semaphore == this
                            && available == old(available) - 1
                            && outstanding == old(outstanding) + [h]
      ensures h == null ==> available == old(available) && outstanding == old(outstanding)
    {
      if available < 1 {
        return null;
      }
      h := Grant(1);
    }

    /** Blocks until every permit is free, then takes them all. */
    method AcquireAll() returns (h: Holder)
      requires Valid() && available >= permits
      modifies this
      ensures Valid() && fresh(h)
      ensures h.permits == permits && h.Valid() && h.semaphore == this
      ensures available == 0
      ensures outstanding == old(outstanding) + [h]
    {
      h := Grant(permits);
    }

    /** Takes every permit if all are free; otherwise returns null and changes nothing. */
    method TryAcquireAll() returns (h: Holder?)
      requires Valid()
      modifies this
      ensures Valid()
      ensures h != null <==> old(available) >= permits
      ensures h != null ==> fresh(h) && h.permits == permits && h.Valid() && h.semaphore == this
                            && available == 0
                            && outstanding == old(outstanding) + [h]
      ensures h == null ==> available == old(available) && outstanding == old(outstanding)
    {
      if available < permits {
        return null;
      }
      h := Grant(permits);
    }

    /** The bookkeeping shared by the four acquisitions: take `n` permits, hand out a holder. */
    method Grant(n: nat) returns (h: Holder)
      requires Valid() && available >= n
      modifies this
      ensures Valid() && fresh(h)
      ensures h.permits == n && h.Valid() && h.semaphore == this
      ensures available == old(available) - n
      ensures outstanding == old(outstanding) + [h]
    {
      h := new Holder(this, n);
      available := available - n;
      assert h !in outstanding;
      AppendDistinct(outstanding, h);
      WeightAppend(outstanding, h);
      outstanding := outstanding + [h];
    }
  }

  class Holder {
    /** The weight of this grant. */
    const permits: nat
    /** The gate this grant was taken from. */
    ghost const origin: Semaphore
    /** The gate to give the permits back to; null once released. */
    var semaphore: Semaphore?

    constructor (semaphore: Semaphore, permits: nat)
      ensures this.semaphore == semaphore && origin == semaphore && this.permits == permits
    {
      this.semaphore := semaphore;
      origin := semaphore;
      this.permits := permits;
    }

    /** The holder is unreleased exactly while its gate still counts it. */
    ghost predicate Valid()
      reads this, origin
    {
      && origin.Valid()
      && (semaphore == null || semaphore == origin)
      && (semaphore != null <==> this in origin.outstanding)
    }

    /**
     * Returns the permits to the gate the first time; every later call does
     * nothing because the gate reference has been cleared.
     */
    method Release()
      requires Valid()
      modifies this, origin
      ensures Valid() && semaphore == null
      ensures origin.available == old(origin.available) + (if old(semaphore) == null then 0 else permits)
      ensures origin.outstanding == if old(semaphore) == null then old(origin.outstanding)
                                    else Without(old(origin.outstanding), this)
    {
      if semaphore == null {
        return;
      }
      WeightWithout(origin.outstanding, this);
      semaphore.available := semaphore.available + permits;
      semaphore.outstanding := Without(semaphore.outstanding, this);
      semaphore := null;
    }
  }
}

/** The capacity-2 walkthrough: two holders out, a third cannot be had until one comes back. */
module GateScenarios {
  import opened Gates

  method CapacityTwo() returns (thirdGranted: bool, grantedAfterRelease: bool, freeAtEnd: nat)
    ensures !thirdGranted && grantedAfterRelease
    ensures freeAtEnd == 2
  {
    var gate := new Semaphore(2);
    var first := gate.Acquire();
    var second := gate.Acquire();
    var third := gate.TryAcquire();
    thirdGranted := third != null;
    first.Release();
    var fourth := gate.TryAcquire();
    grantedAfterRelease := fourth != null;
    second.Release();
    fourth.Release();
    freeAtEnd := gate.available;
  }
}
