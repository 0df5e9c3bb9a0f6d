/**
 * RlSemaphoreMulti: takes the full capacity of an ordered list of gates and
 * hands back one composite holder over the per-gate holders.
 */
module MultiGates {
  import opened Seqs
  import opened Gates

  /** Every gate is consistent. */
  ghost predicate AllValid(gates: seq<Semaphore>)
    reads gates
  {
    forall i :: 0 <= i < |gates| ==> gates[i].Valid()
  }

  /** Every gate has all of its permits free. */
  ghost predicate AllFree(gates: seq<Semaphore>)
    reads gates
  {
    forall i :: 0 <= i < |gates| ==> gates[i].available >= gates[i].permits
  }

  /** Holders taken from distinct gates, one per gate, are distinct. */
  lemma DistinctByOrigin(subs: seq<Holder>, gates: seq<Semaphore>)
    requires |subs| == |gates| && Distinct(gates)
    requires forall i :: 0 <= i < |subs| ==> subs[i].origin == gates[i]
    ensures Distinct(subs)
  {
  }

  class Multi {
    /** The gates, in the order given to the constructor. */
    const gates: seq<Semaphore>

    constructor (gates: seq<Semaphore>)
      ensures this.gates == gates
    {
      this.gates := gates;
    }

    /** Blocks until every gate is entirely free, then takes each gate's full capacity in order. */
    method AcquireAll() returns (h: MultiHolder)
      requires Distinct(gates) && AllValid(gates) && AllFree(gates)
      modifies gates
      ensures fresh(h) && h.gates == gates && h.Valid()
      ensures forall i :: 0 <= i < |gates| ==>
                && fresh(h.subs[i])
                && gates[i].available == 0
                && h.subs[i].permits == gates[i].permits
                && h.subs[i].semaphore == gates[i]
                && gates[i].outstanding == old(gates[i].outstanding) + [h.subs[i]]
    {
      var subs := TakeAll(|gates|);
      DistinctByOrigin(subs, gates);
      h := new MultiHolder(gates, subs);
    }

    /**
     * The loop behind both `acquireAll` and, as written, `tryAcquireAll`:
     * the first `n` gates are taken in order with their blocking acquireAll.
     */
    method TakeAll(n: nat) returns (subs: seq<Holder>)
      requires n <= |gates| && Distinct(gates) && AllValid(gates)
      requires forall i :: 0 <= i < n ==> gates[i].available >= gates[i].permits
      modifies gates
      ensures |subs| == n && AllValid(gates)
      ensures forall i :: 0 <= i < n ==>
                && fresh(subs[i])
                && gates[i].available == 0
                && subs[i].permits == gates[i].permits
                && subs[i].semaphore == gates[i]
                && subs[i].origin == gates[i] && subs[i].Valid()
                && gates[i].outstanding == old(gates[i].outstanding) + [subs[i]]
      ensures forall i :: n <= i < |gates| ==>
                gates[i].available == old(gates[i].available)
                && gates[i].outstanding == old(gates[i].outstanding)
    {
      subs := [];
      var k := 0;
      while k < n
        invariant 0 <= k <= n && |subs| == k
        invariant AllValid(gates)
        invariant forall i :: 0 <= i < k ==>
                    && fresh(subs[i])
                    && gates[i].available == 0
                    && subs[i].permits == gates[i].permits
                    && subs[i].semaphore == gates[i]
                    && subs[i].origin == gates[i] && subs[i].Valid()
                    && gates[i].outstanding == old(gates[i].outstanding) + [subs[i]]
        invariant forall i :: k <= i < |gates| ==>
                    gates[i].available == old(gates[i].available)
                    && gates[i].outstanding == old(gates[i].outstanding)
      {
        var g := gates[k];
        var s := g.AcquireAll();
        subs := subs + [s];
        k := k + 1;
      }
    }

    /**
     * The intended `tryAcquireAll`: takes every gate's full capacity when all
     * are free; otherwise gives back what it collected and returns null, so no
     * gate is left partly held.
     */
    method TryAcquireAll() returns (h: MultiHolder?)
      requires Distinct(gates) && AllValid(gates)
      modifies gates
      ensures AllValid(gates)
      ensures h != null <==> old(AllFree(gates))
      ensures h != null ==> fresh(h) && h.gates == gates && h.Valid()
                            && forall i :: 0 <= i < |gates| ==>
                                 && gates[i].available == 0
                                 && h.subs[i].permits == gates[i].permits
                                 && h.subs[i].semaphore == gates[i]
                                 && gates[i].outstanding == old(gates[i].outstanding) + [h.subs[i]]
      ensures h == null ==> forall i :: 0 <= i < |gates| ==>
                              gates[i].available == old(gates[i].available)
                              && gates[i].outstanding == old(gates[i].outstanding)
    {
      ghost var was: seq<seq<Holder>> := [];
      var subs: seq<Holder> := [];
      var k := 0;
      while k < |gates|
        invariant 0 <= k <= |gates| && |subs| == k && |was| == k
        invariant AllValid(gates)
        invariant forall i :: 0 <= i < k ==> old(gates[i].available) == gates[i].permits
        invariant forall i :: 0 <= i < k ==>
                    && fresh(subs[i])
                    && gates[i].available == 0
                    && subs[i].permits == gates[i].permits
                    && subs[i].semaphore == gates[i]
                    && subs[i].origin == gates[i] && subs[i].Valid()
                    && gates[i].outstanding == old(gates[i].outstanding) + [subs[i]]
                    && was[i] == old(gates[i].outstanding)
        invariant forall i :: k <= i < |gates| ==>
                    gates[i].available == old(gates[i].available)
                    && gates[i].outstanding == old(gates[i].outstanding)
      {
        var g := gates[k];
        var s := g.TryAcquireAll();
        if s == null {
          Rollback(subs, was);
          return null;
        }
        was := was + [old(g.outstanding)];
        subs := subs + [s];
        k := k + 1;
      }
      DistinctByOrigin(subs, gates);
      h := new MultiHolder(gates, subs);
    }

    /** The failure path of the intended `tryAcquireAll`: every gate taken so far is as it was before. */
    method Rollback(subs: seq<Holder>, ghost was: seq<seq<Holder>>)
      requires |subs| == |was| <= |gates| && Distinct(gates) && AllValid(gates)
      requires forall i :: 0 <= i < |subs| ==>
                 && subs[i].origin == gates[i] && subs[i].Valid() && subs[i].semaphore != null
                 && subs[i] !in was[i] && gates[i].outstanding == was[i] + [subs[i]]
                 && gates[i].available == 0 && subs[i].permits == gates[i].permits
      modifies gates[..|subs|], subs
      ensures AllValid(gates)
      ensures forall i :: 0 <= i < |subs| ==>
                gates[i].available == gates[i].permits && gates[i].outstanding == was[i]
    {
      GiveBack(subs);
      forall i | 0 <= i < |subs|
        ensures gates[i].outstanding == was[i]
      {
        WithoutAppended(was[i], subs[i]);
      }
    }

    /** The rollback of `tryAcquireAll`: releases the sub-holders collected from the first gates. */
    method GiveBack(subs: seq<Holder>)
      requires |subs| <= |gates| && Distinct(gates) && AllValid(gates)
      requires forall i :: 0 <= i < |subs| ==>
                 subs[i].origin == gates[i] && subs[i].Valid() && subs[i].semaphore != null
                 && subs[i].permits == gates[i].permits
      modifies gates[..|subs|], subs
      ensures AllValid(gates)
      ensures forall i :: 0 <= i < |subs| ==>
                gates[i].available == old(gates[i].available) + subs[i].permits
                && gates[i].outstanding == Without(old(gates[i].outstanding), subs[i])
    {
      var partial := new MultiHolder(gates[..|subs|], subs);
      partial.Release();
    }
  }

  class MultiHolder {
    /** The gates the sub-holders came from, one per sub-holder. */
    const gates: seq<Semaphore>
    /** The per-gate holders, in gate order. */
    const subs: seq<Holder>

    constructor (gates: seq<Semaphore>, subs: seq<Holder>)
      ensures this.gates == gates && this.subs == subs
    {
      this.gates := gates;
      this.subs := subs;
    }

    /** Each sub-holder is either released or still counted by its own gate. */
    ghost predicate Valid()
      reads this, gates, subs
    {
      && |subs| == |gates| && Distinct(gates) && Distinct(subs) && AllValid(gates)
      && forall i :: 0 <= i < |subs| ==>
           subs[i].origin == gates[i] && subs[i].Valid() && subs[i].permits == gates[i].permits
    }

    /** While sub-holder `i` is unreleased, its gate has no permit free. */
    lemma HeldDrains(i: nat)
      requires Valid() && i < |subs| && subs[i].semaphore != null
      ensures gates[i].available == 0
    {
      FullHoldDrains(subs[i]);
    }

    /** Once sub-holder `i` has been given back, a gate it was the only hold of has every permit free again. */
    lemma SoleHoldRefilled(i: nat, wasSemaphore: Semaphore?, wasAvailable: nat)
      requires Valid() && i < |subs| && wasSemaphore != null
      requires Refunded(i, wasSemaphore, wasAvailable, [subs[i]])
      ensures gates[i].available == gates[i].permits && gates[i].outstanding == []
    {
      assert [subs[i]][1..] == [];
    }

    /** Releases every sub-holder in order; a second call finds them all released and changes nothing. */
    method Release()
      requires Valid()
      modifies subs, gates
      ensures Valid()
      ensures forall i :: 0 <= i < |subs| ==> subs[i].semaphore == null
      ensures forall i :: 0 <= i < |subs| ==>
                Refunded(i, old(subs[i].semaphore), old(gates[i].available), old(gates[i].outstanding))
    {
      ReleaseFrom(0);
    }

    /** The loop of `release` from sub-holder `k` on, one sub-holder per step. */
    method ReleaseFrom(k: nat)
      requires k <= |subs| == |gates| && Distinct(gates) && Distinct(subs) && AllValid(gates)
      requires forall i :: 0 <= i < |subs| ==> subs[i].origin == gates[i]
      requires forall i :: k <= i < |subs| ==> subs[i].Valid()
      modifies subs[k..], gates[k..]
      ensures AllValid(gates)
      ensures forall i :: k <= i < |subs| ==> subs[i].semaphore == null && subs[i] !in gates[i].outstanding
      ensures forall i :: k <= i < |subs| ==>
                Refunded(i, old(subs[i].semaphore), old(gates[i].available), old(gates[i].outstanding))
      decreases |subs| - k
    {
      if k < |subs| {
        ReleaseAt(k);
        assert subs[k] !in subs[k + 1..] && gates[k] !in gates[k + 1..];
        ReleaseFrom(k + 1);
      }
    }

    /** One step of `release`: gives back sub-holder `k`, touching only it and its gate. */
    method ReleaseAt(k: nat)
      requires k < |subs| == |gates| && Distinct(gates) && AllValid(gates)
      requires subs[k].origin == gates[k] && subs[k].Valid()
      modifies subs[k], gates[k]
      ensures AllValid(gates)
      ensures subs[k].semaphore == null && subs[k] !in gates[k].outstanding
      ensures Refunded(k, old(subs[k].semaphore), old(gates[k].available), old(gates[k].outstanding))
    {
      subs[k].Release();
    }

    /** Gate `i` got back the weight of sub-holder `i` if that sub-holder was still unreleased. */
    ghost predicate Refunded(i: nat, wasSemaphore: Semaphore?, wasAvailable: nat, wasOutstanding: seq<Holder>)
      requires i < |subs| && i < |gates|
      reads gates[i]
    {
      if wasSemaphore == null then
        gates[i].available == wasAvailable && gates[i].outstanding == wasOutstanding
      else
        gates[i].available == wasAvailable + subs[i].permits
        && gates[i].outstanding == Without(wasOutstanding, subs[i])
    }
  }
}

/**
 * How `tryAcquireAll` behaves over the free and configured permits of each
 * gate: the code as written takes each gate with the BLOCKING acquireAll, so
 * it waits at the first busy gate while holding the ones before it; the
 * intended version refuses without taking anything.
 */
module MultiTryOutcome {

  datatype Outcome =
    | Granted
    | Refused
    /** Waiting at gate `at` while gates 0 .. at-1 are held. */
    | Waits(at: nat)

  /** The code as written: map over the gates with the blocking acquireAll. */
  function TryAllAsWritten(free: seq<nat>, caps: seq<nat>, from: nat): (r: Outcome)
    requires |free| == |caps| && from <= |free|
    decreases |free| - from
  {
    if from == |free| then Granted
    else if free[from] < caps[from] then Waits(from)
    else TryAllAsWritten(free, caps, from + 1)
  }

  /** The intended all-or-nothing rule. */
  function TryAllIntended(free: seq<nat>, caps: seq<nat>): (r: Outcome)
    requires |free| == |caps|
    ensures r == Granted <==> forall i :: 0 <= i < |free| ==> free[i] >= caps[i]
    ensures r != Granted ==> r == Refused
  {
    if forall i :: 0 <= i < |free| ==> free[i] >= caps[i] then Granted else Refused
  }

  /** As written, the try variant never refuses: it is granted or it waits at the first busy gate. */
  lemma {:induction false} AsWrittenNeverRefuses(free: seq<nat>, caps: seq<nat>, from: nat)
    requires |free| == |caps| && from <= |free|
    ensures TryAllAsWritten(free, caps, from) != Refused
    ensures TryAllAsWritten(free, caps, from) == Granted <==>
              forall i :: from <= i < |free| ==> free[i] >= caps[i]
    ensures TryAllAsWritten(free, caps, from).Waits? ==>
              var at := TryAllAsWritten(free, caps, from).at;
              from <= at < |free| && free[at] < caps[at]
              && forall i :: from <= i < at ==> free[i] >= caps[i]
    decreases |free| - from
  {
    if from < |free| && free[from] >= caps[from] {
      AsWrittenNeverRefuses(free, caps, from + 1);
    }
  }

  /** Two single-permit gates, the second one busy: the try call waits while holding the first. */
  lemma AsWrittenWaitsWhenBusy()
    ensures TryAllAsWritten([1, 0], [1, 1], 0) == Waits(1)
    ensures TryAllIntended([1, 0], [1, 1]) == Refused
  {
  }
}

/** Two gates of capacity 1 and 2 taken together, then given back. */
module MultiScenarios {
  import opened Gates
  import opened MultiGates

  /** While the composite holder is out, neither member gate grants a single permit. */
  method HeldBlocksMembers() returns (aGranted: bool, bGranted: bool)
    ensures !aGranted && !bGranted
  {
    var a := new Semaphore(1);
    var b := new Semaphore(2);
    var multi := new Multi([a, b]);
    var held := multi.AcquireAll();
    held.HeldDrains(0);
    held.HeldDrains(1);
    var tryA := a.TryAcquire();
    var tryB := b.TryAcquire();
    aGranted, bGranted := tryA != null, tryB != null;
  }

  /** Releasing the composite holder refills both gates; releasing it again changes nothing. */
  method ReleaseRefillsMembers() returns (aFree: nat, bFree: nat, aFreeAgain: nat, bFreeAgain: nat)
    ensures aFree == 1 && bFree == 2
    ensures aFreeAgain == 1 && bFreeAgain == 2
  {
    var a := new Semaphore(1);
    var b := new Semaphore(2);
    var multi := new Multi([a, b]);
    var held := multi.AcquireAll();
    assert held.gates[0] == a && held.gates[1] == b;
    assert a.outstanding == [held.subs[0]] && b.outstanding == [held.subs[1]];
    ghost var aWas, bWas := a.available, b.available;
    held.Release();
    held.SoleHoldRefilled(0, a, aWas);
    held.SoleHoldRefilled(1, b, bWas);
    aFree, bFree := a.available, b.available;
    held.Release();
    aFreeAgain, bFreeAgain := a.available, b.available;
  }
}
