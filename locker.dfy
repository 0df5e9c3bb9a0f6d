/**
 * Locker (sample): a reader gate of 30 permits and a writer gate of 1.
 * A reader lock holds one reader permit, a writer lock the writer permit,
 * and a resetter lock the writer permit and then every reader permit.
 */
module Lockers {
  import opened Handlers
  import opened LockHolders

  const ReaderPermits: nat := 30
  const WriterPermits: nat := 1

  class Locker {
    /** The reader gate; several readers may hold it at once. */
    const reader: Handler
    /** The writer gate; one writer at a time. */
    const writer: Handler

    ghost predicate Valid()
      reads this, reader, writer
    {
      && reader != writer
      && reader.Valid() && writer.Valid()
      && reader.permits == ReaderPermits && writer.permits == WriterPermits
    }

    /** The static initialiser: both gates start with all permits free. */
    constructor ()
      ensures Valid() && fresh(reader) && fresh(writer)
      ensures reader.available == ReaderPermits && writer.available == WriterPermits
      ensures reader.outstanding == [] && writer.outstanding == []
    {
      reader := new Handler(ReaderPermits);
      writer := new Handler(WriterPermits);
    }

    /** Blocks for one reader permit; the lock carries only a reader acquisition. */
    method GetReaderLock() returns (l: LockHolder)
      requires Valid() && reader.available >= 1
      modifies reader
      ensures Valid() && fresh(l) && l.Valid()
      ensures l.readerAc != null && l.writerAc == null
      ensures l.readerAc.handler == reader && l.readerAc.permits == 1 && !l.readerAc.released
      ensures reader.available == old(reader.available) - 1
      ensures reader.outstanding == old(reader.outstanding) + [l.readerAc]
    {
      var ac := reader.Acquire();
      l := new LockHolder(ac, null);
    }

    /** Blocks for the writer permit; the lock carries only a writer acquisition. */
    method GetWriterLock() returns (l: LockHolder)
      requires Valid() && writer.available >= 1
      modifies writer
      ensures Valid() && fresh(l) && l.Valid()
      ensures l.readerAc == null && l.writerAc != null
      ensures l.writerAc.handler == writer && l.writerAc.permits == 1 && !l.writerAc.released
      ensures writer.available == old(writer.available) - 1
      ensures writer.outstanding == old(writer.outstanding) + [l.writerAc]
    {
      var ac := writer.Acquire();
      l := new LockHolder(null, ac);
    }

    /** Takes the writer permit if it is free; otherwise returns null and takes nothing. */
    method TryWriterLock() returns (l: LockHolder?)
      requires Valid()
      modifies writer
      ensures Valid()
      ensures l != null <==> old(writer.available) >= 1
      ensures l != null ==> fresh(l) && l.Valid() && l.readerAc == null && l.writerAc != null
                            && l.writerAc.handler == writer && !l.writerAc.released
                            && writer.outstanding == old(writer.outstanding) + [l.writerAc]
      ensures l == null ==> writer.available == old(writer.available)
                            && writer.outstanding == old(writer.outstanding)
    {
      var ac := writer.TryAcquire();
      if ac == null {
        return null;
      }
      l := new LockHolder(null, ac);
    }

    /** Takes the writer permit, then every reader permit, and holds both. */
    method GetResetterLock() returns (l: LockHolder)
      requires Valid() && writer.available >= 1 && reader.available >= ReaderPermits
      modifies reader, writer
      ensures Valid() && fresh(l) && l.Valid()
      ensures l.readerAc != null && l.writerAc != null
      ensures l.readerAc.handler == reader && l.readerAc.permits == ReaderPermits && !l.readerAc.released
      ensures l.writerAc.handler == writer && l.writerAc.permits == 1 && !l.writerAc.released
      ensures reader.available == 0 && writer.available == 0
      ensures reader.outstanding == old(reader.outstanding) + [l.readerAc]
      ensures writer.outstanding == old(writer.outstanding) + [l.writerAc]
    {
      var writerAc := writer.Acquire();
      var readerAc := reader.AcquireAll();
      l := new LockHolder(readerAc, writerAc);
    }
  }

  /** At most one writer acquisition is outstanding at any time. */
  lemma AtMostOneWriter(k: Locker)
    requires k.Valid()
    ensures |k.writer.outstanding| <= 1
  {
    SinglePermitGrants(k.writer);
  }

  /** While a resetter lock is held, neither gate has a permit free, so no other lock can be granted. */
  lemma ResetterExcludesAll(k: Locker, l: LockHolder)
    requires k.Valid() && l.Valid() && l.readerAc != null && l.writerAc != null
    requires l.readerAc.handler == k.reader && l.readerAc.permits == ReaderPermits && !l.readerAc.released
    requires l.writerAc.handler == k.writer && !l.writerAc.released
    ensures k.reader.available == 0 && k.writer.available == 0
  {
    FullHoldDrains(k.reader, l.readerAc);
    HoldWithholds(k.writer, l.writerAc);
  }

  /** While a writer lock is held, a second try fails. */
  lemma WriterExcludesWriter(k: Locker, l: LockHolder)
    requires k.Valid() && l.Valid() && l.writerAc != null
    requires l.writerAc.handler == k.writer && !l.writerAc.released
    ensures k.writer.available == 0
  {
    HoldWithholds(k.writer, l.writerAc);
  }
}

/** The lock policy walked through once: a resetter lock shuts everyone out until it is released. */
module LockerScenarios {
  import opened Handlers
  import opened LockHolders
  import opened Lockers

  method ResetterShutsOut() returns (writerWhileReset: bool, readersFreeWhileReset: nat,
                                     readersFreeAfter: nat, writerAfter: bool)
    ensures !writerWhileReset && readersFreeWhileReset == 0
    ensures readersFreeAfter == ReaderPermits && writerAfter
  {
    var k := new Locker();
    var reset := k.GetResetterLock();
    var w := k.TryWriterLock();
    writerWhileReset := w != null;
    readersFreeWhileReset := k.reader.available;
    reset.Release();
    readersFreeAfter := k.reader.available;
    var w2 := k.TryWriterLock();
    writerAfter := w2 != null;
  }
}
