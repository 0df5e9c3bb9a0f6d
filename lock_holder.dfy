/**
 * LockHolder: the pair of acquisitions (reader, writer) handed out by the
 * Locker sample; either may be absent.
 */
module LockHolders {
  import opened Wrappers
  import opened Handlers

  function BoolText(b: bool): string
  {
    if b then "true" else "false"
  }

  /** The debug text `reader:<bool> writer:<bool>` for the presence of each acquisition. */
  function Describe(hasReader: bool, hasWriter: bool): (r: string)
    ensures |r| >= 8 && r[..7] == "reader:" && (r[7] == 't' <==> hasReader)
    ensures r[|r| - 4..] == "true" <==> hasWriter
  {
    var r := "reader:" + BoolText(hasReader) + " writer:" + BoolText(hasWriter);
    assert r[|r| - 4..] == BoolText(hasWriter)[|BoolText(hasWriter)| - 4..];
    r
  }

  /** The debug text tells both presence flags apart. */
  lemma DescribeInjective(r1: bool, w1: bool, r2: bool, w2: bool)
    ensures Describe(r1, w1) == Describe(r2, w2) <==> r1 == r2 && w1 == w2
  {
    if Describe(r1, w1) == Describe(r2, w2) {
      assert Describe(r1, w1)[7] == Describe(r2, w2)[7];
      assert r1 == r2;
      var k := 7 + |BoolText(r1)| + 8;
      assert Describe(r1, w1)[k] == Describe(r2, w2)[k];
    }
  }

  class LockHolder {
    /** The reader acquisition, or null. */
    const readerAc: Acquisition?
    /** The writer acquisition, or null. */
    const writerAc: Acquisition?

    constructor (readerAc: Acquisition?, writerAc: Acquisition?)
      ensures this.readerAc == readerAc && this.writerAc == writerAc
    {
      this.readerAc := readerAc;
      this.writerAc := writerAc;
    }

    /** The objects the acquisitions and their gates live in. */
    ghost function Parts(): set<object>
    {
      (if readerAc == null then {} else {readerAc, readerAc.handler})
      + (if writerAc == null then {} else {writerAc, writerAc.handler})
    }

    /** Each present acquisition is consistent with its gate, and the two gates differ. */
    ghost predicate Valid()
      reads Parts()
    {
      && (readerAc != null ==> readerAc.Valid())
      && (writerAc != null ==> writerAc.Valid())
      && (readerAc != null && writerAc != null ==> readerAc.handler != writerAc.handler)
    }

    /** Fails with "no read lock" exactly when there is no reader acquisition. */
    function HasReadLock(): (r: Result<()>)
      ensures r.Ok? <==> readerAc != null
      ensures r.Err? ==> r.error == Runtime("no read lock")
    {
      if readerAc == null then Err(Runtime("no read lock")) else Ok(())
    }

    /** Fails with "no write lock" exactly when there is no writer acquisition. */
    function HasWriteLock(): (r: Result<()>)
      ensures r.Ok? <==> writerAc != null
      ensures r.Err? ==> r.error == Runtime("no write lock")
    {
      if writerAc == null then Err(Runtime("no write lock")) else Ok(())
    }

    /** Succeeds only when both acquisitions are present. */
    function HasResetLock(): (r: Result<()>)
      ensures r.Ok? <==> readerAc != null && writerAc != null
      ensures r.Err? ==> r.error == Runtime("no reset lock")
    {
      if readerAc == null || writerAc == null then Err(Runtime("no reset lock")) else Ok(())
    }

    /** toString: the text starts from the reader's presence and ends in "true" exactly when the writer's is there. */
    function ToString(): (r: string)
      ensures |r| >= 8 && (r[7] == 't' <==> readerAc != null)
      ensures r[|r| - 4..] == "true" <==> writerAc != null
    {
      Describe(readerAc != null, writerAc != null)
    }

    /** Releases each acquisition that is present, reader first; absent ones are skipped. */
    method Release()
      requires Valid()
      modifies Parts()
      ensures Valid()
      ensures readerAc != null ==>
                readerAc.released
                && readerAc.handler.available ==
                   old(readerAc.handler.available) + (if old(readerAc.released) then 0 else readerAc.permits)
      ensures writerAc != null ==>
                writerAc.released
                && writerAc.handler.available ==
                   old(writerAc.handler.available) + (if old(writerAc.released) then 0 else writerAc.permits)
    {
      assert readerAc != null && writerAc != null ==> readerAc != writerAc;
      if readerAc != null {
        readerAc.Release();
      }
      if writerAc != null {
        writerAc.Release();
      }
    }
  }

  /** Two holders print the same text exactly when they hold the same kinds of acquisition. */
  lemma ToStringReportsPresence(a: LockHolder, b: LockHolder)
    ensures a.ToString() == b.ToString() <==>
              (a.readerAc != null) == (b.readerAc != null) && (a.writerAc != null) == (b.writerAc != null)
  {
    DescribeInjective(a.readerAc != null, a.writerAc != null, b.readerAc != null, b.writerAc != null);
  }
}
