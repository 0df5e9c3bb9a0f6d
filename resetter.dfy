/** RlResetter: resets the database with the write acquisition, then gives back the search one. */
module Resetters {
  import opened Docs
  import opened Handlers
  import opened Databases

  class Resetter {
    const database: Database
    /** Handed to the database reset. */
    const write: Acquisition
    /** Released once the reset is done. */
    const search: Acquisition

    constructor (database: Database, write: Acquisition, search: Acquisition)
      ensures this.database == database && this.write == write && this.search == search
    {
      this.database := database;
      this.write := write;
      this.search := search;
    }

    /** The reset runs first, with the write acquisition; then the search permits go back to their gate. */
    method ResetAndClose()
      requires search.Valid()
      modifies database, search, search.handler
      ensures database.committed == [] && database.resetWith == write
      ensures search.Valid() && search.released
      ensures search.handler.available ==
                old(search.handler.available) + (if old(search.released) then 0 else search.permits)
    {
      database.Reset(write);
      search.Release();
    }
  }
}

/** A store with one record is reset; a reader opened afterwards sees nothing. */
module ResetterScenarios {
  import opened Docs
  import opened Handlers
  import opened Databases
  import opened Resetters

  method ResetEmptiesStore(record: Document) returns (before: nat, after: nat, readersFree: nat)
    ensures before == 1 && after == 0 && readersFree == 30
  {
    var db := new Database([record]);
    var first := db.OpenReader();
    before := |first.docs|;
    var writers := new Handler(1);
    var readers := new Handler(30);
    var write := writers.Acquire();
    var search := readers.AcquireAll();
    var resetter := new Resetter(db, write, search);
    resetter.ResetAndClose();
    var second := db.OpenReader();
    after := |second.docs|;
    WithoutSingle(search);
    readersFree := readers.available;
  }

  lemma WithoutSingle(a: Acquisition)
    ensures Weight(Seqs.Without([a], a)) == 0
  {
    assert [a][1..] == [];
  }
}
