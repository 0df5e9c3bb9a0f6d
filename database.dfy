/**
 * The part of RlDatabase the resetter and the database searcher rely on:
 * committed documents that readers take snapshots of, and a reset that
 * drops them. RlDatabase's own directory handling is not part of this model.
 */
module Databases {
  import opened Docs
  import opened Handlers

  class Database {
    /** The documents a newly opened reader sees. */
    var committed: seq<Document>
    /** How many readers were opened so far; gives each reader its own identity. */
    var readerCount: nat
    /** The write acquisition the last reset was handed. */
    ghost var resetWith: Acquisition?

    constructor (committed: seq<Document>)
      ensures this.committed == committed && readerCount == 0 && resetWith == null
    {
      this.committed := committed;
      readerCount := 0;
      resetWith := null;
    }

    /** Opens a new reader over the committed documents. */
    method OpenReader() returns (r: Reader)
      modifies this
      ensures r == Reader(old(readerCount), committed)
      ensures committed == old(committed) && readerCount == old(readerCount) + 1 && resetWith == old(resetWith)
    {
      r := Reader(readerCount, committed);
      readerCount := readerCount + 1;
    }

    /** A writer's commit: the given documents become the committed ones. */
    method Commit(docs: seq<Document>)
      modifies this
      ensures committed == docs && readerCount == old(readerCount) && resetWith == old(resetWith)
    {
      committed := docs;
    }

    /** Destroys and recreates the store under the given write acquisition: every document is gone. */
    method Reset(write: Acquisition)
      modifies this
      ensures committed == [] && readerCount == old(readerCount) && resetWith == write
    {
      committed := [];
      resetWith := write;
    }
  }
}
