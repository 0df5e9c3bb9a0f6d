/**
 * RlWriterHolder: lazily creates the single IndexWriter of an open database
 * and the SearcherManager on top of it, and tears both down on close/reset.
 * Lucene objects are opaque handles; whether their constructors or close
 * calls throw is passed in by the caller.
 */
module WriterHolders {
  import opened Wrappers

  /** An opaque Lucene object (Directory, RlTableSet, IndexWriter, SearcherManager). */
  datatype Handle = Handle(id: nat)

  /** How `indexWriter.close()` ends. */
  datatype CloseOutcome = Closes | Throws | AccessDenied

  class WriterHolder {
    var directory: Option<Handle>
    var tableSet: Option<Handle>
    var indexWriter: Option<Handle>
    var searcherManager: Option<Handle>

    /** A searcher manager only ever exists on top of a writer. */
    ghost predicate Valid()
      reads this
    {
      searcherManager.Some? ==> indexWriter.Some?
    }

    constructor ()
      ensures Valid()
      ensures directory == None && tableSet == None && indexWriter == None && searcherManager == None
    {
      directory, tableSet, indexWriter, searcherManager := None, None, None, None;
    }

    /**
     * Does nothing on an empty holder. Otherwise closes the manager, then the
     * writer; an AccessDeniedException from the writer is ignored. Any other
     * failure (including the missing manager left by a failed `ensure`) is
     * rethrown wrapped and leaves both handles in place.
     */
    method Close(managerThrows: bool, writerClose: CloseOutcome) returns (r: Result<()>)
      requires Valid()
      modifies this
      ensures Valid() && directory == old(directory) && tableSet == old(tableSet)
      ensures r.Ok? <==> (old(indexWriter).None?
                          || (old(searcherManager).Some? && !managerThrows && writerClose != Throws))
      ensures r.Ok? ==> indexWriter == None && searcherManager == None
      ensures r.Err? ==> r.error == Wrapped
                         && indexWriter == old(indexWriter) && searcherManager == old(searcherManager)
    {
      if indexWriter.None? {
        return Ok(());
      }
      if searcherManager.None? || managerThrows {
        return Err(Wrapped);
      }
      if writerClose == Throws {
        return Err(Wrapped);
      }
      indexWriter := None;
      searcherManager := None;
      r := Ok(());
    }

    /** Closes the current resources, then records the new directory and table set. */
    method Reset(newDirectory: Option<Handle>, newTableSet: Option<Handle>,
                 managerThrows: bool, writerClose: CloseOutcome) returns (r: Result<()>)
      requires Valid()
      modifies this
      ensures Valid()
      ensures r.Ok? <==> (old(indexWriter).None?
                          || (old(searcherManager).Some? && !managerThrows && writerClose != Throws))
      ensures r.Ok? ==> directory == newDirectory && tableSet == newTableSet
                        && indexWriter == None && searcherManager == None
      ensures r.Err? ==> directory == old(directory) && tableSet == old(tableSet)
                         && indexWriter == old(indexWriter) && searcherManager == old(searcherManager)
    {
      r := Close(managerThrows, writerClose);
      if r.Err? {
        return;
      }
      directory := newDirectory;
      tableSet := newTableSet;
    }

    /** Both Lucene constructors succeed from the recorded directory and table set. */
    ghost predicate CanCreate(madeWriter: Option<Handle>, madeManager: Option<Handle>)
      reads this
    {
      tableSet.Some? && directory.Some? && madeWriter.Some? && madeManager.Some?
    }

    /**
     * Creates the writer and then the manager unless a writer exists already.
     * `madeWriter` / `madeManager` are what the Lucene constructors return,
     * None when they throw. A failure of the manager leaves the new writer in place.
     */
    method Ensure(madeWriter: Option<Handle>, madeManager: Option<Handle>) returns (r: Result<()>)
      requires Valid()
      modifies this
      ensures Valid() && directory == old(directory) && tableSet == old(tableSet)
      ensures old(indexWriter).Some? ==>
                r.Ok? && indexWriter == old(indexWriter) && searcherManager == old(searcherManager)
      ensures old(indexWriter).None? && old(tableSet).None? ==>
                r == Err(NullPointer) && indexWriter == None && searcherManager == old(searcherManager)
      ensures old(indexWriter).None? && old(tableSet).Some? && (old(directory).None? || madeWriter.None?) ==>
                r == Err(Wrapped) && indexWriter == None && searcherManager == old(searcherManager)
      ensures old(indexWriter).None? && old(tableSet).Some? && old(directory).Some? && madeWriter.Some? ==>
                indexWriter == madeWriter
                && (madeManager.Some? ==> r.Ok? && searcherManager == madeManager)
                && (madeManager.None? ==> r == Err(Wrapped) && searcherManager == None)
    {
      if indexWriter.Some? {
        return Ok(());
      }
      if tableSet.None? {
        return Err(NullPointer);
      }
      if directory.None? || madeWriter.None? {
        return Err(Wrapped);
      }
      indexWriter := madeWriter;
      if madeManager.None? {
        return Err(Wrapped);
      }
      searcherManager := madeManager;
      r := Ok(());
    }

    /** `ensure`, then the writer. */
    method GetIndexWriter(madeWriter: Option<Handle>, madeManager: Option<Handle>) returns (r: Result<Option<Handle>>)
      requires Valid()
      modifies this
      ensures Valid() && directory == old(directory) && tableSet == old(tableSet)
      ensures old(indexWriter).Some? ==>
                r == Ok(old(indexWriter)) && indexWriter == old(indexWriter)
                && searcherManager == old(searcherManager)
      ensures old(indexWriter).None? ==>
                (r.Ok? <==> old(CanCreate(madeWriter, madeManager)))
                && (r.Ok? ==> r == Ok(madeWriter) && indexWriter == madeWriter && searcherManager == madeManager)
    {
      var e := Ensure(madeWriter, madeManager);
      if e.Err? {
        return Err(e.error);
      }
      r := Ok(indexWriter);
    }

    /** `ensure`, then the manager; null when an earlier `ensure` made the writer but not the manager. */
    method GetSearcherManager(madeWriter: Option<Handle>, madeManager: Option<Handle>) returns (r: Result<Option<Handle>>)
      requires Valid()
      modifies this
      ensures Valid() && directory == old(directory) && tableSet == old(tableSet)
      ensures old(indexWriter).Some? ==>
                r == Ok(old(searcherManager)) && indexWriter == old(indexWriter)
                && searcherManager == old(searcherManager)
      ensures old(indexWriter).None? ==>
                (r.Ok? <==> old(CanCreate(madeWriter, madeManager)))
                && (r.Ok? ==> r == Ok(madeManager) && indexWriter == madeWriter)
    {
      var e := Ensure(madeWriter, madeManager);
      if e.Err? {
        return Err(e.error);
      }
      r := Ok(searcherManager);
    }
  }
}

/** The holder's life cycle walked through once. */
module WriterHolderScenarios {
  import opened Wrappers
  import opened WriterHolders

  /** Repeated getters see the same writer; close empties the holder, a second close does nothing. */
  method LifeCycle(dir: Handle, tables: Handle, w: Handle, m: Handle, other: Handle)
    returns (first: Result<Option<Handle>>, again: Result<Option<Handle>>, manager: Result<Option<Handle>>,
             closed: Result<()>, closedAgain: Result<()>, emptyAfter: bool)
    ensures first == Ok(Some(w)) && again == Ok(Some(w)) && manager == Ok(Some(m))
    ensures closed.Ok? && closedAgain.Ok? && emptyAfter
  {
    var h := new WriterHolder();
    var reset := h.Reset(Some(dir), Some(tables), false, Closes);
    first := h.GetIndexWriter(Some(w), Some(m));
    again := h.GetIndexWriter(Some(other), Some(other));
    manager := h.GetSearcherManager(Some(other), Some(other));
    closed := h.Close(false, AccessDenied);
    closedAgain := h.Close(true, Throws);
    emptyAfter := h.indexWriter.None? && h.searcherManager.None?;
  }

  /** A manager that fails to open leaves a writer with no manager: the getter then returns null and close fails. */
  method HalfOpen(dir: Handle, tables: Handle, w: Handle, other: Handle)
    returns (failed: Result<()>, manager: Result<Option<Handle>>, closed: Result<()>)
    ensures failed == Err(Wrapped) && manager == Ok(None) && closed == Err(Wrapped)
  {
    var h := new WriterHolder();
    var reset := h.Reset(Some(dir), Some(tables), false, Closes);
    failed := h.Ensure(Some(w), None);
    manager := h.GetSearcherManager(Some(other), Some(other));
    closed := h.Close(false, Closes);
  }
}
