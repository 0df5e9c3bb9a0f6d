/**
 * Searcher behaviour over several calls: a database searcher keeps the
 * documents it first saw until it is reopened, closing it twice returns
 * its permits once, and a writer searcher follows the writer's writes.
 */
module SearcherScenarios {
  import opened Wrappers
  import opened Docs
  import opened Values
  import opened Tables
  import opened Queries
  import opened SortFieldSets
  import opened Handlers
  import opened Databases
  import opened Searchers
  import Writers

  /** search(query) passes an empty sort specification. */
  const NoSort: Option<SortFields> := Some(SortFields(None, []))

  /**
   * A searcher over a database does not see a commit made after its first
   * search; after reopen it searches the newly committed documents.
   */
  method DatabaseSnapshot(table: Table, database: Database, ac: Acquisition, query: Query,
                          analyze: Analysis, termsOf: Indexing, blank: Option<ValueMap>, newDocs: seq<Document>)
    returns (first: Result<seq<Record>>, second: Result<seq<Record>>, third: Result<seq<Record>>)
    modifies database
    ensures first == SearchOutcome(table, query, NoSort, Ok(Reader(old(database.readerCount), old(database.committed))),
                                   DefaultMaxCount, analyze, termsOf, blank)
    ensures second == first
    ensures Lucene(query, table, analyze).Ok? ==>
      third == SearchOutcome(table, query, NoSort, Ok(Reader(old(database.readerCount) + 1, newDocs)),
                             DefaultMaxCount, analyze, termsOf, blank)
  {
    var readers := new ReaderCache.ForDatabase(database, ac);
    var searcher := new Searcher(table, readers);
    first := searcher.Search(query, NoSort, analyze, termsOf, blank);
    database.Commit(newDocs);
    second := searcher.Search(query, NoSort, analyze, termsOf, blank);
    searcher.Reopen();
    third := searcher.Search(query, NoSort, analyze, termsOf, blank);
  }

  /** Closing a database searcher twice gives its permits back once. */
  method CloseTwice(table: Table, database: Database, ac: Acquisition)
    requires ac.Valid() && !ac.released
    modifies ac, ac.handler
    ensures ac.Valid() && ac.released
    ensures ac.handler.available == old(ac.handler.available) + ac.permits
  {
    var readers := new ReaderCache.ForDatabase(database, ac);
    var searcher := new Searcher(table, readers);
    searcher.Close();
    searcher.Close();
  }

  /** A result count below one is refused once the query translates. */
  method NoResultsAllowed(table: Table, database: Database, ac: Acquisition, query: Query,
                          analyze: Analysis, termsOf: Indexing, blank: Option<ValueMap>)
    returns (r: Result<seq<Record>>)
    requires Lucene(query, table, analyze).Ok?
    modifies database
    ensures r == Err(IllegalArgument)
  {
    var readers := new ReaderCache.ForDatabase(database, ac);
    var searcher := new Searcher(table, readers);
    searcher.SetMaxCount(0);
    r := searcher.Search(query, NoSort, analyze, termsOf, blank);
  }

  /**
   * A writer searcher reuses its reader while the writer does not write,
   * and sees an uncommitted write at the next search.
   */
  method WriterSearchRefreshes(w: Writers.Writer, nrt: NrtSource, recordClass: string, query: Query, doc: Document,
                               analyze: Analysis, termsOf: Indexing, blank: Option<ValueMap>)
    returns (first: Result<seq<Record>>, second: Result<seq<Record>>, third: Result<seq<Record>>)
    requires nrt.writer == w && w.Valid() && w.open
    requires w.tableSet.GetTable(recordClass).Some?
    modifies w, nrt
    ensures first == SearchOutcome(w.tableSet.GetTable(recordClass).value, query, NoSort,
                                   Ok(Reader(old(nrt.readerCount), old(w.docs))), DefaultMaxCount, analyze, termsOf, blank)
    ensures second == first
    ensures Lucene(query, w.tableSet.GetTable(recordClass).value, analyze).Ok? ==>
      third == SearchOutcome(w.tableSet.GetTable(recordClass).value, query, NoSort,
                             Ok(Reader(old(nrt.readerCount) + 1, old(w.docs) + [doc])), DefaultMaxCount, analyze, termsOf, blank)
  {
    var made := WriterSearcher(w, nrt, recordClass);
    var searcher := made.value;
    var readers := searcher.readers;
    ghost var t := searcher.table;
    assert !readers.Current();
    first := searcher.Search(query, NoSort, analyze, termsOf, blank);
    second := searcher.Search(query, NoSort, analyze, termsOf, blank);
    ghost var fetched := readers.writerWrittenCount == w.writtenCount && readers.indexReader.Some?;
    assert Lucene(query, t, analyze).Ok? ==> fetched && nrt.readerCount == old(nrt.readerCount) + 1;
    var written := w.WriteDocument(None, doc);
    assert w.docs == old(w.docs) + [doc];
    assert fetched ==> !readers.Current();
    third := searcher.Search(query, NoSort, analyze, termsOf, blank);
  }
}
