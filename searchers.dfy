/**
 * RlSearcher.Impl with its two reader sources, RlSearcherForDatabase and
 * RlSearcherForWriter. The part that differs between the two subclasses
 * (getIndexReader / closeIndexReader, and the permit a database searcher
 * returns on close) is the ReaderCache class, built either over a database
 * with its read acquisition or over a writer. Lucene's scoring is not part
 * of this model: the hits of a query are the documents of the reader that
 * match it, in index order, at most `maxCount` of them.
 */
module Searchers {
  import opened Wrappers
  import opened JavaTypes
  import opened Converters
  import opened Docs
  import opened Values
  import opened Fields
  import opened FieldIndexes
  import opened Tables
  import opened Queries
  import opened SortFieldSets
  import opened Handlers
  import opened Databases
  import Writers

  /** The analyzer applied to query text. */
  type Analysis = (Field, string) -> seq<string>

  /** The initial maximum result count, Integer.MAX_VALUE / 2. */
  const DefaultMaxCount: int := IntMax / 2

  const NoPkField: Error := Rl("the table has no primary key field")
  function NoField(name: string): Error { Rl("no such field: " + name) }
  function NotStored(name: string): Error { Rl("the field is not stored: " + name) }
  const TokenizedRefused: Error := Rl("a tokenized field cannot be given")

  /** Lucene's IndexSearcher: a searcher object over one reader. */
  class IndexSearcher {
    const reader: Reader

    constructor (reader: Reader)
      ensures this.reader == reader
    {
      this.reader := reader;
    }
  }

  /** Stored fields only: what IndexSearcher.doc hands back for a document. */
  function Stored(doc: Document): (r: Document)
    ensures forall k :: k in r <==> k in doc && doc[k].stored
    ensures forall k :: k in r ==> r[k] == doc[k]
  {
    map k | k in doc && doc[k].stored :: doc[k]
  }

  /**
   * The near-real-time reader source a writer searcher reads from: every
   * reader it opens sees what the writer holds, committed or not.
   * RlWriter's own getIndexReader is Writers.GetIndexReader, which always
   * throws; WriterSearchesFail states what searching through it gives.
   */
  class NrtSource {
    const writer: Writers.Writer
    var readerCount: nat

    constructor (writer: Writers.Writer)
      ensures this.writer == writer && readerCount == 0
    {
      this.writer := writer;
      readerCount := 0;
    }

    method OpenReader() returns (r: Reader)
      modifies this
      ensures r == Reader(old(readerCount), writer.docs) && readerCount == old(readerCount) + 1
    {
      r := Reader(readerCount, writer.docs);
      readerCount := readerCount + 1;
    }
  }

  /** The subclass part of a searcher: the cached reader and where a new one comes from. */
  class ReaderCache {
    /** RlSearcherForDatabase: the database and the read acquisition. */
    const database: Database?
    const ac: Acquisition?
    /** RlSearcherForWriter: the writer's reader source. */
    const nrt: NrtSource?
    var indexReader: Option<Reader>
    /** The writer's count when the reader was fetched (writer searchers only). */
    var writerWrittenCount: int

    /** Exactly one kind. */
    ghost predicate Valid()
      reads this
    {
      (database != null && ac != null && nrt == null) || (database == null && ac == null && nrt != null)
    }

    constructor ForDatabase(database: Database, ac: Acquisition)
      ensures Valid() && this.database == database && this.ac == ac && nrt == null
      ensures indexReader.None?
    {
      this.database := database;
      this.ac := ac;
      nrt := null;
      indexReader := None;
      writerWrittenCount := 0;
    }

    constructor ForWriter(nrt: NrtSource)
      ensures Valid() && database == null && ac == null && this.nrt == nrt
      ensures indexReader.None? && writerWrittenCount == 0
    {
      database := null;
      ac := null;
      this.nrt := nrt;
      indexReader := None;
      writerWrittenCount := 0;
    }

    /** Whether the next getIndexReader hands the kept reader out again: always for a database searcher, while the writer has not written for a writer searcher. */
    predicate Current()
      requires Valid()
      reads this, nrt, if nrt != null then {nrt.writer} else {}
    {
      indexReader.Some? && (nrt == null || writerWrittenCount == nrt.writer.writtenCount)
    }

    /** What the next getIndexReader hands out. */
    function NextReader(): Reader
      requires Valid()
      reads this, database, nrt, if nrt != null then {nrt.writer} else {}
    {
      if Current() then indexReader.value
      else if database != null then Reader(database.readerCount, database.committed)
      else Reader(nrt.readerCount, nrt.writer.docs)
    }

    /**
     * getIndexReader: a database searcher returns its reader or opens and
     * keeps one. A writer searcher first drops a reader the writer has
     * written past, returns a kept one, and otherwise records the writer's
     * count and opens and keeps a new reader.
     */
    method GetIndexReader() returns (r: Reader)
      requires Valid()
      modifies this, database, nrt
      ensures Valid()
      ensures r == old(NextReader()) && indexReader == Some(r) && Current()
      ensures old(Current()) ==> indexReader == old(indexReader) && writerWrittenCount == old(writerWrittenCount)
      ensures database != null ==> writerWrittenCount == old(writerWrittenCount)
      ensures database != null ==> database.committed == old(database.committed) && database.resetWith == old(database.resetWith)
      ensures database != null ==> database.readerCount == old(database.readerCount) + (if old(Current()) then 0 else 1)
      ensures nrt != null ==> writerWrittenCount == nrt.writer.writtenCount
      ensures nrt != null ==> nrt.readerCount == old(nrt.readerCount) + (if old(Current()) then 0 else 1)
    {
      if database != null {
        if indexReader.Some? {
          return indexReader.value;
        }
        r := database.OpenReader();
        indexReader := Some(r);
        return;
      }
      if writerWrittenCount != nrt.writer.writtenCount {
        CloseIndexReader();
      }
      if indexReader.Some? {
        return indexReader.value;
      }
      writerWrittenCount := nrt.writer.writtenCount;
      r := nrt.OpenReader();
      indexReader := Some(r);
    }

    /** closeIndexReader: nothing without a reader; otherwise the reader is closed and forgotten. */
    method CloseIndexReader()
      modifies this
      ensures indexReader.None? && writerWrittenCount == old(writerWrittenCount)
    {
      if indexReader.None? {
        return;
      }
      indexReader := None;
    }
  }

  /** The documents matching a query, in index order. */
  function Matching(docs: seq<Document>, q: LuceneQuery, termsOf: Indexing): (r: seq<Document>)
    ensures forall d :: d in r <==> d in docs && Matches(q, termsOf(d))
    ensures |r| <= |docs|
  {
    if docs == [] then []
    else (if Matches(q, termsOf(docs[0])) then [docs[0]] else []) + Matching(docs[1..], q, termsOf)
  }

  /** The hits: the first `max` matching documents. */
  function Hits(docs: seq<Document>, q: LuceneQuery, termsOf: Indexing, max: int): (r: seq<Document>)
    requires max >= 1
    ensures |r| <= max
    ensures forall d :: d in r ==> d in docs && Matches(q, termsOf(d))
    ensures |Matching(docs, q, termsOf)| <= max ==> r == Matching(docs, q, termsOf)
    ensures |Matching(docs, q, termsOf)| > max ==> |r| == max
  {
    var m := Matching(docs, q, termsOf);
    if |m| <= max then m else m[..max]
  }

  /** WildcardQuery(name, "*") matches the documents with any term in the field, as the prefix "" does. */
  function AnyTerm(name: string): LuceneQuery { PrefixQuery(Term(name, "")) }

  lemma AnyTermMeansField(name: string, terms: set<Term>)
    ensures Matches(AnyTerm(name), terms) <==> exists u :: u in terms && u.field == name
  {
    if exists u :: u in terms && u.field == name {
      var u :| u in terms && u.field == name;
      assert "" <= u.text;
    }
  }

  /** The wildcard's hits are documents with a term in the field, and with few enough matches they are all of them. */
  lemma AnyTermHits(docs: seq<Document>, name: string, termsOf: Indexing, max: int)
    requires max >= 1
    ensures forall d :: d in Hits(docs, AnyTerm(name), termsOf, max) ==> d in docs && Writers.HasFieldTerm(termsOf, d, name)
    ensures |Matching(docs, AnyTerm(name), termsOf)| <= max ==>
      forall d :: d in docs && Writers.HasFieldTerm(termsOf, d, name) ==> d in Hits(docs, AnyTerm(name), termsOf, max)
  {
    forall d | d in docs
      ensures Matches(AnyTerm(name), termsOf(d)) <==> Writers.HasFieldTerm(termsOf, d, name)
    {
      AnyTermMeansField(name, termsOf(d));
    }
  }

  /** deleteAll(field) keeps exactly the documents that getAllByField's wildcard does not match. */
  lemma DeleteAllUnmatched(docs: seq<Document>, name: string, termsOf: Indexing)
    ensures forall d :: d in Writers.DeleteField(docs, name, termsOf) <==> d in docs && !Matches(AnyTerm(name), termsOf(d))
  {
    forall d | d in docs
      ensures Matches(AnyTerm(name), termsOf(d)) <==> Writers.HasFieldTerm(termsOf, d, name)
    {
      AnyTermMeansField(name, termsOf(d));
    }
  }


  /** table.fromDocument, as Tables.FromDocument computes it. */
  function Decoded(t: Table, doc: Document, blank: Option<ValueMap>): (r: Result<Record>)
    ensures r.Ok? ==> Tables.Accepts(t, r.value)
  {
    match Blank(t, blank)
    case Err(e) => Err(e)
    case Ok(start) => BuildRecord(t.index.fields, doc, start)
  }

  /** The records for a list of hits; the first document that cannot be read back stops it. */
  function Objects(t: Table, hits: seq<Document>, blank: Option<ValueMap>): Result<seq<Record>>
  {
    if hits == [] then Ok([])
    else
      match Objects(t, hits[..|hits| - 1], blank)
      case Err(e) => Err(e)
      case Ok(rs) =>
        match Decoded(t, Stored(hits[|hits| - 1]), blank)
        case Err(e) => Err(e)
        case Ok(x) => Ok(rs + [x])
  }

  /** Every hit is read back, in order, exactly when each of them can be. */
  lemma {:induction false} ObjectsMeaning(t: Table, hits: seq<Document>, blank: Option<ValueMap>)
    ensures var r := Objects(t, hits, blank);
      && (r.Ok? ==> |r.value| == |hits|)
      && (r.Ok? ==> forall i :: 0 <= i < |hits| ==> Decoded(t, Stored(hits[i]), blank) == Ok(r.value[i]))
      && (r.Ok? <==> forall i :: 0 <= i < |hits| ==> Decoded(t, Stored(hits[i]), blank).Ok?)
  {
    if hits != [] {
      var init := hits[..|hits| - 1];
      ObjectsMeaning(t, init, blank);
      assert forall i :: 0 <= i < |init| ==> init[i] == hits[i];
    }
  }

  /** The set searchFieldSet collects: the field's value read back from each hit. */
  function FieldValues(f: Field, hits: seq<Document>): Result<set<Option<Value>>>
  {
    if hits == [] then Ok({})
    else
      match FieldValues(f, hits[..|hits| - 1])
      case Err(e) => Err(e)
      case Ok(s) =>
        match StringToValue(f, Get(Stored(hits[|hits| - 1]), f.name))
        case Err(e) => Err(e)
        case Ok(v) => Ok(s + {v})
  }

  /** The set exists exactly when every hit's value can be read back. */
  lemma {:induction false} FieldValuesDefined(f: Field, hits: seq<Document>)
    ensures FieldValues(f, hits).Ok? <==> forall i :: 0 <= i < |hits| ==> StringToValue(f, Get(Stored(hits[i]), f.name)).Ok?
  {
    if hits != [] {
      var init := hits[..|hits| - 1];
      FieldValuesDefined(f, init);
      assert forall i :: 0 <= i < |init| ==> init[i] == hits[i];
    }
  }

  /** The set holds exactly the values read back from the hits. */
  lemma {:induction false} FieldValuesContents(f: Field, hits: seq<Document>)
    requires FieldValues(f, hits).Ok?
    ensures forall v :: v in FieldValues(f, hits).value <==>
      exists i :: 0 <= i < |hits| && StringToValue(f, Get(Stored(hits[i]), f.name)) == Ok(v)
  {
    if hits != [] {
      var init := hits[..|hits| - 1];
      FieldValuesContents(f, init);
      assert forall i :: 0 <= i < |init| ==> init[i] == hits[i];
    }
  }

  /**
   * searchHits against the reader getIndexReader hands out: the query is
   * translated first, then the searcher is fetched, then a non-empty sort
   * asks for getSort; Lucene refuses a result count below one.
   */
  function HitsOutcome(t: Table, query: Query, sorts: Option<SortFields>, reader: Result<Reader>, max: int,
                       analyze: Analysis, termsOf: Indexing): (r: Result<seq<Document>>)
    ensures Lucene(query, t, analyze).Err? ==> r == Err(Lucene(query, t, analyze).error)
    ensures Lucene(query, t, analyze).Ok? && reader.Err? ==> r == Err(reader.error)
    ensures Lucene(query, t, analyze).Ok? && reader.Ok? && sorts.Some? && |sorts.value.sortFields| > 0 ==>
      r == Err(GetSort(sorts.value).error)
    ensures Lucene(query, t, analyze).Ok? && reader.Ok? && (sorts.None? || |sorts.value.sortFields| == 0) && max < 1 ==>
      r == Err(IllegalArgument)
    ensures r.Ok? <==>
      Lucene(query, t, analyze).Ok? && reader.Ok? && (sorts.None? || |sorts.value.sortFields| == 0) && max >= 1
    ensures r.Ok? ==> r.value == Hits(reader.value.docs, Lucene(query, t, analyze).value, termsOf, max)
    ensures r.Ok? ==>
      && |r.value| <= max
      && forall d :: d in r.value ==> d in reader.value.docs && Matches(Lucene(query, t, analyze).value, termsOf(d))
  {
    match Lucene(query, t, analyze)
    case Err(e) => Err(e)
    case Ok(lq) =>
      match reader
      case Err(e) => Err(e)
      case Ok(rd) =>
        if sorts.Some? && |sorts.value.sortFields| > 0 then Err(GetSort(sorts.value).error)
        else if max < 1 then Err(IllegalArgument)
        else Ok(Hits(rd.docs, lq, termsOf, max))
  }

  /** search(query, sorts): the hits read back as records. */
  function SearchOutcome(t: Table, query: Query, sorts: Option<SortFields>, reader: Result<Reader>, max: int,
                         analyze: Analysis, termsOf: Indexing, blank: Option<ValueMap>): (r: Result<seq<Record>>)
    ensures HitsOutcome(t, query, sorts, reader, max, analyze, termsOf).Err? ==>
      r == Err(HitsOutcome(t, query, sorts, reader, max, analyze, termsOf).error)
    ensures r.Ok? ==>
      && HitsOutcome(t, query, sorts, reader, max, analyze, termsOf).Ok?
      && |r.value| == |HitsOutcome(t, query, sorts, reader, max, analyze, termsOf).value|
      && |r.value| <= max && forall i :: 0 <= i < |r.value| ==> Tables.Accepts(t, r.value[i])
    ensures HitsOutcome(t, query, sorts, reader, max, analyze, termsOf).Ok? ==>
      var hits := HitsOutcome(t, query, sorts, reader, max, analyze, termsOf).value;
      && (r.Ok? <==> forall i :: 0 <= i < |hits| ==> Decoded(t, Stored(hits[i]), blank).Ok?)
      && (r.Ok? ==> forall i :: 0 <= i < |hits| ==> Decoded(t, Stored(hits[i]), blank) == Ok(r.value[i]))
  {
    match HitsOutcome(t, query, sorts, reader, max, analyze, termsOf)
    case Err(e) => Err(e)
    case Ok(hits) => ObjectsMeaning(t, hits, blank); Objects(t, hits, blank)
  }

  /** searchFieldSet(field, query): a stored field's values over the hits of an unsorted search. */
  function FieldSetOutcome(t: Table, field: Field, query: Query, reader: Result<Reader>, max: int,
                           analyze: Analysis, termsOf: Indexing): (r: Result<set<Option<Value>>>)
    ensures !field.store ==> r == Err(NotStored(field.name))
    ensures field.store && HitsOutcome(t, query, None, reader, max, analyze, termsOf).Err? ==>
      r == Err(HitsOutcome(t, query, None, reader, max, analyze, termsOf).error)
    ensures r.Ok? ==> field.store && HitsOutcome(t, query, None, reader, max, analyze, termsOf).Ok?
    ensures field.store && HitsOutcome(t, query, None, reader, max, analyze, termsOf).Ok? ==>
      var hits := HitsOutcome(t, query, None, reader, max, analyze, termsOf).value;
      && (r.Ok? <==> forall i :: 0 <= i < |hits| ==> StringToValue(field, Get(Stored(hits[i]), field.name)).Ok?)
      && (r.Ok? ==> forall v :: v in r.value <==>
            exists i :: 0 <= i < |hits| && StringToValue(field, Get(Stored(hits[i]), field.name)) == Ok(v))
  {
    if !field.store then Err(NotStored(field.name))
    else
      match HitsOutcome(t, query, None, reader, max, analyze, termsOf)
      case Err(e) => Err(e)
      case Ok(hits) =>
        FieldValuesDefined(field, hits);
        if FieldValues(field, hits).Ok? then FieldValuesContents(field, hits); FieldValues(field, hits)
        else FieldValues(field, hits)
  }

  /** getAllByField(field): every document with a term in an untokenized field. */
  function AllByFieldOutcome(t: Table, field: Field, reader: Result<Reader>, max: int,
                             termsOf: Indexing, blank: Option<ValueMap>): (r: Result<seq<Record>>)
    ensures field.tokenized ==> r == Err(TokenizedRefused)
    ensures !field.tokenized && reader.Err? ==> r == Err(reader.error)
    ensures !field.tokenized && reader.Ok? && max < 1 ==> r == Err(IllegalArgument)
    ensures r.Ok? ==> !field.tokenized && reader.Ok? && max >= 1 && |r.value| <= max
    ensures !field.tokenized && reader.Ok? && max >= 1 ==>
      var hits := Hits(reader.value.docs, AnyTerm(field.name), termsOf, max);
      r.Ok? <==> forall i :: 0 <= i < |hits| ==> Decoded(t, Stored(hits[i]), blank).Ok?
    ensures r.Ok? ==>
      var hits := Hits(reader.value.docs, AnyTerm(field.name), termsOf, max);
      && |r.value| == |hits|
      && (forall i :: 0 <= i < |hits| ==>
            && hits[i] in reader.value.docs && Writers.HasFieldTerm(termsOf, hits[i], field.name)
            && Decoded(t, Stored(hits[i]), blank) == Ok(r.value[i]) && Tables.Accepts(t, r.value[i]))
      && (|Matching(reader.value.docs, AnyTerm(field.name), termsOf)| <= max ==>
            forall d :: d in reader.value.docs && Writers.HasFieldTerm(termsOf, d, field.name) ==> d in hits)
  {
    if field.tokenized then Err(TokenizedRefused)
    else
      match reader
      case Err(e) => Err(e)
      case Ok(rd) =>
        if max < 1 then Err(IllegalArgument)
        else
          var hits := Hits(rd.docs, AnyTerm(field.name), termsOf, max);
          AnyTermHits(rd.docs, field.name, termsOf, max);
          ObjectsMeaning(t, hits, blank);
          Objects(t, hits, blank)
  }

  /** One more hit: the records of the longer prefix extend those of the shorter one. */
  lemma ObjectsSnoc(t: Table, hits: seq<Document>, i: nat, blank: Option<ValueMap>)
    requires i < |hits|
    ensures Objects(t, hits[..i + 1], blank) ==
      match Objects(t, hits[..i], blank)
      case Err(e) => Err(e)
      case Ok(rs) =>
        match Decoded(t, Stored(hits[i]), blank)
        case Err(e) => Err(e)
        case Ok(x) => Ok(rs + [x])
  {
    assert hits[..i + 1][..i] == hits[..i];
  }

  lemma {:induction false} ObjectsStop(t: Table, hits: seq<Document>, k: nat, n: nat, blank: Option<ValueMap>)
    requires k < n <= |hits|
    requires Objects(t, hits[..k], blank).Ok? && Decoded(t, Stored(hits[k]), blank).Err?
    ensures Objects(t, hits[..n], blank) == Err(Decoded(t, Stored(hits[k]), blank).error)
    decreases n
  {
    if n == k + 1 {
      ObjectsSnoc(t, hits, k, blank);
    } else {
      ObjectsStop(t, hits, k, n - 1, blank);
      ObjectsSnoc(t, hits, n - 1, blank);
    }
  }

  /** One more hit: the values of the longer prefix extend those of the shorter one. */
  lemma ValuesSnoc(field: Field, hits: seq<Document>, i: nat)
    requires i < |hits|
    ensures FieldValues(field, hits[..i + 1]) ==
      match FieldValues(field, hits[..i])
      case Err(e) => Err(e)
      case Ok(s) =>
        match StringToValue(field, Get(Stored(hits[i]), field.name))
        case Err(e) => Err(e)
        case Ok(v) => Ok(s + {v})
  {
    assert hits[..i + 1][..i] == hits[..i];
  }

  lemma {:induction false} ValuesStop(field: Field, hits: seq<Document>, k: nat, n: nat)
    requires k < n <= |hits|
    requires FieldValues(field, hits[..k]).Ok? && StringToValue(field, Get(Stored(hits[k]), field.name)).Err?
    ensures FieldValues(field, hits[..n]) == Err(StringToValue(field, Get(Stored(hits[k]), field.name)).error)
    decreases n
  {
    if n == k + 1 {
      ValuesSnoc(field, hits, k);
    } else {
      ValuesStop(field, hits, k, n - 1);
      ValuesSnoc(field, hits, n - 1);
    }
  }

  /** getObjects: each hit read back through the table, in order. */
  method GetObjects(t: Table, hits: seq<Document>, blank: Option<ValueMap>) returns (r: Result<seq<Record>>)
    ensures r == Objects(t, hits, blank)
  {
    var result: seq<Record> := [];
    for i := 0 to |hits|
      invariant Objects(t, hits[..i], blank) == Ok(result)
    {
      assert hits[..i + 1][..i] == hits[..i];
      var x := FromDocument(t, Stored(hits[i]), blank);
      if x.Err? {
        ObjectsStop(t, hits, i, |hits|, blank);
        assert hits[..|hits|] == hits;
        return Err(x.error);
      }
      result := result + [x.value];
    }
    assert hits[..|hits|] == hits;
    r := Ok(result);
  }

  /** The loop of searchFieldSet: fromString of each hit's stored value, into a set. */
  method CollectValues(field: Field, hits: seq<Document>) returns (r: Result<set<Option<Value>>>)
    ensures r == FieldValues(field, hits)
  {
    var values: set<Option<Value>> := {};
    for i := 0 to |hits|
      invariant FieldValues(field, hits[..i]) == Ok(values)
    {
      assert hits[..i + 1][..i] == hits[..i];
      var v := StringToValue(field, Get(Stored(hits[i]), field.name));
      if v.Err? {
        ValuesStop(field, hits, i, |hits|);
        assert hits[..|hits|] == hits;
        return Err(v.error);
      }
      values := values + {v.value};
    }
    assert hits[..|hits|] == hits;
    r := Ok(values);
  }

  class Searcher {
    const table: Table
    const readers: ReaderCache
    var indexSearcher: IndexSearcher?
    var maxCount: int

    ghost predicate Valid()
      reads this, readers
    {
      readers.Valid()
    }

    constructor (table: Table, readers: ReaderCache)
      requires readers.Valid()
      ensures Valid() && this.table == table && this.readers == readers
      ensures indexSearcher == null && maxCount == DefaultMaxCount
    {
      this.table := table;
      this.readers := readers;
      indexSearcher := null;
      maxCount := DefaultMaxCount;
    }

    function GetMaxCount(): (r: int)
      reads this
      ensures r == maxCount
    {
      maxCount
    }

    /** setMaxCount: the next getMaxCount returns the value; nothing else changes. */
    method SetMaxCount(value: int)
      modifies this
      ensures GetMaxCount() == value && indexSearcher == old(indexSearcher)
    {
      maxCount := value;
    }

    /**
     * getIndexSearcher: the kept searcher while it is over the reader
     * getIndexReader now returns, a new searcher over that reader otherwise.
     */
    method GetIndexSearcher() returns (s: IndexSearcher)
      requires Valid()
      modifies this, readers, readers.database, readers.nrt
      ensures Valid() && maxCount == old(maxCount)
      ensures s.reader == old(readers.NextReader()) && indexSearcher == s
      ensures readers.indexReader == Some(s.reader) && readers.Current()
      ensures old(indexSearcher) != null && old(indexSearcher).reader == s.reader ==> s == old(indexSearcher)
      ensures !(old(indexSearcher) != null && old(indexSearcher).reader == s.reader) ==> fresh(s)
      ensures old(readers.Current()) ==> readers.indexReader == old(readers.indexReader)
      ensures readers.nrt != null ==> readers.nrt.readerCount == old(readers.nrt.readerCount) + (if old(readers.Current()) then 0 else 1)
      ensures readers.database != null ==>
        && readers.database.committed == old(readers.database.committed)
        && readers.database.resetWith == old(readers.database.resetWith)
    {
      var reader := readers.GetIndexReader();
      if indexSearcher != null && indexSearcher.reader != reader {
        indexSearcher := null;
      }
      if indexSearcher == null {
        indexSearcher := new IndexSearcher(reader);
      }
      s := indexSearcher;
    }

    /** reopen: only the reader is closed; a database searcher then sees the database as it now is. */
    method Reopen()
      requires Valid()
      modifies readers
      ensures Valid() && readers.indexReader.None?
      ensures readers.writerWrittenCount == old(readers.writerWrittenCount)
      ensures readers.database != null ==> readers.NextReader() == Reader(readers.database.readerCount, readers.database.committed)
      ensures readers.nrt != null ==> readers.NextReader() == Reader(readers.nrt.readerCount, readers.nrt.writer.docs)
    {
      readers.CloseIndexReader();
    }

    /** close: the searcher and the reader are dropped; a database searcher then returns its read permits. */
    method Close()
      requires Valid()
      requires readers.ac != null ==> readers.ac.Valid()
      modifies this, readers, readers.ac, if readers.ac != null then {readers.ac.handler} else {}
      ensures Valid() && indexSearcher == null && readers.indexReader.None? && maxCount == old(maxCount)
      ensures readers.ac != null ==> readers.ac.Valid() && readers.ac.released
      ensures readers.ac != null ==>
        readers.ac.handler.available == old(readers.ac.handler.available) + (if old(readers.ac.released) then 0 else readers.ac.permits)
    {
      indexSearcher := null;
      readers.CloseIndexReader();
      if readers.ac != null {
        readers.ac.Release();
      }
    }

    /** searchHits(query, sorts). */
    method SearchHits(query: Query, sorts: Option<SortFields>, analyze: Analysis, termsOf: Indexing)
      returns (r: Result<seq<Document>>)
      requires Valid()
      modifies this, readers, readers.database, readers.nrt
      ensures Valid() && maxCount == old(maxCount)
      ensures r == HitsOutcome(table, query, sorts, Ok(old(readers.NextReader())), old(maxCount), analyze, termsOf)
      ensures Lucene(query, table, analyze).Ok? ==>
        && readers.Current()
        && readers.NextReader() == old(readers.NextReader())
        && (readers.nrt != null ==> readers.nrt.readerCount == old(readers.nrt.readerCount) + (if old(readers.Current()) then 0 else 1))
      ensures Lucene(query, table, analyze).Err? ==> indexSearcher == old(indexSearcher)
      ensures readers.database != null ==>
        && readers.database.committed == old(readers.database.committed)
        && readers.database.resetWith == old(readers.database.resetWith)
    {
      var lq := GetLuceneQuery(query, table, analyze);
      if lq.Err? {
        return Err(lq.error);
      }
      var s := GetIndexSearcher();
      if sorts.Some? && |sorts.value.sortFields| > 0 {
        return Err(GetSort(sorts.value).error);
      }
      if maxCount < 1 {
        return Err(IllegalArgument);
      }
      r := Ok(Hits(s.reader.docs, lq.value, termsOf, maxCount));
    }

    /** search(query, sorts); search(query) is this with an empty sort specification. */
    method Search(query: Query, sorts: Option<SortFields>, analyze: Analysis, termsOf: Indexing, blank: Option<ValueMap>)
      returns (r: Result<seq<Record>>)
      requires Valid()
      modifies this, readers, readers.database, readers.nrt
      ensures Valid() && maxCount == old(maxCount)
      ensures r == SearchOutcome(table, query, sorts, Ok(old(readers.NextReader())), old(maxCount), analyze, termsOf, blank)
      ensures Lucene(query, table, analyze).Ok? ==>
        && readers.Current()
        && readers.NextReader() == old(readers.NextReader())
        && (readers.nrt != null ==> readers.nrt.readerCount == old(readers.nrt.readerCount) + (if old(readers.Current()) then 0 else 1))
      ensures readers.database != null ==>
        && readers.database.committed == old(readers.database.committed)
        && readers.database.resetWith == old(readers.database.resetWith)
    {
      var hits := SearchHits(query, sorts, analyze, termsOf);
      if hits.Err? {
        return Err(hits.error);
      }
      r := GetObjects(table, hits.value, blank);
    }

    /** searchFieldSet(field, query). */
    method SearchFieldSet(field: Field, query: Query, analyze: Analysis, termsOf: Indexing)
      returns (r: Result<set<Option<Value>>>)
      requires Valid()
      modifies this, readers, readers.database, readers.nrt
      ensures Valid() && maxCount == old(maxCount)
      ensures r == FieldSetOutcome(table, field, query, Ok(old(readers.NextReader())), old(maxCount), analyze, termsOf)
    {
      if !field.store {
        return Err(NotStored(field.name));
      }
      var hits := SearchHits(query, None, analyze, termsOf);
      if hits.Err? {
        return Err(hits.error);
      }
      var s := GetIndexSearcher();
      r := CollectValues(field, hits.value);
    }

    /** searchPkSet(query): the table must have a primary key. */
    method SearchPkSet(query: Query, analyze: Analysis, termsOf: Indexing) returns (r: Result<set<Option<Value>>>)
      requires Valid()
      modifies this, readers, readers.database, readers.nrt
      ensures Valid() && maxCount == old(maxCount)
      ensures GetPkField(table).None? ==> r == Err(NoPkField)
      ensures GetPkField(table).Some? ==>
        r == FieldSetOutcome(table, GetPkField(table).value, query, Ok(old(readers.NextReader())), old(maxCount), analyze, termsOf)
    {
      var field := GetPkField(table);
      if field.None? {
        return Err(NoPkField);
      }
      r := SearchFieldSet(field.value, query, analyze, termsOf);
    }

    /** searchFieldSet(fieldName, query): the name must belong to the table. */
    method SearchFieldSetByName(fieldName: string, query: Query, analyze: Analysis, termsOf: Indexing)
      returns (r: Result<set<Option<Value>>>)
      requires Valid()
      modifies this, readers, readers.database, readers.nrt
      ensures Valid() && maxCount == old(maxCount)
      ensures GetFieldByName(table, fieldName).None? ==> r == Err(NoField(fieldName))
      ensures GetFieldByName(table, fieldName).Some? ==>
        r == FieldSetOutcome(table, GetFieldByName(table, fieldName).value, query, Ok(old(readers.NextReader())), old(maxCount), analyze, termsOf)
    {
      var field := GetFieldByName(table, fieldName);
      if field.None? {
        return Err(NoField(fieldName));
      }
      r := SearchFieldSet(field.value, query, analyze, termsOf);
    }

    /** getAllByField(field). */
    method GetAllByField(field: Field, termsOf: Indexing, blank: Option<ValueMap>) returns (r: Result<seq<Record>>)
      requires Valid()
      modifies this, readers, readers.database, readers.nrt
      ensures Valid() && maxCount == old(maxCount)
      ensures r == AllByFieldOutcome(table, field, Ok(old(readers.NextReader())), old(maxCount), termsOf, blank)
    {
      if field.tokenized {
        return Err(TokenizedRefused);
      }
      var s := GetIndexSearcher();
      if maxCount < 1 {
        return Err(IllegalArgument);
      }
      r := GetObjects(table, Hits(s.reader.docs, AnyTerm(field.name), termsOf, maxCount), blank);
    }

    /** getAllByPk: the table must have a primary key. */
    method GetAllByPk(termsOf: Indexing, blank: Option<ValueMap>) returns (r: Result<seq<Record>>)
      requires Valid()
      modifies this, readers, readers.database, readers.nrt
      ensures Valid() && maxCount == old(maxCount)
      ensures GetPkField(table).None? ==> r == Err(NoPkField)
      ensures GetPkField(table).Some? ==>
        r == AllByFieldOutcome(table, GetPkField(table).value, Ok(old(readers.NextReader())), old(maxCount), termsOf, blank)
    {
      var field := GetPkField(table);
      if field.None? {
        return Err(NoPkField);
      }
      r := GetAllByField(field.value, termsOf, blank);
    }

    /** getAllByField(fieldName): the name must belong to the table. */
    method GetAllByFieldName(fieldName: string, termsOf: Indexing, blank: Option<ValueMap>) returns (r: Result<seq<Record>>)
      requires Valid()
      modifies this, readers, readers.database, readers.nrt
      ensures Valid() && maxCount == old(maxCount)
      ensures GetFieldByName(table, fieldName).None? ==> r == Err(NoField(fieldName))
      ensures GetFieldByName(table, fieldName).Some? ==>
        r == AllByFieldOutcome(table, GetFieldByName(table, fieldName).value, Ok(old(readers.NextReader())), old(maxCount), termsOf, blank)
    {
      var field := GetFieldByName(table, fieldName);
      if field.None? {
        return Err(NoField(fieldName));
      }
      r := GetAllByField(field.value, termsOf, blank);
    }
  }

  /** A searcher over a writer never gets a reader: every search that gets past query translation fails. */
  lemma WriterSearchesFail(t: Table, query: Query, sorts: Option<SortFields>, w: Writers.Writer, max: int,
                           analyze: Analysis, termsOf: Indexing, blank: Option<ValueMap>)
    requires Lucene(query, t, analyze).Ok?
    ensures SearchOutcome(t, query, sorts, Writers.GetIndexReader(w), max, analyze, termsOf, blank).Err?
    ensures SearchOutcome(t, query, sorts, Writers.GetIndexReader(w), max, analyze, termsOf, blank).error.Runtime?
  {
  }

  /** Reading back an empty hit list, and a list of one hit. */
  lemma ObjectsOfOne(t: Table, doc: Document, blank: Option<ValueMap>)
    ensures Objects(t, [], blank) == Ok([])
    ensures Objects(t, [doc], blank).Ok? <==> Decoded(t, Stored(doc), blank).Ok?
    ensures Decoded(t, Stored(doc), blank).Ok? ==> Objects(t, [doc], blank) == Ok([Decoded(t, Stored(doc), blank).value])
  {
    assert [doc][..0] == [];
    ObjectsMeaning(t, [doc], blank);
    if Decoded(t, Stored(doc), blank).Ok? {
      assert [] + [Decoded(t, Stored(doc), blank).value] == [Decoded(t, Stored(doc), blank).value];
    }
  }

  /** Without a result limit in the way, the hits are exactly the matching documents. */
  lemma UnlimitedHitsMatch(docs: seq<Document>, q: LuceneQuery, termsOf: Indexing)
    requires |docs| <= DefaultMaxCount
    ensures Hits(docs, q, termsOf, DefaultMaxCount) == Matching(docs, q, termsOf)
  {
  }

  /** RlWriter.getSearcher(recordClass): the class must be registered with the writer's table set. */
  method WriterSearcher(w: Writers.Writer, nrt: NrtSource, recordClass: string) returns (r: Result<Searcher>)
    requires nrt.writer == w
    ensures w.tableSet.GetTable(recordClass).None? ==> r.Err? && r.error.Rl?
    ensures w.tableSet.GetTable(recordClass).Some? ==>
      && r.Ok? && fresh(r.value) && fresh(r.value.readers)
      && r.value.Valid() && r.value.readers.nrt == nrt && r.value.indexSearcher == null
      && r.value.readers.indexReader.None? && r.value.maxCount == DefaultMaxCount
      && Some(r.value.table) == w.tableSet.GetTable(recordClass)
  {
    var table := w.tableSet.GetTable(recordClass);
    if table.None? {
      return Err(Rl("no table: " + recordClass));
    }
    var readers := new ReaderCache.ForWriter(nrt);
    var searcher := new Searcher(table.value, readers);
    r := Ok(searcher);
  }
}
