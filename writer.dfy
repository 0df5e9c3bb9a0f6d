/**
 * RlWriter.Impl: writes records into the index and counts every successful
 * write and delete. The index is the sequence of documents the writer holds
 * and the sequence last committed; a record with a primary-key term replaces
 * every document with that term, one without is added. Closing commits and
 * drops the Lucene writer.
 */
module Writers {
  import opened Wrappers
  import opened Converters
  import opened JavaTypes
  import opened Values
  import opened Docs
  import opened Fields
  import opened FieldIndexes
  import opened Tables
  import opened TableSets

  /** Java's `int` increment: wraps from the largest int to the smallest. */
  function Inc32(x: int): (r: int)
    requires IntMin <= x <= IntMax
    ensures IntMin <= r <= IntMax
    ensures r == x + 1 || (x == IntMax && r == IntMin)
  {
    if x == IntMax then IntMin else x + 1
  }

  /** Whether a document carries a term: the field's value is the term's text. */
  predicate HasTerm(doc: Document, term: Term)
  {
    term.field in doc && doc[term.field].value == term.text
  }

  /** IndexWriter.deleteDocuments(term): every document with the term goes. */
  function DeleteTerm(docs: seq<Document>, term: Term): (r: seq<Document>)
    ensures forall i :: 0 <= i < |r| ==> !HasTerm(r[i], term)
    ensures forall d :: d in r <==> d in docs && !HasTerm(d, term)
    ensures |r| <= |docs|
  {
    if docs == [] then []
    else (if HasTerm(docs[0], term) then [] else [docs[0]]) + DeleteTerm(docs[1..], term)
  }

  /** IndexWriter.updateDocument(term, doc): delete by the term, then add. */
  function UpdateByTerm(docs: seq<Document>, term: Term, doc: Document): (r: seq<Document>)
    ensures |r| >= 1 && r[|r| - 1] == doc
    ensures forall d :: d in r <==> d == doc || (d in docs && !HasTerm(d, term))
  {
    DeleteTerm(docs, term) + [doc]
  }

  /** The number of documents carrying a term. */
  function CountTerm(docs: seq<Document>, term: Term): (r: nat)
    ensures r <= |docs|
    ensures r == 0 <==> forall d :: d in docs ==> !HasTerm(d, term)
  {
    if docs == [] then 0 else (if HasTerm(docs[0], term) then 1 else 0) + CountTerm(docs[1..], term)
  }

  lemma {:induction false} CountTermAppend(docs: seq<Document>, doc: Document, term: Term)
    ensures CountTerm(docs + [doc], term) == CountTerm(docs, term) + (if HasTerm(doc, term) then 1 else 0)
  {
    if docs != [] {
      assert (docs + [doc])[1..] == docs[1..] + [doc];
      CountTermAppend(docs[1..], doc, term);
    }
  }

  lemma {:induction false} CountTermNone(docs: seq<Document>, term: Term)
    requires forall i :: 0 <= i < |docs| ==> !HasTerm(docs[i], term)
    ensures CountTerm(docs, term) == 0
  {
    if docs != [] {
      CountTermNone(docs[1..], term);
    }
  }

  /** Writing a record by its key leaves exactly one document with that key, however often it was written. */
  lemma UpdateLeavesOne(docs: seq<Document>, term: Term, doc: Document)
    requires HasTerm(doc, term)
    ensures CountTerm(UpdateByTerm(docs, term, doc), term) == 1
  {
    CountTermNone(DeleteTerm(docs, term), term);
    CountTermAppend(DeleteTerm(docs, term), doc, term);
  }

  /** A document whose key differs survives an update by another key. */
  lemma UpdateKeepsOthers(docs: seq<Document>, term: Term, doc: Document, other: Document)
    requires other in docs && !HasTerm(other, term)
    ensures other in UpdateByTerm(docs, term, doc)
  {
  }

  /** Whether the index holds some term of the field for a document. */
  predicate HasFieldTerm(termsOf: Indexing, doc: Document, name: string)
  {
    exists u :: u in termsOf(doc) && u.field == name
  }

  /**
   * The wildcard query "*" on a field deletes every document for which the
   * index holds a term in that field; a document whose field gave no term
   * (an empty text, say) stays.
   */
  function DeleteField(docs: seq<Document>, name: string, termsOf: Indexing): (r: seq<Document>)
    ensures forall i :: 0 <= i < |r| ==> !HasFieldTerm(termsOf, r[i], name)
    ensures forall d :: d in r <==> d in docs && !HasFieldTerm(termsOf, d, name)
  {
    if docs == [] then []
    else (if HasFieldTerm(termsOf, docs[0], name) then [] else [docs[0]]) + DeleteField(docs[1..], name, termsOf)
  }

  /** What write(rec) needs of its table: an object of the table's class, a document, and a key term unless the table has no key. */
  predicate Writable(t: Table, rec: Record)
  {
    Tables.Accepts(t, rec) && BuildDocument(t.index.fields, rec).Ok? && Tables.GetPkTerm(t, rec).Ok?
  }

  /** The document of a record of a keyed table carries the record's key term. */
  lemma KeyedDocumentHasKey(t: Table, rec: Record)
    requires Built(t) && BuildDocument(t.index.fields, rec).Ok?
    requires Tables.GetPkTerm(t, rec).Ok? && Tables.GetPkTerm(t, rec).value.Some?
    ensures HasTerm(BuildDocument(t.index.fields, rec).value, Tables.GetPkTerm(t, rec).value.value)
  {
    var fs := t.index.fields;
    var i :| 0 <= i < |fs| && fs[i] == t.index.pk.value;
    BuildDocumentEntries(fs, rec, i);
  }

  const ValuesRefused: Error := Rl("RlValues cannot be written without a table")

  function NotRegistered(cls: string): Error { Rl(cls + " is not registered") }

  function NoSuchField(name: string): Error { Rl("no such field: " + name) }

  const TokenizedDelete: Error := Rl("cannot delete by a tokenized field")

  class Writer {
    /** The database's table set. */
    const tableSet: TableSet
    /** indexWriter != null. */
    var open: bool
    var writtenCount: int
    /** The documents the writer holds, committed or not. */
    var docs: seq<Document>
    /** The documents a newly opened reader sees. */
    var committed: seq<Document>

    ghost predicate Valid()
      reads this
    {
      IntMin <= writtenCount <= IntMax
    }

    /** setup: a writer over the database's directory, whose committed content is `initial`. */
    constructor (tableSet: TableSet, initial: seq<Document>)
      ensures Valid() && this.tableSet == tableSet
      ensures open && writtenCount == 0 && docs == initial && committed == initial
    {
      this.tableSet := tableSet;
      open := true;
      writtenCount := 0;
      docs := initial;
      committed := initial;
    }

    /** writtenCount(). */
    function WrittenCount(): (r: int)
      reads this
      ensures r == writtenCount
    {
      writtenCount
    }

    /** isClosed: exactly when the Lucene writer has been dropped. */
    function IsClosed(): (r: bool)
      reads this
      ensures r <==> !open
    {
      !open
    }

    /** getLuceneDocument(rec): only objects of a registered record class. */
    method GetLuceneDocument(rec: Record) returns (r: Result<Document>)
      ensures rec.Free? ==> r == Err(ValuesRefused)
      ensures rec.Bean? && tableSet.GetTable(rec.cls).None? ==> r == Err(NotRegistered(rec.cls))
      ensures rec.Bean? && tableSet.GetTable(rec.cls).Some? ==>
        var t := tableSet.GetTable(rec.cls).value;
        r == (if Tables.Accepts(t, rec) then BuildDocument(t.index.fields, rec) else Err(WrongDocObject))
    {
      if rec.Free? {
        return Err(ValuesRefused);
      }
      var table := tableSet.GetTable(rec.cls);
      if table.None? {
        return Err(NotRegistered(rec.cls));
      }
      r := GetDocument(table.value, rec);
    }

    /** The private write(pkTerm, doc): add without a key, otherwise update by the key. */
    method WriteDocument(pkTerm: Option<Term>, doc: Document) returns (r: Result<()>)
      requires Valid()
      modifies this
      ensures Valid()
      ensures r.Ok? <==> old(open)
      ensures r.Err? ==> r.error == NullPointer && docs == old(docs) && writtenCount == old(writtenCount)
      ensures r.Ok? && pkTerm.None? ==> docs == old(docs) + [doc]
      ensures r.Ok? && pkTerm.Some? ==> docs == UpdateByTerm(old(docs), pkTerm.value, doc)
      ensures r.Ok? ==> writtenCount == Inc32(old(writtenCount))
      ensures open == old(open) && committed == old(committed)
    {
      if !open {
        return Err(NullPointer);
      }
      if pkTerm.None? {
        docs := docs + [doc];
      } else {
        docs := UpdateByTerm(docs, pkTerm.value, doc);
      }
      writtenCount := Inc32(writtenCount);
      r := Ok(());
    }

    /** write(rec): the document first, then the key term of the record's table. */
    method Write(rec: Record) returns (r: Result<()>)
      requires Valid()
      modifies this
      ensures Valid() && open == old(open) && committed == old(committed)
      ensures r.Ok? ==> writtenCount == Inc32(old(writtenCount))
      ensures r.Err? ==> docs == old(docs) && writtenCount == old(writtenCount)
      ensures rec.Free? ==> r == Err(ValuesRefused)
      ensures rec.Bean? && tableSet.GetTable(rec.cls).None? ==> r == Err(NotRegistered(rec.cls))
      ensures r.Ok? <==> rec.Bean? && tableSet.GetTable(rec.cls).Some? && Writable(tableSet.GetTable(rec.cls).value, rec) && old(open)
      ensures r.Ok? ==> var t := tableSet.GetTable(rec.cls).value;
                        var doc := BuildDocument(t.index.fields, rec).value;
                        match Tables.GetPkTerm(t, rec).value
                        case None => docs == old(docs) + [doc]
                        case Some(term) => docs == UpdateByTerm(old(docs), term, doc)
    {
      var doc := GetLuceneDocument(rec);
      if doc.Err? {
        return Err(doc.error);
      }
      var table := tableSet.GetTable(rec.cls);
      var pkTerm := GetPkTerm(table.value, rec);
      if pkTerm.Err? {
        return Err(pkTerm.error);
      }
      r := WriteDocument(pkTerm.value, doc.value);
    }

    /** write(table, values): the key term first, then the document. */
    method WriteValues(table: Table, values: ValueMap) returns (r: Result<()>)
      requires Valid()
      modifies this
      ensures Valid() && open == old(open) && committed == old(committed)
      ensures r.Ok? ==> writtenCount == Inc32(old(writtenCount))
      ensures r.Ok? <==> GetPkTerm(table, Free(values)).Ok? && Tables.Accepts(table, Free(values)) &&
                         BuildDocument(table.index.fields, Free(values)).Ok? && old(open)
      ensures GetPkTerm(table, Free(values)).Err? ==> r == Err(GetPkTerm(table, Free(values)).error)
      ensures GetPkTerm(table, Free(values)).Ok? && !Tables.Accepts(table, Free(values)) ==> r == Err(WrongDocObject)
      ensures GetPkTerm(table, Free(values)).Ok? && Tables.Accepts(table, Free(values)) && BuildDocument(table.index.fields, Free(values)).Err? ==>
                r == Err(BuildDocument(table.index.fields, Free(values)).error)
      ensures GetPkTerm(table, Free(values)).Ok? && Tables.Accepts(table, Free(values)) && BuildDocument(table.index.fields, Free(values)).Ok? && !old(open) ==>
                r == Err(NullPointer)
      ensures r.Ok? ==> var doc := BuildDocument(table.index.fields, Free(values)).value;
                        match GetPkTerm(table, Free(values)).value
                        case None => docs == old(docs) + [doc]
                        case Some(term) => docs == UpdateByTerm(old(docs), term, doc)
      ensures r.Err? ==> docs == old(docs) && writtenCount == old(writtenCount)
    {
      var pkTerm := GetPkTerm(table, Free(values));
      if pkTerm.Err? {
        return Err(pkTerm.error);
      }
      var doc := GetDocument(table, Free(values));
      if doc.Err? {
        return Err(doc.error);
      }
      r := WriteDocument(pkTerm.value, doc.value);
    }

    /** delete(field, value): refused for a tokenized field; otherwise every document with the value's term goes. */
    method DeleteByField(field: Field, value: Option<Value>) returns (r: Result<()>)
      requires Valid()
      modifies this
      ensures Valid() && open == old(open) && committed == old(committed)
      ensures field.tokenized ==> r == Err(TokenizedDelete)
      ensures r.Ok? <==> !field.tokenized && old(open) && ValueToString(field, value).Ok? && ValueToString(field, value).value.Some?
      ensures r.Ok? ==> docs == DeleteTerm(old(docs), Term(field.name, ValueToString(field, value).value.value))
      ensures r.Ok? ==> writtenCount == Inc32(old(writtenCount))
      ensures r.Err? ==> docs == old(docs) && writtenCount == old(writtenCount)
    {
      if field.tokenized {
        return Err(TokenizedDelete);
      }
      var s := ValueToString(field, value);
      if s.Err? {
        return Err(s.error);
      }
      if s.value.None? || !open {
        return Err(NullPointer);
      }
      docs := DeleteTerm(docs, Term(field.name, s.value.value));
      writtenCount := Inc32(writtenCount);
      r := Ok(());
    }

    /** delete(fieldName, value): the name must belong to a table of the set. */
    method Delete(fieldName: string, value: Option<Value>) returns (r: Result<()>)
      requires Valid()
      modifies this
      ensures Valid() && open == old(open) && committed == old(committed)
      ensures tableSet.GetFieldByName(fieldName).None? ==> r == Err(NoSuchField(fieldName))
      ensures tableSet.GetFieldByName(fieldName).Some? ==>
        var field := tableSet.GetFieldByName(fieldName).value;
        && (field.tokenized ==> r == Err(TokenizedDelete))
        && (r.Ok? <==> !field.tokenized && old(open) && ValueToString(field, value).Ok? && ValueToString(field, value).value.Some?)
        && (r.Ok? ==> docs == DeleteTerm(old(docs), Term(field.name, ValueToString(field, value).value.value)))
      ensures r.Ok? ==> writtenCount == Inc32(old(writtenCount))
      ensures r.Err? ==> docs == old(docs) && writtenCount == old(writtenCount)
    {
      var field := tableSet.GetFieldByName(fieldName);
      if field.None? {
        return Err(NoSuchField(fieldName));
      }
      r := DeleteByField(field.value, value);
    }

    /** deleteAll(field): every document with a term in the field goes; a tokenized field is not refused. */
    method DeleteAllOfField(field: Field, termsOf: Indexing) returns (r: Result<()>)
      requires Valid()
      modifies this
      ensures Valid() && open == old(open) && committed == old(committed)
      ensures r.Ok? <==> old(open)
      ensures r.Ok? ==> docs == DeleteField(old(docs), field.name, termsOf) && writtenCount == Inc32(old(writtenCount))
      ensures r.Err? ==> docs == old(docs) && writtenCount == old(writtenCount)
    {
      if !open {
        return Err(NullPointer);
      }
      docs := DeleteField(docs, field.name, termsOf);
      writtenCount := Inc32(writtenCount);
      r := Ok(());
    }

    /** deleteAll(fieldName). */
    method DeleteAll(fieldName: string, termsOf: Indexing) returns (r: Result<()>)
      requires Valid()
      modifies this
      ensures Valid() && open == old(open) && committed == old(committed)
      ensures tableSet.GetFieldByName(fieldName).None? ==> r == Err(NoSuchField(fieldName))
      ensures tableSet.GetFieldByName(fieldName).Some? ==>
        && (r.Ok? <==> old(open))
        && (r.Ok? ==> docs == DeleteField(old(docs), tableSet.GetFieldByName(fieldName).value.name, termsOf))
      ensures r.Ok? ==> writtenCount == Inc32(old(writtenCount))
      ensures r.Err? ==> docs == old(docs) && writtenCount == old(writtenCount)
    {
      var field := tableSet.GetFieldByName(fieldName);
      if field.None? {
        return Err(NoSuchField(fieldName));
      }
      r := DeleteAllOfField(field.value, termsOf);
    }

    /** deleteAll(): the index is emptied. */
    method DeleteEverything() returns (r: Result<()>)
      requires Valid()
      modifies this
      ensures Valid() && open == old(open) && committed == old(committed)
      ensures r.Ok? <==> old(open)
      ensures r.Ok? ==> docs == [] && writtenCount == Inc32(old(writtenCount))
      ensures r.Err? ==> docs == old(docs) && writtenCount == old(writtenCount)
    {
      if !open {
        return Err(NullPointer);
      }
      docs := [];
      writtenCount := Inc32(writtenCount);
      r := Ok(());
    }

    /** commit: what the writer holds becomes visible to new readers; the count stays. */
    method Commit() returns (r: Result<()>)
      requires Valid()
      modifies this
      ensures Valid() && open == old(open) && docs == old(docs) && writtenCount == old(writtenCount)
      ensures r.Ok? <==> old(open)
      ensures committed == if old(open) then docs else old(committed)
    {
      if !open {
        return Err(NullPointer);
      }
      committed := docs;
      r := Ok(());
    }

    /** close: commits (commit-on-close is the configuration's default) and drops the writer. */
    method Close() returns (r: Result<()>)
      requires Valid()
      modifies this
      ensures Valid() && docs == old(docs) && writtenCount == old(writtenCount)
      ensures r.Ok? <==> old(open)
      ensures !open
      ensures committed == if old(open) then docs else old(committed)
    {
      if !open {
        return Err(NullPointer);
      }
      committed := docs;
      open := false;
      r := Ok(());
    }
  }

  /** getIndexReader: its Lucene call is commented out, so it always throws a RuntimeException (the same shape as getSort). */
  function GetIndexReader(w: Writer): (r: Result<Reader>)
    ensures r.Err? && r.error.Runtime?
  {
    Err(Runtime(""))
  }
}

/** The writer's counter and key rule in a short scenario of calls. */
module WriterScenarios {
  import opened Wrappers
  import opened Values
  import opened Docs
  import opened FieldIndexes
  import opened Tables
  import opened TableSets
  import opened Writers

  /** Two writes of one keyed record keep one document with its key; a commit keeps the count; close leaves the writer closed. */
  method SameKeyTwice(tableSet: TableSet, rec: Record) returns (count: int, keyed: nat, closed: bool)
    requires tableSet.Valid() && rec.Bean? && tableSet.GetTable(rec.cls).Some?
    requires Writable(tableSet.GetTable(rec.cls).value, rec) && Tables.GetPkTerm(tableSet.GetTable(rec.cls).value, rec).value.Some?
    ensures count == 2 && keyed == 1 && closed
  {
    var t := tableSet.GetTable(rec.cls).value;
    var term := Tables.GetPkTerm(t, rec).value.value;
    var doc := BuildDocument(t.index.fields, rec).value;
    KeyedDocumentHasKey(t, rec);
    var w := new Writer(tableSet, []);
    var a := w.Write(rec);
    ghost var once := w.docs;
    var b := w.Write(rec);
    assert w.docs == UpdateByTerm(once, term, doc);
    var c := w.Commit();
    count := w.WrittenCount();
    UpdateLeavesOne(once, term, doc);
    keyed := CountTerm(w.committed, term);
    var d := w.Close();
    closed := w.IsClosed();
  }
}
