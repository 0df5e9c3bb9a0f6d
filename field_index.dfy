/**
 * The constructor loop shared by RlAnyTable, RlFieldMap and RlTable.init:
 * each field is registered under its name, a repeated name is refused, and
 * a second primary key is refused. Also the two loops every table runs over
 * its registered fields: building a document from a record, and filling a
 * record from a document. The registration order stands for the order in
 * which the tables' hash maps hand their fields out.
 */
module FieldIndexes {
  import opened Wrappers
  import opened JavaTypes
  import opened Values
  import opened Docs
  import opened Fields

  /** A table's field map, its fields in registration order, and its primary-key field. */
  datatype FieldIndex = FieldIndex(fields: seq<Field>, byName: map<string, Field>, pk: Option<Field>)

  function NameSet(fs: seq<Field>): set<string>
  {
    set i | 0 <= i < |fs| :: fs[i].name
  }

  predicate NamesDistinct(fs: seq<Field>)
  {
    forall i, j :: 0 <= i < j < |fs| ==> fs[i].name != fs[j].name
  }

  predicate AtMostOnePk(fs: seq<Field>)
  {
    forall i, j :: 0 <= i < j < |fs| && fs[i].isPk ==> !fs[j].isPk
  }

  function DuplicateName(name: string): Error { Rl("duplicate field name: " + name) }

  const MultiplePks: Error := Rl("more than one primary key")

  /** One turn of the loop: register `f`, or refuse it. */
  function Register(ix: FieldIndex, f: Field): (r: Result<FieldIndex>)
  {
    if f.name in ix.byName then Err(DuplicateName(f.name))
    else if f.isPk && ix.pk.Some? then Err(MultiplePks)
    else Ok(FieldIndex(ix.fields + [f], ix.byName[f.name := f], if f.isPk then Some(f) else ix.pk))
  }

  /** `ix` is the registration of exactly the fields `fs`, each under its own name, with its key field if any. */
  predicate Describes(ix: FieldIndex, fs: seq<Field>)
  {
    && NamesDistinct(fs) && AtMostOnePk(fs)
    && ix.fields == fs && ix.byName.Keys == NameSet(fs)
    && (forall i :: 0 <= i < |fs| ==> ix.byName[fs[i].name] == fs[i])
    && (ix.pk.Some? ==> ix.pk.value.isPk && ix.pk.value in fs)
    && (ix.pk.None? ==> forall i :: 0 <= i < |fs| ==> !fs[i].isPk)
  }

  /** The whole loop over `fs`, in order. */
  function Index(fs: seq<Field>): (r: Result<FieldIndex>)
    ensures r.Ok? ==> Describes(r.value, fs)
    decreases |fs|
  {
    if fs == [] then Ok(FieldIndex([], map[], None))
    else
      var init := fs[..|fs| - 1];
      match Index(init)
      case Err(e) => Err(e)
      case Ok(ix) =>
        assert fs == init + [fs[|fs| - 1]];
        RegisterDescribes(ix, init, fs[|fs| - 1]);
        Register(ix, fs[|fs| - 1])
  }

  /** One more registration keeps the description. */
  lemma RegisterDescribes(ix: FieldIndex, fs: seq<Field>, f: Field)
    requires Describes(ix, fs)
    ensures Register(ix, f).Ok? ==> Describes(Register(ix, f).value, fs + [f])
  {
    if Register(ix, f).Ok? {
      var fs' := fs + [f];
      NameSetAppend(fs, f);
      Extend(fs, f);
      forall i | 0 <= i < |fs'|
        ensures Register(ix, f).value.byName[fs'[i].name] == fs'[i]
      {
        if i < |fs| { assert fs[i].name in NameSet(fs); }
      }
    }
  }

  lemma NameSetAppend(fs: seq<Field>, f: Field)
    ensures NameSet(fs + [f]) == NameSet(fs) + {f.name}
  {
    var fs' := fs + [f];
    forall n | n in NameSet(fs')
      ensures n in NameSet(fs) + {f.name}
    {
      var i :| 0 <= i < |fs'| && fs'[i].name == n;
      if i < |fs| { assert fs[i].name == n; }
    }
    forall n | n in NameSet(fs)
      ensures n in NameSet(fs')
    {
      var i :| 0 <= i < |fs| && fs[i].name == n;
      assert fs'[i].name == n;
    }
    assert fs'[|fs|].name == f.name;
  }

  /** What registering one more field keeps: distinct names, and at most one key. */
  lemma Extend(fs: seq<Field>, f: Field)
    ensures NamesDistinct(fs) && f.name !in NameSet(fs) ==> NamesDistinct(fs + [f])
    ensures AtMostOnePk(fs) && (f.isPk ==> forall i :: 0 <= i < |fs| ==> !fs[i].isPk) ==> AtMostOnePk(fs + [f])
  {
    NameSetAppend(fs, f);
    if NamesDistinct(fs) && f.name !in NameSet(fs) {
      forall i, j | 0 <= i < j < |fs + [f]|
        ensures (fs + [f])[i].name != (fs + [f])[j].name
      {
        if j == |fs| { assert fs[i].name in NameSet(fs); }
      }
    }
  }

  /** A refusal is a second key or the name of one of the fields given. */
  lemma {:induction false} IndexRefusal(fs: seq<Field>)
    ensures Index(fs).Err? ==>
      Index(fs).error == MultiplePks || exists i :: 0 <= i < |fs| && Index(fs).error == DuplicateName(fs[i].name)
    decreases |fs|
  {
    if fs != [] {
      var init := fs[..|fs| - 1];
      IndexRefusal(init);
      if Index(init).Err? && Index(init).error != MultiplePks {
        var i :| 0 <= i < |init| && Index(init).error == DuplicateName(init[i].name);
        assert init[i] == fs[i];
      }
    }
  }

  /** Registration succeeds exactly when the names are distinct and at most one field is a key. */
  lemma {:induction false} IndexSucceeds(fs: seq<Field>)
    ensures Index(fs).Ok? <==> NamesDistinct(fs) && AtMostOnePk(fs)
    decreases |fs|
  {
    if fs != [] && NamesDistinct(fs) && AtMostOnePk(fs) {
      var init := fs[..|fs| - 1];
      var last := fs[|fs| - 1];
      assert NamesDistinct(init) && AtMostOnePk(init);
      IndexSucceeds(init);
    }
  }

  /** The constructor loop itself. */
  method BuildIndex(fs: seq<Field>) returns (r: Result<FieldIndex>)
    ensures r == Index(fs)
  {
    var ix := FieldIndex([], map[], None);
    var i := 0;
    while i < |fs|
      invariant 0 <= i <= |fs|
      invariant Index(fs[..i]) == Ok(ix)
    {
      var f := fs[i];
      IndexSnoc(fs, i);
      if f.name in ix.byName {
        r := Err(DuplicateName(f.name));
        PrefixFailure(fs, i + 1);
        return;
      }
      if f.isPk && ix.pk.Some? {
        r := Err(MultiplePks);
        PrefixFailure(fs, i + 1);
        return;
      }
      ix := FieldIndex(ix.fields + [f], ix.byName[f.name := f], if f.isPk then Some(f) else ix.pk);
      assert Index(fs[..i + 1]) == Ok(ix);
      i := i + 1;
    }
    assert fs[..i] == fs;
    r := Ok(ix);
  }

  /** The loop over one more field is one more registration. */
  lemma IndexSnoc(fs: seq<Field>, i: nat)
    requires i < |fs|
    ensures Index(fs[..i + 1]) == if Index(fs[..i]).Err? then Index(fs[..i]) else Register(Index(fs[..i]).value, fs[i])
  {
    assert fs[..i + 1][..i] == fs[..i];
  }

  /** Once a prefix is refused, the whole sequence is refused with the same error. */
  lemma {:induction false} PrefixFailure(fs: seq<Field>, k: nat)
    requires k <= |fs| && Index(fs[..k]).Err?
    ensures Index(fs) == Index(fs[..k])
    decreases |fs| - k
  {
    if k < |fs| {
      assert fs[..k + 1][..k] == fs[..k];
      PrefixFailure(fs, k + 1);
    } else {
      assert fs[..k] == fs;
    }
  }

  /** Document.add of an optional index field. */
  function AddField(doc: Document, x: Option<IndexField>): Document
  {
    match x
    case None => doc
    case Some(IndexField(n, d)) => doc[n := d]
  }

  /**
   * getDocument's loop: every field's index field, in order, skipping null
   * values; the first field that cannot be read fails the whole document.
   */
  function BuildDocument(fs: seq<Field>, obj: Record): (r: Result<Document>)
    ensures r.Ok? <==> forall i :: 0 <= i < |fs| ==> GetLuceneField(fs[i], obj).Ok?
    ensures r.Ok? ==> r.value.Keys <= NameSet(fs)
    decreases |fs|
  {
    if fs == [] then Ok(map[])
    else
      var init := fs[..|fs| - 1];
      var f := fs[|fs| - 1];
      assert forall i :: 0 <= i < |init| ==> init[i] == fs[i];
      assert NameSet(fs) == NameSet(init) + {f.name};
      match BuildDocument(init, obj)
      case Err(e) => Err(e)
      case Ok(doc) =>
        match GetLuceneField(f, obj)
        case Err(e) => Err(e)
        case Ok(x) => Ok(AddField(doc, x))
  }

  /** With distinct names, each field has its own entry exactly when its value is not null. */
  lemma {:induction false} BuildDocumentEntries(fs: seq<Field>, obj: Record, i: nat)
    requires NamesDistinct(fs) && i < |fs| && BuildDocument(fs, obj).Ok?
    ensures var doc := BuildDocument(fs, obj).value;
            var s := GetStringValue(fs[i], obj).value;
            && (s.None? ==> fs[i].name !in doc)
            && (s.Some? ==> fs[i].name in doc && doc[fs[i].name] == DocField(s.value, fs[i].store, fs[i].tokenized))
    decreases |fs|
  {
    var init := fs[..|fs| - 1];
    var f := fs[|fs| - 1];
    assert NamesDistinct(init);
    if i < |fs| - 1 {
      assert init[i] == fs[i];
      BuildDocumentEntries(init, obj, i);
      assert f.name != fs[i].name;
    }
  }

  /** getDocument's loop, as the table's code runs it. */
  method FillDocument(fs: seq<Field>, obj: Record) returns (r: Result<Document>)
    ensures r == BuildDocument(fs, obj)
  {
    var doc: Document := map[];
    var i := 0;
    while i < |fs|
      invariant 0 <= i <= |fs|
      invariant BuildDocument(fs[..i], obj) == Ok(doc)
    {
      assert fs[..i + 1][..i] == fs[..i];
      var x := GetLuceneField(fs[i], obj);
      if x.Err? {
        r := Err(x.error);
        DocumentPrefixFailure(fs, obj, i + 1);
        return;
      }
      doc := AddField(doc, x.value);
      i := i + 1;
    }
    assert fs[..i] == fs;
    r := Ok(doc);
  }

  lemma {:induction false} DocumentPrefixFailure(fs: seq<Field>, obj: Record, k: nat)
    requires k <= |fs| && BuildDocument(fs[..k], obj).Err?
    ensures BuildDocument(fs, obj) == BuildDocument(fs[..k], obj)
    decreases |fs| - k
  {
    if k < |fs| {
      assert fs[..k + 1][..k] == fs[..k];
      DocumentPrefixFailure(fs, obj, k + 1);
    } else {
      assert fs[..k] == fs;
    }
  }

  /** fromDocument's loop: set every field, in order, from the document's string under its name. */
  function BuildRecord(fs: seq<Field>, doc: Document, start: Record): (r: Result<Record>)
    ensures r.Ok? ==> r.value.Free? == start.Free?
    ensures r.Ok? && start.Bean? ==> r.value.cls == start.cls
    decreases |fs|
  {
    if fs == [] then Ok(start)
    else
      match BuildRecord(fs[..|fs| - 1], doc, start)
      case Err(e) => Err(e)
      case Ok(rec) => SetStringValue(fs[|fs| - 1], rec, Get(doc, fs[|fs| - 1].name))
  }

  /** fromDocument's loop, as the table's code runs it. */
  method FillRecord(fs: seq<Field>, doc: Document, start: Record) returns (r: Result<Record>)
    ensures r == BuildRecord(fs, doc, start)
  {
    var rec := start;
    var i := 0;
    while i < |fs|
      invariant 0 <= i <= |fs|
      invariant BuildRecord(fs[..i], doc, start) == Ok(rec)
    {
      assert fs[..i + 1][..i] == fs[..i];
      var next := SetStringValue(fs[i], rec, Get(doc, fs[i].name));
      if next.Err? {
        r := next;
        RecordPrefixFailure(fs, doc, start, i + 1);
        return;
      }
      rec := next.value;
      i := i + 1;
    }
    assert fs[..i] == fs;
    r := Ok(rec);
  }

  lemma {:induction false} RecordPrefixFailure(fs: seq<Field>, doc: Document, start: Record, k: nat)
    requires k <= |fs| && BuildRecord(fs[..k], doc, start).Err?
    ensures BuildRecord(fs, doc, start) == BuildRecord(fs[..k], doc, start)
    decreases |fs| - k
  {
    if k < |fs| {
      assert fs[..k + 1][..k] == fs[..k];
      RecordPrefixFailure(fs, doc, start, k + 1);
    } else {
      assert fs[..k] == fs;
    }
  }

  /** The slot a field reads and writes: the declared field's name, or the field's own name. */
  function Slot(f: Field): string
  {
    if f.javaField.Some? then f.javaField.value.name else f.name
  }

  /** A field is well named when it reads the slot of its own name and of the class it belongs to. */
  predicate SlotsDistinct(fs: seq<Field>)
  {
    forall i, j :: 0 <= i < j < |fs| ==> Slot(fs[i]) != Slot(fs[j])
  }

  /** Setting one field leaves what another field of a different slot reads unchanged. */
  lemma GetAfterOtherSet(f: Field, g: Field, obj: Record, v: Option<Value>)
    requires Slot(f) != Slot(g) && SetValue(g, obj, v).Ok?
    requires f.javaField.Some? && g.javaField.Some? ==> f.javaField.value.declaringClass == g.javaField.value.declaringClass
    requires f.javaField.Some? <==> g.javaField.Some?
    ensures GetValue(f, SetValue(g, obj, v).value) == GetValue(f, obj)
  {
  }

  /** All fields read the same kind of object: by name, or from one record class. */
  predicate SameKind(fs: seq<Field>)
  {
    forall i, j :: 0 <= i < |fs| && 0 <= j < |fs| ==>
      && (fs[i].javaField.Some? <==> fs[j].javaField.Some?)
      && (fs[i].javaField.Some? ==> fs[i].javaField.value.declaringClass == fs[j].javaField.value.declaringClass)
  }

  /**
   * After fromDocument's loop, every field holds what its converter reads
   * from the document's string under its name, and null where the document
   * has none.
   */
  lemma {:induction false} BuildRecordSetsEvery(fs: seq<Field>, doc: Document, start: Record, i: nat)
    requires SlotsDistinct(fs) && SameKind(fs) && i < |fs| && BuildRecord(fs, doc, start).Ok?
    ensures StringToValue(fs[i], Get(doc, fs[i].name)).Ok?
    ensures GetValue(fs[i], BuildRecord(fs, doc, start).value) == Ok(StringToValue(fs[i], Get(doc, fs[i].name)).value)
    decreases |fs|
  {
    var init := fs[..|fs| - 1];
    var last := fs[|fs| - 1];
    assert forall k :: 0 <= k < |init| ==> init[k] == fs[k];
    var rec := BuildRecord(init, doc, start).value;
    if i < |fs| - 1 {
      assert SlotsDistinct(init);
      assert SameKind(init);
      BuildRecordSetsEvery(init, doc, start, i);
      assert Slot(fs[i]) != Slot(last);
      GetAfterOtherSet(fs[i], last, rec, StringToValue(last, Get(doc, last.name)).value);
    }
  }

  /** The names of the tokenized fields: those that get an analyzer. */
  function TokenizedNames(fs: seq<Field>): (r: set<string>)
    ensures forall i :: 0 <= i < |fs| && fs[i].tokenized ==> fs[i].name in r
    ensures forall n :: n in r ==> exists i :: 0 <= i < |fs| && fs[i].tokenized && fs[i].name == n
    ensures r <= NameSet(fs)
  {
    set i | 0 <= i < |fs| && fs[i].tokenized :: fs[i].name
  }

  const NullPk: Error := Rl("the primary key is null")

  /** getPkTerm once a key field exists: the key's string value as a term, refused when it is null. */
  function PkTerm(pk: Field, obj: Record): (r: Result<Term>)
    ensures r.Ok? <==> GetStringValue(pk, obj).Ok? && GetStringValue(pk, obj).value.Some?
    ensures r.Ok? ==> r.value == Term(pk.name, GetStringValue(pk, obj).value.value)
    ensures GetStringValue(pk, obj) == Ok(None) ==> r == Err(NullPk)
  {
    match GetStringValue(pk, obj)
    case Err(e) => Err(e)
    case Ok(None) => Err(NullPk)
    case Ok(Some(s)) => Ok(Term(pk.name, s))
  }
}
