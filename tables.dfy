/**
 * The classes of a record class that become table fields: every declared
 * field that is neither transient nor static, in declaration order.
 */
module DeclaredFields {
  import opened Wrappers
  import opened Fields

  /** A record class and its declared fields. */
  datatype RecordClass = RecordClass(name: string, declared: seq<JavaField>)

  /** What reflection guarantees: the fields are declared by the class, under distinct names. */
  predicate Reflected(rc: RecordClass)
  {
    && (forall i :: 0 <= i < |rc.declared| ==> rc.declared[i].declaringClass == rc.name)
    && (forall i, j :: 0 <= i < j < |rc.declared| ==> rc.declared[i].name != rc.declared[j].name)
  }

  predicate Persistent(jf: JavaField) { !jf.isTransient && !jf.isStatic }

  /** The modifier filter of RlTable's and RlClassTable's constructors. */
  function PersistentFields(js: seq<JavaField>): (r: seq<JavaField>)
    ensures forall i :: 0 <= i < |r| ==> Persistent(r[i])
    ensures forall j :: j in r <==> j in js && Persistent(j)
    ensures |r| <= |js|
  {
    if js == [] then []
    else (if Persistent(js[0]) then [js[0]] else []) + PersistentFields(js[1..])
  }

  /** Filtering keeps the fields in order, so distinct names and one declaring class survive it. */
  lemma {:induction false} PersistentKeepsReflected(rc: RecordClass)
    requires Reflected(rc)
    ensures Reflected(RecordClass(rc.name, PersistentFields(rc.declared)))
    decreases |rc.declared|
  {
    var js := rc.declared;
    if js != [] {
      var rest := RecordClass(rc.name, js[1..]);
      PersistentKeepsReflected(rest);
      var tail := PersistentFields(js[1..]);
      if Persistent(js[0]) {
        var r := [js[0]] + tail;
        forall i, j | 0 <= i < j < |r|
          ensures r[i].name != r[j].name
        {
          if i == 0 {
            assert r[j] in js[1..];
          }
        }
      }
    }
  }

  /** Turns each kept declared field into a table field; the first one whose converter check fails refuses the table. */
  function FieldsOf(js: seq<JavaField>): (r: Result<seq<Field>>)
    ensures r.Ok? <==> forall i :: 0 <= i < |js| ==> var f := FromJavaField(js[i]); CheckConverter(f.fieldType, f.name, f.converter).Ok?
    ensures r.Ok? ==> |r.value| == |js| && forall i :: 0 <= i < |js| ==> r.value[i] == FromJavaField(js[i])
  {
    if js == [] then Ok([])
    else
      var f := FromJavaField(js[0]);
      match CheckConverter(f.fieldType, f.name, f.converter)
      case Err(e) => Err(e)
      case Ok(_) =>
        match FieldsOf(js[1..])
        case Err(e) => Err(e)
        case Ok(rest) => Ok([f] + rest)
  }
}

/** RlAnyTable: a free-form table whose fields are read from an RlValues object by name. */
module AnyTables {
  import opened Wrappers
  import opened Values
  import opened Docs
  import opened Fields
  import opened FieldIndexes

  datatype AnyTable = AnyTable(index: FieldIndex, analyzed: set<string>)

  /** The field as this table reads it: by its name, from the values. */
  function ByName(f: Field): Field { f.(javaField := None) }

  function ByNameAll(fs: seq<Field>): (r: seq<Field>)
    ensures |r| == |fs| && forall i :: 0 <= i < |fs| ==> r[i] == ByName(fs[i])
    ensures NameSet(r) == NameSet(fs)
  {
    var r := seq(|fs|, i requires 0 <= i < |fs| => ByName(fs[i]));
    assert forall i :: 0 <= i < |fs| ==> r[i].name == fs[i].name;
    r
  }

  /** The constructor. */
  function AnyTableOf(fs: seq<Field>): (r: Result<AnyTable>)
    ensures r.Ok? <==> Index(fs).Ok?
    ensures r.Ok? ==> r.value.index == Index(fs).value && r.value.analyzed == TokenizedNames(fs)
  {
    match Index(fs)
    case Err(e) => Err(e)
    case Ok(ix) => Ok(AnyTable(ix, TokenizedNames(ix.fields)))
  }

  /** The constructor's loop, then the analyzer map. */
  method NewAnyTable(fs: seq<Field>) returns (r: Result<AnyTable>)
    ensures r == AnyTableOf(fs)
  {
    var ix := BuildIndex(fs);
    if ix.Err? {
      return Err(ix.error);
    }
    r := Ok(AnyTable(ix.value, TokenizedNames(ix.value.fields)));
  }

  /** A built table of well-formed fields never gives its primary key an analyzer. */
  lemma PkNotAnalyzed(fs: seq<Field>)
    requires AnyTableOf(fs).Ok? && forall i :: 0 <= i < |fs| ==> WellFormed(fs[i])
    requires AnyTableOf(fs).value.index.pk.Some?
    ensures AnyTableOf(fs).value.index.pk.value.name !in AnyTableOf(fs).value.analyzed
  {
  }

  /** getPkField: the key field, if any; in a built table one of its fields, marked as the key. */
  function GetPkField(t: AnyTable): (r: Option<Field>)
    ensures Describes(t.index, t.index.fields) && r.Some? ==> r.value.isPk && r.value in t.index.fields
    ensures Describes(t.index, t.index.fields) && r.None? ==> forall i :: 0 <= i < |t.index.fields| ==> !t.index.fields[i].isPk
  { t.index.pk }

  /** getFieldNames: a copy of the key set, which in a built table is the names of its fields. */
  function GetFieldNames(t: AnyTable): (r: set<string>)
    ensures Describes(t.index, t.index.fields) ==> r == NameSet(t.index.fields)
  { t.index.byName.Keys }

  /** getFieldByName: the registered field, or null; in a built table the field of that name. */
  function GetFieldByName(t: AnyTable, name: string): (r: Option<Field>)
    ensures r.Some? <==> name in GetFieldNames(t)
    ensures Describes(t.index, t.index.fields) && r.Some? ==> r.value.name == name && r.value in t.index.fields
  {
    if name in t.index.byName then Some(t.index.byName[name]) else None
  }

  /** Every given field is found under its name, and no other name finds one. */
  lemma Lookups(fs: seq<Field>, name: string)
    requires AnyTableOf(fs).Ok?
    ensures GetFieldNames(AnyTableOf(fs).value) == NameSet(fs)
    ensures GetFieldByName(AnyTableOf(fs).value, name).Some? <==> name in NameSet(fs)
    ensures forall i :: 0 <= i < |fs| ==> GetFieldByName(AnyTableOf(fs).value, fs[i].name) == Some(fs[i])
  {
  }

  /** getDocument: every field read by name; fails iff some field cannot be read, and only field names become entries. */
  function GetDocument(t: AnyTable, values: ValueMap): (r: Result<Document>)
    ensures r.Ok? <==> forall i :: 0 <= i < |t.index.fields| ==> GetLuceneField(ByName(t.index.fields[i]), Free(values)).Ok?
    ensures r.Ok? ==> r.value.Keys <= NameSet(t.index.fields)
  {
    BuildDocument(ByNameAll(t.index.fields), Free(values))
  }

  /** getDocument leaves out exactly the fields whose value is null, and stores the others' strings with their flags. */
  lemma DocumentOmitsNulls(fs: seq<Field>, values: ValueMap, i: nat)
    requires AnyTableOf(fs).Ok? && i < |fs| && GetDocument(AnyTableOf(fs).value, values).Ok?
    ensures var doc := GetDocument(AnyTableOf(fs).value, values).value;
            fs[i].name in doc <==> Lookup(values, fs[i].name).Some?
    ensures var doc := GetDocument(AnyTableOf(fs).value, values).value;
            var s := GetStringValue(ByName(fs[i]), Free(values));
            fs[i].name in doc ==> s.Ok? && s.value.Some? && doc[fs[i].name] == DocField(s.value.value, fs[i].store, fs[i].tokenized)
  {
    var gs := ByNameAll(fs);
    assert NamesDistinct(gs) by {
      assert forall k :: 0 <= k < |fs| ==> gs[k].name == fs[k].name;
    }
    BuildDocumentEntries(gs, Free(values), i);
  }

  /** fromDocument: a new values object with every field set from the document. */
  function FromDocument(t: AnyTable, doc: Document): (r: Result<ValueMap>)
  {
    match BuildRecord(ByNameAll(t.index.fields), doc, Free(map[]))
    case Err(e) => Err(e)
    case Ok(rec) => Ok(rec.entries)
  }

  /** fromDocument stores under each field's name what its converter reads from the document's string, null where there is none. */
  lemma FromDocumentSetsEvery(fs: seq<Field>, doc: Document, i: nat)
    requires AnyTableOf(fs).Ok? && i < |fs| && FromDocument(AnyTableOf(fs).value, doc).Ok?
    ensures StringToValue(fs[i], Get(doc, fs[i].name)).Ok?
    ensures Lookup(FromDocument(AnyTableOf(fs).value, doc).value, fs[i].name) == StringToValue(fs[i], Get(doc, fs[i].name)).value
  {
    ByNameRecordAt(fs, doc, i);
  }

  /** Filling a new RlValues by name stores under each name what its field's converter reads from the document. */
  lemma ByNameRecordAt(fs: seq<Field>, doc: Document, i: nat)
    requires NamesDistinct(fs) && i < |fs| && BuildRecord(ByNameAll(fs), doc, Free(map[])).Ok?
    ensures StringToValue(fs[i], Get(doc, fs[i].name)).Ok?
    ensures Lookup(BuildRecord(ByNameAll(fs), doc, Free(map[])).value.entries, fs[i].name) == StringToValue(fs[i], Get(doc, fs[i].name)).value
  {
    var gs := ByNameAll(fs);
    assert SlotsDistinct(gs) && SameKind(gs) by {
      assert forall k :: 0 <= k < |gs| ==> Slot(gs[k]) == fs[k].name && gs[k].javaField.None?;
    }
    BuildRecordSetsEvery(gs, doc, Free(map[]), i);
  }

  /** getPkTerm: null without a key field, otherwise the key's name and string value as a term. */
  function GetPkTerm(t: AnyTable, values: ValueMap): (r: Result<Option<Term>>)
    ensures t.index.pk.None? ==> r == Ok(None)
    ensures t.index.pk.Some? && Lookup(values, t.index.pk.value.name).None? ==> r == Err(NullPk)
    ensures t.index.pk.Some? ==> (r.Ok? <==> PkTerm(ByName(t.index.pk.value), Free(values)).Ok?)
    ensures r.Ok? && t.index.pk.Some? ==>
      r.value == Some(Term(t.index.pk.value.name, GetStringValue(ByName(t.index.pk.value), Free(values)).value.value))
  {
    match t.index.pk
    case None => Ok(None)
    case Some(pk) =>
      match PkTerm(ByName(pk), Free(values))
      case Err(e) => Err(e)
      case Ok(term) => Ok(Some(term))
  }

  function Join(ss: seq<string>, sep: string): string
  {
    if |ss| == 0 then "" else if |ss| == 1 then ss[0] else ss[0] + sep + Join(ss[1..], sep)
  }

  /** getTableName: the class's simple name followed by the field names, comma separated. */
  function TableName(t: AnyTable): (r: string)
    ensures |r| >= 10 && r[..10] == "RlAnyTable"
  {
    "RlAnyTable" + Join(seq(|t.index.fields|, i requires 0 <= i < |t.index.fields| => t.index.fields[i].name), ",")
  }
}

/** RlFieldMap: the field table of free-form RlValues records, read through each field's own access. */
module FieldMaps {
  import opened Wrappers
  import opened Values
  import opened Docs
  import opened Fields
  import opened FieldIndexes

  datatype FieldMap = FieldMap(index: FieldIndex)

  /** The constructor's loop. */
  method NewFieldMap(fs: seq<Field>) returns (r: Result<FieldMap>)
    ensures r.Ok? <==> NamesDistinct(fs) && AtMostOnePk(fs)
    ensures r.Ok? ==> Describes(r.value.index, fs)
    ensures r.Err? ==> r.error == MultiplePks || exists i :: 0 <= i < |fs| && r.error == DuplicateName(fs[i].name)
  {
    var ix := BuildIndex(fs);
    IndexSucceeds(fs);
    IndexRefusal(fs);
    if ix.Err? {
      return Err(ix.error);
    }
    r := Ok(FieldMap(ix.value));
  }

  /** getPkField: the key field, if any; in a built map one of its fields, marked as the key. */
  function GetPkField(m: FieldMap): (r: Option<Field>)
    ensures Describes(m.index, m.index.fields) && r.Some? ==> r.value.isPk && r.value in m.index.fields
    ensures Describes(m.index, m.index.fields) && r.None? ==> forall i :: 0 <= i < |m.index.fields| ==> !m.index.fields[i].isPk
  { m.index.pk }

  /** getFieldNames: the names in the map, which in a built map are the names of its fields. */
  function GetFieldNames(m: FieldMap): (r: set<string>)
    ensures Describes(m.index, m.index.fields) ==> r == NameSet(m.index.fields)
  { m.index.byName.Keys }

  /** getFieldByName: the registered field, or null; in a built map the field of that name. */
  function GetFieldByName(m: FieldMap, name: string): (r: Option<Field>)
    ensures r.Some? <==> name in GetFieldNames(m)
    ensures Describes(m.index, m.index.fields) && r.Some? ==> r.value.name == name && r.value in m.index.fields
  {
    if name in m.index.byName then Some(m.index.byName[name]) else None
  }

  /** getDocument. */
  method GetDocument(m: FieldMap, values: ValueMap) returns (r: Result<Document>)
    ensures r == BuildDocument(m.index.fields, Free(values))
  {
    r := FillDocument(m.index.fields, Free(values));
  }

  /** fromDocument. */
  method FromDocument(m: FieldMap, doc: Document) returns (r: Result<ValueMap>)
    ensures r.Ok? <==> BuildRecord(m.index.fields, doc, Free(map[])).Ok?
    ensures r.Ok? ==> Free(r.value) == BuildRecord(m.index.fields, doc, Free(map[])).value
  {
    var rec := FillRecord(m.index.fields, doc, Free(map[]));
    if rec.Err? {
      return Err(rec.error);
    }
    r := Ok(rec.value.entries);
  }

  /** getPkTerm. */
  function GetPkTerm(m: FieldMap, values: ValueMap): (r: Result<Option<Term>>)
    ensures m.index.pk.None? ==> r == Ok(None)
    ensures m.index.pk.Some? ==> (r.Ok? <==> PkTerm(m.index.pk.value, Free(values)).Ok?)
    ensures r.Ok? && m.index.pk.Some? ==> r.value == Some(PkTerm(m.index.pk.value, Free(values)).value)
  {
    match m.index.pk
    case None => Ok(None)
    case Some(pk) =>
      match PkTerm(pk, Free(values))
      case Err(e) => Err(e)
      case Ok(term) => Ok(Some(term))
  }

  /** fromDocument sets every free-form field from the document, and a missing entry becomes null. */
  lemma FromDocumentSetsEvery(m: FieldMap, fs: seq<Field>, doc: Document, i: nat)
    requires Describes(m.index, fs) && i < |fs|
    requires forall k :: 0 <= k < |fs| ==> fs[k].javaField.None?
    requires BuildRecord(fs, doc, Free(map[])).Ok?
    ensures StringToValue(fs[i], Get(doc, fs[i].name)).Ok?
    ensures Lookup(BuildRecord(fs, doc, Free(map[])).value.entries, fs[i].name) == StringToValue(fs[i], Get(doc, fs[i].name)).value
    ensures Get(doc, fs[i].name).None? ==> Lookup(BuildRecord(fs, doc, Free(map[])).value.entries, fs[i].name).None?
  {
    assert SlotsDistinct(fs) by {
      assert forall k :: 0 <= k < |fs| ==> Slot(fs[k]) == fs[k].name;
    }
    BuildRecordSetsEvery(fs, doc, Free(map[]), i);
  }
}

/** RlTable: a table of a record class, or a free-form table of given fields. */
module Tables {
  import opened Wrappers
  import opened Values
  import opened Docs
  import opened Fields
  import opened FieldIndexes
  import opened DeclaredFields

  datatype Table = Table(recordClass: Option<string>, index: FieldIndex)

  /** RlTable(Class): the persistent declared fields, each set up from its Java field, then init. */
  function TableOfClass(rc: RecordClass): (r: Result<Table>)
    ensures r.Ok? ==> r.value.recordClass == Some(rc.name)
    ensures r.Ok? ==> FieldsOf(PersistentFields(rc.declared)).Ok? &&
                      Describes(r.value.index, FieldsOf(PersistentFields(rc.declared)).value)
  {
    match FieldsOf(PersistentFields(rc.declared))
    case Err(e) => Err(e)
    case Ok(fs) =>
      match Index(fs)
      case Err(e) => Err(e)
      case Ok(ix) => Ok(Table(Some(rc.name), ix))
  }

  /** A reflected class builds a table exactly when every kept field passes its converter check and at most one is a key. */
  lemma TableOfClassSucceeds(rc: RecordClass)
    requires Reflected(rc)
    ensures TableOfClass(rc).Ok? <==>
      FieldsOf(PersistentFields(rc.declared)).Ok? && AtMostOnePk(FieldsOf(PersistentFields(rc.declared)).value)
  {
    PersistentKeepsReflected(rc);
    var js := PersistentFields(rc.declared);
    if FieldsOf(js).Ok? {
      var fs := FieldsOf(js).value;
      assert forall i :: 0 <= i < |fs| ==> fs[i].name == js[i].name;
      IndexSucceeds(fs);
    }
  }

  /** A table field of a class is never one of its transient or static fields. */
  lemma ClassFieldsPersistent(rc: RecordClass, i: nat)
    requires TableOfClass(rc).Ok? && i < |TableOfClass(rc).value.index.fields|
    ensures var jf := TableOfClass(rc).value.index.fields[i].javaField;
            jf.Some? && Persistent(jf.value) && jf.value in rc.declared
  {
    var js := PersistentFields(rc.declared);
    assert js[i] in js;
  }

  /** The constructor from a class, running init's loop. */
  method NewFromClass(rc: RecordClass) returns (r: Result<Table>)
    ensures r == TableOfClass(rc)
  {
    var fs := FieldsOf(PersistentFields(rc.declared));
    if fs.Err? {
      return Err(fs.error);
    }
    var ix := BuildIndex(fs.value);
    if ix.Err? {
      return Err(ix.error);
    }
    r := Ok(Table(Some(rc.name), ix.value));
  }

  /** The constructor from fields: a free-form table, no primary key needed. */
  method NewFromFields(fs: seq<Field>) returns (r: Result<Table>)
    ensures r.Ok? <==> NamesDistinct(fs) && AtMostOnePk(fs)
    ensures r.Ok? ==> r.value.recordClass.None? && Describes(r.value.index, fs)
    ensures r.Ok? && (forall i :: 0 <= i < |fs| ==> !fs[i].isPk) ==> r.value.index.pk.None?
  {
    var ix := BuildIndex(fs);
    IndexSucceeds(fs);
    if ix.Err? {
      return Err(ix.error);
    }
    r := Ok(Table(None, ix.value));
  }

  /** getRecordClass: the class a table's records belong to, or null for a free-form table that takes RlValues. */
  function GetRecordClass(t: Table): (r: Option<string>)
    ensures r.None? ==> forall obj :: Accepts(t, obj) <==> obj.Free?
    ensures r.Some? ==> forall obj :: Accepts(t, obj) <==> obj.Bean? && obj.cls == r.value
  { t.recordClass }

  /** getPkField: the key field, if any; in a built table one of its fields, marked as the key. */
  function GetPkField(t: Table): (r: Option<Field>)
    ensures Describes(t.index, t.index.fields) && r.Some? ==> r.value.isPk && r.value in t.index.fields
    ensures Describes(t.index, t.index.fields) && r.None? ==> forall i :: 0 <= i < |t.index.fields| ==> !t.index.fields[i].isPk
  { t.index.pk }

  /** getFieldNames: the names in the field map, which in a built table are the names of its fields. */
  function GetFieldNames(t: Table): (r: set<string>)
    ensures Describes(t.index, t.index.fields) ==> r == NameSet(t.index.fields)
  { t.index.byName.Keys }

  /** getFieldByName: the registered field, or null; in a built table the field of that name. */
  function GetFieldByName(t: Table, name: string): (r: Option<Field>)
    ensures r.Some? <==> name in GetFieldNames(t)
    ensures Describes(t.index, t.index.fields) && r.Some? ==> r.value.name == name && r.value in t.index.fields
  {
    if name in t.index.byName then Some(t.index.byName[name]) else None
  }

  /** The kind of object a table accepts: an RlValues without a record class, else an object of exactly that class. */
  predicate Accepts(t: Table, obj: Record)
  {
    match t.recordClass
    case None => obj.Free?
    case Some(c) => obj.Bean? && obj.cls == c
  }

  const WrongPkObject: Error := Rl("getPkTerm: the object is of the wrong class")
  const WrongDocObject: Error := Rl("getDocument: the object is of the wrong class")

  /** getPkTerm. */
  function GetPkTerm(t: Table, obj: Record): (r: Result<Option<Term>>)
    ensures t.index.pk.None? ==> r == Ok(None)
    ensures t.index.pk.Some? && !Accepts(t, obj) ==> r == Err(WrongPkObject)
    ensures t.index.pk.Some? && Accepts(t, obj) ==>
      (r.Ok? <==> PkTerm(t.index.pk.value, obj).Ok?) &&
      (r.Ok? ==> r.value == Some(PkTerm(t.index.pk.value, obj).value))
  {
    match t.index.pk
    case None => Ok(None)
    case Some(pk) =>
      if !Accepts(t, obj) then Err(WrongPkObject)
      else
        match PkTerm(pk, obj)
        case Err(e) => Err(e)
        case Ok(term) => Ok(Some(term))
  }

  /** getDocument: the object kind is checked first, then every field is added unless its value is null. */
  method GetDocument(t: Table, obj: Record) returns (r: Result<Document>)
    ensures !Accepts(t, obj) ==> r == Err(WrongDocObject)
    ensures Accepts(t, obj) ==> r == BuildDocument(t.index.fields, obj)
  {
    if !Accepts(t, obj) {
      return Err(WrongDocObject);
    }
    r := FillDocument(t.index.fields, obj);
  }

  /** The fresh record fromDocument fills: a new RlValues, or a new instance whose default slots are `blank` (none when newInstance fails). */
  function Blank(t: Table, blank: Option<ValueMap>): (r: Result<Record>)
    ensures t.recordClass.None? ==> r == Ok(Free(map[]))
    ensures t.recordClass.Some? ==> (r.Ok? <==> blank.Some?)
    ensures t.recordClass.Some? && blank.Some? ==> r == Ok(Bean(t.recordClass.value, blank.value))
  {
    match t.recordClass
    case None => Ok(Free(map[]))
    case Some(c) =>
      match blank
      case None => Err(Rl("cannot create an instance of " + c))
      case Some(slots) => Ok(Bean(c, slots))
  }

  /** fromDocument. */
  method FromDocument(t: Table, doc: Document, blank: Option<ValueMap>) returns (r: Result<Record>)
    ensures Blank(t, blank).Err? ==> r == Blank(t, blank)
    ensures Blank(t, blank).Ok? ==> r == BuildRecord(t.index.fields, doc, Blank(t, blank).value)
    ensures r.Ok? ==> Accepts(t, r.value)
  {
    var start := Blank(t, blank);
    if start.Err? {
      return start;
    }
    r := FillRecord(t.index.fields, doc, start.value);
  }

  /** A class table's fromDocument sets every field from the document, null where the document has none. */
  lemma ClassFromDocumentSetsEvery(rc: RecordClass, doc: Document, slots: ValueMap, i: nat)
    requires Reflected(rc) && TableOfClass(rc).Ok?
    requires var t := TableOfClass(rc).value; i < |t.index.fields| && BuildRecord(t.index.fields, doc, Bean(rc.name, slots)).Ok?
    ensures var t := TableOfClass(rc).value;
            var f := t.index.fields[i];
            StringToValue(f, Get(doc, f.name)).Ok? &&
            GetValue(f, BuildRecord(t.index.fields, doc, Bean(rc.name, slots)).value) == Ok(StringToValue(f, Get(doc, f.name)).value)
  {
    var fs := TableOfClass(rc).value.index.fields;
    ClassSlotsDistinct(rc);
    BuildRecordSetsEvery(fs, doc, Bean(rc.name, slots), i);
  }

  /** The fields of a reflected class's table are declared by that class, under distinct slots. */
  lemma ClassSlotsDistinct(rc: RecordClass)
    requires Reflected(rc) && TableOfClass(rc).Ok?
    ensures SlotsDistinct(TableOfClass(rc).value.index.fields) && SameKind(TableOfClass(rc).value.index.fields)
  {
    var js := PersistentFields(rc.declared);
    PersistentKeepsReflected(rc);
    JavaSlotsDistinct(TableOfClass(rc).value.index.fields, RecordClass(rc.name, js));
  }

  /** Fields made from the declared fields of one reflected class have distinct slots of that class. */
  lemma JavaSlotsDistinct(fs: seq<Field>, rc: RecordClass)
    requires Reflected(rc) && |fs| == |rc.declared|
    requires forall k :: 0 <= k < |fs| ==> fs[k] == FromJavaField(rc.declared[k])
    ensures SlotsDistinct(fs) && SameKind(fs)
  {
  }
}

/** RlClassTable: a record class's table, kept as an RlAnyTable and reached through RlValues conversions. */
module ClassTables {
  import opened Wrappers
  import opened Values
  import opened Docs
  import opened Fields
  import opened FieldIndexes
  import opened DeclaredFields
  import opened AnyTables
  import Tables

  datatype ClassTable = ClassTable(recordClass: string, table: AnyTable)

  /** The constructor: persistent declared fields only, then RlAnyTable's checks. */
  function ClassTableOf(rc: RecordClass): (r: Result<ClassTable>)
    ensures r.Ok? ==> r.value.recordClass == rc.name
    ensures r.Ok? <==> FieldsOf(PersistentFields(rc.declared)).Ok? && AnyTableOf(FieldsOf(PersistentFields(rc.declared)).value).Ok?
  {
    match FieldsOf(PersistentFields(rc.declared))
    case Err(e) => Err(e)
    case Ok(fs) =>
      match AnyTableOf(fs)
      case Err(e) => Err(e)
      case Ok(t) => Ok(ClassTable(rc.name, t))
  }

  /** Two key fields among the persistent ones refuse the class. */
  lemma TwoPksRefused(rc: RecordClass, i: nat, j: nat)
    requires FieldsOf(PersistentFields(rc.declared)).Ok?
    requires var fs := FieldsOf(PersistentFields(rc.declared)).value; i < j < |fs| && fs[i].isPk && fs[j].isPk
    ensures ClassTableOf(rc).Err?
  {
  }

  /** Every field of a class table is a persistent declared field. */
  lemma FieldsArePersistent(rc: RecordClass, i: nat)
    requires ClassTableOf(rc).Ok? && i < |ClassTableOf(rc).value.table.index.fields|
    ensures var jf := ClassTableOf(rc).value.table.index.fields[i].javaField;
            jf.Some? && Persistent(jf.value) && jf.value in rc.declared
  {
    var js := PersistentFields(rc.declared);
    assert js[i] in js;
  }

  /** A class table as its constructor leaves it: its fields registered under distinct names. */
  predicate Built(t: ClassTable) { Describes(t.table.index, t.table.index.fields) }

  /** convertToValues over the given fields: each field's slot, put under the field's name. */
  function SlotValues(fs: seq<Field>, cls: string, slots: ValueMap): (r: Result<ValueMap>)
    ensures r.Ok? <==> forall i :: 0 <= i < |fs| ==> GetValue(fs[i], Bean(cls, slots)).Ok?
    ensures r.Ok? ==> r.value.Keys == NameSet(fs)
    decreases |fs|
  {
    if fs == [] then Ok(map[])
    else
      var init := fs[..|fs| - 1];
      var f := fs[|fs| - 1];
      assert fs == init + [f];
      NameSetAppend(init, f);
      match SlotValues(init, cls, slots)
      case Err(e) => Err(e)
      case Ok(m) =>
        match GetValue(f, Bean(cls, slots))
        case Err(_) => Err(Wrapped)
        case Ok(v) => Ok(m[f.name := v])
  }

  /** With distinct names, the entry under each field's name is what that field reads from the object. */
  lemma SlotValuesMeaning(fs: seq<Field>, cls: string, slots: ValueMap)
    requires NamesDistinct(fs) && SlotValues(fs, cls, slots).Ok?
    ensures forall i :: 0 <= i < |fs| ==>
              GetValue(fs[i], Bean(cls, slots)) == Ok(Lookup(SlotValues(fs, cls, slots).value, fs[i].name))
  {
    assert fs[..|fs|] == fs;
    forall i | 0 <= i < |fs| {
      SlotValuesAt(fs, cls, slots, |fs|, i);
    }
  }

  /** The same over the first `k` fields: field `i` among them finds its own value. */
  lemma {:induction false} SlotValuesAt(fs: seq<Field>, cls: string, slots: ValueMap, k: nat, i: nat)
    requires NamesDistinct(fs) && i < k <= |fs| && SlotValues(fs[..k], cls, slots).Ok?
    ensures GetValue(fs[i], Bean(cls, slots)) == Ok(Lookup(SlotValues(fs[..k], cls, slots).value, fs[i].name))
    decreases k
  {
    assert fs[..k][..k - 1] == fs[..k - 1];
    var m := SlotValues(fs[..k - 1], cls, slots).value;
    var f := fs[k - 1];
    assert SlotValues(fs[..k], cls, slots).value == m[f.name := GetValue(f, Bean(cls, slots)).value];
    if i < k - 1 {
      SlotValuesAt(fs, cls, slots, k - 1, i);
      assert fs[i].name != f.name;
    }
  }

  /** convertToValues: an RlValues passes through; an object of the class becomes the values its fields read. */
  function ConvertToValues(t: ClassTable, obj: Record): (r: Result<ValueMap>)
    ensures obj.Free? ==> r == Ok(obj.entries)
    ensures obj.Bean? ==> (r.Ok? <==> forall i :: 0 <= i < |t.table.index.fields| ==> GetValue(t.table.index.fields[i], obj).Ok?)
    ensures obj.Bean? && r.Ok? ==> r.value.Keys == NameSet(t.table.index.fields)
    ensures obj.Bean? && r.Ok? && Built(t) ==>
      forall i :: 0 <= i < |t.table.index.fields| ==>
        GetValue(t.table.index.fields[i], obj) == Ok(Lookup(r.value, t.table.index.fields[i].name))
  {
    match obj
    case Free(m) => Ok(m)
    case Bean(cls, slots) =>
      var fs := t.table.index.fields;
      if Built(t) && SlotValues(fs, cls, slots).Ok? then
        SlotValuesMeaning(fs, cls, slots);
        SlotValues(fs, cls, slots)
      else
        SlotValues(fs, cls, slots)
  }

  /** convertFromValues: without a record class the values themselves; otherwise a new instance with every field set. */
  function ConvertFromValues(recordClass: Option<string>, fs: seq<Field>, values: ValueMap, blank: Option<ValueMap>): (r: Result<Record>)
    ensures recordClass.None? ==> r == Ok(Free(values))
    ensures recordClass.Some? && blank.None? ==> r == Err(Wrapped)
    ensures recordClass.Some? && r.Ok? ==> r.value.Bean? && r.value.cls == recordClass.value
    decreases |fs|
  {
    match recordClass
    case None => Ok(Free(values))
    case Some(c) =>
      if blank.None? then Err(Wrapped)
      else if fs == [] then Ok(Bean(c, blank.value))
      else
        var f := fs[|fs| - 1];
        match ConvertFromValues(recordClass, fs[..|fs| - 1], values, blank)
        case Err(e) => Err(e)
        case Ok(obj) =>
          match SetValue(f, obj, Lookup(values, f.name))
          case Err(_) => Err(Wrapped)
          case Ok(next) => Ok(next)
  }

  /** After convertFromValues, every field of distinct slots reads the value stored under its name. */
  lemma {:induction false} ConvertFromValuesSetsEvery(c: string, fs: seq<Field>, values: ValueMap, blank: Option<ValueMap>, i: nat)
    requires SlotsDistinct(fs) && SameKind(fs) && i < |fs| && ConvertFromValues(Some(c), fs, values, blank).Ok?
    ensures GetValue(fs[i], ConvertFromValues(Some(c), fs, values, blank).value) == Ok(Lookup(values, fs[i].name))
    decreases |fs|
  {
    var init := fs[..|fs| - 1];
    var last := fs[|fs| - 1];
    assert forall k :: 0 <= k < |init| ==> init[k] == fs[k];
    if i < |fs| - 1 {
      assert SlotsDistinct(init) && SameKind(init);
      ConvertFromValuesSetsEvery(c, init, values, blank, i);
      GetAfterOtherSet(fs[i], last, ConvertFromValues(Some(c), init, values, blank).value, Lookup(values, last.name));
    }
  }

  /** Reading fields by name from values that hold what each field reads from an object gives the object's own document. */
  lemma ByNameDocument(fs: seq<Field>, obj: Record, values: ValueMap)
    requires forall i :: 0 <= i < |fs| ==> GetValue(fs[i], obj) == Ok(Lookup(values, fs[i].name))
    ensures BuildDocument(ByNameAll(fs), Free(values)) == BuildDocument(fs, obj)
  {
    ByNameDocumentPrefix(fs, obj, values, |fs|);
    assert ByNameAll(fs)[..|fs|] == ByNameAll(fs) && fs[..|fs|] == fs;
  }

  lemma {:induction false} ByNameDocumentPrefix(fs: seq<Field>, obj: Record, values: ValueMap, k: nat)
    requires k <= |fs|
    requires forall i :: 0 <= i < |fs| ==> GetValue(fs[i], obj) == Ok(Lookup(values, fs[i].name))
    ensures BuildDocument(ByNameAll(fs)[..k], Free(values)) == BuildDocument(fs[..k], obj)
    decreases k
  {
    if k > 0 {
      var gs := ByNameAll(fs);
      assert gs[..k][..k - 1] == gs[..k - 1];
      assert fs[..k][..k - 1] == fs[..k - 1];
      ByNameDocumentPrefix(fs, obj, values, k - 1);
      ByNameLuceneField(fs[k - 1], obj, values);
    }
  }

  /** One field read by name from such values gives the index field it gives for the object. */
  lemma ByNameLuceneField(f: Field, obj: Record, values: ValueMap)
    requires GetValue(f, obj) == Ok(Lookup(values, f.name))
    ensures GetLuceneField(ByName(f), Free(values)) == GetLuceneField(f, obj)
  {
    assert GetStringValue(ByName(f), Free(values)) == GetStringValue(f, obj);
  }

  /** getPkField: the key field, if any; in a built table one of its fields, marked as the key. */
  function GetPkField(t: ClassTable): (r: Option<Field>)
    ensures Built(t) && r.Some? ==> r.value.isPk && r.value in t.table.index.fields
    ensures Built(t) && r.None? ==> forall i :: 0 <= i < |t.table.index.fields| ==> !t.table.index.fields[i].isPk
  { t.table.index.pk }

  /** getFieldNames: the names of the underlying table's fields. */
  function GetFieldNames(t: ClassTable): (r: set<string>)
    ensures Built(t) ==> r == NameSet(t.table.index.fields)
  { AnyTables.GetFieldNames(t.table) }

  /** getFieldByName: the underlying table's field of that name, or null. */
  function GetFieldByName(t: ClassTable, name: string): (r: Option<Field>)
    ensures r.Some? <==> name in GetFieldNames(t)
    ensures Built(t) && r.Some? ==> r.value.name == name && r.value in t.table.index.fields
  { AnyTables.GetFieldByName(t.table, name) }

  /** The key field read by name from such values gives the object's own key term. */
  lemma ByNamePkTerm(fs: seq<Field>, pk: Field, obj: Record, values: ValueMap)
    requires pk in fs
    requires forall i :: 0 <= i < |fs| ==> GetValue(fs[i], obj) == Ok(Lookup(values, fs[i].name))
    ensures PkTerm(ByName(pk), Free(values)) == PkTerm(pk, obj)
  {
    var k :| 0 <= k < |fs| && fs[k] == pk;
    assert GetValue(pk, obj) == GetValue(ByName(pk), Free(values));
  }

  /** getPkTerm: null without a key field, before any conversion; for an object of the class, its key's term. */
  function GetPkTerm(t: ClassTable, obj: Record): (r: Result<Option<Term>>)
    ensures t.table.index.pk.None? ==> r == Ok(None)
    ensures t.table.index.pk.Some? && obj.Free? ==> r == AnyTables.GetPkTerm(t.table, obj.entries)
    ensures t.table.index.pk.Some? && ConvertToValues(t, obj).Err? ==> r.Err?
    ensures t.table.index.pk.Some? && obj.Bean? && Built(t) && ConvertToValues(t, obj).Ok? ==>
      r == match PkTerm(t.table.index.pk.value, obj) case Err(e) => Err(e) case Ok(term) => Ok(Some(term))
  {
    if t.table.index.pk.None? then Ok(None)
    else
      match ConvertToValues(t, obj)
      case Err(e) => Err(e)
      case Ok(values) =>
        if obj.Bean? && Built(t) then
          ByNamePkTerm(t.table.index.fields, t.table.index.pk.value, obj, values);
          AnyTables.GetPkTerm(t.table, values)
        else
          AnyTables.GetPkTerm(t.table, values)
  }

  /** getDocument: the document of the converted values, which for an object of the class is the object's own document. */
  function GetDocument(t: ClassTable, obj: Record): (r: Result<Document>)
    ensures obj.Free? ==> r == AnyTables.GetDocument(t.table, obj.entries)
    ensures ConvertToValues(t, obj).Err? ==> r.Err? && BuildDocument(t.table.index.fields, obj).Err?
    ensures obj.Bean? && Built(t) && ConvertToValues(t, obj).Ok? ==> r == BuildDocument(t.table.index.fields, obj)
  {
    match ConvertToValues(t, obj)
    case Err(e) => Err(e)
    case Ok(values) =>
      if obj.Bean? && Built(t) then
        ByNameDocument(t.table.index.fields, obj, values);
        AnyTables.GetDocument(t.table, values)
      else
        AnyTables.GetDocument(t.table, values)
  }

  /** fromDocument. */
  function FromDocument(t: ClassTable, doc: Document, blank: Option<ValueMap>): (r: Result<Record>)
    ensures r.Ok? ==> r.value.Bean? && r.value.cls == t.recordClass
  {
    match AnyTables.FromDocument(t.table, doc)
    case Err(e) => Err(e)
    case Ok(values) => ConvertFromValues(Some(t.recordClass), t.table.index.fields, values, blank)
  }

  /** A class table's fromDocument sets every field from the document's string under its name, null where there is none. */
  lemma FromDocumentReadsFields(rc: RecordClass, doc: Document, blank: Option<ValueMap>, i: nat)
    requires Reflected(rc) && ClassTableOf(rc).Ok?
    requires var t := ClassTableOf(rc).value; i < |t.table.index.fields| && FromDocument(t, doc, blank).Ok?
    ensures var t := ClassTableOf(rc).value;
            var f := t.table.index.fields[i];
            StringToValue(f, Get(doc, f.name)).Ok? &&
            GetValue(f, FromDocument(t, doc, blank).value) == Ok(StringToValue(f, Get(doc, f.name)).value)
  {
    ClassTableSlots(rc);
    FromDocumentSetsAt(ClassTableOf(rc).value, doc, blank, i);
  }

  /** The fields of a reflected class's table have distinct slots of that class, as RlTable's do. */
  lemma ClassTableSlots(rc: RecordClass)
    requires Reflected(rc) && ClassTableOf(rc).Ok?
    ensures var fs := ClassTableOf(rc).value.table.index.fields;
            Built(ClassTableOf(rc).value) && SlotsDistinct(fs) && SameKind(fs)
  {
    assert Tables.TableOfClass(rc).Ok?;
    Tables.ClassSlotsDistinct(rc);
  }

  lemma FromDocumentSetsAt(t: ClassTable, doc: Document, blank: Option<ValueMap>, i: nat)
    requires Built(t) && SlotsDistinct(t.table.index.fields) && SameKind(t.table.index.fields)
    requires i < |t.table.index.fields| && FromDocument(t, doc, blank).Ok?
    ensures var f := t.table.index.fields[i];
            StringToValue(f, Get(doc, f.name)).Ok? &&
            GetValue(f, FromDocument(t, doc, blank).value) == Ok(StringToValue(f, Get(doc, f.name)).value)
  {
    var fs := t.table.index.fields;
    ByNameRecordAt(fs, doc, i);
    var values := AnyTables.FromDocument(t.table, doc).value;
    ConvertFromValuesSetsEvery(t.recordClass, fs, values, blank, i);
  }

  /** getTableName: the record class's name. */
  function TableName(t: ClassTable): (r: string)
    ensures r == t.recordClass
  {
    t.recordClass
  }
}
