/**
 * RlTableSet: the tables of one database. A field name may appear in one
 * table only, and a record class may back one table only; free-form tables
 * have no record class and are not registered by class.
 */
module TableSets {
  import opened Wrappers
  import opened Fields
  import opened FieldIndexes
  import opened DeclaredFields
  import opened Tables

  /** A table as its constructors leave it. */
  predicate Built(t: Table) { Describes(t.index, t.index.fields) }

  /** The field names of tables, and the record classes of those that have one. */
  function NamesOf(ts: seq<Table>): set<string>
  {
    if ts == [] then {} else NamesOf(ts[..|ts| - 1]) + ts[|ts| - 1].index.byName.Keys
  }

  function ClassesOf(ts: seq<Table>): set<string>
  {
    if ts == [] then {}
    else ClassesOf(ts[..|ts| - 1]) + (match ts[|ts| - 1].recordClass case None => {} case Some(c) => {c})
  }

  /** No table uses a field name that an earlier table uses. */
  predicate NamesDisjoint(ts: seq<Table>)
  {
    ts == [] || (NamesDisjoint(ts[..|ts| - 1]) && NamesOf(ts[..|ts| - 1]) !! ts[|ts| - 1].index.byName.Keys)
  }

  /** No table has a record class that an earlier table has. */
  predicate ClassesUnique(ts: seq<Table>)
  {
    ts == [] ||
    (ClassesUnique(ts[..|ts| - 1]) &&
     (ts[|ts| - 1].recordClass.Some? ==> ts[|ts| - 1].recordClass.value !in ClassesOf(ts[..|ts| - 1])))
  }

  lemma {:induction false} NamesOfHas(ts: seq<Table>, k: nat, n: string)
    requires k < |ts| && n in ts[k].index.byName
    ensures n in NamesOf(ts)
    decreases |ts|
  {
    if k < |ts| - 1 {
      assert ts[..|ts| - 1][k] == ts[k];
      NamesOfHas(ts[..|ts| - 1], k, n);
    }
  }

  lemma {:induction false} NamesOfOwner(ts: seq<Table>, n: string) returns (k: nat)
    requires n in NamesOf(ts)
    ensures k < |ts| && n in ts[k].index.byName
    decreases |ts|
  {
    if n in ts[|ts| - 1].index.byName {
      k := |ts| - 1;
    } else {
      k := NamesOfOwner(ts[..|ts| - 1], n);
      assert ts[..|ts| - 1][k] == ts[k];
    }
  }

  /** The recursive condition is the pairwise one: no name shared by two tables. */
  lemma {:induction false} NamesDisjointPairwise(ts: seq<Table>)
    ensures NamesDisjoint(ts) <==>
      forall i, j, n :: 0 <= i < j < |ts| && n in ts[i].index.byName ==> n !in ts[j].index.byName
    decreases |ts|
  {
    if ts != [] {
      var init := ts[..|ts| - 1];
      NamesDisjointPairwise(init);
      assert forall i :: 0 <= i < |init| ==> init[i] == ts[i];
      if NamesDisjoint(ts) {
        forall i, j, n | 0 <= i < j < |ts| && n in ts[i].index.byName
          ensures n !in ts[j].index.byName
        {
          if j == |ts| - 1 { NamesOfHas(init, i, n); }
        }
      } else if NamesDisjoint(init) {
        var n :| n in NamesOf(init) && n in ts[|ts| - 1].index.byName;
        var k := NamesOfOwner(init, n);
        assert n in ts[k].index.byName && n in ts[|ts| - 1].index.byName;
      }
    }
  }

  lemma ClassesOfSnoc(ts: seq<Table>, t: Table)
    ensures ClassesOf(ts + [t]) == ClassesOf(ts) + (match t.recordClass case None => {} case Some(c) => {c})
    ensures NamesOf(ts + [t]) == NamesOf(ts) + t.index.byName.Keys
  {
    assert (ts + [t])[..|ts|] == ts;
  }

  /** One more table: the conditions on the longer prefix are those on the shorter one plus the new table's. */
  lemma PrefixStep(ts: seq<Table>, i: nat)
    requires i < |ts|
    ensures ts[..i + 1] == ts[..i] + [ts[i]]
    ensures NamesDisjoint(ts[..i + 1]) <==> NamesDisjoint(ts[..i]) && NamesOf(ts[..i]) !! ts[i].index.byName.Keys
    ensures ClassesUnique(ts[..i + 1]) <==>
      ClassesUnique(ts[..i]) && (ts[i].recordClass.Some? ==> ts[i].recordClass.value !in ClassesOf(ts[..i]))
  {
    assert ts[..i + 1][..i] == ts[..i];
  }

  function DuplicateField(name: string): Error { Rl("duplicate field name across tables: " + name) }

  function DuplicateClass(c: string): Error { Rl("duplicate record class: " + c) }

  class TableSet {
    var tables: seq<Table>
    var fieldToTable: map<string, Table>
    var recordToTable: map<string, Table>

    /** What setup leaves behind: each name maps to its own table, each class to its table. */
    ghost predicate Valid()
      reads this
    {
      && (forall i :: 0 <= i < |tables| ==> Built(tables[i]))
      && NamesDisjoint(tables) && ClassesUnique(tables)
      && FieldMaps(tables) && ClassMaps(tables)
    }

    /** The name map describes exactly `ts`. */
    ghost predicate FieldMaps(ts: seq<Table>)
      reads this
    {
      && fieldToTable.Keys == NamesOf(ts)
      && (forall n :: n in fieldToTable ==> n in fieldToTable[n].index.byName && fieldToTable[n] in ts)
    }

    /** The class map describes exactly `ts`. */
    ghost predicate ClassMaps(ts: seq<Table>)
      reads this
    {
      && recordToTable.Keys == ClassesOf(ts)
      && (forall c :: c in recordToTable ==> recordToTable[c].recordClass == Some(c) && recordToTable[c] in ts)
    }

    constructor ()
      ensures tables == [] && fieldToTable == map[] && recordToTable == map[]
    {
      tables := [];
      fieldToTable := map[];
      recordToTable := map[];
    }

    /** setup: register every table's field names, then its record class, refusing any repeat. */
    method Setup(ts: seq<Table>) returns (r: Result<()>)
      requires forall i :: 0 <= i < |ts| ==> Built(ts[i])
      modifies this
      ensures tables == ts
      ensures r.Ok? <==> NamesDisjoint(ts) && ClassesUnique(ts)
      ensures r.Ok? ==> Valid()
      ensures r.Err? ==> (exists n :: r.error == DuplicateField(n)) || (exists c :: r.error == DuplicateClass(c))
    {
      tables := ts;
      fieldToTable := map[];
      recordToTable := map[];
      var i := 0;
      while i < |ts|
        invariant 0 <= i <= |ts| && tables == ts
        invariant NamesDisjoint(ts[..i]) && ClassesUnique(ts[..i])
        invariant FieldMaps(ts[..i]) && ClassMaps(ts[..i])
      {
        var t := ts[i];
        PrefixStep(ts, i);
        var added := AddFieldNames(t, ts[..i]);
        if added.Err? {
          r := added;
          NotDisjointExtends(ts, i + 1);
          return;
        }
        var registered := AddRecordClass(t, ts[..i]);
        if registered.Err? {
          r := registered;
          NotUniqueExtends(ts, i + 1);
          return;
        }
        i := i + 1;
      }
      assert ts[..i] == ts;
      r := Ok(());
    }

    /** The inner loop of setup: one table's field names, each refused if an earlier table has it. */
    method AddFieldNames(t: Table, ghost done: seq<Table>) returns (r: Result<()>)
      requires Built(t) && FieldMaps(done)
      modifies this
      ensures tables == old(tables) && recordToTable == old(recordToTable)
      ensures r.Ok? <==> NamesOf(done) !! t.index.byName.Keys
      ensures r.Ok? ==> FieldMaps(done + [t])
      ensures r.Err? ==> exists n :: r.error == DuplicateField(n)
    {
      ClassesOfSnoc(done, t);
      var fs := t.index.fields;
      var j := 0;
      while j < |fs|
        invariant 0 <= j <= |fs|
        invariant tables == old(tables) && recordToTable == old(recordToTable)
        invariant fieldToTable.Keys == NamesOf(done) + NameSet(fs[..j])
        invariant NamesOf(done) !! NameSet(fs[..j])
        invariant forall n :: n in fieldToTable ==> n in fieldToTable[n].index.byName && fieldToTable[n] in done + [t]
      {
        var name := fs[j].name;
        NextName(t, j);
        if name in fieldToTable {
          return Err(DuplicateField(name));
        }
        fieldToTable := fieldToTable[name := t];
        j := j + 1;
      }
      assert fs[..j] == fs;
      r := Ok(());
    }

    /** The class step of setup: a table's record class, refused if an earlier table has it. */
    method AddRecordClass(t: Table, ghost done: seq<Table>) returns (r: Result<()>)
      requires ClassMaps(done)
      modifies this
      ensures tables == old(tables) && fieldToTable == old(fieldToTable)
      ensures r.Ok? <==> (t.recordClass.Some? ==> t.recordClass.value !in ClassesOf(done))
      ensures r.Ok? ==> ClassMaps(done + [t])
      ensures r.Err? ==> t.recordClass.Some? && r.error == DuplicateClass(t.recordClass.value)
    {
      ClassesOfSnoc(done, t);
      r := Ok(());
      if t.recordClass.Some? {
        var c := t.recordClass.value;
        if c in recordToTable {
          return Err(DuplicateClass(c));
        }
        recordToTable := recordToTable[c := t];
      }
    }

    /** getTable: the table of a record class, or null. */
    function GetTable(c: string): (r: Option<Table>)
      reads this
      ensures Valid() ==> (r.Some? <==> c in ClassesOf(tables))
      ensures Valid() && r.Some? ==> r.value in tables && r.value.recordClass == Some(c)
    {
      if c in recordToTable then Some(recordToTable[c]) else None
    }

    /** getFieldByName: the owning table's field, or null for an unknown name. */
    function GetFieldByName(name: string): (r: Option<Field>)
      reads this
      ensures Valid() ==> (r.Some? <==> name in NamesOf(tables))
      ensures Valid() && r.Some? ==> exists i :: 0 <= i < |tables| && Tables.GetFieldByName(tables[i], name) == r
    {
      if name in fieldToTable then Tables.GetFieldByName(fieldToTable[name], name) else None
    }

    /** getTables: the tables in the order given. */
    function GetTables(): (r: seq<Table>)
      reads this
      ensures r == tables
    {
      tables
    }
  }

  /** The j-th field of a built table brings a new name, one the table owns. */
  lemma NextName(t: Table, j: nat)
    requires Built(t) && j < |t.index.fields|
    ensures var fs := t.index.fields;
            && NameSet(fs[..j + 1]) == NameSet(fs[..j]) + {fs[j].name}
            && fs[j].name !in NameSet(fs[..j])
            && fs[j].name in t.index.byName
  {
    var fs := t.index.fields;
    assert fs[..j + 1] == fs[..j] + [fs[j]];
    NameSetAppend(fs[..j], fs[j]);
    assert t.index.byName[fs[j].name] == fs[j];
  }

  lemma {:induction false} NotDisjointExtends(ts: seq<Table>, k: nat)
    requires k <= |ts| && !NamesDisjoint(ts[..k])
    ensures !NamesDisjoint(ts)
    decreases |ts| - k
  {
    if k < |ts| {
      assert ts[..k + 1][..k] == ts[..k];
      NotDisjointExtends(ts, k + 1);
    } else {
      assert ts[..k] == ts;
    }
  }

  lemma {:induction false} NotUniqueExtends(ts: seq<Table>, k: nat)
    requires k <= |ts| && !ClassesUnique(ts[..k])
    ensures !ClassesUnique(ts)
    decreases |ts| - k
  {
    if k < |ts| {
      assert ts[..k + 1][..k] == ts[..k];
      NotUniqueExtends(ts, k + 1);
    } else {
      assert ts[..k] == ts;
    }
  }

  /** In a valid set, a name owned by table i finds table i's field. */
  lemma FieldOfOwner(s: TableSet, i: nat, name: string)
    requires s.Valid() && i < |s.tables| && name in s.tables[i].index.byName
    ensures s.GetFieldByName(name) == Some(s.tables[i].index.byName[name])
  {
    NamesOfHas(s.tables, i, name);
    var j := Position(s.tables, s.fieldToTable[name]);
    SameOwner(s.tables, i, j, name);
  }

  lemma Position(ts: seq<Table>, t: Table) returns (j: nat)
    requires t in ts
    ensures j < |ts| && ts[j] == t
  {
    j :| 0 <= j < |ts| && ts[j] == t;
  }

  /** Under disjoint names, two tables that own the same name are the same table. */
  lemma SameOwner(ts: seq<Table>, i: nat, j: nat, name: string)
    requires NamesDisjoint(ts) && i < |ts| && j < |ts|
    requires name in ts[i].index.byName && name in ts[j].index.byName
    ensures i == j
  {
    NamesDisjointPairwise(ts);
  }

  /** Factory.create(tables). */
  method Create(ts: seq<Table>) returns (r: Result<TableSet>)
    requires forall i :: 0 <= i < |ts| ==> Built(ts[i])
    ensures r.Ok? <==> NamesDisjoint(ts) && ClassesUnique(ts)
    ensures r.Ok? ==> fresh(r.value) && r.value.Valid() && r.value.tables == ts
  {
    var impl := new TableSet();
    var setup := impl.Setup(ts);
    if setup.Err? {
      return Err(setup.error);
    }
    r := Ok(impl);
  }

  /** The tables of classes that all build, in the classes' order. */
  function TablesOf(rcs: seq<RecordClass>): (r: seq<Table>)
    requires forall i :: 0 <= i < |rcs| ==> TableOfClass(rcs[i]).Ok?
    ensures |r| == |rcs| && forall i :: 0 <= i < |rcs| ==> r[i] == TableOfClass(rcs[i]).value
  {
    seq(|rcs|, i requires 0 <= i < |rcs| => TableOfClass(rcs[i]).value)
  }

  /** Factory.create(classes)'s loop: the table of each class, in order; the first class refused stops it. */
  method NewTables(rcs: seq<RecordClass>) returns (r: Result<seq<Table>>)
    ensures r.Ok? <==> forall i :: 0 <= i < |rcs| ==> TableOfClass(rcs[i]).Ok?
    ensures r.Ok? ==> r.value == TablesOf(rcs)
  {
    var tables: seq<Table> := [];
    var i := 0;
    while i < |rcs|
      invariant 0 <= i <= |rcs| && |tables| == i
      invariant forall k :: 0 <= k < i ==> TableOfClass(rcs[k]) == Ok(tables[k])
    {
      var t := NewFromClass(rcs[i]);
      if t.Err? {
        return Err(t.error);
      }
      ghost var before := tables;
      tables := tables + [t.value];
      assert forall k :: 0 <= k < i ==> tables[k] == before[k];
      i := i + 1;
    }
    r := Ok(tables);
  }

  /** Factory.create(classes): one table per class, in order, then the set. */
  method CreateFromClasses(rcs: seq<RecordClass>) returns (r: Result<TableSet>)
    ensures r.Ok? ==> forall i :: 0 <= i < |rcs| ==> TableOfClass(rcs[i]).Ok?
    ensures r.Ok? ==> fresh(r.value) && r.value.Valid() && |r.value.tables| == |rcs|
    ensures r.Ok? ==> forall i :: 0 <= i < |rcs| ==> r.value.tables[i] == TableOfClass(rcs[i]).value
    ensures (exists i :: 0 <= i < |rcs| && TableOfClass(rcs[i]).Err?) ==> r.Err?
    ensures (forall i :: 0 <= i < |rcs| ==> TableOfClass(rcs[i]).Ok?) ==>
      (r.Ok? <==> NamesDisjoint(TablesOf(rcs)) && ClassesUnique(TablesOf(rcs)))
  {
    var tables := NewTables(rcs);
    if tables.Err? {
      return Err(tables.error);
    }
    r := Create(tables.value);
  }
}
