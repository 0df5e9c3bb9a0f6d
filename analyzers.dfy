/**
 * PerFieldAnalyzerCreator: the per-field analyzer of a database's index
 * writer. Every tokenized field of every table gets an entry under its name
 * that defers to that field's own analyzer; untokenized fields get none, and
 * there is no default analyzer.
 */
module FieldAnalyzers {
  import opened Wrappers
  import opened Fields
  import opened FieldIndexes
  import opened Tables
  import opened TableSets

  /** A PerFieldAnalyzerWrapper: the default analyzer, and the field whose analyzer serves each name. */
  datatype PerField = PerField(defaultAnalyzer: Option<string>, perField: map<string, Field>)

  /** The inner loop over one table's fields. */
  function TokenizedMap(fs: seq<Field>): (m: map<string, Field>)
    ensures m.Keys == TokenizedNames(fs)
    ensures forall n :: n in m ==> m[n].tokenized && m[n].name == n && m[n] in fs
    decreases |fs|
  {
    if fs == [] then map[]
    else
      var init := fs[..|fs| - 1];
      var f := fs[|fs| - 1];
      var m := TokenizedMap(init);
      assert forall i :: 0 <= i < |init| ==> init[i] == fs[i];
      if f.tokenized then m[f.name := f] else m
  }

  /** Both loops over the tables in order; a later put under the same name wins. */
  function AnalyzerMap(ts: seq<Table>): (m: map<string, Field>)
    ensures forall n :: n in m ==> exists i :: 0 <= i < |ts| && m[n] in ts[i].index.fields
    decreases |ts|
  {
    if ts == [] then map[]
    else
      var init := ts[..|ts| - 1];
      assert forall i :: 0 <= i < |init| ==> init[i] == ts[i];
      AnalyzerMap(init) + TokenizedMap(ts[|ts| - 1].index.fields)
  }

  /** Every tokenized field of every table has an entry under its name, and nothing else has one. */
  lemma {:induction false} AnalyzerMapEntries(ts: seq<Table>, n: string)
    ensures n in AnalyzerMap(ts) <==>
      exists i, k :: 0 <= i < |ts| && 0 <= k < |ts[i].index.fields| &&
                     ts[i].index.fields[k].tokenized && ts[i].index.fields[k].name == n
    decreases |ts|
  {
    if ts != [] {
      var init := ts[..|ts| - 1];
      var last := ts[|ts| - 1].index.fields;
      AnalyzerMapEntries(init, n);
      assert forall i :: 0 <= i < |init| ==> init[i] == ts[i];
      if n in TokenizedMap(last) {
        var k :| 0 <= k < |last| && last[k].tokenized && last[k].name == n;
        assert ts[|ts| - 1].index.fields[k].tokenized;
      }
    }
  }

  /** The entry under a name is a tokenized field of that name. */
  lemma {:induction false} AnalyzerMapServes(ts: seq<Table>, n: string)
    requires n in AnalyzerMap(ts)
    ensures AnalyzerMap(ts)[n].tokenized && AnalyzerMap(ts)[n].name == n
    decreases |ts|
  {
    var init := ts[..|ts| - 1];
    if n !in TokenizedMap(ts[|ts| - 1].index.fields) {
      AnalyzerMapServes(init, n);
    }
  }

  /** An untokenized field, and so every primary-key field, is left out unless a tokenized field shares its name. */
  lemma UntokenizedSkipped(ts: seq<Table>, i: nat, k: nat)
    requires i < |ts| && k < |ts[i].index.fields| && !ts[i].index.fields[k].tokenized
    requires NamesDisjoint(ts) && forall j :: 0 <= j < |ts| ==> Built(ts[j])
    ensures ts[i].index.fields[k].name !in AnalyzerMap(ts)
  {
    var n := ts[i].index.fields[k].name;
    AnalyzerMapEntries(ts, n);
    if n in AnalyzerMap(ts) {
      var i', k' :| 0 <= i' < |ts| && 0 <= k' < |ts[i'].index.fields| &&
                    ts[i'].index.fields[k'].tokenized && ts[i'].index.fields[k'].name == n;
      assert ts[i].index.byName[n] == ts[i].index.fields[k];
      assert ts[i'].index.byName[n] == ts[i'].index.fields[k'];
      SameOwner(ts, i, i', n);
    }
  }

  /** create: the nested loops over the set's tables and their fields. */
  method Create(tableSet: TableSet) returns (r: PerField)
    ensures r.defaultAnalyzer.None?
    ensures r.perField == AnalyzerMap(tableSet.tables)
  {
    var ts := tableSet.GetTables();
    var m: map<string, Field> := map[];
    var i := 0;
    while i < |ts|
      invariant 0 <= i <= |ts|
      invariant m == AnalyzerMap(ts[..i])
    {
      m := PutTokenized(m, ts[i].index.fields);
      assert ts[..i + 1][..i] == ts[..i];
      i := i + 1;
    }
    assert ts[..i] == ts;
    r := PerField(None, m);
  }

  /** The inner loop: put each tokenized field under its name. */
  method PutTokenized(before: map<string, Field>, fs: seq<Field>) returns (m: map<string, Field>)
    ensures m == before + TokenizedMap(fs)
  {
    m := before;
    var j := 0;
    while j < |fs|
      invariant 0 <= j <= |fs|
      invariant m == before + TokenizedMap(fs[..j])
    {
      TokenizedMapSnoc(fs, j);
      if fs[j].tokenized {
        PutAfterUnion(before, TokenizedMap(fs[..j]), fs[j].name, fs[j]);
        m := m[fs[j].name := fs[j]];
      }
      j := j + 1;
    }
    assert fs[..j] == fs;
  }

  lemma TokenizedMapSnoc(fs: seq<Field>, j: nat)
    requires j < |fs|
    ensures TokenizedMap(fs[..j + 1]) ==
      if fs[j].tokenized then TokenizedMap(fs[..j])[fs[j].name := fs[j]] else TokenizedMap(fs[..j])
  {
    assert fs[..j + 1][..j] == fs[..j];
  }

  lemma PutAfterUnion(a: map<string, Field>, b: map<string, Field>, k: string, v: Field)
    ensures (a + b)[k := v] == a + b[k := v]
  {
  }
}
