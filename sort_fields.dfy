/**
 * RlSortField / RlSortFields: sort keys over fields that must all belong to
 * one table. The table of a field is asked for through `tableOf`, which
 * stands for RlField.getTable; the library's field implementation always
 * throws there (FieldTable), so in the library as written only the empty
 * sort specification can be built. getSort is not implemented and always
 * throws.
 */
module SortFieldSets {
  import opened Wrappers
  import opened Fields
  import opened Tables

  /** RlSortField: a field and whether it sorts descending. */
  datatype SortField = SortField(field: Field, desc: bool)

  /** RlSortField(field): ascending. */
  function Ascending(field: Field): (s: SortField)
    ensures s.field == field && !s.desc
  {
    SortField(field, false)
  }

  /** RlSortFields: the common table (null for no fields) and the fields as given. */
  datatype SortFields = SortFields(tableDef: Option<Table>, sortFields: seq<SortField>)

  const TableMismatch: Error := Usage("the sort fields belong to different tables")

  /** RlField.Impl.getTable: not implemented, always throws. */
  function FieldTable(f: Field): (r: Result<Table>)
    ensures r == Err(Runtime(""))
  {
    Err(Runtime(""))
  }

  /** The constructor's check of the first `n` fields against the first field's table. */
  function CheckTables(fs: seq<SortField>, n: nat, first: Table, tableOf: Field -> Result<Table>): (r: Result<()>)
    requires n <= |fs|
    ensures r.Ok? <==> forall i :: 0 <= i < n ==> tableOf(fs[i].field) == Ok(first)
  {
    if n == 0 then Ok(())
    else
      match CheckTables(fs, n - 1, first, tableOf)
      case Err(e) => Err(e)
      case Ok(_) =>
        match tableOf(fs[n - 1].field)
        case Err(e) => Err(e)
        case Ok(t) => if t != first then Err(TableMismatch) else Ok(())
  }

  /** new RlSortFields(fields...): no table for no fields; otherwise every field's table must be the first one's. */
  function SortFieldsOf(fs: seq<SortField>, tableOf: Field -> Result<Table>): (r: Result<SortFields>)
    ensures fs == [] ==> r == Ok(SortFields(None, []))
    ensures r.Ok? && fs != [] ==> tableOf(fs[0].field).Ok? && r.value.tableDef == Some(tableOf(fs[0].field).value)
    ensures r.Ok? ==> r.value.sortFields == fs
    ensures fs != [] ==> (r.Ok? <==> tableOf(fs[0].field).Ok? &&
                                     forall i :: 0 <= i < |fs| ==> tableOf(fs[i].field) == tableOf(fs[0].field))
  {
    if fs == [] then Ok(SortFields(None, []))
    else
      match tableOf(fs[0].field)
      case Err(e) => Err(e)
      case Ok(first) =>
        match CheckTables(fs, |fs|, first, tableOf)
        case Err(e) => Err(e)
        case Ok(_) => Ok(SortFields(Some(first), fs))
  }

  /** The constructor with its loop over the fields. */
  method NewSortFields(fs: seq<SortField>, tableOf: Field -> Result<Table>) returns (r: Result<SortFields>)
    ensures r == SortFieldsOf(fs, tableOf)
  {
    if |fs| == 0 {
      return Ok(SortFields(None, fs));
    }
    var first := tableOf(fs[0].field);
    if first.Err? {
      return Err(first.error);
    }
    for i := 0 to |fs|
      invariant CheckTables(fs, i, first.value, tableOf) == Ok(())
    {
      var t := tableOf(fs[i].field);
      if t.Err? {
        assert CheckTables(fs, i + 1, first.value, tableOf) == Err(t.error);
        CheckStops(fs, i + 1, |fs|, first.value, tableOf);
        return Err(t.error);
      }
      if t.value != first.value {
        CheckStops(fs, i + 1, |fs|, first.value, tableOf);
        return Err(TableMismatch);
      }
    }
    r := Ok(SortFields(Some(first.value), fs));
  }

  /** A failure among the first `k` fields is the failure of the whole check. */
  lemma {:induction false} CheckStops(fs: seq<SortField>, k: nat, n: nat, first: Table, tableOf: Field -> Result<Table>)
    requires k <= n <= |fs| && CheckTables(fs, k, first, tableOf).Err?
    ensures CheckTables(fs, n, first, tableOf) == CheckTables(fs, k, first, tableOf)
    decreases n
  {
    if n > k {
      CheckStops(fs, k, n - 1, first, tableOf);
    }
  }

  /** With the library's own fields, any non-empty sort specification is refused by getTable. */
  lemma OnlyEmptyBuilds(fs: seq<SortField>)
    ensures SortFieldsOf(fs, FieldTable).Ok? <==> fs == []
    ensures fs != [] ==> SortFieldsOf(fs, FieldTable) == Err(Runtime(""))
  {
  }

  /** getSort: not implemented. */
  function GetSort(s: SortFields): (r: Result<()>)
    ensures r.Err? && r.error.Runtime?
  {
    Err(Runtime(""))
  }
}
