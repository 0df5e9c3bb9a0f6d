/**
 * RlValues, the free-form record: a mutable map from field name to value,
 * and the two kinds of object a table reads and writes.
 */
module Values {
  import opened Wrappers
  import opened JavaTypes

  /** The content of a name-to-value map; an explicit None is a stored null. */
  type ValueMap = map<string, Option<Value>>

  /** HashMap.get: the stored value, or null for a name never put. */
  function Lookup(m: ValueMap, name: string): (r: Option<Value>)
    ensures name !in m ==> r.None?
    ensures name in m ==> r == m[name]
  {
    if name in m then m[name] else None
  }

  /** A put followed by a get of the same name answers the value put; other names are untouched. */
  lemma LookupAfterPut(m: ValueMap, name: string, v: Option<Value>, other: string)
    ensures Lookup(m[name := v], name) == v
    ensures other != name ==> Lookup(m[name := v], other) == Lookup(m, other)
  {
  }

  /** A second put on a name hides the first. */
  lemma PutOverwrites(m: ValueMap, name: string, v: Option<Value>, w: Option<Value>)
    ensures m[name := v][name := w] == m[name := w]
  {
  }

  class RecordValues {
    var valueMap: ValueMap

    constructor ()
      ensures valueMap == map[]
    {
      valueMap := map[];
    }

    /** RlValues.put. */
    method Put(name: string, value: Option<Value>)
      modifies this
      ensures valueMap == old(valueMap)[name := value]
      ensures Get(name) == value
      ensures forall n :: n != name ==> Get(n) == old(Get(n))
    {
      valueMap := valueMap[name := value];
    }

    /** RlValues.get. */
    function Get(name: string): (r: Option<Value>)
      reads this
      ensures r == Lookup(valueMap, name)
    {
      if name in valueMap then valueMap[name] else None
    }
  }

  /**
   * What a table is handed: the content of an RlValues object, or an object
   * of a record class whose declared fields are the slots.
   */
  datatype Record = Free(entries: ValueMap) | Bean(cls: string, slots: ValueMap)
}

/** The put/get walkthrough on one values object. */
module ValuesScenarios {
  import opened Wrappers
  import opened JavaTypes
  import opened Values

  method PutGet() returns (first: Option<Value>, second: Option<Value>, missing: Option<Value>)
    ensures first == Some(StrV("a")) && second == Some(IntV(2)) && missing.None?
  {
    var values := new RecordValues();
    values.Put("x", Some(StrV("a")));
    values.Put("y", Some(IntV(1)));
    first := values.Get("x");
    values.Put("y", Some(IntV(2)));
    second := values.Get("y");
    missing := values.Get("z");
  }
}
