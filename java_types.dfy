/**
 * Java class tags and the primitive-to-wrapper map of Misc.getReferenceClass,
 * plus the field values the library moves between objects and documents.
 */
module JavaTypes {
  import opened Wrappers

  datatype Primitive = Byte | Short | Int | Long | Char | Float | Double | Boolean | Void

  /** A Java class: one of the primitive classes, or a reference class by fully qualified name. */
  datatype ClassTag = Prim(kind: Primitive) | Ref(name: string)

  const StringClass: ClassTag := Ref("java.lang.String")
  const ObjectClass: ClassTag := Ref("java.lang.Object")
  const BooleanClass: ClassTag := Ref("java.lang.Boolean")
  const LongClass: ClassTag := Ref("java.lang.Long")
  const IntegerClass: ClassTag := Ref("java.lang.Integer")

  /** The wrapper class of each primitive that has one. */
  function Wrapper(p: Primitive): (r: Option<ClassTag>)
    ensures r.None? <==> p == Void
    ensures r.Some? ==> r.value.Ref?
  {
    match p
    case Byte => Some(Ref("java.lang.Byte"))
    case Short => Some(Ref("java.lang.Short"))
    case Int => Some(IntegerClass)
    case Long => Some(LongClass)
    case Char => Some(Ref("java.lang.Character"))
    case Float => Some(Ref("java.lang.Float"))
    case Double => Some(Ref("java.lang.Double"))
    case Boolean => Some(BooleanClass)
    case Void => None
  }

  /**
   * Misc.getReferenceClass: a reference class is returned as it is, a
   * primitive class is replaced by its wrapper, and `void` is refused.
   */
  function ReferenceClass(c: ClassTag): (r: Result<ClassTag>)
    ensures c.Ref? ==> r == Ok(c)
    ensures c.Prim? && c.kind != Void ==> r == Ok(Wrapper(c.kind).value)
    ensures c == Prim(Void) ==> r == Err(Runtime("not supported"))
    ensures r.Ok? ==> r.value.Ref?
  {
    if c.Ref? then Ok(c)
    else match Wrapper(c.kind)
      case Some(w) => Ok(w)
      case None => Err(Runtime("not supported"))
  }

  /** Applying the map to its own result changes nothing. */
  lemma ReferenceClassIdempotent(c: ClassTag)
    requires ReferenceClass(c).Ok?
    ensures ReferenceClass(ReferenceClass(c).value) == ReferenceClass(c)
  {
  }

  /** No two primitives share a wrapper. */
  lemma WrapperInjective(p: Primitive, q: Primitive)
    requires p != Void && q != Void && Wrapper(p) == Wrapper(q)
    ensures p == q
  {
  }

  /** The values a record field can hold (null is the absent Option). */
  datatype Value =
    | StrV(s: string)
    | IntV(i: int)
    | LongV(l: int)
    | BoolV(b: bool)
    /** An object of any other class, known only by that class's name. */
    | OtherV(cls: string)

  /** The run-time class of a value. */
  function ClassOf(v: Value): (r: ClassTag)
    ensures r.Ref?
  {
    match v
    case StrV(_) => StringClass
    case IntV(_) => IntegerClass
    case LongV(_) => LongClass
    case BoolV(_) => BooleanClass
    case OtherV(c) => Ref(c)
  }
}
