/**
 * RlField.Impl: a field's configuration is assigned by one of the two
 * setups (from a declared Java field, or from a name and an optional
 * attribute), then checked against its converter. The configured field is
 * then a value that the tables copy; its conversions between values,
 * strings and index fields are functions of it. The analyzer cache is
 * state of the field object.
 */
module Fields {
  import opened Wrappers
  import opened JavaTypes
  import opened Converters
  import opened Values
  import opened Docs

  /** RlFieldAttr.analyzer: the Default marker or a named analyzer class. */
  datatype AnalyzerChoice = DefaultAnalyzer | AnalyzerClass(name: string)

  /** An RlFieldAttr annotation. */
  datatype Attr = Attr(pk: bool, store: bool, tokenized: bool, converter: Converter, analyzer: AnalyzerChoice)

  /** The annotation's declared defaults. */
  const DefaultAttr: Attr := Attr(false, false, true, NoneConv, DefaultAnalyzer)

  /** A declared Java field, as reflection shows it. */
  datatype JavaField = JavaField(
    declaringClass: string, name: string, fieldType: ClassTag,
    isTransient: bool, isStatic: bool, attr: Option<Attr>)

  /** The flags the attribute (or its absence) sets. */
  datatype Flags = Flags(
    isPk: bool, store: bool, tokenized: bool,
    analyzer: Option<string>, converter: Option<Converter>)

  /** A configured field. */
  datatype Field = Field(
    javaField: Option<JavaField>, fieldType: ClassTag, name: string,
    isPk: bool, store: bool, tokenized: bool,
    converter: Option<Converter>, analyzer: Option<string>)

  /** setupFieldAttr, that is setupWithoutAttr or setupWithAttr. */
  function AttrFlags(attr: Option<Attr>): (r: Flags)
    ensures attr.None? ==> r == Flags(false, false, true, None, None)
    ensures attr.Some? && attr.value.pk ==> r.isPk && r.store && !r.tokenized && r.analyzer.None?
    ensures attr.Some? && !attr.value.pk ==>
      && !r.isPk && r.store == attr.value.store && r.tokenized == attr.value.tokenized
      && (r.analyzer.None? <==> attr.value.analyzer == DefaultAnalyzer)
      && (r.analyzer.Some? ==> attr.value.analyzer == AnalyzerClass(r.analyzer.value))
    ensures attr.Some? ==>
      r.converter == (if attr.value.converter == NoneConv then None else Some(attr.value.converter))
    ensures r.converter != Some(NoneConv)
  {
    match attr
    case None => Flags(false, false, true, None, None)
    case Some(a) =>
      var conv := if a.converter == NoneConv then None else Some(a.converter);
      if a.pk then Flags(true, true, false, None, conv)
      else
        var analyzer := match a.analyzer
          case DefaultAnalyzer => None
          case AnalyzerClass(n) => Some(n);
        Flags(false, a.store, a.tokenized, analyzer, conv)
  }

  /** The annotation with all its defaults configures the field as no annotation at all. */
  lemma DefaultAttrIsNoAttr()
    ensures AttrFlags(Some(DefaultAttr)) == AttrFlags(None)
  {
  }

  /** Whether a converter suits a field type: a String field needs none, any other a matching one. */
  predicate ConverterFits(fieldType: ClassTag, converter: Option<Converter>)
  {
    fieldType == StringClass ||
    (converter.Some? &&
     (ConverterType(converter.value) == fieldType ||
      (fieldType.Prim? && Wrapper(fieldType.kind) == Some(ConverterType(converter.value)))))
  }

  /** checkConverter. */
  function CheckConverter(fieldType: ClassTag, name: string, converter: Option<Converter>): (r: Result<()>)
    ensures r.Ok? <==> ConverterFits(fieldType, converter)
    ensures fieldType != StringClass && converter.None? ==>
      r == Err(Rl("a field other than String needs a converter: " + name))
    ensures r.Err? ==> r.error.Rl?
  {
    if fieldType == StringClass then Ok(())
    else if converter.None? then Err(Rl("a field other than String needs a converter: " + name))
    else
      var converterType := ConverterType(converter.value);
      var refType := if fieldType.Prim? then ReferenceClass(fieldType) else Err(NullPointer);
      if converterType != fieldType && !(refType.Ok? && refType.value == converterType)
      then Err(Rl("the field type does not match the converter type"))
      else Ok(())
  }

  /** setup(javaField): the configuration it assigns, before the converter check. */
  function FromJavaField(jf: JavaField): (f: Field)
    ensures f.javaField == Some(jf) && f.name == jf.name && f.fieldType == jf.fieldType
  {
    var flags := AttrFlags(jf.attr);
    Field(Some(jf), jf.fieldType, jf.name, flags.isPk, flags.store, flags.tokenized, flags.converter, flags.analyzer)
  }

  /** setup(name, attr): a String field unless a converter names another type. */
  function FromName(name: string, attr: Option<Attr>): (f: Field)
    ensures f.javaField.None? && f.name == name
    ensures f.fieldType == (if f.converter.Some? then ConverterType(f.converter.value) else StringClass)
  {
    var flags := AttrFlags(attr);
    var fieldType := if flags.converter.Some? then ConverterType(flags.converter.value) else StringClass;
    Field(None, fieldType, name, flags.isPk, flags.store, flags.tokenized, flags.converter, flags.analyzer)
  }

  /** A free-form field takes its type from its converter, so the converter check never fails. */
  lemma FromNameAlwaysFits(name: string, attr: Option<Attr>)
    ensures var f := FromName(name, attr); CheckConverter(f.fieldType, f.name, f.converter).Ok?
  {
  }

  /** A declared field of a primitive type is accepted with the converter of its wrapper. */
  lemma PrimitiveFieldFitsWrapperConverter(p: Primitive, c: Converter)
    requires c != NoneConv && Wrapper(p) == Some(ConverterType(c))
    ensures CheckConverter(Prim(p), "f", Some(c)).Ok?
  {
  }

  /** A field created by either setup whose check passed. */
  predicate WellFormed(f: Field)
  {
    && f.converter != Some(NoneConv)
    && ConverterFits(f.fieldType, f.converter)
    && (f.isPk ==> f.store && !f.tokenized && f.analyzer.None?)
  }

  /** Both setups yield a well-formed field whenever the check passes. */
  lemma SetupsWellFormed(jf: JavaField, name: string, attr: Option<Attr>)
    ensures var f := FromJavaField(jf); CheckConverter(f.fieldType, f.name, f.converter).Ok? ==> WellFormed(f)
    ensures WellFormed(FromName(name, attr))
  {
    FromNameAlwaysFits(name, attr);
  }

  /** toString: null stays null; without a converter the value must be a String. */
  function ValueToString(f: Field, v: Option<Value>): (r: Result<Option<string>>)
    ensures v.None? ==> r == Ok(None)
    ensures v.Some? && f.converter.None? ==>
      (r.Ok? <==> v.value.StrV?) && (r.Ok? ==> r.value == Some(v.value.s))
    ensures v.Some? && r.Ok? ==> r.value.Some?
  {
    match v
    case None => Ok(None)
    case Some(x) =>
      match f.converter
      case None => if x.StrV? then Ok(Some(x.s)) else Err(ClassCast)
      case Some(c) =>
        match ConvertToString(c, x)
        case Ok(s) => Ok(Some(s))
        case Err(e) => Err(e)
  }

  /** fromString: null stays null; without a converter the string is the value. */
  function StringToValue(f: Field, s: Option<string>): (r: Result<Option<Value>>)
    ensures s.None? ==> r == Ok(None)
    ensures s.Some? && f.converter.None? ==> r == Ok(Some(StrV(s.value)))
    ensures s.Some? && r.Ok? ==> r.value.Some?
  {
    match s
    case None => Ok(None)
    case Some(t) =>
      match f.converter
      case None => Ok(Some(StrV(t)))
      case Some(c) =>
        match ConvertFromString(c, t)
        case Ok(x) => Ok(Some(x))
        case Err(e) => Err(e)
  }

  /** The values a field can store and get back: null, any string without a converter, or a value its converter accepts. */
  predicate Storable(f: Field, v: Option<Value>)
  {
    match v
    case None => true
    case Some(x) =>
      match f.converter
      case None => x.StrV?
      case Some(c) => Accepts(c, x) && InRange(x)
  }

  /** fromString undoes toString on every storable value. */
  lemma StringRoundTrip(f: Field, v: Option<Value>)
    requires Storable(f, v)
    ensures ValueToString(f, v).Ok?
    ensures StringToValue(f, ValueToString(f, v).value) == Ok(v)
  {
    if v.Some? && f.converter.Some? {
      ConverterRoundTrip(f.converter.value, v.value);
    }
  }

  /** getValue: a declared field reads a slot of an object of its class; a free-form field reads the values map. */
  function GetValue(f: Field, obj: Record): (r: Result<Option<Value>>)
    ensures f.javaField.Some? ==>
      && (obj.Free? ==> r == Err(Rl("unsuitable object")))
      && (obj.Bean? && obj.cls != f.javaField.value.declaringClass ==> r == Err(IllegalArgument))
      && (obj.Bean? && obj.cls == f.javaField.value.declaringClass ==> r == Ok(Lookup(obj.slots, f.javaField.value.name)))
    ensures f.javaField.None? ==>
      && (obj.Bean? ==> r == Err(Rl("unsuitable object")))
      && (obj.Free? ==> r == Ok(Lookup(obj.entries, f.name)))
  {
    match f.javaField
    case Some(jf) =>
      (match obj
       case Free(_) => Err(Rl("unsuitable object"))
       case Bean(cls, slots) => if cls != jf.declaringClass then Err(IllegalArgument) else Ok(Lookup(slots, jf.name)))
    case None =>
      (match obj
       case Bean(_, _) => Err(Rl("unsuitable object"))
       case Free(entries) => Ok(Lookup(entries, f.name)))
  }

  /** Field.set: a primitive slot takes only its wrapper's values, a reference slot null or a value of its class. */
  predicate Assignable(fieldType: ClassTag, v: Option<Value>)
  {
    match v
    case None => fieldType.Ref?
    case Some(x) =>
      fieldType == ObjectClass || ClassOf(x) == fieldType ||
      (fieldType.Prim? && Wrapper(fieldType.kind) == Some(ClassOf(x)))
  }

  /** setValue, returning the updated object; reflective failures are wrapped. */
  function SetValue(f: Field, obj: Record, v: Option<Value>): (r: Result<Record>)
    ensures r.Ok? ==> r.value.Free? == obj.Free?
    ensures r.Ok? ==> GetValue(f, r.value) == Ok(v)
    ensures f.javaField.None? ==> (r.Ok? <==> obj.Free?)
    ensures f.javaField.Some? ==>
      (r.Ok? <==> obj.Bean? && obj.cls == f.javaField.value.declaringClass && Assignable(f.javaField.value.fieldType, v))
    ensures r.Ok? && obj.Free? ==> r.value == Free(obj.entries[f.name := v])
    ensures r.Ok? && obj.Bean? ==> r.value == Bean(obj.cls, obj.slots[f.javaField.value.name := v])
  {
    match f.javaField
    case Some(jf) =>
      (match obj
       case Free(_) => Err(Rl("unsuitable object"))
       case Bean(cls, slots) =>
         if cls != jf.declaringClass || !Assignable(jf.fieldType, v) then Err(Wrapped)
         else Ok(Bean(cls, slots[jf.name := v])))
    case None =>
      (match obj
       case Bean(_, _) => Err(Rl("unsuitable object"))
       case Free(entries) => Ok(Free(entries[f.name := v])))
  }

  /** getStringValue. */
  function GetStringValue(f: Field, obj: Record): (r: Result<Option<string>>)
    ensures r.Ok? ==> GetValue(f, obj).Ok? && ValueToString(f, GetValue(f, obj).value) == r
  {
    match GetValue(f, obj)
    case Ok(v) => ValueToString(f, v)
    case Err(e) => Err(e)
  }

  /** setStringValue. */
  function SetStringValue(f: Field, obj: Record, s: Option<string>): (r: Result<Record>)
    ensures r.Ok? ==> StringToValue(f, s).Ok? && SetValue(f, obj, StringToValue(f, s).value) == r
  {
    match StringToValue(f, s)
    case Ok(v) => SetValue(f, obj, v)
    case Err(e) => Err(e)
  }

  /** getLuceneField: no index field for a null value; otherwise one that carries the field's flags. */
  function GetLuceneField(f: Field, obj: Record): (r: Result<Option<IndexField>>)
    ensures r.Ok? <==> GetStringValue(f, obj).Ok?
    ensures r.Ok? ==> (r.value.None? <==> GetStringValue(f, obj).value.None?)
    ensures r.Ok? && r.value.Some? ==>
      r.value.value == IndexField(f.name, DocField(GetStringValue(f, obj).value.value, f.store, f.tokenized))
  {
    match GetStringValue(f, obj)
    case Err(e) => Err(e)
    case Ok(None) => Ok(None)
    case Ok(Some(s)) => Ok(Some(IndexField(f.name, DocField(s, f.store, f.tokenized))))
  }

  /** getAnalyzer's refusal for a field that is not tokenized. */
  const NoAnalyzer: Error := Rl("getAnalyzer called for an untokenized field")

  /** An analyzer object created by the injector; distinct objects are distinct instances. */
  class AnalyzerInstance {
    const cls: string

    constructor (cls: string)
      ensures this.cls == cls
    {
      this.cls := cls;
    }
  }

  /** The field object: its configuration, assigned by a setup, and its analyzer cache. */
  class FieldImpl {
    var javaField: Option<JavaField>
    var fieldType: ClassTag
    var name: string
    var isPk: bool
    var store: bool
    var tokenized: bool
    var converter: Option<Converter>
    var analyzerClass: Option<string>
    var cachedAnalyzer: Option<AnalyzerInstance>

    /** The configuration as a value. */
    function Config(): (f: Field)
      reads this
      ensures f.name == name && f.tokenized == tokenized
    {
      Field(javaField, fieldType, name, isPk, store, tokenized, converter, analyzerClass)
    }

    /** A field object as the injector creates it: nothing configured yet. */
    constructor ()
      ensures javaField.None? && name == [] && !isPk && !store && !tokenized
      ensures converter.None? && analyzerClass.None? && cachedAnalyzer.None?
    {
      javaField := None;
      fieldType := ObjectClass;
      name := [];
      isPk := false;
      store := false;
      tokenized := false;
      converter := None;
      analyzerClass := None;
      cachedAnalyzer := None;
    }

    /** setupWithoutAttr. */
    method SetupWithoutAttr()
      modifies this
      ensures Flags(isPk, store, tokenized, analyzerClass, converter) == AttrFlags(None)
      ensures javaField == old(javaField) && fieldType == old(fieldType) && name == old(name)
      ensures cachedAnalyzer == old(cachedAnalyzer)
    {
      isPk := false;
      store := false;
      tokenized := true;
      analyzerClass := None;
      converter := None;
    }

    /** setupWithAttr. */
    method SetupWithAttr(attr: Attr)
      modifies this
      ensures Flags(isPk, store, tokenized, analyzerClass, converter) == AttrFlags(Some(attr))
      ensures javaField == old(javaField) && fieldType == old(fieldType) && name == old(name)
      ensures cachedAnalyzer == old(cachedAnalyzer)
    {
      isPk := attr.pk;
      if isPk {
        store := true;
        tokenized := false;
        analyzerClass := None;
      } else {
        store := attr.store;
        tokenized := attr.tokenized;
        analyzerClass := match attr.analyzer
          case DefaultAnalyzer => None
          case AnalyzerClass(n) => Some(n);
      }
      converter := if attr.converter == NoneConv then None else Some(attr.converter);
    }

    /** setupFieldAttr. */
    method SetupFieldAttr(attr: Option<Attr>)
      modifies this
      ensures Flags(isPk, store, tokenized, analyzerClass, converter) == AttrFlags(attr)
      ensures javaField == old(javaField) && fieldType == old(fieldType) && name == old(name)
      ensures cachedAnalyzer == old(cachedAnalyzer)
    {
      match attr
      case None => SetupWithoutAttr();
      case Some(a) => SetupWithAttr(a);
    }

    /**
     * setup(javaField). The configuration is assigned before the check, so
     * a failed check leaves it assigned, as the thrown exception does.
     */
    method SetupJava(jf: JavaField) returns (r: Result<()>)
      modifies this
      ensures Config() == FromJavaField(jf)
      ensures r == CheckConverter(fieldType, name, converter)
      ensures cachedAnalyzer == old(cachedAnalyzer)
    {
      javaField := Some(jf);
      name := jf.name;
      fieldType := jf.fieldType;
      SetupFieldAttr(jf.attr);
      r := CheckConverter(fieldType, name, converter);
    }

    /** setup(name, attr), for a free-form table. */
    method SetupFree(fieldName: string, attr: Option<Attr>) returns (r: Result<()>)
      requires javaField.None?
      modifies this
      ensures Config() == FromName(fieldName, attr)
      ensures r.Ok?
      ensures cachedAnalyzer == old(cachedAnalyzer)
    {
      name := fieldName;
      fieldType := StringClass;
      SetupFieldAttr(attr);
      if converter.Some? {
        fieldType := ConverterType(converter.value);
      }
      r := CheckConverter(fieldType, name, converter);
      FromNameAlwaysFits(fieldName, attr);
    }

    /**
     * getAnalyzer: refused for an untokenized field; otherwise the cached
     * instance, or a new one of the field's analyzer class (else the
     * default class) that is then cached.
     */
    method GetAnalyzer(defaultClass: string) returns (r: Result<AnalyzerInstance>)
      modifies this
      ensures Config() == old(Config())
      ensures !tokenized ==>
        r == Err(NoAnalyzer) && cachedAnalyzer == old(cachedAnalyzer)
      ensures tokenized && old(cachedAnalyzer).Some? ==>
        r == Ok(old(cachedAnalyzer).value) && cachedAnalyzer == old(cachedAnalyzer)
      ensures tokenized && old(cachedAnalyzer).None? ==>
        && r.Ok? && fresh(r.value) && cachedAnalyzer == Some(r.value)
        && r.value.cls == (if analyzerClass.Some? then analyzerClass.value else defaultClass)
    {
      if !tokenized {
        return Err(NoAnalyzer);
      }
      if cachedAnalyzer.Some? {
        return Ok(cachedAnalyzer.value);
      }
      var cls := if analyzerClass.Some? then analyzerClass.value else defaultClass;
      var a := new AnalyzerInstance(cls);
      cachedAnalyzer := Some(a);
      r := Ok(a);
    }
  }
}

/** Walkthroughs of the two setups and of the analyzer cache. */
module FieldScenarios {
  import opened Wrappers
  import opened JavaTypes
  import opened Converters
  import opened Fields

  /** A long field without a converter is refused; with LongConv it is accepted, also as the primitive long. */
  method ConverterRequired() returns (bare: Result<()>, boxed: Result<()>, primitive: Result<()>)
    ensures bare == Err(Rl("a field other than String needs a converter: count"))
    ensures boxed.Ok? && primitive.Ok?
  {
    bare := SetupNew(JavaField("Rec", "count", LongClass, false, false, None));
    boxed := SetupNew(JavaField("Rec", "count", LongClass, false, false, Some(DefaultAttr.(converter := LongConv))));
    primitive := SetupNew(JavaField("Rec", "count", Prim(Long), false, false, Some(DefaultAttr.(converter := LongConv))));
  }

  /** setup(javaField) on a new field. */
  method SetupNew(jf: JavaField) returns (r: Result<()>)
    ensures r == CheckConverter(jf.fieldType, jf.name, FromJavaField(jf).converter)
  {
    var f := new FieldImpl();
    r := f.SetupJava(jf);
  }

  /** A primary key ignores the flags it is given. */
  method PkIgnoresFlags() returns (store: bool, tokenized: bool)
    ensures store && !tokenized
  {
    var f := new FieldImpl();
    var r := f.SetupFree("id", Some(Attr(true, false, true, NoneConv, AnalyzerClass("Cjk"))));
    store := f.store;
    tokenized := f.tokenized;
  }

  /** The analyzer is created once and then handed out again; an untokenized field has none. */
  method AnalyzerCached() returns (same: bool, refused: bool)
    ensures same && refused
  {
    var f := new FieldImpl();
    var _ := f.SetupFree("body", None);
    var first := f.GetAnalyzer("Standard");
    var second := f.GetAnalyzer("Standard");
    same := first.Ok? && second.Ok? && first.value == second.value;
    var k := new FieldImpl();
    var _ := k.SetupFree("id", Some(DefaultAttr.(pk := true)));
    var none := k.GetAnalyzer("Standard");
    refused := none.Err?;
  }
}
