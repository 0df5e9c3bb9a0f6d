/**
 * RlFieldConverter: the converters between field values and the strings
 * stored in the index. Java's decimal printing (`value + ""`) and its
 * Integer.parseInt / Long.parseLong parsing are written out over ASCII digits.
 */
module Converters {
  import opened Wrappers
  import opened JavaTypes

  const IntMin: int := -0x8000_0000
  const IntMax: int := 0x7FFF_FFFF
  const LongMin: int := -0x8000_0000_0000_0000
  const LongMax: int := 0x7FFF_FFFF_FFFF_FFFF

  predicate IsDigit(c: char) { '0' <= c <= '9' }

  predicate AllDigits(s: string) { forall i :: 0 <= i < |s| ==> IsDigit(s[i]) }

  function DigitChar(d: nat): (c: char)
    requires d < 10
    ensures IsDigit(c) && (c as int) - ('0' as int) == d
  {
    (('0' as int) + d) as char
  }

  /** The decimal digits of a natural number, without leading zeros. */
  function Digits(n: nat): (s: string)
    ensures |s| >= 1 && AllDigits(s)
    ensures |s| > 1 ==> s[0] != '0'
    decreases n
  {
    if n < 10 then [DigitChar(n)] else Digits(n / 10) + [DigitChar(n % 10)]
  }

  /** The number a string of decimal digits denotes (leading zeros allowed). */
  function DigitsValue(s: string): nat
    requires AllDigits(s)
  {
    if s == [] then 0
    else DigitsValue(s[..|s| - 1]) * 10 + ((s[|s| - 1] as int) - ('0' as int))
  }

  /** Long.toString / Integer.toString, as used by `value + ""`. */
  function Decimal(v: int): (s: string)
    ensures |s| >= 1
    ensures s[0] == '-' <==> v < 0
  {
    if v < 0 then "-" + Digits(-v) else Digits(v)
  }

  /**
   * Integer.parseInt and Long.parseLong with bounds [lo, hi]: an optional
   * sign, then at least one digit; anything else, or a value out of range,
   * is a NumberFormatException.
   */
  function ParseDecimal(s: string, lo: int, hi: int): (r: Result<int>)
    ensures r.Ok? ==> lo <= r.value <= hi
    ensures r.Err? ==> r.error == NumberFormat
    ensures s == [] ==> r.Err?
  {
    if s == [] then Err(NumberFormat)
    else
      var negative := s[0] == '-';
      var body := if s[0] == '-' || s[0] == '+' then s[1..] else s;
      if body == [] || !AllDigits(body) then Err(NumberFormat)
      else
        var m: int := DigitsValue(body);
        var v := if negative then -m else m;
        if v < lo || hi < v then Err(NumberFormat) else Ok(v)
  }

  lemma {:induction false} DigitsValueOfDigits(n: nat)
    ensures DigitsValue(Digits(n)) == n
    decreases n
  {
    if n >= 10 {
      var s := Digits(n);
      assert s[..|s| - 1] == Digits(n / 10);
      DigitsValueOfDigits(n / 10);
    }
  }

  /** Printing and then parsing gives back every value in range. */
  lemma ParseDecimalOfDecimal(v: int, lo: int, hi: int)
    requires lo <= v <= hi
    ensures ParseDecimal(Decimal(v), lo, hi) == Ok(v)
  {
    var s := Decimal(v);
    if v < 0 {
      assert s[1..] == Digits(-v);
      DigitsValueOfDigits(-v);
    } else {
      assert s[0] != '+' && s[0] != '-';
      DigitsValueOfDigits(v);
    }
  }

  /** Two values in range print differently. */
  lemma DecimalInjective(v: int, w: int, lo: int, hi: int)
    requires lo <= v <= hi && lo <= w <= hi && Decimal(v) == Decimal(w)
    ensures v == w
  {
    ParseDecimalOfDecimal(v, lo, hi);
    ParseDecimalOfDecimal(w, lo, hi);
  }

  /** The converter classes; NoneConv is the "no converter" marker of the field annotation. */
  datatype Converter = NoneConv | BooleanConv | LongConv | IntConv

  /** RlFieldConverter.getType. */
  function ConverterType(c: Converter): (t: ClassTag)
    ensures t.Ref?
    ensures c != NoneConv ==> t != StringClass && t != ObjectClass
  {
    match c
    case NoneConv => ObjectClass
    case BooleanConv => BooleanClass
    case LongConv => LongClass
    case IntConv => IntegerClass
  }

  /** The values a converter accepts: those of its declared type. */
  predicate Accepts(c: Converter, v: Value)
    ensures Accepts(c, v) ==> c != NoneConv && ClassOf(v) == ConverterType(c)
  {
    match c
    case NoneConv => false
    case BooleanConv => v.BoolV?
    case LongConv => v.LongV?
    case IntConv => v.IntV?
  }

  /**
   * RlFieldConverter.toString. The marker refuses every value; any other
   * converter given a value of the wrong class fails the cast of the bridge method.
   */
  function ConvertToString(c: Converter, v: Value): (r: Result<string>)
    ensures r.Ok? <==> Accepts(c, v)
    ensures c == NoneConv ==> r == Err(Rl("not supported"))
  {
    match c
    case NoneConv => Err(Rl("not supported"))
    case BooleanConv =>
      if v.BoolV? then Ok(if v.b then "1" else "0") else Err(ClassCast)
    case LongConv => if v.LongV? then Ok(Decimal(v.l)) else Err(ClassCast)
    case IntConv => if v.IntV? then Ok(Decimal(v.i)) else Err(ClassCast)
  }

  /** RlFieldConverter.fromString. BooleanConv reads an int and answers whether it is positive. */
  function ConvertFromString(c: Converter, s: string): (r: Result<Value>)
    ensures c == NoneConv ==> r == Err(Rl("not supported"))
    ensures r.Ok? ==> Accepts(c, r.value)
    ensures c == BooleanConv ==>
      (r.Ok? <==> ParseDecimal(s, IntMin, IntMax).Ok?) &&
      (r.Ok? ==> r.value == BoolV (ParseDecimal(s, IntMin, IntMax).value > 0))
  {
    match c
    case NoneConv => Err(Rl("not supported"))
    case BooleanConv =>
      (match ParseDecimal(s, IntMin, IntMax)
       case Ok(n) => Ok(BoolV(n > 0))
       case Err(e) => Err(e))
    case LongConv =>
      (match ParseDecimal(s, LongMin, LongMax)
       case Ok(n) => Ok(LongV(n))
       case Err(e) => Err(e))
    case IntConv =>
      (match ParseDecimal(s, IntMin, IntMax)
       case Ok(n) => Ok(IntV(n))
       case Err(e) => Err(e))
  }

  /** Java's int, long and boolean ranges for the converters' values. */
  predicate InRange(v: Value)
  {
    match v
    case IntV(i) => IntMin <= i <= IntMax
    case LongV(l) => LongMin <= l <= LongMax
    case _ => true
  }

  /** Every accepted value in its Java range survives the trip through the index's string form. */
  lemma ConverterRoundTrip(c: Converter, v: Value)
    requires Accepts(c, v) && InRange(v)
    ensures ConvertToString(c, v).Ok?
    ensures ConvertFromString(c, ConvertToString(c, v).value) == Ok(v)
  {
    match c
    case BooleanConv =>
      var n := if v.b then 1 else 0;
      assert ConvertToString(c, v).value == Decimal(n);
      ParseDecimalOfDecimal(n, IntMin, IntMax);
    case LongConv => ParseDecimalOfDecimal(v.l, LongMin, LongMax);
    case IntConv => ParseDecimalOfDecimal(v.i, IntMin, IntMax);
  }
}
