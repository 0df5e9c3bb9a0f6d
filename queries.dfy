/**
 * RlQuery: the library's own query values, their null checks, equality,
 * compound building (add, count, compact), debug text, and the translation
 * into Lucene queries with the Match / Range / Word validity checks. The
 * Lucene side is a small query datatype with Lucene's boolean-matching rule
 * over the set of terms a document was indexed with.
 */
module Queries {
  import opened Wrappers
  import opened JavaTypes
  import opened Converters
  import opened Docs
  import opened Fields
  import opened Tables

  datatype Query =
    | Match(fieldName: string, value: Value)
    | Prefix(fieldName: string, text: string)
    | Word(fieldName: string, text: string)
    | Range(fieldName: string, min: Value, max: Value, incMin: bool, incMax: bool)
    | And(children: seq<Query>)
    | Or(children: seq<Query>)
    | Not(children: seq<Query>)

  predicate IsCompound(q: Query) { q.And? || q.Or? || q.Not? }

  /** The number of children of a compound, zero for a leaf. */
  function Width(q: Query): nat { if IsCompound(q) then |q.children| else 0 }

  // ---------------------------------------------------------------- constructors

  /** new Match(fieldName, value): both must be non-null. */
  function NewMatch(fieldName: Option<string>, value: Option<Value>): (r: Result<Query>)
    ensures r.Ok? <==> fieldName.Some? && value.Some?
    ensures r.Ok? ==> r.value.Match? && r.value.fieldName == fieldName.value && r.value.value == value.value
    ensures r.Err? ==> r.error == NullPointer
  {
    if fieldName.None? || value.None? then Err(NullPointer) else Ok(Match(fieldName.value, value.value))
  }

  /** new Prefix(fieldName, value). */
  function NewPrefix(fieldName: Option<string>, value: Option<string>): (r: Result<Query>)
    ensures r.Ok? <==> fieldName.Some? && value.Some?
    ensures r.Ok? ==> r.value.Prefix? && r.value.fieldName == fieldName.value && r.value.text == value.value
    ensures r.Err? ==> r.error == NullPointer
  {
    if fieldName.None? || value.None? then Err(NullPointer) else Ok(Prefix(fieldName.value, value.value))
  }

  /** new Word(fieldName, value). */
  function NewWord(fieldName: Option<string>, value: Option<string>): (r: Result<Query>)
    ensures r.Ok? <==> fieldName.Some? && value.Some?
    ensures r.Ok? ==> r.value.Word? && r.value.fieldName == fieldName.value && r.value.text == value.value
    ensures r.Err? ==> r.error == NullPointer
  {
    if fieldName.None? || value.None? then Err(NullPointer) else Ok(Word(fieldName.value, value.value))
  }

  /** new Range(fieldName, min, max, incMin, incMax): the name and both bounds must be non-null. */
  function NewRange(fieldName: Option<string>, min: Option<Value>, max: Option<Value>, incMin: bool, incMax: bool): (r: Result<Query>)
    ensures r.Ok? <==> fieldName.Some? && min.Some? && max.Some?
    ensures r.Ok? ==> r.value == Range(fieldName.value, min.value, max.value, incMin, incMax)
    ensures r.Err? ==> r.error == NullPointer
  {
    if fieldName.None? || min.None? || max.None? then Err(NullPointer)
    else Ok(Range(fieldName.value, min.value, max.value, incMin, incMax))
  }

  /** new Range(fieldName, min, max): both bounds included. */
  function NewClosedRange(fieldName: Option<string>, min: Option<Value>, max: Option<Value>): (r: Result<Query>)
    ensures r.Ok? <==> fieldName.Some? && min.Some? && max.Some?
    ensures r.Ok? ==> r.value.Range? && r.value.incMin && r.value.incMax
    ensures r.Ok? ==> r.value.min == min.value && r.value.max == max.value
  {
    NewRange(fieldName, min, max, true, true)
  }

  // ---------------------------------------------------------------- compounds

  /** Compound.add: the new children go after the old ones; the kind stays. */
  function Add(q: Query, more: seq<Query>): (r: Query)
    requires IsCompound(q)
    ensures IsCompound(r) && r.And? == q.And? && r.Or? == q.Or? && r.Not? == q.Not?
    ensures r.children == q.children + more
  {
    match q
    case And(cs) => And(cs + more)
    case Or(cs) => Or(cs + more)
    case Not(cs) => Not(cs + more)
  }

  /** Compound.count. */
  function Count(q: Query): (n: nat)
    requires IsCompound(q)
    ensures n == |q.children|
  {
    |q.children|
  }

  lemma CountAfterAdd(q: Query, more: seq<Query>)
    requires IsCompound(q)
    ensures Count(Add(q, more)) == Count(q) + |more|
  {
  }

  /** Compound.compact as written: no query for no children, the only child for one, the compound itself otherwise. */
  function Compact(q: Query): (r: Option<Query>)
    requires IsCompound(q)
    ensures |q.children| == 0 <==> r.None?
    ensures |q.children| == 1 ==> r == Some(q.children[0])
    ensures |q.children| > 1 ==> r == Some(q)
  {
    match |q.children|
    case 0 => None
    case 1 => Some(q.children[0])
    case _ => Some(q)
  }

  /** Compaction that keeps the meaning: a negation is never replaced by what it negates. */
  function CompactKeepingNot(q: Query): (r: Option<Query>)
    requires IsCompound(q)
    ensures |q.children| == 0 <==> r.None?
    ensures !q.Not? ==> r == Compact(q)
    ensures q.Not? && |q.children| > 0 ==> r == Some(q)
  {
    if q.Not? && |q.children| > 0 then Some(q) else Compact(q)
  }

  // ---------------------------------------------------------------- equality

  /**
   * equals / checkEquals: the same class, then the same field name, then the
   * same value or bounds and flags; compounds compare their children in order.
   */
  method CheckEquals(a: Query, b: Query) returns (r: bool)
    ensures r <==> a == b
    decreases a
  {
    match a
    case Match(f, v) => r := b.Match? && f == b.fieldName && v == b.value;
    case Prefix(f, s) => r := b.Prefix? && f == b.fieldName && s == b.text;
    case Word(f, s) => r := b.Word? && f == b.fieldName && s == b.text;
    case Range(f, lo, hi, il, ih) =>
      r := b.Range? && f == b.fieldName && lo == b.min && hi == b.max && il == b.incMin && ih == b.incMax;
    case And(cs) => if !b.And? { return false; } r := CheckChildren(a, cs, b.children);
    case Or(cs) => if !b.Or? { return false; } r := CheckChildren(a, cs, b.children);
    case Not(cs) => if !b.Not? { return false; } r := CheckChildren(a, cs, b.children);
  }

  /** Compound.checkEquals's loop: the same number of children, and each equal to its partner. */
  method CheckChildren(parent: Query, xs: seq<Query>, ys: seq<Query>) returns (r: bool)
    requires IsCompound(parent) && xs == parent.children
    ensures r <==> xs == ys
    decreases parent, 0
  {
    if |xs| != |ys| {
      return false;
    }
    var i := 0;
    while i < |xs|
      invariant 0 <= i <= |xs|
      invariant xs[..i] == ys[..i]
    {
      var same := CheckEquals(xs[i], ys[i]);
      if !same {
        assert xs[i] != ys[i];
        return false;
      }
      assert xs[..i + 1] == xs[..i] + [xs[i]];
      assert ys[..i + 1] == ys[..i] + [ys[i]];
      i := i + 1;
    }
    assert xs == xs[..i] && ys == ys[..i];
    r := true;
  }

  // ---------------------------------------------------------------- debug text

  function BoolText(b: bool): string { if b then "true" else "false" }

  /** A value's toString; an object of another class is shown by its class name. */
  function ValueText(v: Value): string
  {
    match v
    case StrV(s) => s
    case IntV(i) => Decimal(i)
    case LongV(l) => Decimal(l)
    case BoolV(b) => BoolText(b)
    case OtherV(cls) => cls
  }

  /** toString, for debugging: a kind label and the operands, compounds as "(child),(child)". */
  function Text(q: Query): string
    decreases q, Width(q) + 1
  {
    match q
    case Match(f, v) => "Match:" + f + "=" + ValueText(v)
    case Prefix(f, s) => "Prefix:" + f + "=" + s
    case Word(f, s) => "Word:" + f + "=" + s
    case Range(f, lo, hi, il, ih) =>
      "Range:" + f + "=" + ValueText(lo) + "," + ValueText(hi) + "," + BoolText(il) + "," + BoolText(ih)
    case And(cs) => "And:" + Joined(q, |cs|)
    case Or(cs) => "Or:" + Joined(q, |cs|)
    case Not(cs) => "not:" + Joined(q, |cs|)
  }

  /** The first `n` children of a compound, each in parentheses, separated by commas. */
  function Joined(parent: Query, n: nat): string
    requires IsCompound(parent) && n <= |parent.children|
    decreases parent, n
  {
    if n == 0 then ""
    else if n == 1 then "(" + Text(parent.children[0]) + ")"
    else Joined(parent, n - 1) + ",(" + Text(parent.children[n - 1]) + ")"
  }

  /** One more child adds its parenthesised text, after a comma unless it is the first. */
  lemma JoinedStep(q: Query, i: nat)
    requires IsCompound(q) && i < |q.children|
    ensures Joined(q, i + 1) == (if i == 0 then "" else Joined(q, i) + ",") + ("(" + Text(q.children[i]) + ")")
  {
    var t := Text(q.children[i]);
    if i == 0 {
      assert Joined(q, 1) == "(" + t + ")";
    } else {
      var x := Joined(q, i);
      assert Joined(q, i + 1) == x + ",(" + t + ")";
      assert ",(" == "," + "(";
      assert x + ",(" + t + ")" == (x + ",") + ("(" + t + ")");
    }
  }

  lemma JoinedDepends(p: Query, q: Query, n: nat)
    requires IsCompound(p) && IsCompound(q) && n <= |p.children| && n <= |q.children|
    requires p.children[..n] == q.children[..n]
    ensures Joined(p, n) == Joined(q, n)
  {
    if n > 1 {
      assert p.children[..n - 1] == p.children[..n][..n - 1];
      assert q.children[..n - 1] == q.children[..n][..n - 1];
      JoinedDepends(p, q, n - 1);
      assert p.children[n - 1] == p.children[..n][n - 1];
    } else if n == 1 {
      assert p.children[0] == p.children[..n][0];
    }
  }

  /** Adding a child to a non-empty compound appends ",(child)" to its text. */
  lemma AddExtendsText(q: Query, c: Query)
    requires IsCompound(q) && |q.children| > 0
    ensures Text(Add(q, [c])) == Text(q) + ",(" + Text(c) + ")"
  {
    var r := Add(q, [c]);
    var n := |q.children|;
    assert r.children[..n] == q.children[..n];
    JoinedDepends(r, q, n);
    JoinedStep(r, n);
    var tag := if q.And? then "And:" else if q.Or? then "Or:" else "not:";
    assert Text(q) == tag + Joined(q, n);
    assert Text(r) == tag + Joined(r, n + 1);
    assert Joined(r, n + 1) == Joined(q, n) + "," + ("(" + Text(c) + ")");
  }

  /** An empty compound shows its label alone. */
  lemma EmptyText(q: Query)
    requires IsCompound(q) && q.children == []
    ensures Text(q) == (if q.And? then "And:" else if q.Or? then "Or:" else "not:")
  {
  }

  /** toString with Compound's StringBuilder loop: ",(child)" per child, then the leading comma cut off. */
  method ToString(q: Query) returns (s: string)
    ensures s == Text(q)
    decreases q, 1
  {
    match q
    case Match(f, v) => s := "Match:" + f + "=" + ValueText(v);
    case Prefix(f, t) => s := "Prefix:" + f + "=" + t;
    case Word(f, t) => s := "Word:" + f + "=" + t;
    case Range(f, lo, hi, il, ih) =>
      s := "Range:" + f + "=" + ValueText(lo) + "," + ValueText(hi) + "," + BoolText(il) + "," + BoolText(ih);
    case And(cs) => s := ChildrenText(q); s := "And:" + s;
    case Or(cs) => s := ChildrenText(q); s := "Or:" + s;
    case Not(cs) => s := ChildrenText(q); s := "not:" + s;
  }

  method ChildrenText(q: Query) returns (s: string)
    requires IsCompound(q)
    ensures s == Joined(q, |q.children|)
    decreases q, 0
  {
    var cs := q.children;
    if |cs| == 0 {
      return "";
    }
    var acc := "";
    var i := 0;
    while i < |cs|
      invariant 0 <= i <= |cs|
      invariant i == 0 ==> acc == ""
      invariant i > 0 ==> acc == "," + Joined(q, i)
    {
      var t := ToString(cs[i]);
      JoinedStep(q, i);
      acc := acc + ("," + ("(" + t + ")"));
      assert i > 0 ==> acc == "," + (Joined(q, i) + "," + ("(" + t + ")"));
      i := i + 1;
    }
    assert acc == "," + Joined(q, |cs|);
    s := acc[1..];
  }

  // ---------------------------------------------------------------- Lucene queries

  datatype Occur = Must | Should | MustNot

  datatype LuceneQuery =
    | TermQuery(term: Term)
    | PrefixQuery(prefix: Term)
    | TermRangeQuery(field: string, lower: string, upper: string, incLower: bool, incUpper: bool)
    | BooleanQuery(clauses: seq<Clause>)
    | MatchAllDocsQuery

  datatype Clause = Clause(query: LuceneQuery, occur: Occur)

  /** Lexicographic order on strings, character by character. */
  predicate Before(a: string, b: string)
  {
    if a == [] then b != []
    else if b == [] then false
    else if a[0] != b[0] then a[0] < b[0]
    else Before(a[1..], b[1..])
  }

  predicate InRangeBounds(x: string, lower: string, upper: string, incLower: bool, incUpper: bool)
  {
    (Before(lower, x) || (incLower && x == lower)) && (Before(x, upper) || (incUpper && x == upper))
  }

  /**
   * Whether a document indexed with `terms` matches: Lucene's boolean rule
   * requires every MUST clause, refuses every MUST_NOT clause, and without a
   * MUST clause needs at least one SHOULD clause to match.
   */
  predicate Matches(q: LuceneQuery, terms: set<Term>)
  {
    match q
    case TermQuery(t) => t in terms
    case PrefixQuery(p) => exists u :: u in terms && u.field == p.field && p.text <= u.text
    case TermRangeQuery(f, lo, hi, il, ih) =>
      exists u :: u in terms && u.field == f && InRangeBounds(u.text, lo, hi, il, ih)
    case MatchAllDocsQuery => true
    case BooleanQuery(cs) =>
      && (forall i :: 0 <= i < |cs| && cs[i].occur == Must ==> Matches(cs[i].query, terms))
      && (forall i :: 0 <= i < |cs| && cs[i].occur == MustNot ==> !Matches(cs[i].query, terms))
      && ((exists i :: 0 <= i < |cs| && cs[i].occur == Must)
          || (exists i :: 0 <= i < |cs| && cs[i].occur == Should && Matches(cs[i].query, terms)))
  }

  const TokenizedMatch: Error := Rl("a Match query cannot use a tokenized field")
  const UnsuitableValue: Error := Rl("the Match query's value does not suit the field")
  const TokenizedRange: Error := Rl("a Range query cannot use a tokenized field")

  /** Class.isAssignableFrom on the classes the model knows: the same class, or Object. */
  predicate AssignableFrom(target: ClassTag, source: ClassTag)
  {
    target == source || target == ObjectClass
  }

  /** The Occur of a compound's clauses: MUST for And, SHOULD for Or, MUST_NOT for Not. */
  function OccurOf(q: Query): Occur
    requires IsCompound(q)
  {
    if q.And? then Must else if q.Or? then Should else MustNot
  }

  /** One MUST term query per token the field's analyzer produces. */
  function TokenClauses(name: string, tokens: seq<string>): (r: seq<Clause>)
    ensures |r| == |tokens|
    ensures forall i :: 0 <= i < |r| ==> r[i] == Clause(TermQuery(Term(name, tokens[i])), Must)
  {
    if tokens == [] then []
    else TokenClauses(name, tokens[..|tokens| - 1]) + [Clause(TermQuery(Term(name, tokens[|tokens| - 1])), Must)]
  }

  /** Match.getLuceneQuery: the field must exist, be untokenized, and admit the value's class. */
  function MatchQueryOf(name: string, v: Value, t: Table): (r: Result<LuceneQuery>)
    ensures GetFieldByName(t, name).None? ==> r == Err(NullPointer)
    ensures GetFieldByName(t, name).Some? && GetFieldByName(t, name).value.tokenized ==> r == Err(TokenizedMatch)
    ensures r.Ok? ==>
      && GetFieldByName(t, name).Some?
      && (var f := GetFieldByName(t, name).value;
          && !f.tokenized
          && ReferenceClass(f.fieldType).Ok? && AssignableFrom(ReferenceClass(f.fieldType).value, ClassOf(v))
          && ValueToString(f, Some(v)).Ok?
          && r.value == TermQuery(Term(name, ValueToString(f, Some(v)).value.value)))
  {
    match GetFieldByName(t, name)
    case None => Err(NullPointer)
    case Some(f) =>
      if f.tokenized then Err(TokenizedMatch)
      else
        match ReferenceClass(f.fieldType)
        case Err(e) => Err(e)
        case Ok(target) =>
          if !AssignableFrom(target, ClassOf(v)) then Err(UnsuitableValue)
          else
            match ValueToString(f, Some(v))
            case Err(e) => Err(e)
            case Ok(s) => Ok(TermQuery(Term(name, s.value)))
  }

  /** Word.getLuceneQuery: the field must exist and have an analyzer, i.e. be tokenized. */
  function WordQueryOf(name: string, s: string, t: Table, analyze: (Field, string) -> seq<string>): (r: Result<LuceneQuery>)
    ensures GetFieldByName(t, name).None? ==> r == Err(Runtime(""))
    ensures GetFieldByName(t, name).Some? && !GetFieldByName(t, name).value.tokenized ==> r == Err(NoAnalyzer)
    ensures r.Ok? <==> GetFieldByName(t, name).Some? && GetFieldByName(t, name).value.tokenized
  {
    match GetFieldByName(t, name)
    case None => Err(Runtime(""))
    case Some(f) =>
      if !f.tokenized then Err(NoAnalyzer)
      else Ok(BooleanQuery(TokenClauses(f.name, analyze(f, s))))
  }

  /** Range.getLuceneQuery: the field must exist and be untokenized; both bounds go through the field's converter. */
  function RangeQueryOf(name: string, lo: Value, hi: Value, il: bool, ih: bool, t: Table): (r: Result<LuceneQuery>)
    ensures GetFieldByName(t, name).None? ==> r == Err(Runtime(""))
    ensures GetFieldByName(t, name).Some? && GetFieldByName(t, name).value.tokenized ==> r == Err(TokenizedRange)
    ensures r.Ok? ==>
      && GetFieldByName(t, name).Some?
      && (var f := GetFieldByName(t, name).value;
          && !f.tokenized && ValueToString(f, Some(lo)).Ok? && ValueToString(f, Some(hi)).Ok?
          && r.value == TermRangeQuery(name, ValueToString(f, Some(lo)).value.value, ValueToString(f, Some(hi)).value.value, il, ih))
  {
    match GetFieldByName(t, name)
    case None => Err(Runtime(""))
    case Some(f) =>
      if f.tokenized then Err(TokenizedRange)
      else
        match ValueToString(f, Some(lo))
        case Err(e) => Err(e)
        case Ok(l) =>
          match ValueToString(f, Some(hi))
          case Err(e) => Err(e)
          case Ok(u) => Ok(TermRangeQuery(name, l.value, u.value, il, ih))
  }

  /**
   * getLuceneQuery(table). `analyze` stands for the field's analyzer
   * (expandString), which is not part of this model.
   */
  function Lucene(q: Query, t: Table, analyze: (Field, string) -> seq<string>): (r: Result<LuceneQuery>)
    ensures r.Ok? && IsCompound(q) ==> r.value.BooleanQuery?
    ensures r.Ok? && q.Not? ==> |r.value.clauses| >= 1 && r.value.clauses[0] == Clause(MatchAllDocsQuery, Must)
    decreases q, Width(q) + 2
  {
    match q
    case Match(name, v) => MatchQueryOf(name, v, t)
    case Prefix(name, s) => Ok(PrefixQuery(Term(name, s)))
    case Word(name, s) => WordQueryOf(name, s, t, analyze)
    case Range(name, lo, hi, il, ih) => RangeQueryOf(name, lo, hi, il, ih, t)
    case And(cs) => Boolean(q, t, analyze)
    case Or(cs) => Boolean(q, t, analyze)
    case Not(cs) =>
      match Boolean(q, t, analyze)
      case Err(e) => Err(e)
      case Ok(b) => Ok(BooleanQuery([Clause(MatchAllDocsQuery, Must)] + b.clauses))
  }

  /** A compound's boolean query: one clause of its Occur per child, in order. */
  function Boolean(q: Query, t: Table, analyze: (Field, string) -> seq<string>): (r: Result<LuceneQuery>)
    requires IsCompound(q)
    ensures r.Ok? ==> r.value.BooleanQuery?
    decreases q, Width(q) + 1
  {
    match Clauses(q, |q.children|, t, analyze)
    case Err(e) => Err(e)
    case Ok(cl) => Ok(BooleanQuery(cl))
  }

  /** The clauses for the first `n` children; the first child that cannot be translated stops it. */
  function Clauses(parent: Query, n: nat, t: Table, analyze: (Field, string) -> seq<string>): (r: Result<seq<Clause>>)
    requires IsCompound(parent) && n <= |parent.children|
    ensures r.Ok? ==> |r.value| == n
    decreases parent, n
  {
    if n == 0 then Ok([])
    else
      match Clauses(parent, n - 1, t, analyze)
      case Err(e) => Err(e)
      case Ok(init) =>
        match Lucene(parent.children[n - 1], t, analyze)
        case Err(e) => Err(e)
        case Ok(c) => Ok(init + [Clause(c, OccurOf(parent))])
  }

  /** The clauses exist exactly when every one of the first `n` children translates, and clause i is child i's query under the compound's Occur. */
  lemma {:induction false} ClausesMeaning(parent: Query, n: nat, t: Table, analyze: (Field, string) -> seq<string>)
    requires IsCompound(parent) && n <= |parent.children|
    ensures var r := Clauses(parent, n, t, analyze);
      && (r.Ok? ==> forall i :: 0 <= i < n ==>
            Lucene(parent.children[i], t, analyze).Ok? &&
            r.value[i] == Clause(Lucene(parent.children[i], t, analyze).value, OccurOf(parent)))
      && (r.Err? <==> exists i :: 0 <= i < n && Lucene(parent.children[i], t, analyze).Err?)
    decreases n
  {
    if n > 0 {
      ClausesMeaning(parent, n - 1, t, analyze);
    }
  }

  /** A Word query matches exactly the documents that hold every token of the value, and none when there are no tokens. */
  lemma WordMeansEveryToken(name: string, text: string, t: Table, analyze: (Field, string) -> seq<string>, terms: set<Term>)
    requires Lucene(Word(name, text), t, analyze).Ok?
    ensures GetFieldByName(t, name).Some?
    ensures var f := GetFieldByName(t, name).value;
            var tokens := analyze(f, text);
            Matches(Lucene(Word(name, text), t, analyze).value, terms) <==>
              |tokens| > 0 && forall i :: 0 <= i < |tokens| ==> Term(f.name, tokens[i]) in terms
  {
    var f := GetFieldByName(t, name).value;
    var cs := TokenClauses(f.name, analyze(f, text));
    if |cs| > 0 {
      assert cs[0].occur == Must;
    }
  }

  /** And: a document matches exactly when it matches every child; an empty And matches nothing. */
  lemma AndMeansAll(cs: seq<Query>, t: Table, analyze: (Field, string) -> seq<string>, terms: set<Term>)
    requires Lucene(And(cs), t, analyze).Ok?
    ensures forall i :: 0 <= i < |cs| ==> Lucene(cs[i], t, analyze).Ok?
    ensures Matches(Lucene(And(cs), t, analyze).value, terms) <==>
            |cs| > 0 && forall i :: 0 <= i < |cs| ==> Matches(Lucene(cs[i], t, analyze).value, terms)
  {
    var q := And(cs);
    ClausesMeaning(q, |cs|, t, analyze);
    var cl := Clauses(q, |cs|, t, analyze).value;
    MustClausesMatch(cl, terms);
    assert forall i :: 0 <= i < |cs| ==> cl[i].query == Lucene(cs[i], t, analyze).value;
  }

  /** A boolean query of MUST clauses matches when it has a clause and every clause matches. */
  lemma MustClausesMatch(cl: seq<Clause>, terms: set<Term>)
    requires forall i :: 0 <= i < |cl| ==> cl[i].occur == Must
    ensures Matches(BooleanQuery(cl), terms) <==> |cl| > 0 && forall i :: 0 <= i < |cl| ==> Matches(cl[i].query, terms)
  {
    if |cl| > 0 {
      assert cl[0].occur == Must;
    }
  }

  /** Or: a document matches exactly when it matches some child. */
  lemma OrMeansAny(cs: seq<Query>, t: Table, analyze: (Field, string) -> seq<string>, terms: set<Term>)
    requires Lucene(Or(cs), t, analyze).Ok?
    ensures forall i :: 0 <= i < |cs| ==> Lucene(cs[i], t, analyze).Ok?
    ensures Matches(Lucene(Or(cs), t, analyze).value, terms) <==>
            exists i :: 0 <= i < |cs| && Matches(Lucene(cs[i], t, analyze).value, terms)
  {
    var q := Or(cs);
    ClausesMeaning(q, |cs|, t, analyze);
    var cl := Clauses(q, |cs|, t, analyze).value;
    ShouldClausesMatch(cl, terms);
    assert forall i :: 0 <= i < |cs| ==> cl[i].query == Lucene(cs[i], t, analyze).value;
  }

  /** A boolean query of SHOULD clauses matches when some clause matches. */
  lemma ShouldClausesMatch(cl: seq<Clause>, terms: set<Term>)
    requires forall i :: 0 <= i < |cl| ==> cl[i].occur == Should
    ensures Matches(BooleanQuery(cl), terms) <==> exists i :: 0 <= i < |cl| && Matches(cl[i].query, terms)
  {
  }

  /**
   * Not: a document matches exactly when it matches no child (an empty Not
   * matches everything). The MATCH_ALL clause is what makes this hold: a
   * boolean query of MUST_NOT clauses alone matches nothing.
   */
  lemma NotMeansNone(cs: seq<Query>, t: Table, analyze: (Field, string) -> seq<string>, terms: set<Term>)
    requires Lucene(Not(cs), t, analyze).Ok?
    ensures forall i :: 0 <= i < |cs| ==> Lucene(cs[i], t, analyze).Ok?
    ensures Matches(Lucene(Not(cs), t, analyze).value, terms) <==>
            forall i :: 0 <= i < |cs| ==> !Matches(Lucene(cs[i], t, analyze).value, terms)
  {
    var q := Not(cs);
    ClausesMeaning(q, |cs|, t, analyze);
    var cl := Clauses(q, |cs|, t, analyze).value;
    MustNotClausesMatch(cl, terms);
    assert forall i :: 0 <= i < |cs| ==> cl[i].query == Lucene(cs[i], t, analyze).value;
  }

  /** MATCH_ALL followed by MUST_NOT clauses matches when no clause after it matches. */
  lemma MustNotClausesMatch(cl: seq<Clause>, terms: set<Term>)
    requires forall i :: 0 <= i < |cl| ==> cl[i].occur == MustNot
    ensures Matches(BooleanQuery([Clause(MatchAllDocsQuery, Must)] + cl), terms) <==>
            forall i :: 0 <= i < |cl| ==> !Matches(cl[i].query, terms)
  {
    var all := [Clause(MatchAllDocsQuery, Must)] + cl;
    assert all[0].occur == Must;
    assert forall i :: 0 < i < |all| ==> all[i] == cl[i - 1];
    if Matches(BooleanQuery(all), terms) {
      forall i | 0 <= i < |cl|
        ensures !Matches(cl[i].query, terms)
      {
        assert all[i + 1].occur == MustNot;
      }
    }
  }

  /** Without the MATCH_ALL clause, negations alone would match no document at all. */
  lemma NegationsAloneMatchNothing(cl: seq<Clause>, terms: set<Term>)
    requires forall i :: 0 <= i < |cl| ==> cl[i].occur == MustNot
    ensures !Matches(BooleanQuery(cl), terms)
  {
  }

  /** The corrected compaction keeps the meaning of every compound it shortens. */
  lemma CompactKeepsMeaning(q: Query, t: Table, analyze: (Field, string) -> seq<string>, terms: set<Term>)
    requires IsCompound(q) && Lucene(q, t, analyze).Ok?
    requires CompactKeepingNot(q).Some?
    ensures Lucene(CompactKeepingNot(q).value, t, analyze).Ok?
    ensures Matches(Lucene(CompactKeepingNot(q).value, t, analyze).value, terms) <==>
            Matches(Lucene(q, t, analyze).value, terms)
  {
    if !q.Not? && |q.children| == 1 {
      OnlyChildMeaning(q, t, analyze, terms);
    }
  }

  /** An And or an Or of one child matches the documents its child matches. */
  lemma OnlyChildMeaning(q: Query, t: Table, analyze: (Field, string) -> seq<string>, terms: set<Term>)
    requires (q.And? || q.Or?) && |q.children| == 1 && Lucene(q, t, analyze).Ok?
    ensures Lucene(q.children[0], t, analyze).Ok?
    ensures Matches(Lucene(q.children[0], t, analyze).value, terms) <==> Matches(Lucene(q, t, analyze).value, terms)
  {
    if q.And? {
      AndMeansAll(q.children, t, analyze, terms);
    } else {
      OrMeansAny(q.children, t, analyze, terms);
    }
  }

  /** compact as written turns a one-child Not into its child: the documents it matches are exactly those the Not excluded. */
  lemma CompactInvertsNot(c: Query, t: Table, analyze: (Field, string) -> seq<string>, terms: set<Term>)
    requires Lucene(Not([c]), t, analyze).Ok?
    ensures Compact(Not([c])) == Some(c) && Lucene(c, t, analyze).Ok?
    ensures Matches(Lucene(c, t, analyze).value, terms) <==> !Matches(Lucene(Not([c]), t, analyze).value, terms)
  {
    NotMeansNone([c], t, analyze, terms);
  }

  /**
   * The translation as the source writes it, with the loops of
   * Compound.getLuceneQuery, Not.getLuceneQuery and Word.getLuceneQuery.
   */
  method GetLuceneQuery(q: Query, t: Table, analyze: (Field, string) -> seq<string>) returns (r: Result<LuceneQuery>)
    ensures r == Lucene(q, t, analyze)
    decreases q, 1
  {
    match q
    case Match(name, v) => r := MatchQueryOf(name, v, t);
    case Prefix(name, s) => r := Ok(PrefixQuery(Term(name, s)));
    case Word(name, s) => r := GetWordQuery(name, s, t, analyze);
    case Range(name, lo, hi, il, ih) => r := RangeQueryOf(name, lo, hi, il, ih, t);
    case And(cs) =>
      var cl := GetClauses(q, t, analyze, []);
      assert cl.Ok? ==> cl.value == Clauses(q, |cs|, t, analyze).value;
      r := if cl.Err? then Err(cl.error) else Ok(BooleanQuery(cl.value));
    case Or(cs) =>
      var cl := GetClauses(q, t, analyze, []);
      assert cl.Ok? ==> cl.value == Clauses(q, |cs|, t, analyze).value;
      r := if cl.Err? then Err(cl.error) else Ok(BooleanQuery(cl.value));
    case Not(cs) =>
      var cl := GetClauses(q, t, analyze, [Clause(MatchAllDocsQuery, Must)]);
      assert Clauses(q, |cs|, t, analyze).Ok? ==> Boolean(q, t, analyze).value.clauses == Clauses(q, |cs|, t, analyze).value;
      r := if cl.Err? then Err(cl.error) else Ok(BooleanQuery(cl.value));
  }

  /** Word.getLuceneQuery's loop over the analyzer's tokens. */
  method GetWordQuery(name: string, s: string, t: Table, analyze: (Field, string) -> seq<string>) returns (r: Result<LuceneQuery>)
    ensures r == WordQueryOf(name, s, t, analyze)
  {
    var field := GetFieldByName(t, name);
    if field.None? {
      return Err(Runtime(""));
    }
    var f := field.value;
    if !f.tokenized {
      return Err(NoAnalyzer);
    }
    var tokens := analyze(f, s);
    var cl: seq<Clause> := [];
    for i := 0 to |tokens|
      invariant cl == TokenClauses(f.name, tokens[..i])
    {
      assert tokens[..i + 1][..i] == tokens[..i];
      cl := cl + [Clause(TermQuery(Term(f.name, tokens[i])), Must)];
    }
    assert tokens[..|tokens|] == tokens;
    r := Ok(BooleanQuery(cl));
  }

  /** The clause loop, appending to the clauses already in the boolean query. */
  method GetClauses(q: Query, t: Table, analyze: (Field, string) -> seq<string>, start: seq<Clause>) returns (r: Result<seq<Clause>>)
    requires IsCompound(q)
    ensures Clauses(q, |q.children|, t, analyze).Err? ==> r == Err(Clauses(q, |q.children|, t, analyze).error)
    ensures Clauses(q, |q.children|, t, analyze).Ok? ==> r == Ok(start + Clauses(q, |q.children|, t, analyze).value)
    decreases q, 0
  {
    var cs := q.children;
    var acc := start;
    for i := 0 to |cs|
      invariant Clauses(q, i, t, analyze).Ok?
      invariant acc == start + Clauses(q, i, t, analyze).value
    {
      var c := GetLuceneQuery(cs[i], t, analyze);
      if c.Err? {
        ClausesStop(q, i, |cs|, t, analyze);
        return Err(c.error);
      }
      acc := acc + [Clause(c.value, OccurOf(q))];
    }
    r := Ok(acc);
  }

  /** Once the first `k` children translate and child `k` does not, the whole compound fails with child `k`'s error. */
  lemma {:induction false} ClausesStop(q: Query, k: nat, n: nat, t: Table, analyze: (Field, string) -> seq<string>)
    requires IsCompound(q) && k < n <= |q.children|
    requires Clauses(q, k, t, analyze).Ok? && Lucene(q.children[k], t, analyze).Err?
    ensures Clauses(q, n, t, analyze) == Err(Lucene(q.children[k], t, analyze).error)
    decreases n
  {
    if n > k + 1 {
      ClausesStop(q, k, n - 1, t, analyze);
    }
  }
}
