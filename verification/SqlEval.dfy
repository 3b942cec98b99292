/** Meaning of the parsed SQL: storage-class ordering of values, three-valued
    logic, and what rows a SELECT may return. */
module SqlEval {
  import opened Basics
  import opened SqlSyntax
  import Sorting

  // ----------------------------------------------------------------- values

  datatype Value =
    | Null
    | Integer(i: int)
    | Real(r: real)
    | Infinity(negative: bool)
    | NaN                      // the engine stores a bound NaN as NULL
    | String(text: Text)
    | Blob(bytes: Text)

  predicate IsNull(v: Value) { v.Null? || v.NaN? }

  function StorageRank(v: Value): nat
  {
    match v
    case Null => 0
    case NaN => 0
    case Integer(_) => 1
    case Real(_) => 1
    case Infinity(_) => 1
    case String(_) => 2
    case Blob(_) => 3
  }

  function Sign(v: Value): int { if v.Infinity? then (if v.negative then -1 else 1) else 0 }

  function Magnitude(v: Value): real
  {
    if v.Integer? then v.i as real else if v.Real? then v.r else 0.0
  }

  predicate NumberLess(a: Value, b: Value)
  {
    Sign(a) < Sign(b) || (Sign(a) == Sign(b) && Magnitude(a) < Magnitude(b))
  }

  /** NULL < numbers < texts < blobs; texts and blobs compare bytewise. */
  predicate ValueLess(a: Value, b: Value)
  {
    if StorageRank(a) != StorageRank(b) then StorageRank(a) < StorageRank(b)
    else if StorageRank(a) == 1 then NumberLess(a, b)
    else if a.String? && b.String? then TextLess(a.text, b.text)
    else if a.Blob? && b.Blob? then TextLess(a.bytes, b.bytes)
    else false
  }

  /** Equal for the engine: `1` and `1.0` are, so equality is coarser than `==`. */
  predicate SameValue(a: Value, b: Value) { !ValueLess(a, b) && !ValueLess(b, a) }

  lemma {:induction false} TextNegativelyTransitive(a: Text, b: Text, c: Text)
    requires TextLess(a, c)
    ensures TextLess(a, b) || TextLess(b, c)
  {
    TextLessIsTotal(a, b);
    if TextLess(b, a) {
      TextLessIsTransitive(b, a, c);
    }
  }

  /** Strict weak order, part one. */
  lemma {:induction false} ValueLessAsymmetric(a: Value, b: Value)
    ensures !(ValueLess(a, b) && ValueLess(b, a))
  {
    if a.String? && b.String? {
      TextLessIsStrict(a.text, b.text);
    } else if a.Blob? && b.Blob? {
      TextLessIsStrict(a.bytes, b.bytes);
    }
  }

  /** Strict weak order, part two: a third value lies on one side or the other. */
  lemma {:induction false} ValueLessCuts(a: Value, b: Value, c: Value)
    requires ValueLess(a, c)
    ensures ValueLess(a, b) || ValueLess(b, c)
  {
    if a.String? && b.String? && c.String? {
      TextNegativelyTransitive(a.text, b.text, c.text);
    } else if a.Blob? && b.Blob? && c.Blob? {
      TextNegativelyTransitive(a.bytes, b.bytes, c.bytes);
    }
  }

  // ------------------------------------------------------------ expressions

  type Row = map<Text, Value>

  datatype Truth = True | False | Unknown

  function Holds(op: Comparison, a: Value, b: Value): bool
  {
    match op
    case Equal => SameValue(a, b)
    case NotEqual => !SameValue(a, b)
    case Less => ValueLess(a, b)
    case LessOrEqual => !ValueLess(b, a)
    case Greater => ValueLess(b, a)
    case GreaterOrEqual => !ValueLess(a, b)
  }

  function CompareTruth(op: Comparison, a: Value, b: Value): Truth
  {
    if IsNull(a) || IsNull(b) then Unknown else FromBool(Holds(op, a, b))
  }

  function FromBool(b: bool): Truth { if b then True else False }

  function AndTruth(a: Truth, b: Truth): Truth
  {
    if a == False || b == False then False else if a == True && b == True then True else Unknown
  }

  function OrTruth(a: Truth, b: Truth): Truth
  {
    if a == True || b == True then True else if a == False && b == False then False else Unknown
  }

  function NotTruth(a: Truth): Truth
  {
    match a
    case True => False
    case False => True
    case Unknown => Unknown
  }

  /** The engine has no boolean class: truth is carried as 1, 0 or NULL. */
  function OfTruth(t: Truth): Value
  {
    match t
    case True => Integer(1)
    case False => Integer(0)
    case Unknown => Null
  }

  function TruthOf(v: Value): Option<Truth>
  {
    match v
    case Null => Some(Unknown)
    case NaN => Some(Unknown)
    case Integer(i) => Some(FromBool(i != 0))
    case Real(r) => Some(FromBool(r != 0.0))
    case Infinity(_) => Some(True)
    case String(_) => None     // numeric-prefix coercion is not modelled
    case Blob(_) => None
  }

  /** `None`: an unknown column, an unbound parameter or an unmodelled coercion. */
  function Eval(e: Expr, row: Row, params: seq<Value>): Option<Value>
    decreases e, 0
  {
    match e
    case Column(n) => if n in row then Some(row[n]) else None
    case Bound(i) => if 1 <= i <= |params| then Some(params[i - 1]) else None
    case Literal(v) => Some(Integer(v))
    case Compare(op, l, r) =>
      (match (Eval(l, row, params), Eval(r, row, params))
       case (Some(a), Some(b)) => Some(OfTruth(CompareTruth(op, a, b)))
       case _ => None)
    case NullTest(a, negated) =>
      (match Eval(a, row, params)
       case Some(v) => Some(OfTruth(FromBool(IsNull(v) != negated)))
       case None => None)
    case And(l, r) =>
      (match (EvalTruth(l, row, params), EvalTruth(r, row, params))
       case (Some(a), Some(b)) => Some(OfTruth(AndTruth(a, b)))
       case _ => None)
    case Or(l, r) =>
      (match (EvalTruth(l, row, params), EvalTruth(r, row, params))
       case (Some(a), Some(b)) => Some(OfTruth(OrTruth(a, b)))
       case _ => None)
    case Not(a) =>
      (match EvalTruth(a, row, params)
       case Some(t) => Some(OfTruth(NotTruth(t)))
       case None => None)
  }

  function EvalTruth(e: Expr, row: Row, params: seq<Value>): Option<Truth>
    decreases e, 1
  {
    match Eval(e, row, params)
    case Some(v) => TruthOf(v)
    case None => None
  }

  lemma {:induction false} TruthRoundTrip(t: Truth)
    ensures TruthOf(OfTruth(t)) == Some(t)
  {}

  // ------------------------------------------------------------- row order

  /** Strict ORDER BY comparison of two rows. */
  predicate Before(order: seq<OrderTerm>, a: Row, b: Row)
  {
    if order == [] then false
    else
      var c := order[0].column;
      if c !in a || c !in b then false
      else
        var (x, y) := if order[0].descending then (b[c], a[c]) else (a[c], b[c]);
        ValueLess(x, y) || (SameValue(x, y) && Before(order[1..], a, b))
  }

  ghost predicate HasColumns(order: seq<OrderTerm>, row: Row)
  {
    forall i :: 0 <= i < |order| ==> order[i].column in row
  }

  lemma {:induction false} BeforeAsymmetric(order: seq<OrderTerm>, a: Row, b: Row)
    ensures !(Before(order, a, b) && Before(order, b, a))
  {
    if order != [] && order[0].column in a && order[0].column in b {
      ValueLessAsymmetric(a[order[0].column], b[order[0].column]);
      BeforeAsymmetric(order[1..], a, b);
    }
  }

  lemma {:induction false} BeforeTransitive(order: seq<OrderTerm>, a: Row, b: Row, c: Row)
    requires Before(order, a, b) && Before(order, b, c)
    requires HasColumns(order, a) && HasColumns(order, b) && HasColumns(order, c)
    ensures Before(order, a, c)
  {
    var k := order[0].column;
    var (x, y, z) := if order[0].descending then (c[k], b[k], a[k]) else (a[k], b[k], c[k]);
    WeakOrderSteps(x, y, z);
    ValueLessAsymmetric(x, y);
    ValueLessAsymmetric(y, z);
    if SameValue(x, y) && SameValue(y, z) {
      BeforeTransitive(order[1..], a, b, c);
    }
  }

  lemma {:induction false} WeakOrderSteps(x: Value, y: Value, z: Value)
    ensures !ValueLess(y, x) && !ValueLess(z, y) ==> !ValueLess(z, x)
    ensures SameValue(x, y) && SameValue(y, z) ==> SameValue(x, z)
    ensures ValueLess(x, y) && !ValueLess(z, y) ==> ValueLess(x, z)
    ensures !ValueLess(y, x) && ValueLess(y, z) ==> ValueLess(x, z)
  {
    ValueLessAsymmetric(x, y);
    ValueLessAsymmetric(y, z);
    ValueLessAsymmetric(x, z);
    if ValueLess(z, x) { ValueLessCuts(z, y, x); }
    if ValueLess(x, z) { ValueLessCuts(x, y, z); }
    if ValueLess(x, y) { ValueLessCuts(x, z, y); }
    if ValueLess(y, z) { ValueLessCuts(y, x, z); }
  }

  /** Two rows that no term separates agree, for the engine, on every term. */
  lemma {:induction false} UnorderedRowsAgree(order: seq<OrderTerm>, a: Row, b: Row, i: nat)
    requires HasColumns(order, a) && HasColumns(order, b)
    requires !Before(order, a, b) && !Before(order, b, a)
    requires i < |order|
    ensures SameValue(a[order[i].column], b[order[i].column])
  {
    if i > 0 {
      UnorderedRowsAgree(order[1..], a, b, i - 1);
    }
  }

  // ---------------------------------------------------------------- SELECT

  function RowLess(order: seq<OrderTerm>): Sorting.Less<Row>
  {
    (a: Row, b: Row) => Before(order, a, b)
  }

  function Keeps(filter: Option<Expr>, row: Row, params: seq<Value>): bool
  {
    filter.None? || EvalTruth(filter.value, row, params) == Some(True)
  }

  function Kept(filter: Option<Expr>, rows: seq<Row>, params: seq<Value>): seq<Row>
  {
    if rows == [] then []
    else (if Keeps(filter, rows[0], params) then [rows[0]] else []) + Kept(filter, rows[1..], params)
  }

  function TakeCount(limit: Option<Expr>, params: seq<Value>, available: nat): Option<nat>
  {
    if limit.None? then Some(available)
    else
      match Eval(limit.value, map[], params)
      case Some(Integer(n)) => Some(if 0 <= n < available then n else available)
      case _ => None
  }

  /** `out` are rows the engine may return, in order, for any storage order of
      the table: it sorts the kept rows somehow and cuts at the limit. */
  ghost predicate MayReturn(s: Statement, rows: seq<Row>, params: seq<Value>, out: seq<Row>)
    requires s.Select?
  {
    exists sorted: seq<Row> ::
      && multiset(sorted) == multiset(Kept(s.filter, rows, params))
      && Sorting.Sorted(RowLess(s.order), sorted)
      && TakeCount(s.limit, params, |sorted|).Some?
      && out == sorted[..TakeCount(s.limit, params, |sorted|).value]
  }
}
