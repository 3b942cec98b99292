/** Grammar of the SQL subset csgdb emits: a precedence parser for expressions
    (OR < AND < NOT < equality and IS < order comparison) and the statement
    forms SELECT, INSERT, UPDATE and DELETE. It parses far more than csgdb
    prints; the lemmas say what it makes of the shapes csgdb does print. */
module SqlSyntax {
  import opened Basics
  import opened SqlText

  datatype Comparison = Equal | NotEqual | Less | LessOrEqual | Greater | GreaterOrEqual

  datatype Expr =
    | Column(name: Text)
    | Bound(index: nat)
    | Literal(value: nat)
    | Compare(op: Comparison, left: Expr, right: Expr)
    | NullTest(arg: Expr, negated: bool)
    | And(left: Expr, right: Expr)
    | Or(left: Expr, right: Expr)
    | Not(arg: Expr)

  type Parsed<+T> = Option<(T, seq<Token>)>

  function OperatorText(c: Comparison): Text
  {
    match c
    case Equal => "="
    case NotEqual => "<>"
    case Less => "<"
    case LessOrEqual => "<="
    case Greater => ">"
    case GreaterOrEqual => ">="
  }

  function OrderOperator(t: Token): Option<Comparison>
  {
    if t == Sym("<") then Some(Less)
    else if t == Sym("<=") then Some(LessOrEqual)
    else if t == Sym(">") then Some(Greater)
    else if t == Sym(">=") then Some(GreaterOrEqual)
    else None
  }

  function EqualityOperator(t: Token): Option<Comparison>
  {
    if t == EQ then Some(Equal) else if t == Sym("<>") then Some(NotEqual) else None
  }

  // ------------------------------------------------------------ expressions

  function ParsePrimary(ts: seq<Token>): (r: Parsed<Expr>)
    ensures r.Some? ==> |r.value.1| < |ts|
    decreases |ts|, 0
  {
    if ts == [] then None
    else if ts[0].Name? then Some((Column(ts[0].text), ts[1..]))
    else if ts[0].Param? && ts[0].number > 0 then Some((Bound(ts[0].number), ts[1..]))
    else if ts[0].Num? then Some((Literal(ts[0].value), ts[1..]))
    else if ts[0] == LP then
      match ParseOr(ts[1..])
      case None => None
      case Some((e, rest)) =>
        if rest != [] && rest[0] == RP then Some((e, rest[1..])) else None
    else None
  }

  function ParseOrdering(ts: seq<Token>): (r: Parsed<Expr>)
    ensures r.Some? ==> |r.value.1| < |ts|
    decreases |ts|, 1
  {
    match ParsePrimary(ts)
    case None => None
    case Some((e, rest)) => OrderingRest(e, rest)
  }

  function OrderingRest(left: Expr, ts: seq<Token>): (r: Parsed<Expr>)
    ensures r.Some? ==> |r.value.1| <= |ts|
    decreases |ts|, 1
  {
    if ts == [] || OrderOperator(ts[0]).None? then Some((left, ts))
    else
      match ParsePrimary(ts[1..])
      case None => None
      case Some((e, rest)) => OrderingRest(Compare(OrderOperator(ts[0]).value, left, e), rest)
  }

  function ParseEquality(ts: seq<Token>): (r: Parsed<Expr>)
    ensures r.Some? ==> |r.value.1| < |ts|
    decreases |ts|, 2
  {
    match ParseOrdering(ts)
    case None => None
    case Some((e, rest)) => EqualityRest(e, rest)
  }

  function EqualityRest(left: Expr, ts: seq<Token>): (r: Parsed<Expr>)
    ensures r.Some? ==> |r.value.1| <= |ts|
    decreases |ts|, 2
  {
    if ts == [] then Some((left, ts))
    else if ts[0] == Word("IS") then
      if |ts| > 1 && ts[1] == Word("NULL") then EqualityRest(NullTest(left, false), ts[2..])
      else if |ts| > 2 && ts[1] == Word("NOT") && ts[2] == Word("NULL")
      then EqualityRest(NullTest(left, true), ts[3..])
      else None
    else if EqualityOperator(ts[0]).None? then Some((left, ts))
    else
      match ParseOrdering(ts[1..])
      case None => None
      case Some((e, rest)) => EqualityRest(Compare(EqualityOperator(ts[0]).value, left, e), rest)
  }

  function ParseNot(ts: seq<Token>): (r: Parsed<Expr>)
    ensures r.Some? ==> |r.value.1| < |ts|
    decreases |ts|, 3
  {
    if ts != [] && ts[0] == Word("NOT") then
      match ParseNot(ts[1..])
      case None => None
      case Some((e, rest)) => Some((Not(e), rest))
    else ParseEquality(ts)
  }

  function ParseAnd(ts: seq<Token>): (r: Parsed<Expr>)
    ensures r.Some? ==> |r.value.1| < |ts|
    decreases |ts|, 4
  {
    match ParseNot(ts)
    case None => None
    case Some((e, rest)) => AndRest(e, rest)
  }

  function AndRest(left: Expr, ts: seq<Token>): (r: Parsed<Expr>)
    ensures r.Some? ==> |r.value.1| <= |ts|
    decreases |ts|, 4
  {
    if ts == [] || ts[0] != Word("AND") then Some((left, ts))
    else
      match ParseNot(ts[1..])
      case None => None
      case Some((e, rest)) => AndRest(And(left, e), rest)
  }

  function ParseOr(ts: seq<Token>): (r: Parsed<Expr>)
    ensures r.Some? ==> |r.value.1| < |ts|
    decreases |ts|, 5
  {
    match ParseAnd(ts)
    case None => None
    case Some((e, rest)) => OrRest(e, rest)
  }

  function OrRest(left: Expr, ts: seq<Token>): (r: Parsed<Expr>)
    ensures r.Some? ==> |r.value.1| <= |ts|
    decreases |ts|, 5
  {
    if ts == [] || ts[0] != Word("OR") then Some((left, ts))
    else
      match ParseAnd(ts[1..])
      case None => None
      case Some((e, rest)) => OrRest(Or(left, e), rest)
  }

  // ------------------------------------------------- what the parser makes

  /** A token that can continue an expression beyond a complete operand. */
  predicate Continues(t: Token)
  {
    OrderOperator(t).Some? || EqualityOperator(t).Some? || t == Word("IS")
  }

  predicate Ends(ts: seq<Token>)
  {
    ts == [] || (!Continues(ts[0]) && ts[0] != Word("AND") && ts[0] != Word("OR"))
  }

  lemma {:induction false} OperandIsTerm(ts: seq<Token>, e: Expr, rest: seq<Token>)
    requires ParsePrimary(ts) == Some((e, rest))
    requires rest == [] || !Continues(rest[0])
    ensures ParseNot(ts) == Some((e, rest))
  {
    assert OrderingRest(e, rest) == Some((e, rest));
    assert ParseOrdering(ts) == Some((e, rest));
    assert EqualityRest(e, rest) == Some((e, rest));
    assert ParseEquality(ts) == Some((e, rest));
  }

  lemma {:induction false} TermIsExpression(ts: seq<Token>, e: Expr, rest: seq<Token>)
    requires ParseNot(ts) == Some((e, rest)) && Ends(rest)
    ensures ParseOr(ts) == Some((e, rest))
  {
    assert AndRest(e, rest) == Some((e, rest));
    assert ParseAnd(ts) == Some((e, rest));
    assert OrRest(e, rest) == Some((e, rest));
  }

  lemma {:induction false} ParenthesizedParses(inner: seq<Token>, e: Expr, rest: seq<Token>)
    requires ParseOr(inner + [RP] + rest) == Some((e, [RP] + rest))
    ensures ParsePrimary([LP] + inner + [RP] + rest) == Some((e, rest))
  {
    var ts := [LP] + inner + [RP] + rest;
    assert ts[1..] == inner + [RP] + rest;
  }

  predicate IsOperand(t: Token) { t.Name? || (t.Param? && t.number > 0) }

  function OperandOf(t: Token): Expr
    requires IsOperand(t)
  {
    if t.Name? then Column(t.text) else Bound(t.number)
  }

  lemma {:induction false} ComparisonParses(l: Token, op: Comparison, r: Token, rest: seq<Token>)
    requires IsOperand(l) && IsOperand(r)
    requires Ends(rest)
    ensures ParseOr([l, Sym(OperatorText(op)), r] + rest)
         == Some((Compare(op, OperandOf(l), OperandOf(r)), rest))
  {
    var ts := [l, Sym(OperatorText(op)), r] + rest;
    assert ts[1..] == [Sym(OperatorText(op)), r] + rest;
    assert ts[1..][1..] == [r] + rest;
    assert ([r] + rest)[1..] == rest;
    var e := Compare(op, OperandOf(l), OperandOf(r));
    assert ParsePrimary(ts) == Some((OperandOf(l), ts[1..]));
    assert ParsePrimary([r] + rest) == Some((OperandOf(r), rest));
    if EqualityOperator(ts[1]).Some? {
      assert OrderingRest(OperandOf(r), rest) == Some((OperandOf(r), rest));
      assert ParseOrdering([r] + rest) == Some((OperandOf(r), rest));
      assert ParseOrdering(ts) == Some((OperandOf(l), ts[1..]));
    } else {
      assert OrderingRest(e, rest) == Some((e, rest));
      assert ParseOrdering(ts) == Some((e, rest));
    }
    assert EqualityRest(e, rest) == Some((e, rest));
    assert ParseEquality(ts) == Some((e, rest));
    assert ParseNot(ts) == Some((e, rest));
    TermIsExpression(ts, e, rest);
  }

  lemma {:induction false} NullTestParses(column: Text, negated: bool, rest: seq<Token>)
    requires Ends(rest)
    ensures ParseOr([Name(column)] + NullTestTokens(negated) + rest)
         == Some((NullTest(Column(column), negated), rest))
  {
    var tail := NullTestTokens(negated) + rest;
    var ts := [Name(column)] + NullTestTokens(negated) + rest;
    var e := NullTest(Column(column), negated);
    assert ts[1..] == tail;
    assert ParsePrimary(ts) == Some((Column(column), tail));
    assert ParseOrdering(ts) == Some((Column(column), tail));
    NullTestContinues(Column(column), negated, rest);
    assert ParseEquality(ts) == Some((e, rest));
    assert ParseNot(ts) == Some((e, rest));
    TermIsExpression(ts, e, rest);
  }

  lemma {:induction false} NullTestContinues(left: Expr, negated: bool, rest: seq<Token>)
    requires Ends(rest)
    ensures EqualityRest(left, NullTestTokens(negated) + rest) == Some((NullTest(left, negated), rest))
  {
    var tail := NullTestTokens(negated) + rest;
    assert EqualityRest(NullTest(left, negated), rest) == Some((NullTest(left, negated), rest));
    assert tail[|NullTestTokens(negated)|..] == rest;
  }

  function NullTestTokens(negated: bool): seq<Token>
  {
    if negated then [Word("IS"), Word("NOT"), Word("NULL")] else [Word("IS"), Word("NULL")]
  }

  // ------------------------------------------------------------------ lists

  /** One or more `item`s separated by commas. */
  function ParseList<T>(item: seq<Token> -> Parsed<T>, ts: seq<Token>): Parsed<seq<T>>
    decreases |ts|
  {
    match item(ts)
    case None => None
    case Some((x, rest)) =>
      if 0 < |rest| <= |ts| && rest[0] == COMMA then
        match ParseList(item, rest[1..])
        case None => None
        case Some((xs, after)) => Some(([x] + xs, after))
      else Some(([x], rest))
  }

  /** Does `item` read exactly `part` as `x`, whatever list continuation or `rest` follows? */
  ghost predicate Reads<T(!new)>(item: seq<Token> -> Parsed<T>, part: seq<Token>, x: T, rest: seq<Token>)
  {
    forall tail: seq<Token> :: tail == rest || (tail != [] && tail[0] == COMMA) ==>
      item(part + tail) == Some((x, tail))
  }

  lemma {:induction false} LastReads<T(!new)>(item: seq<Token> -> Parsed<T>, part: seq<Token>, x: T, rest: seq<Token>)
    requires rest == [] || rest[0] != COMMA
    requires Reads(item, part, x, rest)
    ensures ParseList(item, part + rest) == Some(([x], rest))
  {}

  lemma {:induction false} NextReads<T(!new)>(
    item: seq<Token> -> Parsed<T>, part: seq<Token>, x: T, more: seq<Token>, xs: seq<T>, rest: seq<Token>)
    requires Reads(item, part, x, rest)
    requires ParseList(item, more) == Some((xs, rest))
    ensures ParseList(item, part + ([COMMA] + more)) == Some(([x] + xs, rest))
  {
    var tail := [COMMA] + more;
    assert item(part + tail) == Some((x, tail));
    assert tail[1..] == more;
  }

  lemma {:induction false} JoinTail<X>(parts: seq<seq<X>>, sep: seq<X>, rest: seq<X>)
    requires |parts| > 1
    ensures Join(parts, sep) + rest == parts[0] + (sep + (Join(parts[1..], sep) + rest))
  {}

  lemma {:induction false} JoinedListParses<T(!new)>(
    item: seq<Token> -> Parsed<T>, parts: seq<seq<Token>>, xs: seq<T>, rest: seq<Token>)
    requires |parts| == |xs| > 0
    requires rest == [] || rest[0] != COMMA
    requires forall i :: 0 <= i < |xs| ==> Reads(item, parts[i], xs[i], rest)
    ensures ParseList(item, Join(parts, [COMMA]) + rest) == Some((xs, rest))
  {
    hide ParseList, Join, Reads;
    if |parts| == 1 {
      assert xs == [xs[0]];
      JoinOne(parts, [COMMA]);
      LastReads(item, parts[0], xs[0], rest);
    } else {
      assert xs == [xs[0]] + xs[1..];
      assert forall i :: 0 <= i < |xs[1..]| ==> Reads(item, parts[1..][i], xs[1..][i], rest);
      JoinedListParses(item, parts[1..], xs[1..], rest);
      NextReads(item, parts[0], xs[0], Join(parts[1..], [COMMA]) + rest, xs[1..], rest);
      JoinTail(parts, [COMMA], rest);
    }
  }

  // ------------------------------------------------------------- statements

  datatype OrderTerm = OrderTerm(column: Text, descending: bool)

  datatype Assignment = Assignment(column: Text, value: Expr)

  datatype Projection = Constant(value: nat) | Columns(names: seq<Text>)

  datatype Statement =
    | Select(projection: Projection, table: Text, filter: Option<Expr>,
             order: seq<OrderTerm>, limit: Option<Expr>)
    | Insert(table: Text, columns: seq<Text>, values: seq<Expr>)
    | Update(table: Text, assignments: seq<Assignment>, filter: Option<Expr>)
    | Delete(table: Text, filter: Option<Expr>)

  function ParseName(ts: seq<Token>): Parsed<Text>
  {
    if ts != [] && ts[0].Name? then Some((ts[0].text, ts[1..])) else None
  }

  function ParseOrderTerm(ts: seq<Token>): Parsed<OrderTerm>
  {
    if |ts| > 1 && ts[0].Name? && ts[1] == Word("ASC") then Some((OrderTerm(ts[0].text, false), ts[2..]))
    else if |ts| > 1 && ts[0].Name? && ts[1] == Word("DESC") then Some((OrderTerm(ts[0].text, true), ts[2..]))
    else None
  }

  function ParseAssignment(ts: seq<Token>): Parsed<Assignment>
  {
    if |ts| > 1 && ts[0].Name? && ts[1] == EQ then
      match ParseOr(ts[2..])
      case None => None
      case Some((e, rest)) => Some((Assignment(ts[0].text, e), rest))
    else None
  }

  /** The clause introduced by `lead`, or its absence. */
  function ParseClause<T>(lead: seq<Token>, body: seq<Token> -> Parsed<T>, ts: seq<Token>): Parsed<Option<T>>
  {
    if lead <= ts then
      match body(ts[|lead|..])
      case None => None
      case Some((x, rest)) => Some((Some(x), rest))
    else Some((None, ts))
  }

  function ParseOrderTerms(ts: seq<Token>): Parsed<seq<OrderTerm>> { ParseList(ParseOrderTerm, ts) }

  function ParseProjection(ts: seq<Token>): Parsed<Projection>
  {
    if ts != [] && ts[0].Num? then Some((Constant(ts[0].value), ts[1..]))
    else
      match ParseList(ParseName, ts)
      case None => None
      case Some((names, rest)) => Some((Columns(names), rest))
  }

  /** What follows the table name of a SELECT. */
  function ParseSelectTail(p: Projection, table: Text, ts: seq<Token>): Option<Statement>
  {
    match ParseClause([Word("WHERE")], ParseOr, ts)
    case None => None
    case Some((filter, ts1)) =>
      match ParseClause([Word("ORDER"), Word("BY")], ParseOrderTerms, ts1)
      case None => None
      case Some((order, ts2)) =>
        match ParseClause([Word("LIMIT")], ParseOr, ts2)
        case None => None
        case Some((limit, ts3)) =>
          if ts3 != [] then None
          else Some(Select(p, table, filter, if order.None? then [] else order.value, limit))
  }

  function ParseSelect(ts: seq<Token>): Option<Statement>
  {
    match ParseProjection(ts)
    case None => None
    case Some((p, rest)) =>
      if |rest| > 1 && rest[0] == Word("FROM") && rest[1].Name?
      then ParseSelectTail(p, rest[1].text, rest[2..])
      else None
  }

  function ParseInsert(ts: seq<Token>): Option<Statement>
  {
    if |ts| < 2 || !ts[0].Name? || ts[1] != LP then None
    else
      match ParseList(ParseName, ts[2..])
      case None => None
      case Some((columns, rest)) =>
        if !([RP, Word("VALUES"), LP] <= rest) then None
        else
          match ParseList(ParseOr, rest[3..])
          case None => None
          case Some((values, end)) =>
            if end == [RP] && |values| == |columns| then Some(Insert(ts[0].text, columns, values)) else None
  }

  function ParseUpdate(ts: seq<Token>): Option<Statement>
  {
    if |ts| < 2 || !ts[0].Name? || ts[1] != Word("SET") then None
    else
      match ParseList(ParseAssignment, ts[2..])
      case None => None
      case Some((assignments, rest)) =>
        match ParseClause([Word("WHERE")], ParseOr, rest)
        case None => None
        case Some((filter, end)) =>
          if end == [] then Some(Update(ts[0].text, assignments, filter)) else None
  }

  function ParseDelete(ts: seq<Token>): Option<Statement>
  {
    if ts == [] || !ts[0].Name? then None
    else
      match ParseClause([Word("WHERE")], ParseOr, ts[1..])
      case None => None
      case Some((filter, end)) => if end == [] then Some(Delete(ts[0].text, filter)) else None
  }

  function ParseStatement(ts: seq<Token>): Option<Statement>
  {
    if [Word("SELECT")] <= ts then ParseSelect(ts[1..])
    else if [Word("INSERT"), Word("INTO")] <= ts then ParseInsert(ts[2..])
    else if [Word("UPDATE")] <= ts then ParseUpdate(ts[1..])
    else if [Word("DELETE"), Word("FROM")] <= ts then ParseDelete(ts[2..])
    else None
  }

  /** What preparing a text yields: the statement and its parameter count. */
  datatype Prepared = Prepared(statement: Statement, parameterCount: nat)

  function Prepare(sql: Text): Option<Prepared>
  {
    match Lex(sql)
    case None => None
    case Some(ts) =>
      var (numbered, count) := Number(ts, 0);
      match ParseStatement(numbered)
      case None => None
      case Some(s) => Some(Prepared(s, count))
  }

  lemma {:induction false} NamesParse(names: seq<Text>, rest: seq<Token>)
    requires names != [] && (rest == [] || rest[0] != COMMA)
    ensures ParseList(ParseName, Join(NameParts(names), [COMMA]) + rest) == Some((names, rest))
  {
    forall i | 0 <= i < |names| ensures Reads(ParseName, NameParts(names)[i], names[i], rest) {
      forall tail: seq<Token> ensures ParseName([Name(names[i])] + tail) == Some((names[i], tail)) {
        assert ([Name(names[i])] + tail)[1..] == tail;
      }
    }
    JoinedListParses(ParseName, NameParts(names), names, rest);
  }

  function NameParts(names: seq<Text>): seq<seq<Token>>
  {
    seq(|names|, i requires 0 <= i < |names| => [Name(names[i])])
  }
}
