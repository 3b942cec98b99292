/** The predicate compiler of the typed query API: from an owned predicate tree
    to WHERE text plus a vector of bound values. */
module Predicate {
  import opened Basics
  import opened SqlText
  import opened SqlSyntax
  import opened SqlEval
  import opened Schema

  const MAX_PREDICATE_NODES: nat := 256
  const MAX_PREDICATE_DEPTH: nat := 32

  datatype Node =
    | Test(field: FieldSchema, comparison: Comparison, value: Value)
    | NullCheck(field: FieldSchema, negated: bool)
    | Combine(all: bool, left: Node, right: Node)   // AND when `all`, else OR
    | Negate(inner: Node)

  // --------------------------------------------------- what a tree means

  /** Three-valued meaning of a tree on a row, with no SQL in sight. A test
      against NULL asks whether the column is NULL. */
  function Meaning(p: Node, row: Row): Truth
    requires Covers(row, p)
  {
    match p
    case Test(f, c, v) =>
      if v.Null? then FromBool(IsNull(row[f.column]) == (c == Equal))
      else CompareTruth(c, row[f.column], v)
    case NullCheck(f, negated) => FromBool(IsNull(row[f.column]) != negated)
    case Combine(all, l, r) =>
      if all then AndTruth(Meaning(l, row), Meaning(r, row))
      else OrTruth(Meaning(l, row), Meaning(r, row))
    case Negate(q) => NotTruth(Meaning(q, row))
  }

  /** The row has every column the tree mentions. */
  predicate Covers(row: Row, p: Node)
  {
    match p
    case Test(f, _, _) => f.column in row
    case NullCheck(f, _) => f.column in row
    case Combine(_, l, r) => Covers(row, l) && Covers(row, r)
    case Negate(q) => Covers(row, q)
  }

  // ------------------------------------------------ which trees are legal

  predicate BoundValueFits(f: FieldSchema, v: Value)
  {
    match v
    case Null => f.nullable
    case Integer(_) => f.kind == IntegerColumn
    case Real(_) => f.kind == RealColumn
    case Infinity(_) => false
    case NaN => false
    case String(_) => f.kind == TextColumn
    case Blob(_) => f.kind == BlobColumn
  }

  predicate LegalLeaves(s: CollectionSchema, p: Node)
  {
    match p
    case Test(f, c, v) =>
      f in s.fields && BoundValueFits(f, v) && (v.Null? ==> c == Equal || c == NotEqual)
    case NullCheck(f, _) => f in s.fields && f.nullable
    case Combine(_, l, r) => LegalLeaves(s, l) && LegalLeaves(s, r)
    case Negate(q) => LegalLeaves(s, q)
  }

  function Size(p: Node): (n: nat)
    ensures n > 0
  {
    match p
    case Combine(_, l, r) => 1 + Size(l) + Size(r)
    case Negate(q) => 1 + Size(q)
    case _ => 1
  }

  function Height(p: Node): (n: nat)
    ensures n > 0
  {
    match p
    case Combine(_, l, r) => 1 + Max(Height(l), Height(r))
    case Negate(q) => 1 + Height(q)
    case _ => 1
  }

  function Max(a: nat, b: nat): nat { if a < b then b else a }

  predicate Accepted(s: CollectionSchema, p: Node)
  {
    Size(p) <= MAX_PREDICATE_NODES && Height(p) <= MAX_PREDICATE_DEPTH && LegalLeaves(s, p)
  }

  // ---------------------------------------------------- the emitted text

  function TestItems(c: Comparison, v: Value): seq<Item>
  {
    if v.Null? then NullItems(c == NotEqual)
    else [Space, Tok(Sym(OperatorText(c))), Space, Tok(MARK)]
  }

  function NullItems(negated: bool): seq<Item>
  {
    if negated then [Space, Tok(Word("IS")), Space, Tok(Word("NOT")), Space, Tok(Word("NULL"))]
    else [Space, Tok(Word("IS")), Space, Tok(Word("NULL"))]
  }

  function ConnectiveWord(all: bool): Text { if all then "AND" else "OR" }

  function Connective(all: bool): seq<Item> { [Space, Tok(Word(ConnectiveWord(all))), Space] }

  function Items(p: Node): seq<Item>
  {
    match p
    case Test(f, c, v) => [Tok(LP), Tok(Name(f.column))] + TestItems(c, v) + [Tok(RP)]
    case NullCheck(f, negated) => [Tok(LP), Tok(Name(f.column))] + NullItems(negated) + [Tok(RP)]
    case Combine(all, l, r) =>
      [Tok(LP)] + Items(l) + Connective(all) + Items(r) + [Tok(RP)]
    case Negate(q) => [Tok(LP), Tok(Word("NOT")), Space] + Items(q) + [Tok(RP)]
  }

  function Bindings(p: Node): seq<Value>
  {
    match p
    case Test(_, _, v) => if v.Null? then [] else [v]
    case NullCheck(_, _) => []
    case Combine(_, l, r) => Bindings(l) + Bindings(r)
    case Negate(q) => Bindings(q)
  }

  // ------------------------------------------------------- the compiler

  /** The growing text, the bound values and the shared node counter. */
  class QueryText {
    var sql: Text
    var values: seq<Value>
    var nodes: nat

    constructor (start: Text)
      ensures sql == start && values == [] && nodes == 0
    {
      sql, values, nodes := start, [], 0;
    }

    method PushStr(s: Text)
      modifies this`sql
      ensures sql == old(sql) + s
    {
      sql := sql + s;
    }

    method PushIdentifier(identifier: Text)
      modifies this`sql
      ensures sql == old(sql) + Quote(identifier)
    {
      sql := sql + "\"";
      for n := 0 to |identifier|
        invariant sql == old(sql) + "\"" + Escape(identifier[..n])
      {
        if identifier[n] == '"' {
          sql := sql + "\"";
        }
        sql := sql + [identifier[n]];
        assert identifier[..n + 1] == identifier[..n] + [identifier[n]];
        EscapeAppend(identifier[..n], identifier[n]);
      }
      assert identifier[..|identifier|] == identifier;
      sql := sql + "\"";
    }

    method PushColumn(f: FieldSchema)
      modifies this`sql
      ensures sql == old(sql) + Print([Tok(LP), Tok(Name(f.column))])
    {
      hide Print, Quote;
      PushStr("(");
      PushIdentifier(f.column);
      ColumnText(f.column);
    }

    method CompileTest(s: CollectionSchema, f: FieldSchema, c: Comparison, v: Value) returns (ok: bool)
      modifies this
      ensures ok <==> LegalLeaves(s, Test(f, c, v))
      ensures ok <==>
                && f in s.fields
                && match v
                   case Null => f.nullable && (c == Equal || c == NotEqual)
                   case Integer(_) => f.kind == IntegerColumn
                   case Real(_) => f.kind == RealColumn
                   case String(_) => f.kind == TextColumn
                   case Blob(_) => f.kind == BlobColumn
                   case _ => false
      ensures nodes == old(nodes)
      ensures ok ==> sql == old(sql) + Print(Items(Test(f, c, v)))
      ensures ok ==> values == old(values) + Bindings(Test(f, c, v))
    {
      if f !in s.fields || !BoundValueFits(f, v) {
        ok := false;
        return;
      }
      PushColumn(f);
      if v.Null? {
        if c != Equal && c != NotEqual {
          ok := false;
          return;
        }
        PushStr(if c == Equal then " IS NULL" else " IS NOT NULL");
        PrintNull(c == NotEqual);
      } else {
        PushStr(OperatorAndMark(c));
        values := values + [v];
        PrintTest(c, v);
      }
      PushStr(")");
      ok := true;
      PrintParts([Tok(LP), Tok(Name(f.column))], TestItems(c, v), [Tok(RP)]);
      Append3(old(sql), Print([Tok(LP), Tok(Name(f.column))]), Print(TestItems(c, v)), ")");
    }

    method CompileNullCheck(s: CollectionSchema, f: FieldSchema, negated: bool) returns (ok: bool)
      modifies this
      ensures ok <==> LegalLeaves(s, NullCheck(f, negated))
      ensures ok <==> f in s.fields && f.nullable
      ensures nodes == old(nodes) && values == old(values)
      ensures ok ==> sql == old(sql) + Print(Items(NullCheck(f, negated)))
    {
      if f !in s.fields || !f.nullable {
        ok := false;
        return;
      }
      PushColumn(f);
      PushStr(if negated then " IS NOT NULL" else " IS NULL");
      PushStr(")");
      ok := true;
      PrintNull(negated);
      PrintParts([Tok(LP), Tok(Name(f.column))], NullItems(negated), [Tok(RP)]);
      Append3(old(sql), Print([Tok(LP), Tok(Name(f.column))]), Print(NullItems(negated)), ")");
    }

    /** Accepts exactly the legal trees within both limits, counting from the
        caller's depth and node count, and then appends their text and values. */
    method CompilePredicate(s: CollectionSchema, p: Node, depth: nat) returns (ok: bool)
      requires depth > 0
      modifies this
      ensures ok <==>
              && old(nodes) + Size(p) <= 256
              && depth - 1 + Height(p) <= 32
              && LegalLeaves(s, p)
      ensures ok ==> sql == old(sql) + Print(Items(p))
      ensures ok ==> values == old(values) + Bindings(p)
      ensures ok ==> nodes == old(nodes) + Size(p)
      decreases p
    {
      hide Print, Items, Tokens, Spell;
      nodes := nodes + 1;
      if depth > MAX_PREDICATE_DEPTH || nodes > MAX_PREDICATE_NODES {
        ok := false;
        return;
      }
      match p {
        case Test(f, c, v) => ok := CompileTest(s, f, c, v);
        case NullCheck(f, negated) => ok := CompileNullCheck(s, f, negated);
        case Combine(all, l, r) =>
          PushStr("(");
          ok := CompilePredicate(s, l, depth + 1);
          if !ok { return; }
          PushStr(" " + ConnectiveWord(all) + " ");
          ok := CompilePredicate(s, r, depth + 1);
          if !ok { return; }
          PushStr(")");
          assert sql == old(sql) + Print(Items(p)) by {
            PrintCombined(all, l, r);
            Append5(old(sql), "(", Print(Items(l)), " " + ConnectiveWord(all) + " ", Print(Items(r)), ")");
          }
        case Negate(q) =>
          PushStr("(NOT ");
          ok := CompilePredicate(s, q, depth + 1);
          if !ok { return; }
          PushStr(")");
          assert sql == old(sql) + Print(Items(p)) by {
            PrintNegation(q);
            Append3(old(sql), "(NOT ", Print(Items(q)), ")");
          }
      }
    }
  }

  // ------------------------------------------- layout of the fixed pieces

  lemma {:induction false} PrintPair(a: Item, b: Item)
    ensures Print([a, b]) == Print([a]) + Print([b])
    ensures Print([a]) == if a.Space? then " " else Spell(a.t)
    ensures Print([b]) == if b.Space? then " " else Spell(b.t)
    ensures Tokens([a, b]) == Tokens([a]) + Tokens([b])
  {
    assert [a, b] == [a] + [b];
    PrintAppend([a], [b]);
    PrintOne(a);
    PrintOne(b);
  }

  lemma {:induction false} ColumnText(column: Text)
    ensures Print([Tok(LP), Tok(Name(column))]) == "(" + Quote(column)
  {
    hide Print, Quote;
    PrintPair(Tok(LP), Tok(Name(column)));
  }

  lemma {:induction false} PrintParts(a: seq<Item>, b: seq<Item>, c: seq<Item>)
    ensures Print(a + b + c) == Print(a) + Print(b) + Print(c)
    ensures Tokens(a + b + c) == Tokens(a) + Tokens(b) + Tokens(c)
    ensures Print([Tok(RP)]) == ")"
  {
    PrintAppend(a + b, c);
    PrintAppend(a, b);
    PrintOne(Tok(RP));
  }

  lemma {:induction false} PrintSpaced(t: Token)
    ensures Print([Space, Tok(t)]) == " " + Spell(t)
    ensures Tokens([Space, Tok(t)]) == [t]
  {
    PrintPair(Space, Tok(t));
    PrintOne(Tok(t));
    PrintOne(Space);
  }

  function OperatorAndMark(c: Comparison): (s: Text)
    ensures s == " " + OperatorText(c) + " ?"
  {
    match c
    case Equal => " = ?"
    case NotEqual => " <> ?"
    case Less => " < ?"
    case LessOrEqual => " <= ?"
    case Greater => " > ?"
    case GreaterOrEqual => " >= ?"
  }

  lemma {:induction false} PrintTest(c: Comparison, v: Value)
    requires !v.Null?
    ensures Print(TestItems(c, v)) == OperatorAndMark(c)
    ensures Tokens(TestItems(c, v)) == [Sym(OperatorText(c)), MARK]
  {
    var op := Sym(OperatorText(c));
    PrintSpaced(op);
    PrintSpaced(MARK);
    PrintAppend([Space, Tok(op)], [Space, Tok(MARK)]);
    assert TestItems(c, v) == [Space, Tok(op)] + [Space, Tok(MARK)];
  }

  lemma {:induction false} PrintNull(negated: bool)
    ensures Print(NullItems(negated)) == if negated then " IS NOT NULL" else " IS NULL"
  {
    NullPieces(negated);
  }

  lemma {:induction false} NullPieces(negated: bool)
    ensures Print(NullItems(negated)) == (if negated then " " + "IS" + (" " + "NOT") else " " + "IS") + (" " + "NULL")
    ensures Tokens(NullItems(negated)) == NullTestTokens(negated)
  {
    var a, b, c := [Space, Tok(Word("IS"))], [Space, Tok(Word("NOT"))], [Space, Tok(Word("NULL"))];
    PrintSpaced(Word("IS"));
    PrintSpaced(Word("NOT"));
    PrintSpaced(Word("NULL"));
    PrintAppend(a, b);
    PrintAppend(a, c);
    PrintAppend(a + b, c);
    assert NullItems(negated) == if negated then a + b + c else a + c;
  }

  lemma {:induction false} PrintConnective(all: bool)
    ensures Print(Connective(all)) == " " + ConnectiveWord(all) + " "
    ensures Tokens(Connective(all)) == [Word(ConnectiveWord(all))]
  {
    var t := Word(ConnectiveWord(all));
    assert Connective(all) == [Space, Tok(t)] + [Space];
    PrintSpaced(t);
    PrintAppend([Space, Tok(t)], [Space]);
    PrintOne(Space);
  }

  lemma {:induction false} PrintCombined(all: bool, l: Node, r: Node)
    ensures Print(Items(Combine(all, l, r)))
         == "(" + Print(Items(l)) + (" " + ConnectiveWord(all) + " ") + Print(Items(r)) + ")"
    ensures Tokens(Items(Combine(all, l, r)))
         == [LP] + Tokens(Items(l)) + [Word(ConnectiveWord(all))] + Tokens(Items(r)) + [RP]
  {
    hide Print, Tokens;
    PrintParts([Tok(LP)], Items(l), Connective(all));
    PrintParts([Tok(LP)] + Items(l) + Connective(all), Items(r), [Tok(RP)]);
    PrintConnective(all);
    PrintOne(Tok(LP));
    PrintOne(Tok(RP));
  }

  lemma {:induction false} PrintNegation(q: Node)
    ensures Print(Items(Negate(q))) == "(NOT " + Print(Items(q)) + ")"
  {
    PrintOpenNot();
    PrintParts([Tok(LP), Tok(Word("NOT")), Space], Items(q), [Tok(RP)]);
    PrintOne(Tok(RP));
  }

  lemma {:induction false} TokensOfNegation(q: Node)
    ensures Tokens(Items(Negate(q))) == [LP, Word("NOT")] + Tokens(Items(q)) + [RP]
  {
    TokensOpenNot();
    PrintParts([Tok(LP), Tok(Word("NOT")), Space], Items(q), [Tok(RP)]);
    PrintOne(Tok(RP));
  }

  lemma {:induction false} PrintOpenNot()
    ensures Print([Tok(LP), Tok(Word("NOT")), Space]) == "(NOT "
  {
    var no := Tok(Word("NOT"));
    assert [Tok(LP), no, Space] == [Tok(LP)] + [no, Space];
    PrintPair(no, Space);
    PrintAppend([Tok(LP)], [no, Space]);
    PrintOne(Tok(LP));
  }

  lemma {:induction false} TokensOpenNot()
    ensures Tokens([Tok(LP), Tok(Word("NOT")), Space]) == [LP, Word("NOT")]
  {
    var no := Tok(Word("NOT"));
    assert [Tok(LP), no, Space] == [Tok(LP)] + [no, Space];
    PrintPair(no, Space);
    PrintAppend([Tok(LP)], [no, Space]);
    PrintOne(Tok(LP));
    PrintOne(no);
    PrintOne(Space);
  }
}
