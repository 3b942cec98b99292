/** The predicate compiler preserves meaning: tokenizing, numbering, parsing and
    evaluating the emitted text gives back the meaning of the tree. */
module PredicateMeaning {
  import opened Basics
  import opened SqlText
  import opened SqlSyntax
  import opened SqlEval
  import opened Schema
  import opened Predicate
  import SqlLayout

  // ------------------------------------------------------------- tokenizing

  ghost predicate NamesNulFree(p: Node)
  {
    match p
    case Test(f, _, _) => NulFree(f.column)
    case NullCheck(f, _) => NulFree(f.column)
    case Combine(_, l, r) => NamesNulFree(l) && NamesNulFree(r)
    case Negate(q) => NamesNulFree(q)
  }

  lemma {:induction false} LegalNamesNulFree(s: CollectionSchema, p: Node)
    requires ValidSchema(s) && LegalLeaves(s, p)
    ensures NamesNulFree(p)
  {
    match p
    case Combine(_, l, r) => LegalNamesNulFree(s, l); LegalNamesNulFree(s, r);
    case Negate(q) => LegalNamesNulFree(s, q);
    case _ =>
      var i :| 0 <= i < |s.fields| && s.fields[i] == p.field;
      assert ValidName(s.fields[i].column);
  }

  lemma {:induction false} LeafSeparated(column: Text, middle: seq<Item>)
    requires NulFree(column)
    requires Separated(middle) && middle != [] && middle[0] == Space
    requires Joins(middle[|middle| - 1], Tok(RP))
    ensures Enclosed([Tok(LP), Tok(Name(column))] + middle + [Tok(RP)])
  {
    SqlLayout.ParenJoins(Tok(Name(column)));
    SqlLayout.SeparatedConcat([Tok(LP), Tok(Name(column))], middle);
    SqlLayout.SeparatedConcat([Tok(LP), Tok(Name(column))] + middle, [Tok(RP)]);
  }

  lemma {:induction false} ItemsSeparated(p: Node)
    requires NamesNulFree(p)
    ensures Enclosed(Items(p))
  {
    match p
    case Test(f, c, v) =>
      MiddleSeparated(c, v);
      LeafSeparated(f.column, TestItems(c, v));
    case NullCheck(f, negated) =>
      MiddleSeparated(if negated then NotEqual else Equal, Null);
      LeafSeparated(f.column, NullItems(negated));
    case Combine(all, l, r) =>
      ItemsSeparated(l);
      ItemsSeparated(r);
      CombinationSeparated(Items(l), Connective(all), Items(r));
    case Negate(q) =>
      ItemsSeparated(q);
      NegationSeparated(Items(q));
  }

  lemma {:induction false} MiddleSeparated(c: Comparison, v: Value)
    ensures Separated(TestItems(c, v)) && TestItems(c, v)[0] == Space
    ensures Joins(TestItems(c, v)[|TestItems(c, v)| - 1], Tok(RP))
  {
    if v.Null? { NullSeparated(c == NotEqual); } else { OperatorSeparated(c); }
  }

  lemma {:induction false} NullSeparated(negated: bool)
    ensures Separated(NullItems(negated)) && Joins(NullItems(negated)[|NullItems(negated)| - 1], Tok(RP))
  {}

  lemma {:induction false} OperatorSeparated(c: Comparison)
    ensures Separated([Space, Tok(Sym(OperatorText(c))), Space, Tok(MARK)]) && Joins(Tok(MARK), Tok(RP))
  {}

  ghost predicate Enclosed(s: seq<Item>)
  {
    Separated(s) && s != [] && s[0] == Tok(LP) && s[|s| - 1] == Tok(RP)
  }

  lemma {:induction false} CombinationSeparated(a: seq<Item>, middle: seq<Item>, b: seq<Item>)
    requires Enclosed(a) && Enclosed(b)
    requires Separated(middle) && |middle| > 1 && middle[0] == Space == middle[|middle| - 1]
    ensures Enclosed([Tok(LP)] + a + middle + b + [Tok(RP)])
  {
    SqlLayout.ParenJoins(Tok(LP));
    SqlLayout.ParenJoins(Tok(RP));
    SqlLayout.SeparatedConcat([Tok(LP)], a);
    SqlLayout.SeparatedConcat([Tok(LP)] + a, middle);
    SqlLayout.SeparatedConcat([Tok(LP)] + a + middle, b);
    SqlLayout.SeparatedConcat([Tok(LP)] + a + middle + b, [Tok(RP)]);
  }

  lemma {:induction false} NegationSeparated(a: seq<Item>)
    requires Enclosed(a)
    ensures Enclosed([Tok(LP), Tok(Word("NOT")), Space] + a + [Tok(RP)])
  {
    SqlLayout.ParenJoins(Tok(Word("NOT")));
    SqlLayout.ParenJoins(Tok(RP));
    var open := [Tok(LP), Tok(Word("NOT")), Space];
    assert Separated(open);
    SqlLayout.SeparatedConcat(open, a);
    SqlLayout.SeparatedConcat(open + a, [Tok(RP)]);
  }

  // -------------------------------------------------------------- numbering

  function LeafTail(c: Comparison, v: Value, k: nat): seq<Token>
  {
    if v.Null? then NullTestTokens(c == NotEqual) else [Sym(OperatorText(c)), Param(k + 1)]
  }

  /** The numbered tokens of a tree whose first parameter comes after `k` others. */
  function Numbered(p: Node, k: nat): seq<Token>
  {
    match p
    case Test(f, c, v) => [LP] + ([Name(f.column)] + LeafTail(c, v, k)) + [RP]
    case NullCheck(f, negated) => [LP] + ([Name(f.column)] + NullTestTokens(negated)) + [RP]
    case Combine(all, l, r) =>
      [LP] + (Numbered(l, k) + [Word(ConnectiveWord(all))] + Numbered(r, k + |Bindings(l)|)) + [RP]
    case Negate(q) => [LP] + ([Word("NOT")] + Numbered(q, k)) + [RP]
  }

  lemma {:induction false} NumberMiddle(c: Comparison, v: Value, k: nat)
    ensures Number(Tokens(TestItems(c, v)), k) == (LeafTail(c, v, k), if v.Null? then k else k + 1)
  {
    if v.Null? {
      NullPieces(c == NotEqual);
      NumberPlain(NullTestTokens(c == NotEqual), k);
    } else {
      PrintTest(c, v);
      var op := Sym(OperatorText(c));
      NumberAppend([op], [MARK], k);
      NumberPlain([op], k);
      assert [MARK][1..] == [];
      assert Number([MARK], k).0 == [Param(k + 1)];
      assert [op] + [MARK] == [op, MARK];
      assert [op] + [Param(k + 1)] == LeafTail(c, v, k);
    }
  }

  lemma {:induction false} NumberLeaf(column: Text, middle: seq<Item>, k: nat)
    ensures Number(Tokens([Tok(LP), Tok(Name(column))] + middle + [Tok(RP)]), k)
         == ([LP] + ([Name(column)] + Number(Tokens(middle), k).0) + [RP], Number(Tokens(middle), k).1)
  {
    PrintPair(Tok(LP), Tok(Name(column)));
    PrintOne(Tok(LP));
    PrintOne(Tok(Name(column)));
    PrintOne(Tok(RP));
    PrintParts([Tok(LP), Tok(Name(column))], middle, [Tok(RP)]);
    NumberAround([LP, Name(column)], Tokens(middle), [RP], k);
    var ts := Number(Tokens(middle), k).0;
    assert [LP] + [Name(column)] == [LP, Name(column)];
    assert [LP, Name(column)] + ts + [RP] == [LP] + ([Name(column)] + ts) + [RP];
  }

  lemma {:induction false} NumberTest(f: FieldSchema, c: Comparison, v: Value, k: nat)
    ensures Number(Tokens(Items(Test(f, c, v))), k)
         == (Numbered(Test(f, c, v), k), k + |Bindings(Test(f, c, v))|)
  {
    NumberLeaf(f.column, TestItems(c, v), k);
    NumberMiddle(c, v, k);
  }

  lemma {:induction false} NumberNullCheck(f: FieldSchema, negated: bool, k: nat)
    ensures Number(Tokens(Items(NullCheck(f, negated))), k)
         == (Numbered(NullCheck(f, negated), k), k + |Bindings(NullCheck(f, negated))|)
  {
    NumberLeaf(f.column, NullItems(negated), k);
    NumberMiddle(if negated then NotEqual else Equal, Null, k);
  }

  /** Numbering the emitted tokens numbers exactly the bound values, in order. */
  lemma {:induction false} NumberItems(p: Node, k: nat)
    ensures Number(Tokens(Items(p)), k) == (Numbered(p, k), k + |Bindings(p)|)
  {
    hide *;
    match p
    case Test(f, c, v) => NumberTest(f, c, v, k);
    case NullCheck(f, negated) => NumberNullCheck(f, negated, k);
    case Combine(all, l, r) =>
      NumberItems(l, k);
      NumberItems(r, k + |Bindings(l)|);
      NumberCombine(all, l, r, k);
    case Negate(q) =>
      NumberItems(q, k);
      NumberNegate(q, k);
  }

  lemma {:induction false} NumberCombine(all: bool, l: Node, r: Node, k: nat)
    requires Number(Tokens(Items(l)), k) == (Numbered(l, k), k + |Bindings(l)|)
    requires Number(Tokens(Items(r)), k + |Bindings(l)|)
          == (Numbered(r, k + |Bindings(l)|), k + |Bindings(l)| + |Bindings(r)|)
    ensures Number(Tokens(Items(Combine(all, l, r))), k)
         == (Numbered(Combine(all, l, r), k), k + |Bindings(Combine(all, l, r))|)
  {
    hide Number, Tokens, Items, Print;
    PrintCombined(all, l, r);
    NumberCombined(Tokens(Items(l)), Word(ConnectiveWord(all)), Tokens(Items(r)), k);
  }

  lemma {:induction false} NumberNegate(q: Node, k: nat)
    requires Number(Tokens(Items(q)), k) == (Numbered(q, k), k + |Bindings(q)|)
    ensures Number(Tokens(Items(Negate(q))), k) == (Numbered(Negate(q), k), k + |Bindings(Negate(q))|)
  {
    hide Number, Tokens, Items, Print;
    TokensOfNegation(q);
    NumberNegated(Tokens(Items(q)), k);
  }

  lemma {:induction false} NumberNegated(a: seq<Token>, k: nat)
    ensures Number([LP, Word("NOT")] + a + [RP], k)
         == ([LP] + ([Word("NOT")] + Number(a, k).0) + [RP], Number(a, k).1)
  {
    NumberAround([LP, Word("NOT")], a, [RP], k);
    var ts := Number(a, k).0;
    assert [LP, Word("NOT")] + ts + [RP] == [LP] + ([Word("NOT")] + ts) + [RP];
  }

  lemma {:induction false} NumberCombined(a: seq<Token>, word: Token, b: seq<Token>, k: nat)
    requires word.Word?
    ensures Number([LP] + a + [word] + b + [RP], k).0
         == [LP] + (Number(a, k).0 + [word] + Number(b, Number(a, k).1).0) + [RP]
    ensures Number([LP] + a + [word] + b + [RP], k).1 == Number(b, Number(a, k).1).1
  {
    NumberAround([LP], a + [word] + b, [RP], k);
    assert [LP] + a + [word] + b + [RP] == [LP] + (a + [word] + b) + [RP];
    NumberAppend(a + [word], b, k);
    NumberAppend(a, [word], k);
    NumberPlain([word], Number(a, k).1);
  }

  // ---------------------------------------------------------------- parsing

  function Translate(p: Node, k: nat): Expr
  {
    match p
    case Test(f, c, v) =>
      if v.Null? then NullTest(Column(f.column), c == NotEqual)
      else Compare(c, Column(f.column), Bound(k + 1))
    case NullCheck(f, negated) => NullTest(Column(f.column), negated)
    case Combine(all, l, r) =>
      var (a, b) := (Translate(l, k), Translate(r, k + |Bindings(l)|));
      if all then And(a, b) else Or(a, b)
    case Negate(q) => Not(Translate(q, k))
  }

  lemma {:induction false} NullLeafParses(column: Text, negated: bool, rest: seq<Token>)
    ensures ParsePrimary([LP] + ([Name(column)] + NullTestTokens(negated)) + [RP] + rest)
         == Some((NullTest(Column(column), negated), rest))
  {
    NullTestParses(column, negated, [RP] + rest);
    var inner := [Name(column)] + NullTestTokens(negated);
    assert inner + [RP] + rest == inner + ([RP] + rest);
    ParenthesizedParses(inner, NullTest(Column(column), negated), rest);
  }

  lemma {:induction false} ComparisonLeafParses(column: Text, c: Comparison, n: nat, rest: seq<Token>)
    requires n > 0
    ensures ParsePrimary([LP] + [Name(column), Sym(OperatorText(c)), Param(n)] + [RP] + rest)
         == Some((Compare(c, Column(column), Bound(n)), rest))
  {
    ComparisonParses(Name(column), c, Param(n), [RP] + rest);
    var inner := [Name(column), Sym(OperatorText(c)), Param(n)];
    assert inner + [RP] + rest == inner + ([RP] + rest);
    ParenthesizedParses(inner, Compare(c, Column(column), Bound(n)), rest);
  }

  lemma {:induction false} ConjunctionReads(ts: seq<Token>, ea: Expr, more: seq<Token>, eb: Expr, end: seq<Token>)
    requires end != [] && end[0] == RP
    requires ParseNot(ts) == Some((ea, [Word("AND")] + more)) && ParseNot(more) == Some((eb, end))
    ensures ParseOr(ts) == Some((And(ea, eb), end))
  {
    hide ParseNot;
    var tail := [Word("AND")] + more;
    assert tail[1..] == more;
    assert AndRest(And(ea, eb), end) == Some((And(ea, eb), end));
    assert AndRest(ea, tail) == Some((And(ea, eb), end));
    assert ParseAnd(ts) == Some((And(ea, eb), end));
  }

  lemma {:induction false} DisjunctionReads(ts: seq<Token>, ea: Expr, more: seq<Token>, eb: Expr, end: seq<Token>)
    requires end != [] && end[0] == RP
    requires ParseNot(ts) == Some((ea, [Word("OR")] + more)) && ParseNot(more) == Some((eb, end))
    ensures ParseOr(ts) == Some((Or(ea, eb), end))
  {
    hide ParseNot;
    var tail := [Word("OR")] + more;
    assert tail[1..] == more;
    assert AndRest(ea, tail) == Some((ea, tail));
    assert ParseAnd(ts) == Some((ea, tail));
    assert AndRest(eb, end) == Some((eb, end));
    assert ParseAnd(more) == Some((eb, end));
    assert OrRest(ea, tail) == OrRest(Or(ea, eb), end);
    assert OrRest(Or(ea, eb), end) == Some((Or(ea, eb), end));
  }

  lemma {:induction false} CombinationParses(all: bool, a: seq<Token>, ea: Expr, b: seq<Token>, eb: Expr, rest: seq<Token>)
    requires ParsePrimary(a + ([Word(ConnectiveWord(all))] + b + [RP] + rest))
          == Some((ea, [Word(ConnectiveWord(all))] + b + [RP] + rest))
    requires ParsePrimary(b + ([RP] + rest)) == Some((eb, [RP] + rest))
    ensures ParsePrimary([LP] + (a + [Word(ConnectiveWord(all))] + b) + [RP] + rest)
         == Some((if all then And(ea, eb) else Or(ea, eb), rest))
  {
    hide ParsePrimary, ParseOr;
    var word := Word(ConnectiveWord(all));
    var inner, tail, end := a + [word] + b, [word] + b + [RP] + rest, [RP] + rest;
    assert inner + [RP] + rest == a + tail;
    assert tail == [word] + (b + end);
    OperandIsTerm(a + tail, ea, tail);
    OperandIsTerm(b + end, eb, end);
    if all {
      ConjunctionReads(a + tail, ea, b + end, eb, end);
    } else {
      DisjunctionReads(a + tail, ea, b + end, eb, end);
    }
    ParenthesizedParses(inner, if all then And(ea, eb) else Or(ea, eb), rest);
  }

  lemma {:induction false} NegationParses(a: seq<Token>, ea: Expr, rest: seq<Token>)
    requires ParsePrimary(a + ([RP] + rest)) == Some((ea, [RP] + rest))
    ensures ParsePrimary([LP] + ([Word("NOT")] + a) + [RP] + rest) == Some((Not(ea), rest))
  {
    var end := [RP] + rest;
    var inner := [Word("NOT")] + a;
    var ts := inner + [RP] + rest;
    assert ts[1..] == a + end;
    OperandIsTerm(a + end, ea, end);
    assert ParseNot(ts) == Some((Not(ea), end));
    TermIsExpression(ts, Not(ea), end);
    ParenthesizedParses(inner, Not(ea), rest);
  }

  /** The parser reads the numbered tokens of a tree as its translation, whatever follows. */
  lemma {:induction false} NumberedParses(p: Node, k: nat, rest: seq<Token>)
    ensures ParsePrimary(Numbered(p, k) + rest) == Some((Translate(p, k), rest))
  {
    hide ParsePrimary;
    match p
    case Test(f, c, v) =>
      if v.Null? {
        NullLeafParses(f.column, c == NotEqual, rest);
      } else {
        ComparisonLeafParses(f.column, c, k + 1, rest);
        assert [Name(f.column)] + LeafTail(c, v, k) == [Name(f.column), Sym(OperatorText(c)), Param(k + 1)];
      }
    case NullCheck(f, negated) => NullLeafParses(f.column, negated, rest);
    case Combine(all, l, r) =>
      var k' := k + |Bindings(l)|;
      NumberedParses(l, k, [Word(ConnectiveWord(all))] + Numbered(r, k') + [RP] + rest);
      NumberedParses(r, k', [RP] + rest);
      CombinationParses(all, Numbered(l, k), Translate(l, k), Numbered(r, k'), Translate(r, k'), rest);
    case Negate(q) =>
      NumberedParses(q, k, [RP] + rest);
      NegationParses(Numbered(q, k), Translate(q, k), rest);
  }

  // ------------------------------------------------------------- evaluation

  lemma {:induction false} SplitWindow<X>(s: seq<X>, k: nat, a: seq<X>, b: seq<X>)
    requires k + |a + b| <= |s| && s[k..k + |a + b|] == a + b
    ensures s[k..k + |a|] == a && s[k + |a|..k + |a| + |b|] == b
  {
    assert s[k..k + |a|] == s[k..k + |a + b|][..|a|];
    assert s[k + |a|..k + |a| + |b|] == s[k..k + |a + b|][|a|..];
  }

  lemma {:induction false} TestMeans(f: FieldSchema, c: Comparison, v: Value, k: nat, row: Row, params: seq<Value>)
    requires v.Null? ==> c == Equal || c == NotEqual
    requires f.column in row
    requires !v.Null? ==> k < |params| && params[k..k + 1] == [v]
    ensures Eval(Translate(Test(f, c, v), k), row, params) == Some(OfTruth(Meaning(Test(f, c, v), row)))
  {
    if !v.Null? {
      assert params[k..k + 1][0] == params[k];
    }
  }

  /** Evaluating the translation in three-valued logic is the meaning of the tree. */
  lemma {:induction false} TranslationMeans(s: CollectionSchema, p: Node, k: nat, row: Row, params: seq<Value>)
    requires LegalLeaves(s, p) && Covers(row, p)
    requires k + |Bindings(p)| <= |params|
    requires params[k..k + |Bindings(p)|] == Bindings(p)
    ensures Eval(Translate(p, k), row, params) == Some(OfTruth(Meaning(p, row)))
  {
    match p
    case Test(f, c, v) => TestMeans(f, c, v, k, row, params);
    case NullCheck(f, negated) =>
    case Combine(all, l, r) =>
      SplitWindow(params, k, Bindings(l), Bindings(r));
      TranslationMeans(s, l, k, row, params);
      TranslationMeans(s, r, k + |Bindings(l)|, row, params);
      TruthRoundTrip(Meaning(l, row));
      TruthRoundTrip(Meaning(r, row));
    case Negate(q) =>
      TranslationMeans(s, q, k, row, params);
      TruthRoundTrip(Meaning(q, row));
  }

  /** The whole chain for a WHERE text on its own: it tokenizes, uses exactly as
      many parameters as there are bound values, parses completely, and is true,
      false or unknown on a row exactly as the tree is. */
  lemma {:induction false} CompiledTextMeansTree(s: CollectionSchema, p: Node, row: Row)
    requires ValidSchema(s) && LegalLeaves(s, p) && Covers(row, p)
    ensures Lex(Print(Items(p))) == Some(Tokens(Items(p)))
    ensures Number(Tokens(Items(p)), 0).1 == |Bindings(p)|
    ensures var e := ParseOr(Number(Tokens(Items(p)), 0).0);
            && e.Some? && e.value.1 == []
            && EvalTruth(e.value.0, row, Bindings(p)) == Some(Meaning(p, row))
  {
    hide Print, Tokens, Items, Lex, Number, ParsePrimary, ParseNot, ParseOr, Eval, Separated;
    LegalNamesNulFree(s, p);
    ItemsSeparated(p);
    LexPrint(Items(p));
    NumberItems(p, 0);
    var ts := Numbered(p, 0);
    NumberedParses(p, 0, []);
    assert ts + [] == ts;
    OperandIsTerm(ts, Translate(p, 0), []);
    TermIsExpression(ts, Translate(p, 0), []);
    assert Bindings(p)[0..|Bindings(p)|] == Bindings(p);
    TranslationMeans(s, p, 0, row, Bindings(p));
    TruthRoundTrip(Meaning(p, row));
  }
}
