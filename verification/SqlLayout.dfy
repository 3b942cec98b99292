/** Laying out whole statements: pieces joined by spaces, list elements by commas. */
module SqlLayout {
  import opened Basics
  import opened SqlText

  const SPACED: seq<Item> := [Space]
  const LISTED: seq<Item> := [Tok(COMMA), Space]

  function Keyword(w: Text): seq<Item> { [Tok(Word(w))] }

  function Identifier(n: Text): seq<Item> { [Tok(Name(n))] }

  function Parenthesized(inner: seq<Item>): seq<Item> { [Tok(LP)] + inner + [Tok(RP)] }

  function Texts(parts: seq<seq<Item>>): seq<Text>
  {
    seq(|parts|, i requires 0 <= i < |parts| => Print(parts[i]))
  }

  function TokenLists(parts: seq<seq<Item>>): seq<seq<Token>>
  {
    seq(|parts|, i requires 0 <= i < |parts| => Tokens(parts[i]))
  }

  /** Printing and reading commute with joining. */
  lemma {:induction false} LayoutOfJoin(parts: seq<seq<Item>>, sep: seq<Item>)
    ensures Print(Join(parts, sep)) == Join(Texts(parts), Print(sep))
    ensures Tokens(Join(parts, sep)) == Join(TokenLists(parts), Tokens(sep))
  {
    if |parts| > 1 {
      LayoutOfJoin(parts[1..], sep);
      assert Texts(parts)[1..] == Texts(parts[1..]);
      assert TokenLists(parts)[1..] == TokenLists(parts[1..]);
      PrintAppend(parts[0] + sep, Join(parts[1..], sep));
      PrintAppend(parts[0], sep);
    }
  }

  lemma {:induction false} SeparatedConcat(a: seq<Item>, b: seq<Item>)
    requires Separated(a) && Separated(b)
    requires a != [] && b != [] ==> Joins(a[|a| - 1], b[0])
    ensures Separated(a + b)
  {
    var s := a + b;
    forall i | 0 <= i < |s| - 1 ensures Joins(s[i], s[i + 1]) {
      if i < |a| - 1 {
        assert Joins(a[i], a[i + 1]);
      } else if i >= |a| {
        assert Joins(b[i - |a|], b[i - |a| + 1]);
      }
    }
  }

  lemma {:induction false} PunctuationEndsToken(t: Token)
    requires Lexable(t)
    ensures !Extends(t, ',') && !Extends(t, ')')
  {
    if t.Sym? {
      assert (t.text + ",")[|t.text|] == ',' && (t.text + ")")[|t.text|] == ')';
    }
  }

  lemma {:induction false} JoinSeparated(parts: seq<seq<Item>>, sep: seq<Item>)
    requires forall i :: 0 <= i < |parts| ==> Separated(parts[i]) && parts[i] != []
    requires sep == SPACED || sep == LISTED
    ensures Separated(Join(parts, sep))
    ensures parts != [] ==> Join(parts, sep) != []
  {
    if |parts| > 1 {
      JoinSeparated(parts[1..], sep);
      var last := parts[0][|parts[0]| - 1];
      if last.Tok? {
        PunctuationEndsToken(last.t);
      }
      assert Separated(sep);
      SeparatedConcat(parts[0], sep);
      SeparatedConcat(parts[0] + sep, Join(parts[1..], sep));
    }
  }

  lemma {:induction false} ParenJoins(x: Item)
    requires x.Tok? ==> Lexable(x.t)
    ensures Joins(Tok(LP), x) && Joins(Tok(RP), x) && Joins(x, Tok(RP))
  {
    if x.Tok? {
      PunctuationEndsToken(x.t);
      var c := Spell(x.t)[0];
      assert |"(" + [c]| == 2 && ("(" + [c])[0] == '(' && (")" + [c])[0] == ')';
    }
  }

  lemma {:induction false} ParenthesizedLayout(inner: seq<Item>)
    requires Separated(inner) && inner != []
    ensures Separated(Parenthesized(inner))
    ensures Print(Parenthesized(inner)) == "(" + Print(inner) + ")"
    ensures Tokens(Parenthesized(inner)) == [LP] + Tokens(inner) + [RP]
  {
    hide Print, Tokens;
    ParenJoins(inner[0]);
    ParenJoins(inner[|inner| - 1]);
    SeparatedConcat([Tok(LP)], inner);
    SeparatedConcat([Tok(LP)] + inner, [Tok(RP)]);
    PrintAppend([Tok(LP)] + inner, [Tok(RP)]);
    PrintAppend([Tok(LP)], inner);
    PrintOne(Tok(LP));
    PrintOne(Tok(RP));
  }

  /** A statement is its pieces, one space apart; it is read back piece by piece. */
  lemma {:induction false} LexPieces(parts: seq<seq<Item>>)
    requires forall i :: 0 <= i < |parts| ==> Separated(parts[i]) && parts[i] != []
    ensures Lex(Join(Texts(parts), " ")) == Some(Flat(TokenLists(parts)))
  {
    JoinSeparated(parts, SPACED);
    LexPrint(Join(parts, SPACED));
    LayoutOfJoin(parts, SPACED);
    PrintOne(Space);
  }

  /** Concatenation of token lists. */
  function Flat(parts: seq<seq<Token>>): seq<Token> { Join(parts, []) }

  lemma {:induction false} FlatAppend(a: seq<seq<Token>>, b: seq<seq<Token>>)
    ensures Flat(a + b) == Flat(a) + Flat(b)
  {
    if a == [] {
      assert a + b == b;
    } else if b == [] {
      assert a + b == a;
    } else {
      JoinAppend(a, b, []);
    }
  }

  lemma {:induction false} JoinPlain(parts: seq<seq<Token>>)
    requires forall i :: 0 <= i < |parts| ==> Plain(parts[i])
    ensures Plain(Join(parts, [COMMA]))
  {
    if |parts| > 1 {
      JoinPlain(parts[1..]);
    }
  }

  lemma {:induction false} ListedLayout()
    ensures Print(LISTED) == ", " && Tokens(LISTED) == [COMMA]
  {
    assert LISTED == [Tok(COMMA)] + [Space];
    PrintAppend([Tok(COMMA)], [Space]);
    PrintOne(Tok(COMMA));
    PrintOne(Space);
  }
}
