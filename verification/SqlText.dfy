/** The lexical level of the SQL that csgdb emits.

    `Lex` is the engine's tokenizer, restricted to the lexemes csgdb uses.
    `Print` lays tokens out as text. `LexPrint` is the bridge every later
    result rests on: a laid-out token list whose neighbours do not run into
    each other is read back exactly, whatever bytes the quoted names hold. */
module SqlText {
  import opened Basics

  datatype Token =
    | Word(text: Text)     // bare keyword
    | Name(text: Text)     // double-quoted identifier, unescaped
    | Param(number: nat)   // `?` is Param(0), `?7` is Param(7)
    | Num(value: nat)
    | Sym(text: Text)      // punctuation or comparison operator

  const LP := Sym("(")
  const RP := Sym(")")
  const COMMA := Sym(",")
  const EQ := Sym("=")
  const MARK := Param(0)

  predicate IsWordChar(c: char) { 'a' <= c <= 'z' || 'A' <= c <= 'Z' || c == '_' }

  predicate IsSymbol(s: Text)
  {
    s in {"(", ")", ",", "=", "<>", "<", "<=", ">", ">="}
  }

  // --------------------------------------------------------------- quoting

  /** Every quote inside an identifier is doubled. */
  function Escape(s: Text): Text
  {
    if s == "" then ""
    else (if s[0] == '"' then "\"\"" else [s[0]]) + Escape(s[1..])
  }

  function Quote(s: Text): Text { "\"" + Escape(s) + "\"" }

  lemma {:induction false} EscapeAppend(s: Text, c: char)
    ensures Escape(s + [c]) == Escape(s) + (if c == '"' then "\"\"" else [c])
  {
    if s == "" {
      assert s + [c] == [c];
    } else {
      assert (s + [c])[1..] == s[1..] + [c];
      EscapeAppend(s[1..], c);
    }
  }

  // ------------------------------------------------------------- tokenizer

  /** The rest of a quoted identifier; NUL ends SQL text, so it is an error here. */
  function LexName(s: Text): (r: Option<(Text, Text)>)
    ensures r.Some? ==> |r.value.1| < |s|
  {
    if s == "" || s[0] == '\0' then None
    else if s[0] == '"' then
      if |s| > 1 && s[1] == '"' then
        match LexName(s[2..])
        case None => None
        case Some((name, rest)) => Some(("\"" + name, rest))
      else Some(("", s[1..]))
    else
      match LexName(s[1..])
      case None => None
      case Some((name, rest)) => Some(([s[0]] + name, rest))
  }

  /** The first token of a text that does not start with a space. */
  function Next(s: Text): (r: Option<(Token, Text)>)
    requires s != ""
    ensures r.Some? ==> |r.value.1| < |s|
  {
    var c := s[0];
    if c == '"' then
      match LexName(s[1..])
      case None => None
      case Some((name, rest)) => Some((Name(name), rest))
    else if c == '?' then
      var k := LeadingRun(IsDigit, s[1..]);
      var digits := s[1..][..k];
      if k == 0 then Some((MARK, s[1..]))
      else if Numeral(digits) == 0 then None
      else Some((Param(Numeral(digits)), s[1..][k..]))
    else if IsWordChar(c) then
      var k := LeadingRun(IsWordChar, s);
      Some((Word(s[..k]), s[k..]))
    else if IsDigit(c) then
      var k := LeadingRun(IsDigit, s);
      Some((Num(Numeral(s[..k])), s[k..]))
    else if |s| > 1 && IsSymbol(s[..2]) then Some((Sym(s[..2]), s[2..]))
    else if IsSymbol(s[..1]) then Some((Sym(s[..1]), s[1..]))
    else None
  }

  function Lex(s: Text): Option<seq<Token>>
    decreases |s|
  {
    if s == "" then Some([])
    else if s[0] == ' ' then Lex(s[1..])
    else
      match Next(s)
      case None => None
      case Some((t, rest)) =>
        match Lex(rest)
        case None => None
        case Some(ts) => Some([t] + ts)
  }

  // ---------------------------------------------------------------- layout

  datatype Item = Tok(t: Token) | Space

  function Spell(t: Token): Text
  {
    match t
    case Word(w) => w
    case Name(n) => Quote(n)
    case Param(n) => if n == 0 then "?" else "?" + Decimal(n)
    case Num(v) => Decimal(v)
    case Sym(s) => s
  }

  predicate NulFree(s: Text) { forall i :: 0 <= i < |s| ==> s[i] != '\0' }

  predicate Lexable(t: Token)
  {
    match t
    case Word(w) => |w| > 0 && forall i :: 0 <= i < |w| ==> IsWordChar(w[i])
    case Name(n) => NulFree(n)
    case Param(_) => true
    case Num(_) => true
    case Sym(s) => IsSymbol(s)
  }

  /** Would the tokenizer read `c`, coming right after `t`, as part of `t`? */
  predicate Extends(t: Token, c: char)
  {
    match t
    case Word(_) => IsWordChar(c)
    case Name(_) => c == '"'
    case Param(_) => IsDigit(c)
    case Num(_) => IsDigit(c)
    case Sym(s) => IsSymbol(s + [c])
  }

  predicate Joins(x: Item, y: Item)
    requires y.Tok? ==> Lexable(y.t)
  {
    x.Space? || y.Space? || !Extends(x.t, Spell(y.t)[0])
  }

  function Print(items: seq<Item>): Text
  {
    if items == [] then ""
    else (if items[0].Space? then " " else Spell(items[0].t)) + Print(items[1..])
  }

  function Tokens(items: seq<Item>): seq<Token>
  {
    if items == [] then []
    else (if items[0].Space? then [] else [items[0].t]) + Tokens(items[1..])
  }

  /** Every token is well formed and no two neighbours run into each other. */
  ghost predicate Separated(items: seq<Item>)
  {
    && (forall i :: 0 <= i < |items| && items[i].Tok? ==> Lexable(items[i].t))
    && (forall i :: 0 <= i < |items| - 1 ==> Joins(items[i], items[i + 1]))
  }

  // ------------------------------------------------------------ the bridge

  lemma {:induction false} LexNameReadsQuote(name: Text, rest: Text)
    requires NulFree(name)
    requires rest == "" || rest[0] != '"'
    ensures LexName(Escape(name) + "\"" + rest) == Some((name, rest))
  {
    var s := Escape(name) + "\"" + rest;
    if name == "" {
      assert s[1..] == rest;
    } else {
      var tail := name[1..];
      var after := Escape(tail) + "\"" + rest;
      LexNameReadsQuote(tail, rest);
      assert name == [name[0]] + tail;
      if name[0] == '"' {
        assert s == "\"\"" + after;
        assert s[2..] == after;
      } else {
        assert s == [name[0]] + after;
        assert s[1..] == after;
      }
    }
  }

  lemma {:induction false} NextReadsNumber(n: nat, rest: Text)
    requires rest == "" || !IsDigit(rest[0])
    ensures Next(Decimal(n) + rest) == Some((Num(n), rest))
  {
    var digits := Decimal(n);
    RunStopsAtWord(IsDigit, digits, rest);
    NumeralOfDecimal(n);
    assert IsDigit(digits[0]);
    assert (digits + rest)[0] == digits[0];
  }

  lemma {:induction false} NextReadsParam(n: nat, rest: Text)
    requires rest == "" || !IsDigit(rest[0])
    ensures Next(Spell(Param(n)) + rest) == Some((Param(n), rest))
  {
    var digits := if n == 0 then "" else Decimal(n);
    var s := Spell(Param(n)) + rest;
    assert s == "?" + (digits + rest);
    assert s[1..] == digits + rest;
    RunStopsAtWord(IsDigit, digits, rest);
    if n > 0 {
      NumeralOfDecimal(n);
    }
  }

  lemma {:induction false} NextReadsSymbol(x: Text, rest: Text)
    requires IsSymbol(x) && (rest == "" || !IsSymbol(x + [rest[0]]))
    ensures Next(x + rest) == Some((Sym(x), rest))
  {
    var s := x + rest;
    assert s[|x|..] == rest && s[..|x|] == x;
    if |x| == 1 && rest != "" {
      assert s[..2] == x + [rest[0]];
    }
  }

  lemma {:induction false} NextReadsWord(w: Text, rest: Text)
    requires Lexable(Word(w)) && (rest == "" || !IsWordChar(rest[0]))
    ensures Next(w + rest) == Some((Word(w), rest))
  {
    RunStopsAtWord(IsWordChar, w, rest);
    assert IsWordChar(w[0]);
    assert (w + rest)[0] == w[0];
  }

  lemma {:induction false} NextReadsName(n: Text, rest: Text)
    requires NulFree(n) && (rest == "" || rest[0] != '"')
    ensures Next(Quote(n) + rest) == Some((Name(n), rest))
  {
    LexNameReadsQuote(n, rest);
    var s := Quote(n) + rest;
    assert s == "\"" + (Escape(n) + "\"" + rest);
    assert s[1..] == Escape(n) + "\"" + rest;
  }

  /** The tokenizer reads back any token it is shown, if what follows does not extend it. */
  lemma {:induction false} NextReadsToken(t: Token, rest: Text)
    requires Lexable(t) && (rest == "" || !Extends(t, rest[0]))
    ensures Next(Spell(t) + rest) == Some((t, rest))
    ensures Spell(t)[0] != ' '
  {
    match t
    case Word(w) =>
      NextReadsWord(w, rest);
      assert IsWordChar(w[0]);
    case Name(n) => NextReadsName(n, rest);
    case Param(n) => NextReadsParam(n, rest);
    case Num(v) =>
      NextReadsNumber(v, rest);
      assert IsDigit(Decimal(v)[0]);
    case Sym(x) => NextReadsSymbol(x, rest);
  }

  lemma {:induction false} SpaceEndsToken(t: Token)
    requires Lexable(t)
    ensures !Extends(t, ' ')
  {
    if t.Sym? {
      assert (t.text + " ")[|t.text|] == ' ';
    }
  }

  /** Text laid out from separated tokens is read back as exactly those tokens. */
  lemma {:induction false} LexPrint(items: seq<Item>)
    requires Separated(items)
    ensures Lex(Print(items)) == Some(Tokens(items))
  {
    if items != [] {
      var tail := items[1..];
      assert forall i :: 0 <= i < |tail| ==> tail[i] == items[i + 1];
      assert Separated(tail);
      LexPrint(tail);
      var rest := Print(tail);
      if items[0].Space? {
        assert Print(items) == " " + rest;
        assert Print(items)[1..] == rest;
        assert Tokens(items) == Tokens(tail);
      } else {
        var t := items[0].t;
        if tail != [] {
          SpaceEndsToken(t);
          assert Joins(items[0], items[1]);
          assert rest[0] == (if tail[0].Space? then ' ' else Spell(tail[0].t)[0]);
        }
        NextReadsToken(t, rest);
        assert Print(items)[0] == Spell(t)[0];
      }
    }
  }

  lemma {:induction false} PrintAppend(a: seq<Item>, b: seq<Item>)
    ensures Print(a + b) == Print(a) + Print(b)
    ensures Tokens(a + b) == Tokens(a) + Tokens(b)
  {
    hide Print, Tokens;
    if a == [] {
      assert a + b == b;
      NothingPrinted();
    } else {
      assert (a + b)[1..] == a[1..] + b;
      PrintAppend(a[1..], b);
      FirstPrinted(a);
      FirstPrinted(a + b);
    }
  }

  lemma {:induction false} NothingPrinted()
    ensures Print([]) == "" && Tokens([]) == []
  {}

  lemma {:induction false} FirstPrinted(items: seq<Item>)
    requires items != []
    ensures Print(items) == (if items[0].Space? then " " else Spell(items[0].t)) + Print(items[1..])
    ensures Tokens(items) == (if items[0].Space? then [] else [items[0].t]) + Tokens(items[1..])
  {}

  lemma {:induction false} PrintOne(x: Item)
    ensures Print([x]) == if x.Space? then " " else Spell(x.t)
    ensures Tokens([x]) == if x.Space? then [] else [x.t]
  {
    assert Print([x][1..]) == "" && Tokens([x][1..]) == [];
  }

  // --------------------------------------------------- parameter numbering

  /** The engine numbers parameters left to right: a bare `?` takes the next
      number, `?n` raises the count to at least `n`. */
  function Number(ts: seq<Token>, used: nat): (seq<Token>, nat)
  {
    if ts == [] then ([], used)
    else
      var n := CountAfter(ts[0], used);
      var (rest, total) := Number(ts[1..], n);
      ([if ts[0] == MARK then Param(n) else ts[0]] + rest, total)
  }

  function CountAfter(t: Token, used: nat): nat
  {
    if !t.Param? then used
    else if t.number == 0 then used + 1
    else if t.number > used then t.number
    else used
  }

  lemma {:induction false} NumberNothing(used: nat)
    ensures Number([], used) == ([], used)
  {}

  lemma {:induction false} NumberStep(ts: seq<Token>, used: nat)
    requires ts != []
    ensures var n := CountAfter(ts[0], used);
            && Number(ts, used).0 == [if ts[0] == MARK then Param(n) else ts[0]] + Number(ts[1..], n).0
            && Number(ts, used).1 == Number(ts[1..], n).1
  {}

  lemma {:induction false} NumberAppend(a: seq<Token>, b: seq<Token>, used: nat)
    ensures Number(a + b, used).0 == Number(a, used).0 + Number(b, Number(a, used).1).0
    ensures Number(a + b, used).1 == Number(b, Number(a, used).1).1
  {
    hide Number;
    NumberNothing(used);
    if a == [] {
      assert a + b == b;
    } else {
      var n := CountAfter(a[0], used);
      assert (a + b)[0] == a[0] && (a + b)[1..] == a[1..] + b;
      NumberAppend(a[1..], b, n);
      NumberStep(a, used);
      NumberStep(a + b, used);
    }
  }

  /** No parameters among these tokens. */
  ghost predicate Plain(ts: seq<Token>) { forall i :: 0 <= i < |ts| ==> !ts[i].Param? }

  lemma {:induction false} NumberPlain(ts: seq<Token>, k: nat)
    requires Plain(ts)
    ensures Number(ts, k) == (ts, k)
  {
    if ts != [] {
      NumberPlain(ts[1..], k);
      assert ts == [ts[0]] + ts[1..];
    }
  }

  lemma {:induction false} NumberAround(a: seq<Token>, b: seq<Token>, c: seq<Token>, k: nat)
    requires Plain(a) && Plain(c)
    ensures Number(a + b + c, k) == (a + Number(b, k).0 + c, Number(b, k).1)
  {
    NumberAppend(a + b, c, k);
    NumberAppend(a, b, k);
    NumberPlain(a, k);
    NumberPlain(c, Number(b, k).1);
  }

  lemma {:induction false} NumberMark(k: nat)
    ensures Number([MARK], k) == ([Param(k + 1)], k + 1)
  {
    assert [MARK][1..] == [];
    assert Number([MARK], k).0 == [Param(k + 1)];
  }
}
