/** Shared vocabulary: options, texts, decimal numerals and the byte order on texts.

    A `Text` is the UTF-8 form of a Rust `str`: every element stands for one
    byte, so `|t|` is `str::len` and the element order is the order of
    `str::cmp`. */
module Basics {

  datatype Option<+T> = None | Some(value: T)
  {
    predicate IsFailure() { None? }

    function PropagateFailure<U>(): Option<U>
      requires None?
    {
      None
    }

    function Extract(): T
      requires Some?
    {
      value
    }
  }

  type Text = string

  // ---------------------------------------------------------------- runs

  /** Length of the longest prefix of `s` whose elements all satisfy `p`. */
  function LeadingRun(p: char -> bool, s: Text): (k: nat)
    ensures k <= |s|
    ensures forall i :: 0 <= i < k ==> p(s[i])
    ensures k < |s| ==> !p(s[k])
  {
    if s == "" || !p(s[0]) then 0 else 1 + LeadingRun(p, s[1..])
  }

  /** A word followed by something outside its class is cut off exactly at its end. */
  lemma {:induction false} RunStopsAtWord(p: char -> bool, word: Text, rest: Text)
    requires forall i :: 0 <= i < |word| ==> p(word[i])
    requires rest == "" || !p(rest[0])
    ensures LeadingRun(p, word + rest) == |word|
    ensures (word + rest)[..|word|] == word && (word + rest)[|word|..] == rest
  {
    assert forall i :: 0 <= i < |word| ==> (word + rest)[i] == word[i];
    assert rest != "" ==> (word + rest)[|word|] == rest[0];
  }

  // ------------------------------------------------------------ decimals

  predicate IsDigit(c: char) { '0' <= c <= '9' }

  /** Decimal numeral without leading zeros, as `{}` formats an unsigned integer. */
  function Decimal(n: nat): (s: Text)
    ensures |s| > 0 && forall i :: 0 <= i < |s| ==> IsDigit(s[i])
  {
    if n < 10 then [('0' as int + n) as char]
    else Decimal(n / 10) + [('0' as int + n % 10) as char]
  }

  function Numeral(s: Text): nat
    requires forall i :: 0 <= i < |s| ==> IsDigit(s[i])
  {
    if s == "" then 0
    else
      assert IsDigit(s[|s| - 1]);
      10 * Numeral(s[..|s| - 1]) + (s[|s| - 1] as int - '0' as int)
  }

  lemma {:induction false} NumeralOfDecimal(n: nat)
    ensures Numeral(Decimal(n)) == n
  {
    if n >= 10 {
      NumeralOfDecimal(n / 10);
      var s := Decimal(n);
      assert s[..|s| - 1] == Decimal(n / 10);
    } else {
      var s := Decimal(n);
      assert s[..|s| - 1] == "";
    }
  }

  /** The numerals, digit by digit. */
  lemma {:induction false} DecimalDigits(n: nat, d: nat)
    requires d < 10
    ensures Decimal(d) == ["0123456789"[d]]
    ensures n > 0 ==> Decimal(10 * n + d) == Decimal(n) + ["0123456789"[d]]
  {
    assert "0123456789"[d] == ('0' as int + d) as char;
    if n > 0 {
      assert (10 * n + d) / 10 == n && (10 * n + d) % 10 == d;
    }
  }

  // ---------------------------------------------------------- letter case

  function Lower(c: char): char { if 'A' <= c <= 'Z' then (c as int + 32) as char else c }

  /** ASCII lower case, byte by byte. */
  function LowerAll(s: Text): (r: Text)
    ensures |r| == |s| && forall i :: 0 <= i < |s| ==> r[i] == Lower(s[i])
  {
    seq(|s|, i requires 0 <= i < |s| => Lower(s[i]))
  }

  // ------------------------------------------------------- byte ordering

  /** `str::cmp` / `memcmp`: strict lexicographic order. */
  predicate TextLess(a: Text, b: Text)
  {
    b != "" && (a == "" || a[0] < b[0] || (a[0] == b[0] && TextLess(a[1..], b[1..])))
  }

  /** The texts agree on the first `n` bytes, and then `a` ends or has the smaller byte. */
  ghost predicate SplitAt(a: Text, b: Text, n: nat)
  {
    n <= |a| && n < |b| && a[..n] == b[..n] && (n == |a| || a[n] < b[n])
  }

  /** The order decides at the first difference; a proper prefix comes first. */
  lemma {:induction false} TextLessExactly(a: Text, b: Text)
    ensures TextLess(a, b) <==> exists n: nat :: SplitAt(a, b, n)
  {
    if a != "" && b != "" && a[0] == b[0] {
      TextLessExactly(a[1..], b[1..]);
      if n: nat :| SplitAt(a[1..], b[1..], n) {
        assert a[..n + 1] == [a[0]] + a[1..][..n] && b[..n + 1] == [b[0]] + b[1..][..n];
        assert SplitAt(a, b, n + 1);
      }
      if n: nat :| SplitAt(a, b, n) {
        assert n > 0 && a[1..][..n - 1] == a[..n][1..] && b[1..][..n - 1] == b[..n][1..];
        assert SplitAt(a[1..], b[1..], n - 1);
      }
    } else {
      assert TextLess(a, b) ==> SplitAt(a, b, 0);
      forall n: nat ensures SplitAt(a, b, n) ==> n == 0 {
        if 0 < n <= |a| && n <= |b| {
          assert a[..n][0] == a[0] && b[..n][0] == b[0];
        }
      }
    }
  }

  lemma {:induction false} TextLessIsStrict(a: Text, b: Text)
    ensures !(TextLess(a, b) && TextLess(b, a))
    ensures !TextLess(a, a)
  {
    if a != "" {
      TextLessIsStrict(a[1..], if b == "" then "" else b[1..]);
    }
  }

  lemma {:induction false} TextLessIsTotal(a: Text, b: Text)
    ensures TextLess(a, b) || TextLess(b, a) || a == b
  {
    if a != "" && b != "" {
      TextLessIsTotal(a[1..], b[1..]);
      assert a == [a[0]] + a[1..] && b == [b[0]] + b[1..];
    }
  }

  lemma {:induction false} TextLessIsTransitive(a: Text, b: Text, c: Text)
    requires TextLess(a, b) && TextLess(b, c)
    ensures TextLess(a, c)
  {
    if a != "" && a[0] == b[0] == c[0] {
      TextLessIsTransitive(a[1..], b[1..], c[1..]);
    }
  }

  // --------------------------------------------------------------- joining

  /** `parts.join(sep)`. */
  function Join<X>(parts: seq<seq<X>>, sep: seq<X>): seq<X>
  {
    if parts == [] then []
    else if |parts| == 1 then parts[0]
    else parts[0] + sep + Join(parts[1..], sep)
  }

  lemma {:induction false} JoinOne<X>(parts: seq<seq<X>>, sep: seq<X>)
    requires |parts| == 1
    ensures Join(parts, sep) == parts[0]
  {}

  lemma {:induction false} JoinSnoc<X>(parts: seq<seq<X>>, last: seq<X>, sep: seq<X>)
    ensures Join(parts + [last], sep) == if parts == [] then last else Join(parts, sep) + sep + last
  {
    if |parts| > 0 {
      assert (parts + [last])[1..] == parts[1..] + [last];
      JoinSnoc(parts[1..], last, sep);
      if |parts| == 1 {
        assert parts[1..] == [];
      }
    }
  }

  lemma {:induction false} Append2<X>(a: seq<X>, b: seq<X>, c: seq<X>)
    ensures a + b + c == a + (b + c)
  {}

  lemma {:induction false} Append3<X>(s: seq<X>, a: seq<X>, b: seq<X>, c: seq<X>)
    ensures s + a + b + c == s + (a + b + c) == s + a + (b + c) == s + (a + (b + c))
  {}

  lemma {:induction false} Append4<X>(s: seq<X>, a: seq<X>, b: seq<X>, c: seq<X>, d: seq<X>)
    ensures s + a + b + c + d == s + (a + b + c) + d == s + a + (b + c + d)
  {}

  lemma {:induction false} Append5<X>(s: seq<X>, a: seq<X>, b: seq<X>, c: seq<X>, d: seq<X>, e: seq<X>)
    ensures s + a + b + c + d + e == s + (a + b + c + d + e)
  {}

  lemma {:induction false} NestRight<X>(a: seq<X>, b: seq<X>, c: seq<X>, d: seq<X>, e: seq<X>, f: seq<X>)
    ensures a + b + c + d + e + f == a + (b + (c + (d + (e + f))))
  {}

  /** Two ways of cutting the same middle. */
  lemma {:induction false} Resplit<X>(a: seq<X>, b: seq<X>, c: seq<X>, d: seq<X>, e: seq<X>)
    requires d + e == b + c
    ensures a + b + c == a + d + e
    ensures a + b + c == (a + d) + [] + e
  {
    assert a + b + c == a + (b + c);
    assert a + d + e == a + (d + e);
  }

  lemma {:induction false} JoinAppend<X>(a: seq<seq<X>>, b: seq<seq<X>>, sep: seq<X>)
    requires a != [] && b != []
    ensures Join(a + b, sep) == Join(a, sep) + sep + Join(b, sep)
  {
    if |a| == 1 {
      assert (a + b)[1..] == b;
    } else {
      assert (a + b)[1..] == a[1..] + b;
      JoinAppend(a[1..], b, sep);
    }
  }

  /** The concatenation of the groups. */
  function Flatten<X>(groups: seq<seq<X>>): seq<X>
  {
    if groups == [] then [] else Flatten(groups[..|groups| - 1]) + groups[|groups| - 1]
  }

  lemma {:induction false} FlattenSnoc<X>(groups: seq<seq<X>>, last: seq<X>)
    ensures Flatten(groups + [last]) == Flatten(groups) + last
  {
    assert (groups + [last])[..|groups|] == groups;
  }
}
