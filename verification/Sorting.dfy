/** Sorting by a strict order given as a function, and why its result is unique. */
module Sorting {

  type Less<!T> = (T, T) -> bool

  ghost predicate Sorted<T>(less: Less<T>, s: seq<T>)
  {
    forall i, j :: 0 <= i < j < |s| ==> !less(s[j], s[i])
  }

  /** On these elements `less` is a strict total order. */
  ghost predicate StrictTotalOn<T>(less: Less<T>, s: multiset<T>)
  {
    && (forall a, b :: a in s && b in s ==> a == b || less(a, b) || less(b, a))
    && (forall a, b :: a in s && b in s ==> !(less(a, b) && less(b, a)))
    && (forall a, b, c :: a in s && b in s && c in s && less(a, b) && less(b, c) ==> less(a, c))
  }

  function Insert<T>(less: Less<T>, x: T, s: seq<T>): seq<T>
  {
    if s == [] then [x]
    else if less(s[0], x) then [s[0]] + Insert(less, x, s[1..])
    else [x] + s
  }

  function Sort<T>(less: Less<T>, s: seq<T>): seq<T>
  {
    if s == [] then [] else Insert(less, s[0], Sort(less, s[1..]))
  }

  lemma {:induction false} SameLength<T>(a: seq<T>, b: seq<T>)
    requires multiset(a) == multiset(b)
    ensures |a| == |b|
  {
    assert |multiset(a)| == |a| && |multiset(b)| == |b|;
  }

  lemma {:induction false} SameShort<T>(a: seq<T>, b: seq<T>)
    requires multiset(a) == multiset(b) && |b| <= 1
    ensures a == b
  {
    SameLength(a, b);
    if b != [] {
      assert a[0] in multiset(b);
    }
  }

  lemma {:induction false} Cancel<T>(m: multiset<T>, n: multiset<T>, x: T)
    requires multiset{x} + m == multiset{x} + n
    ensures m == n
  {
    assert m == (multiset{x} + m) - multiset{x};
    assert n == (multiset{x} + n) - multiset{x};
  }

  lemma {:induction false} StrictTotalOnPart<T>(less: Less<T>, a: multiset<T>, b: multiset<T>)
    requires StrictTotalOn(less, a) && b <= a
    ensures StrictTotalOn(less, b)
  {}

  lemma {:induction false} Tails<T>(less: Less<T>, s: seq<T>)
    requires s != []
    ensures Sorted(less, s) ==> Sorted(less, s[1..])
    ensures StrictTotalOn(less, multiset(s)) ==> StrictTotalOn(less, multiset(s[1..]))
    ensures multiset(s) == multiset{s[0]} + multiset(s[1..])
  {
    assert s == [s[0]] + s[1..];
  }

  lemma {:induction false} HeadsAgree<T>(less: Less<T>, a: seq<T>, b: seq<T>)
    requires StrictTotalOn(less, multiset(a)) && a != [] && b != []
    requires multiset(a) == multiset(b)
    requires Sorted(less, a) && Sorted(less, b)
    ensures a[0] == b[0]
  {
    assert a[0] in multiset(b) && b[0] in multiset(a);
    var i :| 0 <= i < |b| && b[i] == a[0];
    var j :| 0 <= j < |a| && a[j] == b[0];
    assert i == 0 || !less(b[i], b[0]);
    assert j == 0 || !less(a[j], a[0]);
  }

  /** A multiset has one sorted arrangement under a strict total order. */
  lemma {:induction false} SortedIsUnique<T>(less: Less<T>, a: seq<T>, b: seq<T>)
    requires StrictTotalOn(less, multiset(a)) && multiset(a) == multiset(b)
    requires Sorted(less, a) && Sorted(less, b)
    ensures a == b
  {
    hide StrictTotalOn, Sorted;
    SameLength(a, b);
    if a != [] {
      HeadsAgree(less, a, b);
      Tails(less, a);
      Tails(less, b);
      Cancel(multiset(a[1..]), multiset(b[1..]), a[0]);
      assert a == [a[0]] + a[1..] && b == [b[0]] + b[1..];
      SortedIsUnique(less, a[1..], b[1..]);
    }
  }

  lemma {:induction false} InsertKeeps<T>(less: Less<T>, x: T, s: seq<T>)
    ensures multiset(Insert(less, x, s)) == multiset(s) + multiset{x}
  {
    if s != [] {
      assert s == [s[0]] + s[1..];
      InsertKeeps(less, x, s[1..]);
    }
  }

  lemma {:induction false} InsertSorts<T>(less: Less<T>, x: T, s: seq<T>)
    requires StrictTotalOn(less, multiset{x} + multiset(s)) && Sorted(less, s)
    ensures Sorted(less, Insert(less, x, s))
  {
    if s != [] {
      var tail := s[1..];
      if less(s[0], x) {
        Tails(less, s);
        StrictTotalOnPart(less, multiset{x} + multiset(s), multiset{x} + multiset(tail));
        InsertSorts(less, x, tail);
        InsertKeeps(less, x, tail);
        AfterHead(less, x, s, Insert(less, x, tail));
      } else {
        BeforeAll(less, x, s);
      }
    }
  }

  lemma {:induction false} AfterHead<T>(less: Less<T>, x: T, s: seq<T>, rest: seq<T>)
    requires StrictTotalOn(less, multiset{x} + multiset(s)) && Sorted(less, s) && s != []
    requires less(s[0], x) && Sorted(less, rest)
    requires multiset(rest) == multiset(s[1..]) + multiset{x}
    ensures Sorted(less, [s[0]] + rest)
  {
    forall j | 0 <= j < |rest| ensures !less(rest[j], s[0]) {
      assert rest[j] in multiset(rest);
      assert s[0] in multiset(s);
      if rest[j] != x {
        assert rest[j] in multiset(s[1..]);
        var i :| 1 <= i < |s| && s[i] == rest[j];
      }
    }
  }

  lemma {:induction false} BeforeAll<T>(less: Less<T>, x: T, s: seq<T>)
    requires StrictTotalOn(less, multiset{x} + multiset(s)) && Sorted(less, s) && s != [] && !less(s[0], x)
    ensures Sorted(less, [x] + s)
  {
    forall j | 0 <= j < |s| ensures !less(s[j], x) {
      assert s[0] in multiset(s) && s[j] in multiset(s);
      assert j == 0 || !less(s[j], s[0]);
    }
  }

  lemma {:induction false} SortSorts<T>(less: Less<T>, s: seq<T>)
    requires StrictTotalOn(less, multiset(s))
    ensures multiset(Sort(less, s)) == multiset(s) && Sorted(less, Sort(less, s))
  {
    if s != [] {
      var rest := Sort(less, s[1..]);
      Tails(less, s);
      hide StrictTotalOn, Sorted;
      SortSorts(less, s[1..]);
      InsertKeeps(less, s[0], rest);
      InsertSorts(less, s[0], rest);
    }
  }

  /** Sorting forgets the order its input came in. */
  lemma {:induction false} SortForgetsOrder<T>(less: Less<T>, a: seq<T>, b: seq<T>)
    requires StrictTotalOn(less, multiset(a)) && multiset(a) == multiset(b)
    ensures Sort(less, a) == Sort(less, b)
  {
    hide StrictTotalOn, Sorted, Sort;
    SortSorts(less, a);
    SortSorts(less, b);
    SortedIsUnique(less, Sort(less, a), Sort(less, b));
  }
}
