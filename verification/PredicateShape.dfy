/** What the limits of the predicate compiler count, and what a tree means, in
    terms of the positions in it. A position is the path from the root: `false`
    goes to the only or the left operand, `true` to the right one. */
module PredicateShape {
  import opened Basics
  import opened SqlEval
  import opened SqlSyntax
  import opened Schema
  import opened Predicate

  function At(p: Node, path: seq<bool>): Option<Node>
    decreases |path|
  {
    if path == [] then Some(p)
    else
      match p
      case Combine(_, l, r) => At(if path[0] then r else l, path[1..])
      case Negate(q) => if path[0] then None else At(q, path[1..])
      case _ => None
  }

  ghost function Under(b: bool, paths: set<seq<bool>>): set<seq<bool>>
  {
    set x | x in paths :: [b] + x
  }

  /** The positions of a tree. */
  ghost function Positions(p: Node): set<seq<bool>>
  {
    match p
    case Combine(_, l, r) => {[]} + Under(false, Positions(l)) + Under(true, Positions(r))
    case Negate(q) => {[]} + Under(false, Positions(q))
    case _ => {[]}
  }

  lemma {:induction false} UnderExactly(b: bool, paths: set<seq<bool>>, path: seq<bool>)
    ensures path in Under(b, paths) <==> path != [] && path[0] == b && path[1..] in paths
    ensures |Under(b, paths)| == |paths|
    decreases |paths|
  {
    if path != [] && path[0] == b && path[1..] in paths {
      assert path == [b] + path[1..];
    }
    if x :| x in paths {
      UnderExactly(b, paths - {x}, path);
      assert Under(b, paths) == Under(b, paths - {x}) + {[b] + x};
      assert [b] + x !in Under(b, paths - {x}) by {
        UnderOther(b, paths - {x}, x);
      }
    } else {
      assert paths == {} && Under(b, paths) == {};
    }
  }

  lemma {:induction false} UnderOther(b: bool, paths: set<seq<bool>>, x: seq<bool>)
    requires x !in paths
    ensures [b] + x !in Under(b, paths)
  {
    forall y | y in paths ensures [b] + y != [b] + x {
      assert ([b] + y)[1..] == y && ([b] + x)[1..] == x;
    }
  }

  /** The positions are those at which there is a node. */
  lemma {:induction false} PositionsExactly(p: Node, path: seq<bool>)
    ensures path in Positions(p) <==> At(p, path).Some?
  {
    match p
    case Combine(_, l, r) =>
      UnderExactly(false, Positions(l), path);
      UnderExactly(true, Positions(r), path);
      if path != [] {
        PositionsExactly(l, path[1..]);
        PositionsExactly(r, path[1..]);
      }
    case Negate(q) =>
      UnderExactly(false, Positions(q), path);
      if path != [] {
        PositionsExactly(q, path[1..]);
      }
    case _ =>
  }

  /** The node count is the number of positions. */
  lemma {:induction false} SizeCounts(p: Node)
    ensures |Positions(p)| == Size(p)
  {
    match p
    case Combine(_, l, r) =>
      SizeCounts(l);
      SizeCounts(r);
      SizeApart(Positions(l), Positions(r));
    case Negate(q) =>
      SizeCounts(q);
      SizeApart(Positions(q), {});
      assert Under(true, {}) == {};
    case _ =>
  }

  lemma {:induction false} SizeApart(a: set<seq<bool>>, b: set<seq<bool>>)
    ensures |{[]} + Under(false, a) + Under(true, b)| == 1 + |a| + |b|
  {
    UnderExactly(false, a, []);
    UnderExactly(true, b, []);
    forall x | x in Under(true, b) ensures x !in Under(false, a) {
      UnderExactly(false, a, x);
      UnderExactly(true, b, x);
    }
    assert {[]} !! Under(false, a) && ({[]} + Under(false, a)) !! Under(true, b);
  }

  /** The height is one more than the longest path. */
  lemma {:induction false} HeightIsDeepest(p: Node) returns (deepest: seq<bool>)
    ensures At(p, deepest).Some? && |deepest| + 1 == Height(p)
    ensures forall path :: At(p, path).Some? ==> |path| < Height(p)
  {
    match p
    case Combine(_, l, r) =>
      var a := HeightIsDeepest(l);
      var b := HeightIsDeepest(r);
      deepest := if Height(l) < Height(r) then [true] + b else [false] + a;
      assert deepest[1..] == if Height(l) < Height(r) then b else a;
    case Negate(q) =>
      var a := HeightIsDeepest(q);
      deepest := [false] + a;
      assert deepest[1..] == a;
    case _ => deepest := [];
  }

  /** A leaf the compiler accepts: a field of the schema, compared with a value of
      its storage class, or with NULL where it is nullable and the test is for
      equality, or tested for NULL where it is nullable. */
  ghost predicate LegalLeaf(s: CollectionSchema, leaf: Node)
  {
    match leaf
    case Test(f, c, v) =>
      && f in s.fields
      && (match v
          case Null => f.nullable && (c == Equal || c == NotEqual)
          case Integer(_) => f.kind == IntegerColumn
          case Real(_) => f.kind == RealColumn
          case String(_) => f.kind == TextColumn
          case Blob(_) => f.kind == BlobColumn
          case _ => false)
    case NullCheck(f, _) => f in s.fields && f.nullable
    case _ => true
  }

  ghost predicate AllLegal(s: CollectionSchema, p: Node)
  {
    forall path :: At(p, path).Some? ==> LegalLeaf(s, At(p, path).value)
  }

  /** A tree whose nodes are legal has operands whose nodes are. */
  lemma {:induction false} OperandLegal(s: CollectionSchema, p: Node, q: Node, b: bool)
    requires (p.Combine? && q == if b then p.right else p.left) || (p.Negate? && !b && q == p.inner)
    requires AllLegal(s, p)
    ensures AllLegal(s, q)
  {
    forall path | At(q, path).Some? ensures LegalLeaf(s, At(q, path).value) {
      assert ([b] + path)[1..] == path;
      assert At(p, [b] + path) == At(q, path);
    }
  }

  /** Every leaf counts. */
  lemma {:induction false} LeavesDecide(s: CollectionSchema, p: Node)
    ensures LegalLeaves(s, p) <==> AllLegal(s, p)
  {
    hide AllLegal;
    match p
    case Combine(_, l, r) =>
      LeavesDecide(s, l);
      LeavesDecide(s, r);
      if AllLegal(s, p) {
        OperandLegal(s, p, l, false);
        OperandLegal(s, p, r, true);
      }
      if AllLegal(s, l) && AllLegal(s, r) { WholeLegal(s, p); }
    case Negate(q) =>
      LeavesDecide(s, q);
      if AllLegal(s, p) { OperandLegal(s, p, q, false); }
      if AllLegal(s, q) { WholeLegal(s, p); }
    case _ => LoneLeaf(s, p);
  }

  lemma {:induction false} WholeLegal(s: CollectionSchema, p: Node)
    requires (p.Combine? && AllLegal(s, p.left) && AllLegal(s, p.right)) || (p.Negate? && AllLegal(s, p.inner))
    ensures AllLegal(s, p)
  {}

  lemma {:induction false} LoneLeaf(s: CollectionSchema, p: Node)
    requires p.Test? || p.NullCheck?
    ensures AllLegal(s, p) <==> LegalLeaves(s, p)
  {
    assert At(p, []) == Some(p);
  }

  /** A tree is accepted exactly when it has at most 256 positions, none of them
      more than 31 steps from the root, and every leaf is legal. */
  lemma {:induction false} AcceptedExactly(s: CollectionSchema, p: Node)
    ensures Accepted(s, p) <==>
              && |Positions(p)| <= 256
              && (forall path :: At(p, path).Some? ==> |path| < 32)
              && AllLegal(s, p)
  {
    hide AllLegal, LegalLeaves, Positions, Size, Height;
    SizeCounts(p);
    var deepest := HeightIsDeepest(p);
    LeavesDecide(s, p);
  }

  // --------------------------------------------------------------- meaning

  /** A leaf on a row, with the operators of the numbers and the bytewise order of
      texts and blobs. Comparing a NULL column is unknown; testing for NULL never is. */
  lemma {:induction false} LeafMeans(f: FieldSchema, c: Comparison, v: Value, row: Row)
    requires f.column in row
    ensures var a := row[f.column];
            var empty := a.Null? || a.NaN?;
            && (v.Null? && c == Equal ==> Meaning(Test(f, c, v), row) == if empty then True else False)
            && (v.Null? && c == NotEqual ==> Meaning(Test(f, c, v), row) == if empty then False else True)
            && (!v.Null? && empty ==> Meaning(Test(f, c, v), row) == Unknown)
            && (a.Integer? && v.Integer? ==>
                  Meaning(Test(f, c, v), row)
                  == if (match c
                         case Equal => a.i == v.i case NotEqual => a.i != v.i
                         case Less => a.i < v.i case LessOrEqual => a.i <= v.i
                         case Greater => a.i > v.i case GreaterOrEqual => a.i >= v.i) then True else False)
            && (a.Real? && v.Real? ==>
                  Meaning(Test(f, c, v), row)
                  == if (match c
                         case Equal => a.r == v.r case NotEqual => a.r != v.r
                         case Less => a.r < v.r case LessOrEqual => a.r <= v.r
                         case Greater => a.r > v.r case GreaterOrEqual => a.r >= v.r) then True else False)
            && (Meaning(NullCheck(f, false), row) == if empty then True else False)
            && (Meaning(NullCheck(f, true), row) == if empty then False else True)
  {}

  /** Texts, and likewise blobs, compare bytewise. */
  lemma {:induction false} TextLeafMeans(f: FieldSchema, c: Comparison, v: Value, row: Row)
    requires f.column in row && ((row[f.column].String? && v.String?) || (row[f.column].Blob? && v.Blob?))
    ensures var a := if v.String? then row[f.column].text else row[f.column].bytes;
            var b := if v.String? then v.text else v.bytes;
            Meaning(Test(f, c, v), row)
            == if (match c
                   case Equal => a == b case NotEqual => a != b
                   case Less => TextLess(a, b) case LessOrEqual => TextLess(a, b) || a == b
                   case Greater => TextLess(b, a) case GreaterOrEqual => TextLess(b, a) || a == b) then True else False
  {
    var a := if v.String? then row[f.column].text else row[f.column].bytes;
    var b := if v.String? then v.text else v.bytes;
    TextLessIsTotal(a, b);
    TextLessIsStrict(a, b);
  }

  /** AND, OR and NOT of unknown truths: what is known of the operands decides. */
  lemma {:induction false} TreeMeans(l: Node, r: Node, row: Row)
    requires Covers(row, l) && Covers(row, r)
    ensures Meaning(Combine(true, l, r), row) == True <==> Meaning(l, row) == True && Meaning(r, row) == True
    ensures Meaning(Combine(true, l, r), row) == False <==> Meaning(l, row) == False || Meaning(r, row) == False
    ensures Meaning(Combine(false, l, r), row) == True <==> Meaning(l, row) == True || Meaning(r, row) == True
    ensures Meaning(Combine(false, l, r), row) == False <==> Meaning(l, row) == False && Meaning(r, row) == False
    ensures Meaning(Negate(l), row) == True <==> Meaning(l, row) == False
    ensures Meaning(Negate(l), row) == False <==> Meaning(l, row) == True
  {}
}
