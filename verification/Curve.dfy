/** The group: a cyclic group of prime order, written additively.

    A point is represented by its discrete logarithm to the generator, so two points are equal
    exactly when their logarithms are. All that is known of the affine coordinates of a point is
    what every short Weierstrass curve of odd order satisfies: opposite points, and only those,
    share their x-coordinate, and their y-coordinates have opposite parities. */
module Curve {
  import opened Scalars
  import opened Hashes

  datatype Point = Point(log: Scalar)

  const GENERATOR := Point(1)
  const IDENTITY := Point(0)

  function Plus(p: Point, r: Point): Point {
    Point(Add(p.log, r.log))
  }

  function Minus(p: Point, r: Point): Point {
    Point(Sub(p.log, r.log))
  }

  function Opposite(p: Point): Point {
    Point(Neg(p.log))
  }

  function Times(p: Point, s: Scalar): Point {
    Point(Mul(p.log, s))
  }

  function GTimes(s: Scalar): (p: Point)
    ensures p == Point(s)
  {
    MulOne(s);
    Times(GENERATOR, s)
  }

  // Affine coordinates

  ghost predicate IsXCoordinate(f: Scalar -> nat) {
    && (forall s: Scalar :: f(s) < TWO_256)
    && (forall s: Scalar, t: Scalar :: s != 0 && t != 0 ==> (f(s) == f(t) <==> t == s || t == Neg(s)))
  }

  ghost predicate IsParity(f: Scalar -> bool) {
    forall s: Scalar :: s != 0 ==> f(Neg(s)) == !f(s)
  }

  type XCoordinate = f: Scalar -> nat | IsXCoordinate(f) witness Least
  type Parity = f: Scalar -> bool | IsParity(f) witness (IsGreaterIsParity(); IsGreater)

  function Least(s: Scalar): (n: nat)
    ensures n < TWO_256
  {
    if s <= Neg(s) then s else Neg(s)
  }

  predicate IsGreater(s: Scalar) {
    s > Neg(s)
  }

  lemma IsGreaterIsParity()
    ensures IsParity(IsGreater)
  {
    forall s: Scalar | s != 0 ensures IsGreater(Neg(s)) == !IsGreater(s) { NotOwnNegative(s); }
  }

  const XLog: XCoordinate
  const OddLog: Parity

  function X(p: Point): (x: nat)
    ensures x < TWO_256
  {
    XLog(p.log)
  }

  predicate YIsOdd(p: Point) {
    OddLog(p.log)
  }

  /** A nonidentity point is determined by its x-coordinate and the parity of its y-coordinate. */
  lemma Decompression(p: Point, r: Point)
    requires p != IDENTITY && r != IDENTITY
    ensures X(p) == X(r) && YIsOdd(p) == YIsOdd(r) <==> p == r
  {
    NotOwnNegative(p.log);
  }

  lemma OppositeCoordinates(p: Point)
    requires p != IDENTITY
    ensures X(Opposite(p)) == X(p) && YIsOdd(Opposite(p)) != YIsOdd(p)
  {
    NotOwnNegative(p.log);
  }

  /** The order is odd, so a nonzero scalar is not its own negative. */
  lemma NotOwnNegative(s: Scalar)
    requires s != 0
    ensures Neg(s) != s && Neg(Neg(s)) == s
  {
    assert Q % 2 == 1;
  }

  // Compressed encoding

  const POINT_BYTES := 33

  /** The compressed encoding of SEC 1, and 33 zero bytes for the identity. */
  function PointBytes(p: Point): (s: Bytes)
    ensures |s| == POINT_BYTES
  {
    if p == IDENTITY then ToBe(0, POINT_BYTES)
    else [if YIsOdd(p) then 3 else 2] + ToBe(X(p), SECURITY)
  }

  lemma ZeroBytes(len: nat)
    ensures forall k :: 0 <= k < len ==> ToBe(0, len)[k] == 0
  {
    if len > 0 { ZeroBytes(len - 1); }
  }

  lemma PointBytesInjective(p: Point, r: Point)
    ensures PointBytes(p) == PointBytes(r) <==> p == r
  {
    ZeroBytes(POINT_BYTES);
    if PointBytes(p) == PointBytes(r) && p != IDENTITY && r != IDENTITY {
      assert PointBytes(p)[1..] == ToBe(X(p), SECURITY);
      assert PointBytes(r)[1..] == ToBe(X(r), SECURITY);
      assert PointBytes(p)[0] == PointBytes(r)[0];
      Pow256Values();
      BeInjective(X(p), X(r), SECURITY);
      Decompression(p, r);
    }
  }
}
