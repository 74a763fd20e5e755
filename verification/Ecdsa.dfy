/** ECDSA verification (section 4.1.4 of SEC 1 v2.0), low-S form and public key recovery. */
module Ecdsa {
  import opened Scalars
  import opened Results
  import opened Hashes
  import opened Hex
  import opened Curve

  /** A scalar in canonical form: a value of the order or more is rejected. */
  function ParseHexScalar(s: string): Option<Scalar> {
    match DecodeField(s)
    case None => None
    case Some(bytes) => ParseScalar(bytes)
  }

  /** The big-endian bytes of the affine x-coordinate. */
  function XBytes(p: Point): Digest {
    ToBe(X(p), SECURITY)
  }

  function SignaturePoint(m: Scalar, pk: Point, r: Scalar, s: Scalar): Point {
    Plus(Times(GENERATOR, Mul(m, Inv(s))), Times(pk, Mul(r, Inv(s))))
  }

  predicate VerifyScalars(m: Scalar, pk: Point, r: Scalar, s: Scalar) {
    && r != 0 && s != 0
    && SignaturePoint(m, pk, r, s) != IDENTITY
    && ReduceBytes(XBytes(SignaturePoint(m, pk, r, s))) == r
  }

  predicate VerifySignature(hash: Digest, pk: Point, x: string, signature: string) {
    match ParseHexScalar(x)
    case None => false
    case Some(r) =>
      match ParseHexScalar(signature)
      case None => false
      case Some(s) => VerifyScalars(ReduceBytes(hash), pk, r, s)
  }

  lemma ReduceX(p: Point)
    ensures FromBe(XBytes(p)) == X(p) && ReduceBytes(XBytes(p)) == Reduce(X(p))
    ensures ParseScalar(XBytes(p)) == if X(p) < Q then Some(X(p)) else None
  {
    Pow256Values();
    BeRoundTrip(X(p), SECURITY);
  }

  /** The point recomputed from a signature with s = (m + r sk) / k is k times the generator. */
  lemma PointRecovered(m: Scalar, sk: Scalar, r: Scalar, k: Scalar, s: Scalar)
    requires s != 0 && Mul(s, k) == Add(m, Mul(sk, r))
    ensures SignaturePoint(m, GTimes(sk), r, s) == GTimes(k)
  {
    hide Mul, Inv;
    var i := Inv(s);
    MulInv(s);
    MulOne(Mul(m, i));
    MulAssoc(sk, r, i);
    MulComm(i, Add(m, Mul(sk, r)));
    MulComm(i, m);
    MulComm(i, Mul(sk, r));
    MulAdd(i, m, Mul(sk, r));
    MulComm(s, i);
    MulAssoc(i, s, k);
    MulOne(k);
  }

  /** Negating s negates the recomputed point. */
  lemma NegatedEquation(m: Scalar, sk: Scalar, r: Scalar, k: Scalar, s: Scalar)
    requires Mul(s, k) == Add(m, Mul(sk, r))
    ensures Mul(Neg(s), Neg(k)) == Add(m, Mul(sk, r))
  {
    hide Mul;
    MulNeg(s, Neg(k));
    MulNeg(s, k);
  }

  /** Signing equation: a signature whose s satisfies s k = m + r sk, with r the x-coordinate of
      k times the generator, is accepted exactly when r and s are nonzero and r is canonical. */
  lemma SigningEquation(m: Scalar, sk: Scalar, k: Scalar, s: Scalar)
    requires k != 0 && X(GTimes(k)) < Q && Mul(s, k) == Add(m, Mul(sk, X(GTimes(k))))
    ensures VerifyScalars(m, GTimes(sk), X(GTimes(k)), s) <==> X(GTimes(k)) != 0 && s != 0
  {
    var r := X(GTimes(k));
    ReduceX(GTimes(k));
    Small(r);
    hide Mul;
    if s != 0 { PointRecovered(m, sk, r, k, s); }
  }

  // Low-S form

  /** `is_high`: above half of the order. */
  predicate IsHigh(s: Scalar) {
    2 * s > Q
  }

  function LowS(s: Scalar): Scalar {
    if IsHigh(s) then Neg(s) else s
  }

  lemma LowSIsLow(s: Scalar)
    ensures !IsHigh(LowS(s)) && (LowS(s) == 0 <==> s == 0)
  {}

  // Public key recovery

  /** The public key recovered from a message, a signature and the point R it was made with
      (section 4.1.6 of SEC 1 v2.0): (s R - m G) / r. */
  function Recover(m: Scalar, r: Scalar, s: Scalar, point: Point): Point {
    Times(Minus(Times(point, s), Times(GENERATOR, m)), Inv(r))
  }

  /** A nonidentity point whose x-coordinate is r and whose y-coordinate has the given parity: by
      `Decompression` there is at most one. */
  predicate Decompresses(r: Scalar, odd: bool, point: Point) {
    point != IDENTITY && X(point) == r && YIsOdd(point) == odd
  }

  /** Recovery inverts signing: from the point recomputed by the verifier it yields the public key. */
  lemma RecoverPublicKey(m: Scalar, sk: Scalar, r: Scalar, k: Scalar, s: Scalar)
    requires r != 0 && Mul(s, k) == Add(m, Mul(sk, r))
    ensures Recover(m, r, s, GTimes(k)) == GTimes(sk)
  {
    hide Mul, Inv;
    MulComm(s, k);
    MulOne(m);
    MulAssoc(sk, r, Inv(r));
    MulInv(r);
    MulOne(sk);
  }
}
