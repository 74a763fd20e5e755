/** The field of 2^208 elements: polynomials over two elements modulo
    X^208 + X^9 + X^3 + X + 1.

    Polynomials are coefficient functions; `Par` is the sum of finitely many coefficients. */
module BinaryField {
  import opened Bits

  const DEGREE := 208
  const FIELD_BYTES := 26

  type Coefs = int -> bool

  /** A byte string as a polynomial. */
  function AsPoly(s: seq<bv8>): Coefs {
    n => Coef(s, n)
  }

  function Par(f: Coefs, n: nat): bool {
    if n == 0 then false else Par(f, n - 1) != f(n - 1)
  }

  lemma ParLast(f: Coefs, n: nat)
    ensures !Par(f, 0) && Par(f, n + 1) == (Par(f, n) != f(n))
  {}

  lemma {:induction false} ParExt(f: Coefs, g: Coefs, n: nat)
    requires forall i :: 0 <= i < n ==> f(i) == g(i)
    ensures Par(f, n) == Par(g, n)
  {
    if n > 0 { ParExt(f, g, n - 1); }
  }

  lemma {:induction false} ParXor(f: Coefs, g: Coefs, h: Coefs, n: nat)
    requires forall i :: 0 <= i < n ==> h(i) == (f(i) != g(i))
    ensures Par(h, n) == (Par(f, n) != Par(g, n))
  {
    if n > 0 { ParXor(f, g, h, n - 1); }
  }

  lemma {:induction false} ParFalse(f: Coefs, n: nat)
    requires forall i :: 0 <= i < n ==> !f(i)
    ensures !Par(f, n)
  {
    if n > 0 { ParFalse(f, n - 1); }
  }

  function FromIndex(f: Coefs, m: int): Coefs {
    i => f(m + i)
  }

  lemma {:induction false} ParSplit(f: Coefs, m: nat, n: nat)
    ensures Par(f, m + n) == (Par(f, m) != Par(FromIndex(f, m), n))
  {
    hide Par;
    ParLast(FromIndex(f, m), 0);
    if n > 0 {
      ParSplit(f, m, n - 1);
      ParLast(f, m + n - 1);
      ParLast(FromIndex(f, m), n - 1);
    }
  }

  lemma {:induction false} ParExchange(f: (int, int) -> bool, m: nat, n: nat)
    ensures Par(i => Par(j => f(i, j), n), m) == Par(j => Par(i => f(i, j), m), n)
  {
    if m == 0 {
      ParFalse(j => Par(i => f(i, j), m), n);
    } else {
      ParExchange(f, m - 1, n);
      ParXor(j => Par(i => f(i, j), m - 1), j => f(m - 1, j), j => Par(i => f(i, j), m), n);
    }
  }

  lemma {:induction false} ParReverse(f: Coefs, n: nat)
    ensures Par(f, n) == Par(Mirrored(f, n), n)
  {
    hide Par;
    ParLast(f, 0);
    ParLast(Mirrored(f, n), 0);
    if n > 0 {
      ParReverse(f, n - 1);
      ParLast(f, n - 1);
      ParSplit(Mirrored(f, n), 1, n - 1);
      ParExt(FromIndex(Mirrored(f, n), 1), Mirrored(f, n - 1), n - 1);
    }
  }

  function Mirrored(f: Coefs, n: int): Coefs {
    i => f(n - 1 - i)
  }

  /** The terms of coefficient `n` of a product, by the index on the left. */
  function Terms(a: Coefs, b: Coefs, n: int): Coefs {
    i => a(i) && b(n - i)
  }

  /** Coefficient `n` of the product of two polynomials, `a` of degree below `len`. */
  predicate Product(a: Coefs, b: Coefs, len: nat, n: int) {
    Par(Terms(a, b, n), len)
  }

  /** Coefficient `n` of `h` times the modulus X^208 + X^9 + X^3 + X + 1. */
  predicate TimesModulus(h: Coefs, n: int) {
    ((((h(n) != h(n - 1)) != h(n - 3)) != h(n - 9)) != h(n - DEGREE))
  }

  ghost predicate Supported(h: Coefs, bound: nat) {
    forall n :: h(n) ==> 0 <= n < bound
  }

  /** `p` and `r` differ by the multiple `h` of the modulus. */
  ghost predicate Differ(p: Coefs, r: Coefs, h: Coefs) {
    forall n :: p(n) == (r(n) != TimesModulus(h, n))
  }

  /** `p` and `r` are congruent modulo the modulus, with a quotient of degree below `bound`. */
  ghost predicate Congruent(p: Coefs, r: Coefs, bound: nat) {
    exists h: Coefs :: Supported(h, bound) && Differ(p, r, h)
  }

  /** A nonzero multiple of the modulus has a coefficient of degree 208 or more. */
  lemma {:induction false} SmallMultiple(h: Coefs, bound: nat)
    requires Supported(h, bound)
    requires forall n :: n >= DEGREE ==> !TimesModulus(h, n)
    ensures forall n :: !h(n)
  {
    if bound > 0 {
      assert !TimesModulus(h, bound - 1 + DEGREE);
      assert h(bound - 1) == TimesModulus(h, bound - 1 + DEGREE);
      SmallMultiple(h, bound - 1);
    }
  }

  /** Division with remainder is unique: congruent byte strings of length 26 are equal. */
  lemma RemainderUnique(p: Coefs, r: seq<bv8>, s: seq<bv8>, bound: nat)
    requires |r| == |s| == FIELD_BYTES
    requires Congruent(p, AsPoly(r), bound) && Congruent(p, AsPoly(s), bound)
    ensures r == s
  {
    hide Coef;
    var h: Coefs :| Supported(h, bound) && Differ(p, AsPoly(r), h);
    var k: Coefs :| Supported(k, bound) && Differ(p, AsPoly(s), k);
    var d := (n: int) => h(n) != k(n);
    forall n ensures (Coef(r, n) != Coef(s, n)) == TimesModulus(d, n) {
      assert p(n) == (Coef(r, n) != TimesModulus(h, n));
      assert p(n) == (Coef(s, n) != TimesModulus(k, n));
    }
    forall n | n >= DEGREE ensures !TimesModulus(d, n) { NoCoef(r, n); NoCoef(s, n); }
    SmallMultiple(d, bound);
    CoefExt(r, s);
  }

  lemma NoCoef(r: seq<bv8>, n: int)
    requires n < 0 || n >= 8 * |r|
    ensures !Coef(r, n)
  {}

  // Reference multiplication: Horner's rule on the left factor, one coefficient at a time

  predicate Low(n: int) {
    n == 0 || n == 1 || n == 3 || n == 9
  }

  /** Coefficient `n` of the top `k` coefficients of `a`, read as a polynomial, times `b`,
      reduced by one step of `X^208 = X^9 + X^3 + X + 1` after every multiplication by X. */
  predicate Horner(a: Coefs, b: Coefs, k: nat, n: int) {
    if k == 0 || n < 0 || n >= DEGREE then false
    else ((Horner(a, b, k - 1, n - 1) != (Horner(a, b, k - 1, DEGREE - 1) && Low(n)))
          != (a(DEGREE - k) && b(n)))
  }

  predicate HornerQuotient(a: Coefs, b: Coefs, k: nat, n: int) {
    if k == 0 then false
    else HornerQuotient(a, b, k - 1, n - 1) != (n == 0 && Horner(a, b, k - 1, DEGREE - 1))
  }

  lemma {:induction false} QuotientSupport(a: Coefs, b: Coefs, k: nat, n: int)
    ensures HornerQuotient(a, b, k, n) ==> 0 <= n < k
  {
    if k > 0 { QuotientSupport(a, b, k - 1, n - 1); }
  }

  lemma {:induction false} HornerCorrect(a: Coefs, b: Coefs, k: nat, n: int)
    requires k <= DEGREE && Supported(b, DEGREE)
    ensures Par(Terms(FromIndex(a, DEGREE - k), b, n), k)
         == (Horner(a, b, k, n) != TimesModulus(Quotient(a, b, k), n))
  {
    hide Par, TimesModulus, HornerQuotient;
    if k > 0 {
      HornerCorrect(a, b, k - 1, n - 1);
      TopTerm(a, b, k, n);
      QuotientStep(a, b, k, n);
      HornerStep(a, b, k, n);
    } else {
      ParLast(Terms(FromIndex(a, DEGREE - k), b, n), 0);
      NoQuotient(a, b, n);
    }
  }

  function Quotient(a: Coefs, b: Coefs, k: nat): Coefs {
    m => HornerQuotient(a, b, k, m)
  }

  lemma NoQuotient(a: Coefs, b: Coefs, n: int)
    ensures !TimesModulus(Quotient(a, b, 0), n)
  {}

  /** One step of Horner's rule at the coefficients in range; out of range the right side
      still holds once what leaves at X^208 is counted. */
  lemma HornerStep(a: Coefs, b: Coefs, k: nat, n: int)
    requires 0 < k <= DEGREE && Supported(b, DEGREE)
    ensures Horner(a, b, k, n)
         == ((Horner(a, b, k - 1, n - 1) != (Horner(a, b, k - 1, DEGREE - 1) && (Low(n) || n == DEGREE)))
             != (a(DEGREE - k) && b(n)))
  {}

  lemma TopTerm(a: Coefs, b: Coefs, k: nat, n: int)
    requires 0 < k <= DEGREE
    ensures Par(Terms(FromIndex(a, DEGREE - k), b, n), k)
         == (Par(Terms(FromIndex(a, DEGREE - (k - 1)), b, n - 1), k - 1) != (a(DEGREE - k) && b(n)))
  {
    hide Par;
    var f := Terms(FromIndex(a, DEGREE - k), b, n);
    ParLast(f, 0);
    ParSplit(f, 1, k - 1);
    ParExt(FromIndex(f, 1), Terms(FromIndex(a, DEGREE - (k - 1)), b, n - 1), k - 1);
  }

  lemma QuotientStep(a: Coefs, b: Coefs, k: nat, n: int)
    requires 0 < k <= DEGREE
    ensures TimesModulus(Quotient(a, b, k), n)
         == (TimesModulus(Quotient(a, b, k - 1), n - 1) != (Horner(a, b, k - 1, DEGREE - 1) && (Low(n) || n == DEGREE)))
  {
    hide Horner;
    var h, h' := Quotient(a, b, k - 1), Quotient(a, b, k);
    var top := Horner(a, b, k - 1, DEGREE - 1);
    assert forall m {:trigger h'(m)} :: h'(m) == (h(m - 1) != (m == 0 && top));
    hide HornerQuotient, Quotient;
  }

  /** The product of two field elements in the wire format of 26 bytes. */
  function FieldProduct(a: seq<bv8>, b: seq<bv8>): (r: seq<bv8>)
    ensures |r| == FIELD_BYTES
  {
    Pack(n => Horner(AsPoly(a), AsPoly(b), DEGREE, n), FIELD_BYTES)
  }

  /** The polynomial product of two byte strings. */
  function ProductOf(a: seq<bv8>, b: seq<bv8>): Coefs {
    n => Product(AsPoly(a), AsPoly(b), DEGREE, n)
  }

  /** `FieldProduct` is the remainder of the polynomial product. */
  lemma FieldProductCongruent(a: seq<bv8>, b: seq<bv8>)
    requires |a| == |b| == FIELD_BYTES
    ensures Congruent(ProductOf(a, b), AsPoly(FieldProduct(a, b)), DEGREE)
  {
    var f, g := AsPoly(a), AsPoly(b);
    var h := Quotient(f, g, DEGREE);
    forall n ensures h(n) ==> 0 <= n < DEGREE { QuotientSupport(f, g, DEGREE, n); }
    assert Supported(h, DEGREE);
    forall n ensures Product(f, g, DEGREE, n) == (Coef(FieldProduct(a, b), n) != TimesModulus(h, n)) {
      HornerCorrect(f, g, DEGREE, n);
      ParExt(Terms(FromIndex(f, DEGREE - DEGREE), g, n), Terms(f, g, n), DEGREE);
      PackCoef(m => Horner(f, g, DEGREE, m), FIELD_BYTES, n);
    }
    assert Differ(ProductOf(a, b), AsPoly(FieldProduct(a, b)), h);
  }

  // Algebra of the field product

  lemma {:induction false} HornerXor(a: Coefs, a': Coefs, s: Coefs, b: Coefs, k: nat, n: int)
    requires forall i :: s(i) == (a(i) != a'(i))
    ensures Horner(s, b, k, n) == (Horner(a, b, k, n) != Horner(a', b, k, n))
  {
    if k > 0 {
      HornerXor(a, a', s, b, k - 1, n - 1);
      HornerXor(a, a', s, b, k - 1, DEGREE - 1);
    }
  }

  /** Multiplication distributes over addition in its left argument. */
  lemma FieldProductXor(a: seq<bv8>, a': seq<bv8>, b: seq<bv8>)
    requires |a| == |a'| == FIELD_BYTES
    ensures FieldProduct(Xor(a, a'), b) == Xor(FieldProduct(a, b), FieldProduct(a', b))
  {
    var f, f', g := AsPoly(a), AsPoly(a'), AsPoly(b);
    var s := AsPoly(Xor(a, a'));
    forall i ensures s(i) == (f(i) != f'(i)) { CoefXor(a, a', i); }
    var p, p', q := FieldProduct(a, b), FieldProduct(a', b), FieldProduct(Xor(a, a'), b);
    forall n ensures Coef(q, n) == Coef(Xor(p, p'), n) {
      PackCoef(m => Horner(f, g, DEGREE, m), FIELD_BYTES, n);
      PackCoef(m => Horner(f', g, DEGREE, m), FIELD_BYTES, n);
      PackCoef(m => Horner(s, g, DEGREE, m), FIELD_BYTES, n);
      HornerXor(f, f', s, g, DEGREE, n);
      CoefXor(p, p', n);
    }
    CoefExt(q, Xor(p, p'));
  }

  /** Multiplication is commutative. */
  lemma FieldProductComm(a: seq<bv8>, b: seq<bv8>)
    requires |a| == |b| == FIELD_BYTES
    ensures FieldProduct(a, b) == FieldProduct(b, a)
  {
    var f, g := AsPoly(a), AsPoly(b);
    FieldProductCongruent(a, b);
    FieldProductCongruent(b, a);
    forall n ensures Product(f, g, DEGREE, n) == Product(g, f, DEGREE, n) { ProductComm(f, g, n); }
    var h: Coefs :| Supported(h, DEGREE) && Differ(ProductOf(b, a), AsPoly(FieldProduct(b, a)), h);
    assert Differ(ProductOf(a, b), AsPoly(FieldProduct(b, a)), h);
    RemainderUnique(ProductOf(a, b), FieldProduct(a, b), FieldProduct(b, a), DEGREE);
  }

  lemma ProductComm(f: Coefs, g: Coefs, n: int)
    requires Supported(f, DEGREE) && Supported(g, DEGREE)
    ensures Product(f, g, DEGREE, n) == Product(g, f, DEGREE, n)
  {
    hide Par;
    var p, q := Terms(f, g, n), Terms(g, f, n);
    if n < 0 {
      ParFalse(p, DEGREE);
      ParFalse(q, DEGREE);
    } else {
      ParWiden(p, DEGREE, n + 1);
      ParWiden(q, DEGREE, n + 1);
      ParReverse(p, n + 1);
      ParExt(Mirrored(p, n + 1), q, n + 1);
    }
  }

  /** The number of terms does not matter once it covers all nonzero ones. */
  lemma ParWiden(f: Coefs, m: nat, n: nat)
    requires forall i :: f(i) ==> i < m && i < n
    ensures Par(f, m) == Par(f, n)
  {
    var lo, hi := if m < n then m else n, if m < n then n else m;
    ParSplit(f, lo, hi - lo);
    ParFalse(FromIndex(f, lo), hi - lo);
  }
}
