/** The scalar field of the curve: integers modulo a prime order.

    The order is an arbitrary prime above 255 that fits in 32 bytes, which is all the
    protocol asks of the two curves it is instantiated with.  Party indices are u8
    values, so they are pairwise distinct, nonzero scalars. */
module Scalars {

  ghost predicate IsPrime(p: nat) {
    p > 1 && forall d: nat :: 1 < d < p ==> p % d != 0
  }

  const TWO_256: nat := 0x1_0000000000000000_0000000000000000_0000000000000000_0000000000000000

  type Order = q: nat | 255 < q < TWO_256 && IsPrime(q) witness (PrimeExists(); 257)

  /** The order of the group; nothing but its type is known about it. */
  const Q: Order

  type Scalar = x: nat | x < Q witness 0

  lemma NotAProduct(d: nat, k: nat)
    requires 1 < d <= k
    ensures d * k != 257
  {
    if d == 2 {} else if d == 3 {} else if d == 4 {} else if d == 5 {}
    else if d == 6 {} else if d == 7 {} else if d == 8 {} else if d == 9 {}
    else if d == 10 {} else if d == 11 {} else if d == 12 {} else if d == 13 {}
    else if d == 14 {} else if d == 15 {} else if d == 16 {}
    else { MulBound(d, k - 17); MulBound(17, d - 17); }
  }

  lemma PrimeExists()
    ensures IsPrime(257)
  {
    forall d: nat | 1 < d < 257 ensures 257 % d != 0 {
      var k := 257 / d;
      MulBound(d, 1 - k);
      if d <= k { NotAProduct(d, k); } else if k > 1 { NotAProduct(k, d); }
    }
  }

  /** Multiplying a positive number by an integer moves it at least its own size from zero. */
  lemma MulBound(m: nat, x: int)
    ensures x >= 0 ==> m * x >= 0
    ensures x >= 1 ==> m * x >= m
    ensures x <= -1 ==> m * x + m <= 0
  {
    if x >= 1 { assert m * x == m + m * (x - 1); }
    if x <= -1 { assert m * x == m * (x + 1) - m; }
  }

  // Arithmetic

  function Add(a: Scalar, b: Scalar): Scalar {
    if a + b < Q then a + b else a + b - Q
  }

  function Neg(a: Scalar): Scalar {
    if a == 0 then 0 else Q - a
  }

  function Sub(a: Scalar, b: Scalar): Scalar {
    if a >= b then a - b else a - b + Q
  }

  function Mul(a: Scalar, b: Scalar): Scalar {
    (a * b) % Q
  }

  /** Reduction of an integer into the field (`Reduce<FieldBytes>`). */
  function Reduce(n: nat): Scalar {
    n % Q
  }

  lemma Distribute(a: int, b: int, c: int)
    ensures a * (b + c) == a * b + a * c && (b + c) * a == b * a + c * a
  {}

  lemma Associate(a: int, b: int, c: int)
    ensures (a * b) * c == a * (b * c)
  {}

  lemma DivMod(n: int, k: int, r: int)
    requires n == Q * k + r && 0 <= r < Q
    ensures n % Q == r
  {
    var k', r' := n / Q, n % Q;
    Distribute(Q, k' - k, k);
    MulBound(Q, k' - k);
  }

  lemma SameMod(n: int, m: int, k: int)
    requires n == m + Q * k
    ensures n % Q == m % Q
  {
    Distribute(Q, m / Q, k);
    DivMod(n, m / Q + k, m % Q);
  }

  /** A factor may be reduced before a product is. */
  lemma ModMul(x: int, b: int)
    ensures (x % Q * b) % Q == (x * b) % Q
  {
    var k, r := x / Q, x % Q;
    ModMulStep(x, k, r, b);
    SameMod(x * b, r * b, k * b);
  }

  lemma ModMulStep(x: int, k: int, r: int, b: int)
    requires x == Q * k + r
    ensures x * b == r * b + Q * (k * b)
  {
    Distribute(b, Q * k, r);
    Associate(Q, k, b);
  }

  lemma ModAdd(x: int, y: int)
    ensures Add(x % Q, y % Q) == (x + y) % Q
  {
    var e := if x % Q + y % Q < Q then 0 else 1;
    Distribute(Q, x / Q, y / Q);
    Distribute(Q, x / Q + y / Q, e);
    DivMod(x + y, x / Q + y / Q + e, Add(x % Q, y % Q));
  }

  lemma Small(a: Scalar)
    ensures a as int % Q == a
  {
    DivMod(a, 0, a);
  }

  lemma MulComm(a: Scalar, b: Scalar)
    ensures Mul(a, b) == Mul(b, a)
  {
    assert a * b == b * a;
  }

  lemma MulAdd(a: Scalar, b: Scalar, c: Scalar)
    ensures Mul(a, Add(b, c)) == Add(Mul(a, b), Mul(a, c))
  {
    Small(b);
    Small(c);
    ModAdd(b, c);
    ModMul(b + c, a);
    MulComm(a, Add(b, c));
    assert (b + c) * a == a * (b + c);
    Distribute(a, b, c);
    ModAdd(a * b, a * c);
  }

  lemma MulAssoc(a: Scalar, b: Scalar, c: Scalar)
    ensures Mul(Mul(a, b), c) == Mul(a, Mul(b, c))
  {
    ModMul(a * b, c);
    Associate(a, b, c);
    ModMul(b * c, a);
    MulComm(a, Mul(b, c));
    assert b * c * a == a * (b * c);
  }

  lemma MulOne(a: Scalar)
    ensures Mul(a, 1) == a && Mul(1, a) == a
  {
    DivMod(a, 0, a);
  }

  lemma MulZero(a: Scalar)
    ensures Mul(a, 0) == 0 && Mul(0, a) == 0
  {
    DivMod(0, 0, 0);
  }

  // Inversion, by Bezout's identity

  /** Extended Euclid: the greatest common divisor with its Bezout coefficients. */
  function Egcd(a: nat, b: nat): (nat, int, int)
    decreases b
  {
    if b == 0 then (a, 1, 0)
    else
      var (g, x, y) := Egcd(b, a % b);
      (g, y, x - a / b * y)
  }

  lemma EgcdUnfold(a: nat, b: nat)
    requires b > 0
    ensures var e := Egcd(b, a % b); Egcd(a, b) == (e.0, e.2, e.1 - a / b * e.2)
  {}

  lemma Euclid(a: nat, b: nat)
    requires b > 0
    ensures a == a / b * b + a % b
  {}

  lemma BezoutStep(a: int, b: int, d: int, m: int, e: (nat, int, int), f: (nat, int, int))
    requires a == d * b + m && e.0 == e.1 * b + e.2 * m
    requires f == (e.0, e.2, e.1 - d * e.2)
    ensures f.0 == f.1 * a + f.2 * b
  {
    var x, y := e.1, e.2;
    Distribute(y, d * b, m);
    assert (x - d * y) * b == x * b - d * y * b;
    Associate(d, y, b);
    Associate(y, d, b);
    assert d * y == y * d;
  }

  lemma {:induction false} Bezout(a: nat, b: nat)
    ensures Egcd(a, b).0 == Egcd(a, b).1 * a + Egcd(a, b).2 * b
    decreases b
  {
    if b > 0 {
      var m := a % b;
      EgcdUnfold(a, b);
      Euclid(a, b);
      Bezout(b, m);
      hide Egcd;
      BezoutStep(a, b, a / b, m, Egcd(b, m), Egcd(a, b));
    }
  }

  lemma DividesStep(a: int, b: int, d: int, m: int, g: int, v: int, w: int)
    requires a == d * b + m && b == g * v && m == g * w
    ensures a == g * (d * v + w)
  {
    Distribute(g, d * v, w);
    Associate(g, d, v);
    Associate(d, g, v);
    assert g * d == d * g;
  }

  /** The first component of `Egcd` divides both arguments. */
  lemma {:induction false} EgcdDivides(a: nat, b: nat) returns (u: nat, v: nat)
    ensures a == Egcd(a, b).0 * u && b == Egcd(a, b).0 * v
    decreases b
  {
    var g := Egcd(a, b).0;
    if b == 0 {
      u, v := 1, 0;
    } else {
      var d, m := a / b, a % b;
      var w;
      v, w := EgcdDivides(b, m);
      assert Egcd(b, m).0 == g;
      hide Egcd;
      MulBound(d, v);
      u := d * v + w;
      DividesStep(a, b, d, m, g, v, w);
    }
  }

  lemma FactorDivides(d: nat, k: nat)
    requires d > 0
    ensures (d * k) % d == 0
  {
    var n := (d * k) / d;
    Distribute(d, k - n, n);
    MulBound(d, k - n);
  }

  /** A nonzero scalar is coprime to the order, because the order is prime. */
  lemma Coprime(a: Scalar)
    requires a != 0
    ensures Egcd(a, Q).0 == 1
  {
    var g := Egcd(a, Q).0;
    var u, v := EgcdDivides(a, Q);
    MulBound(g, u - 1);
    assert 0 < g <= a;
    FactorDivides(g, v);
  }

  /** The inverse of a nonzero scalar; zero has none, and `Invert` says so. */
  function Inv(a: Scalar): Scalar {
    Egcd(a, Q).1 % Q
  }

  lemma InvStep(a: Scalar, x: int, y: int)
    requires 1 == x * a + y * Q
    ensures (x % Q * a) % Q == 1
  {
    ModMul(x, a);
    assert y * Q == -(Q * -y);
    SameMod(x * a, 1, -y);
    Small(1);
  }

  lemma MulInv(a: Scalar)
    requires a != 0
    ensures Mul(a, Inv(a)) == 1
  {
    Coprime(a);
    Bezout(a, Q);
    var x, y := Egcd(a, Q).1, Egcd(a, Q).2;
    hide Egcd;
    MulComm(a, Inv(a));
    InvStep(a, x, y);
  }

  // Consequences used throughout

  lemma AddSwap(a: Scalar, b: Scalar, c: Scalar, d: Scalar)
    ensures Add(Add(a, b), Add(c, d)) == Add(Add(a, c), Add(b, d))
  {}

  lemma MulSub(a: Scalar, b: Scalar, c: Scalar)
    ensures Mul(a, Sub(b, c)) == Sub(Mul(a, b), Mul(a, c))
  {
    MulAdd(a, Sub(b, c), c);
  }

  lemma MulNeg(a: Scalar, b: Scalar)
    ensures Mul(a, Neg(b)) == Neg(Mul(a, b)) && Mul(Neg(a), b) == Neg(Mul(a, b))
  {
    MulZero(a);
    MulZero(b);
    MulAdd(a, b, Neg(b));
    MulAdd(b, a, Neg(a));
    MulComm(a, b);
    MulComm(Neg(a), b);
  }

  /** A product is zero only when a factor is. */
  lemma NoZeroDivisors(a: Scalar, b: Scalar)
    ensures Mul(a, b) == 0 <==> a == 0 || b == 0
  {
    MulZero(a);
    MulZero(b);
    if a != 0 && Mul(a, b) == 0 {
      Cancel(a, b, 0);
    }
  }

  lemma Cancel(a: Scalar, b: Scalar, c: Scalar)
    requires a != 0 && Mul(a, b) == Mul(a, c)
    ensures b == c
  {
    MulInv(a);
    MulAssoc(Inv(a), a, b);
    MulAssoc(Inv(a), a, c);
    MulComm(a, Inv(a));
    MulOne(b);
    MulOne(c);
  }

  lemma InvNonzero(a: Scalar)
    requires a != 0
    ensures Inv(a) != 0
  {
    MulInv(a);
    MulZero(a);
  }
}
