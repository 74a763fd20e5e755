/** Polynomials over the scalar field, and Shamir reconstruction at zero.

    A polynomial is the sequence of its coefficients, lowest first; a sequence of length t
    has degree below t.  Party indices are natural numbers from 1 to 255. */
module Shamir {
  import opened Scalars
  import opened Sums

  type Poly = seq<Scalar>

  function Eval(p: Poly, x: Scalar): Scalar {
    if |p| == 0 then 0 else Add(p[0], Mul(x, Eval(p[1..], x)))
  }

  lemma EvalAtZero(p: Poly)
    ensures Eval(p, 0) == if |p| == 0 then 0 else p[0]
  {
    if |p| > 0 { MulZero(Eval(p[1..], 0)); }
  }

  predicate Indices(xs: seq<nat>) {
    Distinct(xs) && forall x <- xs :: 0 < x <= 255
  }

  lemma IndexScalar(x: nat)
    requires x <= 255
    ensures Reduce(x) == x
  {
    DivMod(x, 0, x);
  }

  /** Distinct indices are distinct scalars. */
  lemma AsScalars(xs: seq<nat>) returns (ys: seq<Scalar>)
    requires forall x <- xs :: x <= 255
    ensures ys == xs
  {
    ys := [];
    for i := 0 to |xs|
      invariant ys == xs[..i]
    {
      assert xs[i] in xs;
      var x: Scalar := xs[i];
      ys := ys + [x];
    }
  }

  // Ring operations

  function PolyAdd(p: Poly, q: Poly): (r: Poly)
    ensures |r| == if |p| < |q| then |q| else |p|
  {
    if |p| == 0 then q
    else if |q| == 0 then p
    else [Add(p[0], q[0])] + PolyAdd(p[1..], q[1..])
  }

  function PolyScale(c: Scalar, p: Poly): (r: Poly)
    ensures |r| == |p|
  {
    if |p| == 0 then [] else [Mul(c, p[0])] + PolyScale(c, p[1..])
  }

  /** The product of `X - a` and `p`. */
  function MulLinear(a: Scalar, p: Poly): (r: Poly)
    ensures |r| == |p| + 1
  {
    PolyAdd([0] + p, PolyScale(Neg(a), p))
  }

  lemma {:induction false} EvalAdd(p: Poly, q: Poly, x: Scalar)
    ensures Eval(PolyAdd(p, q), x) == Add(Eval(p, x), Eval(q, x))
  {
    hide Mul;
    if |p| > 0 && |q| > 0 {
      EvalAdd(p[1..], q[1..], x);
      MulAdd(x, Eval(p[1..], x), Eval(q[1..], x));
    }
  }

  lemma {:induction false} EvalScale(c: Scalar, p: Poly, x: Scalar)
    ensures Eval(PolyScale(c, p), x) == Mul(c, Eval(p, x))
  {
    hide Mul;
    if |p| == 0 {
      MulZero(c);
    } else {
      var v := Eval(p[1..], x);
      EvalScale(c, p[1..], x);
      MulAdd(c, p[0], Mul(x, v));
      MulAssoc(c, x, v);
      MulAssoc(x, c, v);
      MulComm(c, x);
    }
  }

  lemma EvalMulLinear(a: Scalar, p: Poly, x: Scalar)
    ensures Eval(MulLinear(a, p), x) == Mul(Sub(x, a), Eval(p, x))
  {
    hide Mul;
    var v := Eval(p, x);
    EvalAdd([0] + p, PolyScale(Neg(a), p), x);
    EvalScale(Neg(a), p, x);
    assert ([0] + p)[1..] == p;
    MulNeg(a, v);
    MulComm(x, v);
    MulComm(a, v);
    MulSub(v, x, a);
    MulComm(Sub(x, a), v);
  }

  // Roots

  /** The quotient of `p` by `X - a` (synthetic division). */
  function Quotient(p: Poly, a: Scalar): (r: Poly)
    ensures |r| == if |p| == 0 then 0 else |p| - 1
  {
    if |p| < 2 then [] else [Eval(p[1..], a)] + Quotient(p[1..], a)
  }

  lemma {:induction false} Division(p: Poly, a: Scalar, x: Scalar)
    ensures Eval(p, x) == Add(Eval(p, a), Mul(Sub(x, a), Eval(Quotient(p, a), x)))
  {
    hide Mul;
    if |p| < 2 {
      MulZero(x);
      MulZero(a);
      MulZero(Sub(x, a));
    } else {
      var r := p[1..];
      var rx, ra, d := Eval(r, x), Eval(r, a), Sub(x, a);
      var qx := Eval(Quotient(r, a), x);
      Division(r, a, x);
      assert Quotient(p, a)[1..] == Quotient(r, a);
      MulAdd(x, ra, Mul(d, qx));
      MulAdd(d, ra, Mul(x, qx));
      MulAssoc(x, d, qx);
      MulAssoc(d, x, qx);
      MulComm(x, d);
      MulComm(d, ra);
      MulComm(x, ra);
      MulComm(a, ra);
      MulSub(ra, x, a);
    }
  }

  lemma QuotientRoots(p: Poly, a: Scalar, x: Scalar)
    requires Eval(p, a) == 0
    ensures Eval(p, x) == 0 <==> x == a || Eval(Quotient(p, a), x) == 0
  {
    hide Mul;
    Division(p, a, x);
    NoZeroDivisors(Sub(x, a), Eval(Quotient(p, a), x));
  }

  /** A polynomial of degree below t with t distinct roots vanishes everywhere. */
  lemma {:induction false} TooManyRoots(p: Poly, xs: seq<Scalar>, y: Scalar)
    requires |p| <= |xs|
    requires Distinct(xs)
    requires forall x <- xs :: Eval(p, x) == 0
    ensures Eval(p, y) == 0
    decreases |xs|
  {
    if |p| > 0 {
      hide Mul, Add, Sub, Eval;
      var n := |xs| - 1;
      var ys, a := xs[..n], xs[n];
      var q := Quotient(p, a);
      assert a in xs;
      forall x | x in ys ensures Eval(q, x) == 0 {
        assert x in xs && x != a;
        QuotientRoots(p, a, x);
      }
      assert Distinct(ys);
      hide Distinct;
      TooManyRoots(q, ys, y);
      QuotientRoots(p, a, y);
    }
  }

  /** Two polynomials of degree below t that agree at t points agree everywhere. */
  lemma Unique(p: Poly, q: Poly, xs: seq<Scalar>, y: Scalar)
    requires |p| <= |xs| && |q| <= |xs|
    requires Distinct(xs)
    requires forall x <- xs :: Eval(p, x) == Eval(q, x)
    ensures Eval(p, y) == Eval(q, y)
  {
    hide Mul;
    var m := Neg(1);
    var d := PolyAdd(p, PolyScale(m, q));
    forall x ensures Eval(d, x) == Sub(Eval(p, x), Eval(q, x)) {
      EvalAdd(p, PolyScale(m, q), x);
      EvalScale(m, q, x);
      MulNeg(1, Eval(q, x));
      MulOne(Eval(q, x));
    }
    TooManyRoots(d, xs, y);
  }

  // Interpolation

  /** The monic polynomial whose roots are `xs`. */
  function Vanish(xs: seq<nat>): (r: Poly)
    ensures |r| == |xs| + 1
  {
    if |xs| == 0 then [1] else MulLinear(Reduce(xs[|xs| - 1]), Vanish(xs[..|xs| - 1]))
  }

  lemma {:induction false} EvalVanish(xs: seq<nat>, x: Scalar)
    ensures Eval(Vanish(xs), x) == ProdOver(xs, (k: nat) => Sub(x, Reduce(k)))
  {
    hide Mul, Reduce;
    if |xs| == 0 {
      MulZero(x);
    } else {
      var ys, x0 := xs[..|xs| - 1], Reduce(xs[|xs| - 1]);
      EvalVanish(ys, x);
      EvalMulLinear(x0, Vanish(ys), x);
      MulComm(Sub(x, x0), Eval(Vanish(ys), x));
    }
  }

  /** Some polynomial of degree below `|xs|` takes the values `f` on `xs`. */
  lemma DivMul(s: Scalar, d: Scalar)
    requires d != 0
    ensures Mul(Mul(s, Inv(d)), d) == s
  {
    hide Mul;
    MulAssoc(s, Inv(d), d);
    MulComm(Inv(d), d);
    MulInv(d);
    MulOne(s);
  }

  lemma {:induction false} Interpolation(xs: seq<nat>, f: nat -> Scalar) returns (p: Poly)
    requires Distinct(xs) && forall x <- xs :: x <= 255
    ensures |p| == |xs|
    ensures forall x <- xs :: Eval(p, Reduce(x)) == f(x)
  {
    hide Mul, Reduce;
    if |xs| == 0 {
      p := [];
    } else {
      var ys, n := xs[..|xs| - 1], xs[|xs| - 1];
      assert xs == ys + [n];
      assert forall x <- ys :: x in xs;
      var q := Interpolation(ys, f);
      var w := Vanish(ys);
      var x0 := Reduce(n);
      forall x | x in xs ensures Eval(w, Reduce(x)) == 0 <==> x in ys {
        EvalVanish(ys, Reduce(x));
        ProdNonzero(ys, (k: nat) => Sub(Reduce(x), Reduce(k)));
        IndexScalar(x);
        forall k | k in ys ensures Sub(Reduce(x), Reduce(k)) == 0 <==> k == x { IndexScalar(k); }
      }
      var gap := Sub(f(n), Eval(q, x0));
      var c := Mul(gap, Inv(Eval(w, x0)));
      p := PolyAdd(q, PolyScale(c, w));
      forall x | x in xs ensures Eval(p, Reduce(x)) == f(x) {
        EvalAdd(q, PolyScale(c, w), Reduce(x));
        EvalScale(c, w, Reduce(x));
        if x in ys { MulZero(c); } else { DivMul(gap, Eval(w, x0)); }
      }
    }
  }

  // Reconstruction at zero

  function Without(xs: seq<nat>, x: nat): seq<nat> {
    if |xs| == 0 then []
    else Without(xs[..|xs| - 1], x) + (if xs[|xs| - 1] == x then [] else [xs[|xs| - 1]])
  }

  lemma {:induction false} WithoutMembers(xs: seq<nat>, x: nat)
    ensures forall k :: k in Without(xs, x) <==> k in xs && k != x
    ensures Distinct(xs) ==> Distinct(Without(xs, x))
    ensures Distinct(xs) ==> |Without(xs, x)| == if x in xs then |xs| - 1 else |xs|
  {
    if |xs| > 0 {
      var ys, n := xs[..|xs| - 1], xs[|xs| - 1];
      assert xs == ys + [n];
      WithoutMembers(ys, x);
      if Distinct(xs) {
        var ws := Without(ys, x);
        assert n !in ws;
        assert Distinct(ws + [n]);
      }
    }
  }

  /** The Lagrange coefficient of index `x` for reconstruction at zero from `x` and `others`,
      as the product of the other indices over the product of their distances to `x`. */
  function Lagrange(x: nat, others: seq<nat>): Scalar {
    Mul(ProdOver(others, (k: nat) => Reduce(k)), Inv(Denominator(x, others)))
  }

  function Denominator(x: nat, others: seq<nat>): Scalar {
    ProdOver(others, (k: nat) => Sub(Reduce(k), Reduce(x)))
  }

  lemma DenominatorNonzero(x: nat, others: seq<nat>)
    requires x <= 255 && x !in others && forall k <- others :: k <= 255
    ensures Denominator(x, others) != 0
  {
    hide Mul, Reduce;
    IndexScalar(x);
    forall k | k in others ensures Sub(Reduce(k), Reduce(x)) != 0 { IndexScalar(k); }
    ProdNonzero(others, (k: nat) => Sub(Reduce(k), Reduce(x)));
  }

  /** The coefficient does not depend on the order in which the others are listed. */
  lemma LagrangePermutation(x: nat, xs: seq<nat>, ys: seq<nat>)
    requires multiset(xs) == multiset(ys)
    ensures Lagrange(x, xs) == Lagrange(x, ys)
  {
    ProdPermutation(xs, ys, (k: nat) => Reduce(k));
    ProdPermutation(xs, ys, (k: nat) => Sub(Reduce(k), Reduce(x)));
  }

  /** Negating every factor of both products leaves their quotient unchanged. */
  lemma {:induction false} CrossProducts(x: Scalar, ks: seq<nat>)
    ensures Mul(ProdOver(ks, (k: nat) => Reduce(k)), ProdOver(ks, (k: nat) => Sub(x, Reduce(k))))
         == Mul(ProdOver(ks, (k: nat) => Sub(0, Reduce(k))), ProdOver(ks, (k: nat) => Sub(Reduce(k), x)))
  {
    hide Mul, Reduce;
    if |ks| > 0 {
      var js, k := ks[..|ks| - 1], Reduce(ks[|ks| - 1]);
      CrossProducts(x, js);
      var a, d := ProdOver(js, (k: nat) => Reduce(k)), ProdOver(js, (k: nat) => Sub(x, Reduce(k)));
      var c, b := ProdOver(js, (k: nat) => Sub(0, Reduce(k))), ProdOver(js, (k: nat) => Sub(Reduce(k), x));
      Regroup(a, k, d, Sub(x, k));
      Regroup(c, Sub(0, k), b, Sub(k, x));
      MulNeg(k, Sub(k, x));
      MulNeg(k, Sub(x, k));
    }
  }

  lemma Regroup(a: Scalar, b: Scalar, c: Scalar, d: Scalar)
    ensures Mul(Mul(a, b), Mul(c, d)) == Mul(Mul(a, c), Mul(b, d))
  {
    hide Mul;
    MulAssoc(a, b, Mul(c, d));
    MulAssoc(b, c, d);
    MulComm(b, c);
    MulAssoc(c, b, d);
    MulAssoc(a, c, Mul(b, d));
  }

  lemma CrossMultiply(a: Scalar, b: Scalar, c: Scalar, d: Scalar)
    requires b != 0 && d != 0 && Mul(a, d) == Mul(c, b)
    ensures Mul(a, Inv(b)) == Mul(Inv(d), c)
  {
    hide Mul;
    var u, v := Inv(b), Inv(d);
    MulInv(b);
    MulInv(d);
    Regroup(a, u, d, v);
    Regroup(a, d, u, v);
    Regroup(c, b, v, u);
    MulComm(u, v);
    MulOne(Mul(a, u));
    MulOne(Mul(c, v));
    MulComm(c, v);
  }

  /** The polynomial that is 1 at `x` and 0 at `others`. */
  function Basis(x: nat, others: seq<nat>): (r: Poly)
    ensures |r| == |others| + 1
  {
    PolyScale(Inv(Eval(Vanish(others), Reduce(x))), Vanish(others))
  }

  lemma EvalBasis(x: nat, others: seq<nat>, y: nat)
    requires x <= 255 && y <= 255 && x !in others && forall k <- others :: k <= 255
    ensures y == x ==> Eval(Basis(x, others), Reduce(y)) == 1
    ensures y in others ==> Eval(Basis(x, others), Reduce(y)) == 0
  {
    hide Mul, Reduce;
    var w := Vanish(others);
    var wx, wy := Eval(w, Reduce(x)), Eval(w, Reduce(y));
    EvalScale(Inv(wx), w, Reduce(y));
    EvalVanish(others, Reduce(x));
    EvalVanish(others, Reduce(y));
    IndexScalar(x);
    IndexScalar(y);
    forall k | k in others ensures Reduce(k) == k { IndexScalar(k); }
    ProdNonzero(others, (k: nat) => Sub(Reduce(x), Reduce(k)));
    ProdNonzero(others, (k: nat) => Sub(Reduce(y), Reduce(k)));
    MulInv(wx);
    MulComm(wx, Inv(wx));
    MulZero(Inv(wx));
  }

  lemma BasisAtZero(x: nat, others: seq<nat>)
    requires x <= 255 && x !in others && forall k <- others :: k <= 255
    ensures Eval(Basis(x, others), 0) == Lagrange(x, others)
  {
    hide Mul, Reduce;
    var w := Vanish(others);
    var x' := Reduce(x);
    EvalScale(Inv(Eval(w, x')), w, 0);
    EvalVanish(others, x');
    EvalVanish(others, 0);
    CrossProducts(x', others);
    DenominatorNonzero(x, others);
    IndexScalar(x);
    forall k | k in others ensures Reduce(k) == k { IndexScalar(k); }
    ProdNonzero(others, (k: nat) => Sub(x', Reduce(k)));
    CrossMultiply(ProdOver(others, (k: nat) => Reduce(k)), Denominator(x, others),
                  Eval(w, 0), Eval(w, x'));
  }

  /** The Lagrange form of the interpolant through the first `n` of the points `xs`. */
  function Combine(xs: seq<nat>, n: nat, f: nat -> Scalar): Poly
    requires n <= |xs|
  {
    if n == 0 then []
    else PolyAdd(Combine(xs, n - 1, f),
                 PolyScale(f(xs[n - 1]), Basis(xs[n - 1], Without(xs, xs[n - 1]))))
  }

  lemma {:induction false} EvalCombine(xs: seq<nat>, n: nat, f: nat -> Scalar, y: Scalar)
    requires n <= |xs| && Distinct(xs)
    ensures |Combine(xs, n, f)| <= |xs|
    ensures Eval(Combine(xs, n, f), y)
         == SumOver(xs[..n], (x: nat) => Mul(f(x), Eval(Basis(x, Without(xs, x)), y)))
  {
    hide Mul, Basis;
    if n > 0 {
      var x := xs[n - 1];
      assert xs[..n][..n - 1] == xs[..n - 1];
      EvalCombine(xs, n - 1, f, y);
      WithoutMembers(xs, x);
      EvalAdd(Combine(xs, n - 1, f), PolyScale(f(x), Basis(x, Without(xs, x))), y);
      EvalScale(f(x), Basis(x, Without(xs, x)), y);
    }
  }

  lemma AroundMembers(xs: seq<nat>, k: nat)
    requires Distinct(xs) && k < |xs|
    ensures Distinct(xs[..k] + xs[k + 1..])
    ensures forall x :: x in xs[..k] + xs[k + 1..] <==> x in xs && x != xs[k]
  {
    var ys := xs[..k] + xs[k + 1..];
    forall x ensures x in ys <==> x in xs && x != xs[k] {
      if x in xs && x != xs[k] {
        var i :| 0 <= i < |xs| && xs[i] == x;
        assert ys[if i < k then i else i - 1] == x;
      }
    }
  }

  /** The Lagrange form passes through its points. */
  lemma CombineAt(xs: seq<nat>, f: nat -> Scalar, k: nat)
    requires Indices(xs) && k < |xs|
    ensures Eval(Combine(xs, |xs|, f), Reduce(xs[k])) == f(xs[k])
  {
    hide Mul, Reduce, Basis, Eval, Combine, Without;
    var y := Reduce(xs[k]);
    var g := (x: nat) => Mul(f(x), Eval(Basis(x, Without(xs, x)), y));
    EvalCombine(xs, |xs|, f, y);
    assert xs[..|xs|] == xs;
    SumRemove(xs, k, g);
    forall x | x in xs ensures g(x) == if x == xs[k] then f(x) else 0 {
      BasisTerm(xs, k, x, f(x));
    }
    AroundMembers(xs, k);
    SumZero(xs[..k] + xs[k + 1..], g);
  }

  lemma BasisTerm(xs: seq<nat>, k: nat, x: nat, c: Scalar)
    requires Indices(xs) && k < |xs| && x in xs
    ensures Mul(c, Eval(Basis(x, Without(xs, x)), Reduce(xs[k]))) == if x == xs[k] then c else 0
  {
    hide Mul, Reduce, Basis;
    WithoutMembers(xs, x);
    assert xs[k] in xs;
    EvalBasis(x, Without(xs, x), xs[k]);
    MulOne(c);
    MulZero(c);
  }

  /** Shamir reconstruction: any t distinct indices recover the value at zero of every
      polynomial of degree below t. */
  lemma Reconstruction(xs: seq<nat>, p: Poly)
    requires Indices(xs) && |p| <= |xs|
    ensures SumOver(xs, (x: nat) => Mul(Eval(p, Reduce(x)), Lagrange(x, Without(xs, x)))) == Eval(p, 0)
  {
    hide Mul, Reduce, Basis, Lagrange;
    var f := (x: nat) => Eval(p, Reduce(x));
    var c := Combine(xs, |xs|, f);
    forall x | x in xs ensures Reduce(x) == x { IndexScalar(x); }
    var ys := AsScalars(xs);
    forall y | y in ys ensures Eval(c, y) == Eval(p, y) {
      var k :| 0 <= k < |xs| && xs[k] == y;
      CombineAt(xs, f, k);
    }
    EvalCombine(xs, |xs|, f, 0);
    assert xs[..|xs|] == xs;
    Unique(c, p, ys, 0);
    forall x | x in xs ensures Eval(Basis(x, Without(xs, x)), 0) == Lagrange(x, Without(xs, x)) {
      WithoutMembers(xs, x);
      BasisAtZero(x, Without(xs, x));
    }
    SumExt(xs, (x: nat) => Mul(f(x), Eval(Basis(x, Without(xs, x)), 0)),
           (x: nat) => Mul(Eval(p, Reduce(x)), Lagrange(x, Without(xs, x))));
  }
}
