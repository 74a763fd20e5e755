/** Finite sums and products of scalars over sequences of party indices. */
module Sums {
  import opened Scalars

  function SumOver(xs: seq<nat>, f: nat -> Scalar): Scalar {
    if |xs| == 0 then 0 else Add(SumOver(xs[..|xs| - 1], f), f(xs[|xs| - 1]))
  }

  function ProdOver(xs: seq<nat>, f: nat -> Scalar): Scalar {
    if |xs| == 0 then 1 else Mul(ProdOver(xs[..|xs| - 1], f), f(xs[|xs| - 1]))
  }

  predicate Distinct(xs: seq<nat>) {
    forall i, j :: 0 <= i < j < |xs| ==> xs[i] != xs[j]
  }

  lemma {:induction false} SumExt(xs: seq<nat>, f: nat -> Scalar, g: nat -> Scalar)
    requires forall x <- xs :: f(x) == g(x)
    ensures SumOver(xs, f) == SumOver(xs, g)
  {
    if |xs| > 0 { SumExt(xs[..|xs| - 1], f, g); }
  }

  lemma {:induction false} SumAdd(xs: seq<nat>, f: nat -> Scalar, g: nat -> Scalar, h: nat -> Scalar)
    requires forall x <- xs :: h(x) == Add(f(x), g(x))
    ensures SumOver(xs, h) == Add(SumOver(xs, f), SumOver(xs, g))
  {
    if |xs| > 0 { SumAdd(xs[..|xs| - 1], f, g, h); }
  }

  lemma {:induction false} SumSub(xs: seq<nat>, f: nat -> Scalar, g: nat -> Scalar, h: nat -> Scalar)
    requires forall x <- xs :: h(x) == Sub(f(x), g(x))
    ensures SumOver(xs, h) == Sub(SumOver(xs, f), SumOver(xs, g))
  {
    if |xs| > 0 { SumSub(xs[..|xs| - 1], f, g, h); }
  }

  lemma {:induction false} SumScale(xs: seq<nat>, c: Scalar, f: nat -> Scalar, h: nat -> Scalar)
    requires forall x <- xs :: h(x) == Mul(c, f(x))
    ensures SumOver(xs, h) == Mul(c, SumOver(xs, f))
  {
    if |xs| == 0 {
      MulZero(c);
    } else {
      hide Mul;
      var ys := xs[..|xs| - 1];
      SumScale(ys, c, f, h);
      MulAdd(c, SumOver(ys, f), f(xs[|xs| - 1]));
    }
  }

  lemma {:induction false} SumZero(xs: seq<nat>, f: nat -> Scalar)
    requires forall x <- xs :: f(x) == 0
    ensures SumOver(xs, f) == 0
  {
    if |xs| > 0 { SumZero(xs[..|xs| - 1], f); }
  }

  lemma {:induction false} SumConcat(xs: seq<nat>, ys: seq<nat>, f: nat -> Scalar)
    ensures SumOver(xs + ys, f) == Add(SumOver(xs, f), SumOver(ys, f))
  {
    if |ys| == 0 {
      assert xs + ys == xs;
    } else {
      var zs := ys[..|ys| - 1];
      assert (xs + ys)[..|xs + ys| - 1] == xs + zs;
      SumConcat(xs, zs, f);
    }
  }

  /** A double sum over a rectangle may be taken in either order. */
  lemma {:induction false} Exchange(xs: seq<nat>, ys: seq<nat>, f: (nat, nat) -> Scalar)
    ensures SumOver(xs, x => SumOver(ys, y => f(x, y))) == SumOver(ys, y => SumOver(xs, x => f(x, y)))
  {
    if |xs| == 0 {
      SumZero(ys, y => SumOver(xs, x => f(x, y)));
    } else {
      var zs, x0 := xs[..|xs| - 1], xs[|xs| - 1];
      Exchange(zs, ys, f);
      SumAdd(ys, y => SumOver(zs, x => f(x, y)), y => f(x0, y), y => SumOver(xs, x => f(x, y)));
    }
  }

  lemma {:induction false} SumRemove(xs: seq<nat>, k: nat, f: nat -> Scalar)
    requires k < |xs|
    ensures SumOver(xs, f) == Add(SumOver(xs[..k] + xs[k + 1..], f), f(xs[k]))
  {
    assert xs == xs[..k + 1] + xs[k + 1..];
    SumConcat(xs[..k + 1], xs[k + 1..], f);
    assert xs[..k + 1][..k] == xs[..k];
    SumConcat(xs[..k], xs[k + 1..], f);
  }

  /** Where the last member of `xs` sits in a rearrangement `ys` of it. */
  lemma Locate(xs: seq<nat>, ys: seq<nat>) returns (k: nat)
    requires |xs| > 0 && multiset(xs) == multiset(ys)
    ensures k < |ys| && ys[k] == xs[|xs| - 1]
    ensures multiset(xs[..|xs| - 1]) == multiset(ys[..k] + ys[k + 1..])
  {
    var zs, x0 := xs[..|xs| - 1], xs[|xs| - 1];
    assert xs == zs + [x0];
    assert x0 in multiset(xs);
    k :| 0 <= k < |ys| && ys[k] == x0;
    assert ys == ys[..k] + [x0] + ys[k + 1..];
    assert multiset(zs) == multiset(xs) - multiset{x0};
  }

  /** A sum does not depend on the order of its terms. */
  lemma {:induction false} SumPermutation(xs: seq<nat>, ys: seq<nat>, f: nat -> Scalar)
    requires multiset(xs) == multiset(ys)
    ensures SumOver(xs, f) == SumOver(ys, f)
  {
    if |xs| == 0 {
      assert |multiset(ys)| == 0;
    } else {
      var k := Locate(xs, ys);
      SumPermutation(xs[..|xs| - 1], ys[..k] + ys[k + 1..], f);
      SumRemove(ys, k, f);
    }
  }

  lemma {:induction false} ProdConcat(xs: seq<nat>, ys: seq<nat>, f: nat -> Scalar)
    ensures ProdOver(xs + ys, f) == Mul(ProdOver(xs, f), ProdOver(ys, f))
  {
    hide Mul;
    if |ys| == 0 {
      assert xs + ys == xs;
      MulOne(ProdOver(xs, f));
    } else {
      var zs := ys[..|ys| - 1];
      assert (xs + ys)[..|xs + ys| - 1] == xs + zs;
      ProdConcat(xs, zs, f);
      MulAssoc(ProdOver(xs, f), ProdOver(zs, f), f(ys[|ys| - 1]));
    }
  }

  lemma {:induction false} ProdRemove(xs: seq<nat>, k: nat, f: nat -> Scalar)
    requires k < |xs|
    ensures ProdOver(xs, f) == Mul(ProdOver(xs[..k] + xs[k + 1..], f), f(xs[k]))
  {
    hide Mul;
    var a, b, c := ProdOver(xs[..k], f), f(xs[k]), ProdOver(xs[k + 1..], f);
    assert xs == xs[..k + 1] + xs[k + 1..];
    ProdConcat(xs[..k + 1], xs[k + 1..], f);
    assert xs[..k + 1][..k] == xs[..k];
    ProdConcat(xs[..k], xs[k + 1..], f);
    MulAssoc(a, b, c);
    MulAssoc(a, c, b);
    MulComm(b, c);
  }

  lemma {:induction false} ProdPermutation(xs: seq<nat>, ys: seq<nat>, f: nat -> Scalar)
    requires multiset(xs) == multiset(ys)
    ensures ProdOver(xs, f) == ProdOver(ys, f)
  {
    if |xs| == 0 {
      assert |multiset(ys)| == 0;
    } else {
      var k := Locate(xs, ys);
      ProdPermutation(xs[..|xs| - 1], ys[..k] + ys[k + 1..], f);
      ProdRemove(ys, k, f);
    }
  }

  lemma {:induction false} ProdNonzero(xs: seq<nat>, f: nat -> Scalar)
    ensures ProdOver(xs, f) != 0 <==> forall x <- xs :: f(x) != 0
  {
    hide Mul;
    if |xs| > 0 {
      var ys, x0 := xs[..|xs| - 1], xs[|xs| - 1];
      assert xs == ys + [x0];
      ProdNonzero(ys, f);
      NoZeroDivisors(ProdOver(ys, f), f(x0));
    }
  }

  /** Two lists without repetitions and with the same members are permutations of each other. */
  lemma {:induction false} SameMembers(xs: seq<nat>, ys: seq<nat>)
    requires Distinct(xs) && Distinct(ys)
    requires forall x :: x in xs <==> x in ys
    ensures multiset(xs) == multiset(ys)
  {
    DistinctMultiset(xs);
    DistinctMultiset(ys);
  }

  lemma {:induction false} DistinctMultiset(xs: seq<nat>)
    requires Distinct(xs)
    ensures forall x :: multiset(xs)[x] == if x in xs then 1 else 0
  {
    if |xs| > 0 {
      var ys, x0 := xs[..|xs| - 1], xs[|xs| - 1];
      assert xs == ys + [x0];
      DistinctMultiset(ys);
    }
  }
}
