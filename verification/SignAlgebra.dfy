/** The algebra of the deferred inversion: what the parties' broadcasts add up to. */
module SignAlgebra {
  import opened Scalars
  import opened Sums
  import opened Shamir
  import opened ZeroShares

  type Table = (nat, nat) -> Scalar

  /** A table with its diagonal cleared. */
  function OffDiagonal(f: Table): Table {
    (i: nat, j: nat) => if i == j then 0 else f(i, j)
  }

  function Row(f: Table, i: nat): nat -> Scalar {
    (j: nat) => f(i, j)
  }

  function Column(f: Table, j: nat): nat -> Scalar {
    (i: nat) => f(i, j)
  }

  function RowSum(f: Table, xs: seq<nat>, i: nat): Scalar {
    SumOver(xs, Row(f, i))
  }

  function ColumnSum(f: Table, xs: seq<nat>, j: nat): Scalar {
    SumOver(xs, Column(f, j))
  }

  /** Rows and columns of a table have the same total. */
  lemma Totals(f: Table, xs: seq<nat>)
    ensures SumOver(xs, (i: nat) => RowSum(f, xs, i)) == SumOver(xs, (j: nat) => ColumnSum(f, xs, j))
  {
    Exchange(xs, xs, f);
    forall i | i in xs ensures RowSum(f, xs, i) == SumOver(xs, y => f(i, y)) { SumExt(xs, Row(f, i), y => f(i, y)); }
    forall j | j in xs ensures ColumnSum(f, xs, j) == SumOver(xs, x => f(x, j)) { SumExt(xs, Column(f, j), x => f(x, j)); }
    SumExt(xs, (i: nat) => RowSum(f, xs, i), x => SumOver(xs, y => f(x, y)));
    SumExt(xs, (j: nat) => ColumnSum(f, xs, j), y => SumOver(xs, x => f(x, y)));
  }

  lemma RowWithout(f: Table, xs: seq<nat>, i: nat)
    requires Distinct(xs) && i in xs
    ensures RowSum(OffDiagonal(f), xs, i) == SumOver(Without(xs, i), Row(f, i))
  {
    SumWithout(xs, i, Row(OffDiagonal(f), i));
    WithoutMembers(xs, i);
    SumExt(Without(xs, i), Row(OffDiagonal(f), i), Row(f, i));
  }

  lemma ColumnWithout(f: Table, xs: seq<nat>, j: nat)
    requires Distinct(xs) && j in xs
    ensures ColumnSum(OffDiagonal(f), xs, j) == SumOver(Without(xs, j), Column(f, j))
  {
    SumWithout(xs, j, Column(OffDiagonal(f), j));
    WithoutMembers(xs, j);
    SumExt(Without(xs, j), Column(OffDiagonal(f), j), Column(f, j));
  }

  /** What one party contributes: a_i times (phi_i plus the psi's it received) plus the outputs of
      its multiplications in both roles. */
  function Contribution(a: nat -> Scalar, phi: nat -> Scalar, chi: Table, c: Table, d: Table, xs: seq<nat>, i: nat): Scalar {
    Add(Mul(a(i), Add(phi(i), SumOver(Without(xs, i), Psi(phi, chi, i)))),
        SumOver(Without(xs, i), Both(c, d, i)))
  }

  /** psi of party j for party i. */
  function Psi(phi: nat -> Scalar, chi: Table, i: nat): nat -> Scalar {
    (j: nat) => Sub(phi(j), chi(j, i))
  }

  function Both(c: Table, d: Table, i: nat): nat -> Scalar {
    (j: nat) => Add(c(i, j), d(i, j))
  }

  /** The multiplication of sender i with receiver j: shares of chi(j, i) times a(i). */
  ghost predicate Multiplied(a: nat -> Scalar, chi: Table, c: Table, d: Table, xs: seq<nat>) {
    forall i: nat, j: nat :: i in xs && j in xs && i != j ==> Add(c(i, j), d(j, i)) == Mul(chi(j, i), a(i))
  }

  lemma FirstSum(phi: nat -> Scalar, chi: Table, xs: seq<nat>, i: nat)
    requires Distinct(xs) && i in xs
    ensures Add(phi(i), SumOver(Without(xs, i), Psi(phi, chi, i)))
         == Sub(SumOver(xs, phi), ColumnSum(OffDiagonal(chi), xs, i))
  {
    SumSub(Without(xs, i), phi, Column(chi, i), Psi(phi, chi, i));
    ColumnWithout(chi, xs, i);
    SumWithout(xs, i, phi);
  }

  /** a_i times the chi's of its receivers is the total of the shares of both sides. */
  lemma ProductSum(a: nat -> Scalar, chi: Table, c: Table, d: Table, xs: seq<nat>, i: nat)
    requires Multiplied(a, chi, c, d, xs) && i in xs
    ensures Mul(a(i), ColumnSum(OffDiagonal(chi), xs, i))
         == Add(RowSum(OffDiagonal(c), xs, i), ColumnSum(OffDiagonal(d), xs, i))
  {
    hide Mul;
    var products := (j: nat) => Mul(a(i), OffDiagonal(chi)(j, i));
    SumScale(xs, a(i), Column(OffDiagonal(chi), i), products);
    forall j | j in xs ensures products(j) == Add(Row(OffDiagonal(c), i)(j), Column(OffDiagonal(d), i)(j)) {
      MulZero(a(i));
      MulComm(a(i), chi(j, i));
    }
    SumAdd(xs, Row(OffDiagonal(c), i), Column(OffDiagonal(d), i), products);
  }

  lemma OneContribution(a: nat -> Scalar, phi: nat -> Scalar, chi: Table, c: Table, d: Table, xs: seq<nat>, i: nat)
    requires Multiplied(a, chi, c, d, xs) && Distinct(xs) && i in xs
    ensures Contribution(a, phi, chi, c, d, xs, i)
         == Add(Mul(a(i), SumOver(xs, phi)), Sub(RowSum(OffDiagonal(d), xs, i), ColumnSum(OffDiagonal(d), xs, i)))
  {
    hide Mul, Multiplied, RowSum, ColumnSum, OffDiagonal, SumOver, Without;
    FirstSum(phi, chi, xs, i);
    MulSub(a(i), SumOver(xs, phi), ColumnSum(OffDiagonal(chi), xs, i));
    ProductSum(a, chi, c, d, xs, i);
    SumAdd(Without(xs, i), Row(c, i), Row(d, i), Both(c, d, i));
    RowWithout(c, xs, i);
    RowWithout(d, xs, i);
    Cancelling(Mul(a(i), SumOver(xs, phi)), RowSum(OffDiagonal(c), xs, i), ColumnSum(OffDiagonal(d), xs, i),
               RowSum(OffDiagonal(d), xs, i));
  }

  lemma Cancelling(p: Scalar, c: Scalar, dc: Scalar, dr: Scalar)
    ensures Add(Sub(p, Add(c, dc)), Add(c, dr)) == Add(p, Sub(dr, dc))
  {}

  /** The contributions add up to the product of the two sums: every cross term that one party adds,
      another takes away. */
  lemma ContributionsSum(a: nat -> Scalar, phi: nat -> Scalar, chi: Table, c: Table, d: Table, xs: seq<nat>)
    requires Multiplied(a, chi, c, d, xs) && Distinct(xs)
    ensures SumOver(xs, (i: nat) => Contribution(a, phi, chi, c, d, xs, i)) == Mul(SumOver(xs, a), SumOver(xs, phi))
  {
    hide Mul, Multiplied, Contribution;
    var total := SumOver(xs, phi);
    var scaled := (i: nat) => Mul(total, a(i));
    var rows, columns := (i: nat) => RowSum(OffDiagonal(d), xs, i), (j: nat) => ColumnSum(OffDiagonal(d), xs, j);
    var crossed := (i: nat) => Sub(rows(i), columns(i));
    var all := (i: nat) => Contribution(a, phi, chi, c, d, xs, i);
    forall i | i in xs ensures all(i) == Add(scaled(i), crossed(i)) {
      OneContribution(a, phi, chi, c, d, xs, i);
      MulComm(a(i), total);
    }
    SumAdd(xs, scaled, crossed, all);
    SumScale(xs, total, a, scaled);
    SumSub(xs, rows, columns, crossed);
    Totals(OffDiagonal(d), xs);
    MulComm(total, SumOver(xs, a));
  }
}
