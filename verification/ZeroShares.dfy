/** Zero shares: pairwise seeds from which every set of signers derives shares of zero. */
module ZeroShares {
  import opened Scalars
  import opened Sums
  import opened Shamir
  import opened Bits
  import opened Hashes
  import opened Oracles

  function Commit(msg: Bytes, salt: Bytes): Digest {
    TaggedHash(TAG_COMMITMENT, [salt, msg])
  }

  predicate VerifyCommitment(msg: Bytes, commitment: Digest, salt: Bytes) {
    commitment == Commit(msg, salt)
  }

  datatype SeedPair = SeedPair(lowest: bool, counterparty: nat, seed: Digest)

  /** The loop that combines two arrays of 32 bytes: seeds here, chain codes and OT seeds elsewhere. */
  method XorDigests(a: Digest, b: Digest) returns (r: Digest)
    ensures r == Xor(a, b)
  {
    var bytes: Bytes := [];
    for j := 0 to SECURITY
      invariant |bytes| == j
      invariant forall k :: 0 <= k < j ==> bytes[k] == a[k] ^ b[k]
    {
      bytes := bytes + [a[j] ^ b[j]];
    }
    r := bytes;
    assert r == Xor(a, b);
  }

  method GenerateSeedPair(party: nat, counterparty: nat, seedParty: Digest, seedCounterparty: Digest)
    returns (pair: SeedPair)
    ensures pair == SeedPair(party <= counterparty, counterparty, Xor(seedParty, seedCounterparty))
  {
    var seed := XorDigests(seedParty, seedCounterparty);
    pair := SeedPair(party <= counterparty, counterparty, seed);
  }

  function Fragment(sid: Bytes, seed: Digest): Scalar {
    TaggedScalar(TAG_ZERO_SHARE_FRAGMENT, [sid, seed])
  }

  function Signed(pair: SeedPair, sid: Bytes): Scalar {
    if pair.lowest then Neg(Fragment(sid, pair.seed)) else Fragment(sid, pair.seed)
  }

  function Compute(pairs: seq<SeedPair>, counterparties: seq<nat>, sid: Bytes): Scalar {
    if |pairs| == 0 then 0
    else
      var rest := Compute(pairs[..|pairs| - 1], counterparties, sid);
      var pair := pairs[|pairs| - 1];
      if pair.counterparty in counterparties then Add(rest, Signed(pair, sid)) else rest
  }

  method ComputeShare(pairs: seq<SeedPair>, counterparties: seq<nat>, sid: Bytes) returns (share: Scalar)
    ensures share == Compute(pairs, counterparties, sid)
  {
    hide Fragment;
    share := 0;
    for i := 0 to |pairs|
      invariant share == Compute(pairs[..i], counterparties, sid)
    {
      var pair := pairs[i];
      assert pairs[..i + 1][..i] == pairs[..i];
      if pair.counterparty !in counterparties {
        continue;
      }
      var fragment := Fragment(sid, pair.seed);
      if pair.lowest {
        share := Sub(share, fragment);
      } else {
        share := Add(share, fragment);
      }
    }
    assert pairs[..|pairs|] == pairs;
  }

  // Shares of zero

  type SeedTable = (nat, nat) -> Digest

  ghost predicate Symmetric(table: SeedTable) {
    forall i: nat, j: nat :: table(i, j) == table(j, i)
  }

  /** The pairs of party i: one for every other party, in any order, with the seed of the table. */
  ghost predicate HoldsSeeds(pairs: seq<SeedPair>, i: nat, all: seq<nat>, table: SeedTable) {
    && (forall k :: 0 <= k < |pairs| ==> pairs[k] == SeedPair(i <= pairs[k].counterparty, pairs[k].counterparty,
                                                             table(i, pairs[k].counterparty)))
    && Distinct(Counterparties(pairs))
    && (forall j :: j in Counterparties(pairs) <==> j in all && j != i)
  }

  function Counterparties(pairs: seq<SeedPair>): (js: seq<nat>)
    ensures |js| == |pairs|
  {
    seq(|pairs|, k requires 0 <= k < |pairs| => pairs[k].counterparty)
  }

  /** What the seed of the pair (i, j) contributes to the share of i. */
  ghost function Contribution(table: SeedTable, sid: Bytes, i: nat, j: nat): Scalar {
    if i == j then 0 else Signed(SeedPair(i <= j, j, table(i, j)), sid)
  }

  ghost function Masked(f: nat -> Scalar, xs: seq<nat>): nat -> Scalar {
    (j: nat) => if j in xs then f(j) else 0
  }

  /** A sum restricted to a part of its index list is the sum over that part. */
  lemma {:induction false} SumRestrict(ys: seq<nat>, xs: seq<nat>, f: nat -> Scalar)
    requires Distinct(ys) && Distinct(xs) && forall j :: j in xs ==> j in ys
    ensures SumOver(ys, Masked(f, xs)) == SumOver(xs, f)
    decreases |ys|
  {
    assert |xs| > 0 ==> xs[0] in ys;
    if |ys| > 0 {
      var zs, y := ys[..|ys| - 1], ys[|ys| - 1];
      assert ys == zs + [y];
      WithoutMembers(xs, y);
      var xs' := Without(xs, y);
      SumRestrict(zs, xs', f);
      SumExt(zs, Masked(f, xs'), Masked(f, xs));
      if y in xs {
        var k :| 0 <= k < |xs| && xs[k] == y;
        RestrictStep(xs, k);
        SumRemove(xs, k, f);
        SumPermutation(xs', xs[..k] + xs[k + 1..], f);
      } else {
        SameMembers(xs, xs');
        SumPermutation(xs', xs, f);
      }
    }
  }

  lemma RestrictStep(xs: seq<nat>, k: nat)
    requires Distinct(xs) && k < |xs|
    ensures multiset(Without(xs, xs[k])) == multiset(xs[..k] + xs[k + 1..])
  {
    hide Without, Distinct;
    WithoutMembers(xs, xs[k]);
    AroundMembers(xs, k);
    SameMembers(Without(xs, xs[k]), xs[..k] + xs[k + 1..]);
  }

  lemma {:induction false} ComputeIsSum(pairs: seq<SeedPair>, cps: seq<nat>, sid: Bytes, f: nat -> Scalar)
    requires forall k :: 0 <= k < |pairs| ==> f(pairs[k].counterparty) == Signed(pairs[k], sid)
    ensures Compute(pairs, cps, sid) == SumOver(Counterparties(pairs), Masked(f, cps))
    decreases |pairs|
  {
    hide Signed;
    if |pairs| > 0 {
      var n := |pairs| - 1;
      ComputeIsSum(pairs[..n], cps, sid, f);
      assert Counterparties(pairs)[..n] == Counterparties(pairs[..n]);
    }
  }

  /** The share of party i is the sum of its contributions over the signers. */
  lemma ShareIsSum(pairs: seq<SeedPair>, i: nat, all: seq<nat>, table: SeedTable, xs: seq<nat>, sid: Bytes)
    requires HoldsSeeds(pairs, i, all, table)
    requires Distinct(xs) && i in xs && forall j :: j in xs ==> j in all
    ensures Compute(pairs, Without(xs, i), sid) == SumOver(xs, (j: nat) => Contribution(table, sid, i, j))
  {
    hide Signed, Compute, SumOver, Without, Masked;
    var f := (j: nat) => Contribution(table, sid, i, j);
    WithoutMembers(xs, i);
    forall k | 0 <= k < |pairs| ensures f(pairs[k].counterparty) == Signed(pairs[k], sid) {
      assert Counterparties(pairs)[k] == pairs[k].counterparty;
    }
    ComputeIsSum(pairs, Without(xs, i), sid, f);
    hide HoldsSeeds;
    SumRestrict(Counterparties(pairs), Without(xs, i), f);
    SumWithout(xs, i, f);
  }

  /** One term taken out of a sum. */
  lemma SumWithout(xs: seq<nat>, i: nat, f: nat -> Scalar)
    requires Distinct(xs) && i in xs
    ensures SumOver(xs, f) == Add(SumOver(Without(xs, i), f), f(i))
  {
    var k :| 0 <= k < |xs| && xs[k] == i;
    RestrictStep(xs, k);
    SumRemove(xs, k, f);
    SumPermutation(Without(xs, i), xs[..k] + xs[k + 1..], f);
  }

  lemma {:induction false} SumNeg(xs: seq<nat>, f: nat -> Scalar, g: nat -> Scalar)
    requires forall x <- xs :: g(x) == Neg(f(x))
    ensures SumOver(xs, g) == Neg(SumOver(xs, f))
  {
    if |xs| > 0 { SumNeg(xs[..|xs| - 1], f, g); }
  }

  lemma OwnNegative(s: Scalar)
    requires s == Neg(s)
    ensures s == 0
  {
    assert Q % 2 == 1;
  }

  /** An antisymmetric double sum vanishes. */
  lemma Antisymmetric(xs: seq<nat>, g: (nat, nat) -> Scalar)
    requires forall i: nat, j: nat :: g(i, j) == Neg(g(j, i))
    ensures SumOver(xs, (i: nat) => SumOver(xs, (j: nat) => g(i, j))) == 0
  {
    var rows := (i: nat) => SumOver(xs, (j: nat) => g(i, j));
    var columns := (j: nat) => SumOver(xs, (i: nat) => g(i, j));
    Exchange(xs, xs, g);
    forall j: nat ensures columns(j) == Neg(rows(j)) {
      SumNeg(xs, (i: nat) => g(j, i), (i: nat) => g(i, j));
    }
    SumNeg(xs, rows, columns);
    SumExt(xs, rows, x => SumOver(xs, y => g(x, y)));
    SumExt(xs, columns, y => SumOver(xs, x => g(x, y)));
    OwnNegative(SumOver(xs, rows));
  }

  /** For every set of signers and every session, the shares of the signers add up to zero. */
  lemma SharesOfZero(share: nat -> seq<SeedPair>, all: seq<nat>, table: SeedTable, xs: seq<nat>, sid: Bytes)
    requires Symmetric(table)
    requires forall i <- xs :: HoldsSeeds(share(i), i, all, table)
    requires Distinct(xs) && forall i <- xs :: i in all
    ensures SumOver(xs, (i: nat) => Compute(share(i), Without(xs, i), sid)) == 0
  {
    hide Compute, Fragment, HoldsSeeds;
    var g := (i: nat, j: nat) => Contribution(table, sid, i, j);
    forall i: nat, j: nat ensures g(i, j) == Neg(g(j, i)) {}
    Antisymmetric(xs, g);
    forall i | i in xs ensures Compute(share(i), Without(xs, i), sid) == SumOver(xs, (j: nat) => g(i, j)) {
      ShareIsSum(share(i), i, all, table, xs, sid);
      SumExt(xs, (j: nat) => Contribution(table, sid, i, j), (j: nat) => g(i, j));
    }
    SumExt(xs, (i: nat) => Compute(share(i), Without(xs, i), sid), (i: nat) => SumOver(xs, (j: nat) => g(i, j)));
  }

  /** Only the members of the list of counterparties matter. */
  lemma {:induction false} ComputeMembers(pairs: seq<SeedPair>, cps: seq<nat>, cps': seq<nat>, sid: Bytes)
    requires forall j :: j in cps <==> j in cps'
    ensures Compute(pairs, cps, sid) == Compute(pairs, cps', sid)
    decreases |pairs|
  {
    hide Signed;
    if |pairs| > 0 { ComputeMembers(pairs[..|pairs| - 1], cps, cps', sid); }
  }
}
