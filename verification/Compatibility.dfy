/** When a group of parties fits together: the invariant that key generation and re-keying
    establish, that refreshes and derivations keep, and from which signing succeeds. */
module Compatibility {
  import opened Scalars
  import opened Sums
  import opened Shamir
  import opened Hashes
  import opened Curve
  import opened ZeroShares
  import opened Multiplication
  import opened MulInit
  import opened Parties
  import opened KeyInit
  import opened Dkg

  /** What the parties of a group have in common: the polynomial that shares the secret key, the
      seeds of the zero shares, and the public data. */
  datatype Group = Group(parameters: Parameters, poly: Poly, seeds: SeedTable, sid: Bytes,
                         depth: nat, childNumber: nat, parentFingerprint: Bytes, chainCode: Digest)

  ghost function Secret(g: Group): Scalar {
    Eval(g.poly, 0)
  }

  ghost predicate PartyFits(party: Party, i: nat, g: Group) {
    && party.parameters == g.parameters
    && party.index == i
    && party.sid == g.sid
    && party.polyPoint == Eval(g.poly, Reduce(i))
    && party.pk == GTimes(Secret(g))
    && party.derivation == DerivData(g.depth, g.childNumber, g.parentFingerprint, party.polyPoint, party.pk, g.chainCode)
    && HoldsSeeds(party.zeroShare, i, Span(1, g.parameters.shareCount), g.seeds)
    && party.mulSenders.Keys == Others(i, g.parameters.shareCount)
    && party.mulReceivers.Keys == Others(i, g.parameters.shareCount)
  }

  ghost predicate PairsFit(parties: map<nat, Party>) {
    forall i, j :: i in parties && j in parties && i != j ==>
      && j in parties[i].mulSenders
      && i in parties[j].mulReceivers
      && MulPair(parties[i].mulSenders[j], parties[j].mulReceivers[i])
  }

  ghost predicate Compatible(parties: map<nat, Party>, g: Group) {
    && ValidParameters(g.parameters)
    && |g.poly| <= g.parameters.threshold
    && Symmetric(g.seeds)
    && (forall i :: i in parties <==> 0 < i <= g.parameters.shareCount)
    && (forall i <- parties :: PartyFits(parties[i], i, g))
    && PairsFit(parties)
  }

  /** The package lists the public key and the points of the shares of the group. */
  ghost predicate PackageFits(p: PublicKeyPackage, g: Group) {
    && p.parameters == g.parameters
    && p.verifyingKey == GTimes(Secret(g))
    && (forall i :: i in p.verifyingShares <==> 0 < i <= g.parameters.shareCount)
    && (forall i <- p.verifyingShares :: p.verifyingShares[i] == GTimes(Eval(g.poly, Reduce(i))))
  }

  function SharesOf(parties: map<nat, Party>): nat -> Scalar {
    (i: nat) => if i in parties then parties[i].polyPoint else 0
  }

  /** Any set of at least t parties reconstructs the secret key of the common public key. */
  lemma CompatibleReconstructs(parties: map<nat, Party>, g: Group, xs: seq<nat>)
    requires Compatible(parties, g)
    requires Distinct(xs) && |xs| >= g.parameters.threshold && forall x <- xs :: x in parties
    ensures Interpolated(SharesOf(parties), xs) == Secret(g)
    ensures forall i <- parties :: parties[i].pk == GTimes(Secret(g))
  {
    hide Eval, Reduce, HoldsSeeds, PairsFit, Interpolated;
    forall x | x in xs ensures SharesOf(parties)(x) == Eval(g.poly, Reduce(x)) {
      assert PartyFits(parties[x], x, g);
    }
    InterpolatedPolynomial(SharesOf(parties), xs, g.poly);
  }
}
