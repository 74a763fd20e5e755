/** What accepted corrections do to shares, and the refresh of a whole group by honest parties. */
module RefreshRun {
  import opened Scalars
  import opened Sums
  import opened Shamir
  import opened Results
  import opened Hashes
  import opened Curve
  import opened ZeroShares
  import opened OtExtension
  import opened Multiplication
  import opened MulInit
  import opened Parties
  import opened Routing
  import opened KeyInit
  import opened Dkg
  import opened DkgPhases
  import opened DkgRun
  import opened Compatibility
  import opened Refresh

  // Whoever dealt the corrections

  /** If a party accepts and the committed points match the corrections, then the corrections of the
      parties up to 254 are values of a polynomial of degree below t with zero constant term. (With
      threshold 255 nothing is checked, see below.) */
  lemma CorrectionsShareZero(party: Party, sid: Bytes, pcs: seq<ProofCommitment>, corrections: nat -> Scalar)
    returns (c: Poly)
    requires ValidParameters(party.parameters) && party.parameters.threshold < MAX_INDEX
    requires CheckCorrections(party, sid, pcs).Ok?
    requires forall i: nat :: 0 < i <= party.parameters.shareCount && i in PointsOf(pcs) ==>
      PointsOf(pcs)[i] == GTimes(corrections(i))
    ensures |c| == party.parameters.threshold && Eval(c, 0) == 0
    ensures forall i: nat :: 0 < i <= party.parameters.shareCount && i < MAX_INDEX ==> corrections(i) == Eval(c, Reduce(i))
  {
    hide Eval, Reduce, PointsOf, FirstRejected, CheckWindows;
    var params := party.parameters;
    var n, t := params.shareCount, params.threshold;
    if n < MAX_INDEX {
      c := PolynomialThrough(PointsOf(pcs), t, n - t + 1);
    } else {
      LastWindowWraps(params, party.index, sid, pcs);
      c :| |c| == t && OnPolynomial(PointsOf(pcs), c, MAX_INDEX - 1) && Eval(c, 0) == 0;
    }
  }

  lemma SumOfPolynomials(p: Poly, c: Poly, shares: nat -> Scalar, corrections: nat -> Scalar, xs: seq<nat>)
    requires Indices(xs) && |p| <= |xs| && |c| <= |xs| && Eval(c, 0) == 0
    requires forall x <- xs :: shares(x) == Eval(p, Reduce(x)) && corrections(x) == Eval(c, Reduce(x))
    ensures Interpolated((i: nat) => Add(shares(i), corrections(i)), xs) == Eval(p, 0)
  {
    hide Eval, Reduce, Interpolated;
    EvalAdd(p, c, 0);
    var f := (i: nat) => Add(shares(i), corrections(i));
    forall x | x in xs ensures f(x) == Eval(PolyAdd(p, c), Reduce(x)) { EvalAdd(p, c, Reduce(x)); }
    InterpolatedPolynomial(f, xs, PolyAdd(p, c));
  }

  /** Corrected shares of a polynomial are shares of a polynomial with the same secret, so any t of
      them still reconstruct it. */
  lemma RefreshKeepsSecret(party: Party, sid: Bytes, pcs: seq<ProofCommitment>, corrections: nat -> Scalar,
                           p: Poly, shares: nat -> Scalar, xs: seq<nat>)
    requires ValidParameters(party.parameters) && party.parameters.threshold < MAX_INDEX
    requires CheckCorrections(party, sid, pcs).Ok?
    requires forall i: nat :: 0 < i <= party.parameters.shareCount && i in PointsOf(pcs) ==>
      PointsOf(pcs)[i] == GTimes(corrections(i))
    requires |p| <= party.parameters.threshold
    requires forall i: nat :: 0 < i <= party.parameters.shareCount ==> shares(i) == Eval(p, Reduce(i))
    requires Distinct(xs) && |xs| >= party.parameters.threshold
    requires forall x <- xs :: 0 < x <= party.parameters.shareCount && x < MAX_INDEX
    ensures Interpolated((i: nat) => Add(shares(i), corrections(i)), xs) == Eval(p, 0)
  {
    hide Eval, Reduce, PointsOf, CheckCorrections, Interpolated;
    var c := CorrectionsShareZero(party, sid, pcs, corrections);
    SumOfPolynomials(p, c, shares, corrections, xs);
  }

  // 255 parties

  lemma LagrangeNonzero(x: nat, others: seq<nat>)
    requires x <= 255 && x !in others && forall k <- others :: 0 < k <= 255
    ensures Lagrange(x, others) != 0
  {
    hide Mul, Inv;
    forall k | k in others ensures Reduce(k) != 0 { IndexScalar(k); }
    hide Reduce;
    ProdNonzero(others, (k: nat) => Reduce(k));
    DenominatorNonzero(x, others);
    InvNonzero(Denominator(x, others));
    NoZeroDivisors(ProdOver(others, (k: nat) => Reduce(k)), Inv(Denominator(x, others)));
  }

  /** A single value decides what is reconstructed. */
  lemma OneValueMatters(f: nat -> Scalar, f': nat -> Scalar, xs: seq<nat>, i: nat)
    requires Indices(xs) && i in xs && forall x <- xs :: 0 < x && (x != i ==> f(x) == f'(x))
    ensures Interpolated(f, xs) == Interpolated(f', xs) <==> f(i) == f'(i)
  {
    hide Mul, Lagrange;
    var others := Without(xs, i);
    WithoutMembers(xs, i);
    SumWithout(xs, i, Weighted(f, xs));
    SumWithout(xs, i, Weighted(f', xs));
    SumExt(others, Weighted(f, xs), Weighted(f', xs));
    var l := Lagrange(i, others);
    LagrangeNonzero(i, others);
    MulComm(f(i), l);
    MulComm(f'(i), l);
    if Mul(l, f(i)) == Mul(l, f'(i)) { Cancel(l, f(i), f'(i)); }
  }

  /** With 255 parties and t below 255 the correction of party 255 is not checked: shares that include
      its own reconstruct the secret exactly when that correction happens to lie on the polynomial of
      the others. */
  lemma LastCorrectionUnchecked(party: Party, sid: Bytes, pcs: seq<ProofCommitment>, corrections: nat -> Scalar,
                                p: Poly, shares: nat -> Scalar, xs: seq<nat>) returns (c: Poly)
    requires ValidParameters(party.parameters) && party.parameters.threshold < party.parameters.shareCount == MAX_INDEX
    requires CheckCorrections(party, sid, pcs).Ok?
    requires forall i: nat :: 0 < i <= MAX_INDEX && i in PointsOf(pcs) ==> PointsOf(pcs)[i] == GTimes(corrections(i))
    requires |p| <= party.parameters.threshold
    requires forall i: nat :: 0 < i <= MAX_INDEX ==> shares(i) == Eval(p, Reduce(i))
    requires Distinct(xs) && |xs| >= party.parameters.threshold
    requires MAX_INDEX in xs && forall x <- xs :: 0 < x <= MAX_INDEX
    ensures |c| == party.parameters.threshold && Eval(c, 0) == 0
    ensures forall i: nat :: 0 < i < MAX_INDEX ==> corrections(i) == Eval(c, Reduce(i))
    ensures Interpolated((i: nat) => Add(shares(i), corrections(i)), xs) == Eval(p, 0)
       <==> corrections(MAX_INDEX) == Eval(c, Reduce(MAX_INDEX))
  {
    hide Eval, Reduce, PointsOf, CheckCorrections, Interpolated;
    c := CorrectionsShareZero(party, sid, pcs, corrections);
    var onC := (i: nat) => Eval(c, Reduce(i));
    SumOfPolynomials(p, c, shares, onC, xs);
    OneValueMatters((i: nat) => Add(shares(i), corrections(i)), (i: nat) => Add(shares(i), onC(i)), xs, MAX_INDEX);
  }

  /** The acceptance of corrections at 255 parties: below threshold 255 the first 254 points must share
      zero; at threshold 255 any points will do. */
  lemma CorrectionsAt255(party: Party, sid: Bytes, pcs: seq<ProofCommitment>)
    requires ValidParameters(party.parameters) && party.parameters.shareCount == MAX_INDEX
    ensures CheckCorrections(party, sid, pcs) == Ok(())
       <==> && FirstRejected(party.index, sid, pcs) == None
            && (party.parameters.threshold < MAX_INDEX ==>
                  exists c: Poly :: |c| == party.parameters.threshold && OnPolynomial(PointsOf(pcs), c, MAX_INDEX - 1)
                                    && Eval(c, 0) == 0)
  {
    hide Eval, PointsOf, FirstRejected, Step5Result, OnPolynomial;
    var params := party.parameters;
    if params.threshold < MAX_INDEX {
      LastWindowWraps(params, party.index, sid, pcs);
    } else {
      FullThresholdUnchecked(params, party.index, sid, pcs);
      Step5Errors(params, party.index, sid, pcs);
    }
  }

  // Honest parties

  ghost predicate ConstantsZero(secrets: Dealing, n: nat) {
    forall i: nat :: 0 < i <= n ==> |secrets(i).poly| > 0 && secrets(i).poly[0] == 0
  }

  lemma {:induction false} ZeroSum(ps: seq<Poly>)
    requires forall k :: 0 <= k < |ps| ==> Eval(ps[k], 0) == 0
    ensures Eval(SumPoly(ps), 0) == 0
    decreases |ps|
  {
    hide Eval;
    if |ps| == 0 {
      EvalEmpty(0);
    } else {
      ZeroSum(ps[..|ps| - 1]);
      EvalAdd(SumPoly(ps[..|ps| - 1]), ps[|ps| - 1], 0);
    }
  }

  lemma JointZero(secrets: Dealing, n: nat)
    requires ConstantsZero(secrets, n)
    ensures Eval(Joint(secrets, n), 0) == 0
  {
    forall k | 0 <= k < n ensures Eval(Polys(secrets, n)[k], 0) == 0 { EvalAtZero(secrets(k + 1).poly); }
    hide Eval;
    ZeroSum(Polys(secrets, n));
  }

  /** The group after a refresh. */
  ghost function RefreshedGroup(g: Group, secrets: Dealing, sid: Bytes): Group {
    g.(poly := PolyAdd(g.poly, Joint(secrets, g.parameters.shareCount)), seeds := TableOf(secrets), sid := sid)
  }

  ghost predicate RefreshHonest(g: Group, secrets: Dealing, sid: Bytes) {
    var n := g.parameters.shareCount;
    && Degrees(secrets, g.parameters)
    && ConstantsZero(secrets, n)
    && ProofsHonest(secrets, n, sid)
    && forall i: nat :: 0 < i <= n ==> !TrivialShare(Eval(RefreshedGroup(g, secrets, sid).poly, Reduce(i)))
  }

  lemma HonestCorrections(party: Party, i: nat, g: Group, secrets: Dealing, sid: Bytes, pcs: seq<ProofCommitment>)
    requires ValidParameters(g.parameters) && PartyFits(party, i, g) && RefreshHonest(g, secrets, sid)
    requires AllProofs(secrets, g.parameters.shareCount, sid, pcs)
    ensures CheckCorrections(party, sid, pcs) == Ok(())
  {
    hide Step5Result, ProofsHonest, AllProofs, Eval, HoldsSeeds, Joint, OnPolynomial, SharesProved, FirstRejected, PointsOf;
    var params := g.parameters;
    var n := params.shareCount;
    JointZero(secrets, n);
    if n < MAX_INDEX {
      HonestStep5(secrets, params, sid, i, pcs);
    } else {
      JointDegree(secrets, params);
      ProofsPoints(secrets, n, sid);
      PointsJoint(secrets, n, sid, pcs);
      NoneRejected(secrets, n, sid, i, pcs);
      FewerPoints(PointsOf(pcs), Joint(secrets, n), n);
      CorrectionsAt255(party, sid, pcs);
    }
  }

  lemma FewerPoints(points: map<nat, Point>, p: Poly, n: nat)
    requires n > 0 && OnPolynomial(points, p, n)
    ensures OnPolynomial(points, p, n - 1)
  {
    hide Eval, Reduce;
  }

  /** The refreshed party fits the refreshed group, whatever its multiplication data. */
  lemma RefreshedFits(party: Party, i: nat, g: Group, secrets: Dealing, sid: Bytes, seeds: seq<SeedPair>, maps: MulMaps)
    requires ValidParameters(g.parameters) && PartyFits(party, i, g) && RefreshHonest(g, secrets, sid)
    requires 0 < i <= g.parameters.shareCount
    requires HoldsSeeds(seeds, i, Span(1, g.parameters.shareCount), TableOf(secrets))
    requires maps.0.Keys == maps.1.Keys == Others(i, g.parameters.shareCount)
    ensures var r := Refreshed(party, sid, ShareOf(secrets, g.parameters.shareCount, i), seeds, maps);
            && r.Ok?
            && PartyFits(r.value, i, RefreshedGroup(g, secrets, sid))
            && r.value.mulSenders == maps.0 && r.value.mulReceivers == maps.1
  {
    hide ProofsHonest, Eval, HoldsSeeds, Reduce, Joint, ShareOf, TableOf;
    var n := g.parameters.shareCount;
    JointZero(secrets, n);
    ShareIsValue(secrets, n, i);
    EvalAdd(g.poly, Joint(secrets, n), Reduce(i));
    EvalAdd(g.poly, Joint(secrets, n), 0);
  }

  lemma SecretKept(g: Group, secrets: Dealing, sid: Bytes)
    requires ValidParameters(g.parameters) && RefreshHonest(g, secrets, sid) && |g.poly| <= g.parameters.threshold
    ensures Secret(RefreshedGroup(g, secrets, sid)) == Secret(g)
    ensures |RefreshedGroup(g, secrets, sid).poly| <= g.parameters.threshold
  {
    hide ProofsHonest, Eval, Joint;
    JointZero(secrets, g.parameters.shareCount);
    JointDegree(secrets, g.parameters);
    EvalAdd(g.poly, Joint(secrets, g.parameters.shareCount), 0);
  }

  // The fast refresh

  function FastRun(party: Party, g: Group, secrets: Dealing, sid: Bytes, inbox: Inbox): Result<Party, AbortReason>
    requires ValidParameters(party.parameters) && MulSized((party.mulSenders, party.mulReceivers))
  {
    var n := party.parameters.shareCount;
    FastReason(party, sid, ShareOf(secrets, n, party.index), inbox.pcs,
               Seeds(OwnOpenings(secrets, n, party.index)), inbox.zero2, inbox.zero3)
  }

  /** The updated data for the counterparty of one seed pair. */
  predicate FastEntry(sid: Bytes, me: nat, maps: MulMaps, pair: SeedPair, after: MulMaps)
    requires MulSized(maps)
  {
    var j := pair.counterparty;
    && j in maps.0 && j in maps.1 && j in after.0 && j in after.1
    && after.0[j] == NewSender(sid, me, pair, maps.0[j])
    && after.1[j] == NewReceiver(sid, me, pair, maps.1[j])
  }

  lemma {:induction false} FastMulSpec(sid: Bytes, me: nat, maps: MulMaps, pairs: seq<SeedPair>)
    requires MulSized(maps) && Distinct(Counterparties(pairs))
    requires forall j <- Counterparties(pairs) :: j in maps.0 && j in maps.1
    ensures FastMul(sid, me, maps, pairs).Ok?
    ensures forall j :: j in FastMul(sid, me, maps, pairs).value.0 <==> j in Counterparties(pairs)
    ensures forall j :: j in FastMul(sid, me, maps, pairs).value.1 <==> j in Counterparties(pairs)
    ensures forall k :: 0 <= k < |pairs| ==> FastEntry(sid, me, maps, pairs[k], FastMul(sid, me, maps, pairs).value)
    decreases |pairs|
  {
    hide NewSender, NewReceiver, SenderSized, ReceiverSized, Counterparties, Distinct, MulSized;
    if |pairs| == 0 {
      NoCounterparties(pairs);
    } else {
      var n := |pairs| - 1;
      var last := pairs[n];
      CounterpartiesPrefix(pairs);
      FastMulSpec(sid, me, maps, pairs[..n]);
      var before := FastMul(sid, me, maps, pairs[..n]).value;
      assert last.counterparty in Counterparties(pairs);
      var after := FastMul(sid, me, maps, pairs).value;
      forall k | 0 <= k < |pairs| ensures FastEntry(sid, me, maps, pairs[k], after) {
        if k < n {
          assert FastEntry(sid, me, maps, pairs[..n][k], before);
          MemberCounterparty(pairs[..n], k);
        }
      }
    }
  }

  lemma NoCounterparties(pairs: seq<SeedPair>)
    requires |pairs| == 0
    ensures Counterparties(pairs) == []
  {}

  lemma MemberCounterparty(pairs: seq<SeedPair>, k: nat)
    requires k < |pairs|
    ensures pairs[k].counterparty in Counterparties(pairs)
  {
    assert Counterparties(pairs)[k] == pairs[k].counterparty;
  }

  lemma CounterpartiesPrefix(pairs: seq<SeedPair>)
    requires |pairs| > 0
    ensures Counterparties(pairs) == Counterparties(pairs[..|pairs| - 1]) + [pairs[|pairs| - 1].counterparty]
    ensures Distinct(Counterparties(pairs)) ==>
      Distinct(Counterparties(pairs[..|pairs| - 1]))
      && pairs[|pairs| - 1].counterparty !in Counterparties(pairs[..|pairs| - 1])
  {
    var n := |pairs| - 1;
    assert Counterparties(pairs)[..n] == Counterparties(pairs[..n]);
    if Distinct(Counterparties(pairs)) {
      forall k | 0 <= k < n ensures Counterparties(pairs[..n])[k] != pairs[n].counterparty {
        assert Counterparties(pairs)[k] != Counterparties(pairs)[n];
      }
    }
  }

  /** The multiplication data of party i after a fast refresh. */
  ghost predicate FastMaps(sid: Bytes, i: nat, n: nat, table: SeedTable, before: MulMaps, after: MulMaps)
    requires MulSized(before) && before.0.Keys == before.1.Keys == Others(i, n)
  {
    && after.0.Keys == after.1.Keys == Others(i, n)
    && forall j :: j in Others(i, n) ==>
         && after.0[j] == NewSender(sid, i, SeedPair(i <= j, j, table(i, j)), before.0[j])
         && after.1[j] == NewReceiver(sid, i, SeedPair(i <= j, j, table(i, j)), before.1[j])
  }

  lemma FastMulFits(sid: Bytes, i: nat, n: nat, table: SeedTable, maps: MulMaps, pairs: seq<SeedPair>)
    requires n <= MAX_INDEX && MulSized(maps) && maps.0.Keys == maps.1.Keys == Others(i, n)
    requires HoldsSeeds(pairs, i, Span(1, n), table)
    ensures FastMul(sid, i, maps, pairs).Ok?
    ensures FastMaps(sid, i, n, table, maps, FastMul(sid, i, maps, pairs).value)
  {
    hide NewSender, NewReceiver, SenderSized, ReceiverSized, FastMul, MulSized, HoldsSeeds, Counterparties, Distinct, Others;
    SeedKeys(pairs, i, n, table);
    FastMulSpec(sid, i, maps, pairs);
    var after := FastMul(sid, i, maps, pairs).value;
    forall j | j in Others(i, n) ensures FastEntry(sid, i, maps, SeedPair(i <= j, j, table(i, j)), after) {
      var k := PairOf(pairs, i, n, table, j);
    }
    assert after.0.Keys == Others(i, n) && after.1.Keys == Others(i, n);
  }

  /** A party holds one pair for every other party. */
  lemma SeedKeys(pairs: seq<SeedPair>, i: nat, n: nat, table: SeedTable)
    requires n <= MAX_INDEX && HoldsSeeds(pairs, i, Span(1, n), table)
    ensures Distinct(Counterparties(pairs))
    ensures forall j :: j in Counterparties(pairs) <==> j in Others(i, n)
  {
    hide Span;
    SpanIndices(1, n);
  }

  lemma PairOf(pairs: seq<SeedPair>, i: nat, n: nat, table: SeedTable, j: nat) returns (k: nat)
    requires n <= MAX_INDEX && HoldsSeeds(pairs, i, Span(1, n), table) && j in Others(i, n)
    ensures k < |pairs| && pairs[k] == SeedPair(i <= j, j, table(i, j))
  {
    hide Span;
    SpanIndices(1, n);
    assert j in Counterparties(pairs);
    k :| 0 <= k < |pairs| && Counterparties(pairs)[k] == j;
    assert pairs[k].counterparty == j;
  }

  lemma SizedMaps(parties: map<nat, Party>, g: Group, i: nat)
    requires Compatible(parties, g) && i in parties
    ensures MulSized((parties[i].mulSenders, parties[i].mulReceivers))
  {
    hide HoldsSeeds, Symmetric;
    assert PartyFits(parties[i], i, g);
    forall j | j in parties[i].mulSenders ensures SenderSized(parties[i].mulSenders[j].ote) {
      assert MulPair(parties[i].mulSenders[j], parties[j].mulReceivers[i]);
    }
    forall j | j in parties[i].mulReceivers ensures ReceiverSized(parties[i].mulReceivers[j].ote) {
      assert MulPair(parties[j].mulSenders[i], parties[i].mulReceivers[j]);
    }
  }

  ghost predicate FastFits(party: Party, i: nat, g: Group, secrets: Dealing, sid: Bytes, inbox: Inbox, after: Party)
    requires ValidParameters(g.parameters) && PartyFits(party, i, g) && MulSized((party.mulSenders, party.mulReceivers))
  {
    && FastRun(party, g, secrets, sid, inbox) == Ok(after)
    && PartyFits(after, i, RefreshedGroup(g, secrets, sid))
    && FastMaps(sid, i, g.parameters.shareCount, TableOf(secrets), (party.mulSenders, party.mulReceivers),
                (after.mulSenders, after.mulReceivers))
  }

  lemma HonestFast(party: Party, i: nat, g: Group, secrets: Dealing, sid: Bytes, inbox: Inbox) returns (after: Party)
    requires ValidParameters(g.parameters) && PartyFits(party, i, g) && RefreshHonest(g, secrets, sid)
    requires MulSized((party.mulSenders, party.mulReceivers)) && 0 < i <= g.parameters.shareCount
    requires InboxOf(secrets, g.parameters.shareCount, sid, i, inbox)
    ensures FastFits(party, i, g, secrets, sid, inbox, after)
  {
    hide RefreshHonest, CheckCorrections, ZeroBlock, FastMul, FastMaps, Refreshed, AllProofs, Delivered, MulSized, HoldsSeeds,
         OwnOpenings, CommitmentsTo, OpeningsTo, PairsTo, Seeds, TableOf, ShareOf, Eval, Others, RefreshedGroup;
    var n := g.parameters.shareCount;
    HonestCorrections(party, i, g, secrets, sid, inbox.pcs);
    var seeds := HonestSeeds(secrets, n, i, inbox.zero2, inbox.zero3);
    FastMulFits(sid, i, n, TableOf(secrets), (party.mulSenders, party.mulReceivers), seeds);
    var maps := FastMul(sid, i, (party.mulSenders, party.mulReceivers), seeds).value;
    FastKeys(sid, i, n, TableOf(secrets), (party.mulSenders, party.mulReceivers), maps);
    RefreshedFits(party, i, g, secrets, sid, seeds, maps);
    after := Refreshed(party, sid, ShareOf(secrets, n, i), seeds, maps).value;
  }

  lemma FastKeys(sid: Bytes, i: nat, n: nat, table: SeedTable, before: MulMaps, after: MulMaps)
    requires MulSized(before) && before.0.Keys == before.1.Keys == Others(i, n)
    requires FastMaps(sid, i, n, table, before, after)
    ensures after.0.Keys == after.1.Keys == Others(i, n)
  {}

  /** One pair: both halves were updated from the same seed with the roles exchanged. */
  lemma PairRefreshed(sid: Bytes, i: nat, j: nat, table: SeedTable, s: MulSender, r: MulReceiver)
    requires MulPair(s, r) && Symmetric(table)
    ensures MulPair(NewSender(sid, i, SeedPair(i <= j, j, table(i, j)), s), NewReceiver(sid, j, SeedPair(j <= i, i, table(j, i)), r))
  {
    hide RefreshedSender, RefreshedReceiver;
    RelationKept(sid, i, j, table(i, j), s.ote, r.ote);
  }

  /** The fast refresh of a group of honest parties succeeds for everybody and keeps the invariant
      and the secret key. */
  lemma FastPreserves(parties: map<nat, Party>, g: Group, secrets: Dealing, sid: Bytes, inboxes: nat -> Inbox)
    returns (after: map<nat, Party>)
    requires Compatible(parties, g) && RefreshHonest(g, secrets, sid)
    requires forall i <- parties :: InboxOf(secrets, g.parameters.shareCount, sid, i, inboxes(i))
    ensures after.Keys == parties.Keys
    ensures forall i <- parties ::
      && ValidParameters(parties[i].parameters) && MulSized((parties[i].mulSenders, parties[i].mulReceivers))
      && FastRun(parties[i], g, secrets, sid, inboxes(i)) == Ok(after[i])
    ensures Compatible(after, RefreshedGroup(g, secrets, sid))
    ensures Secret(RefreshedGroup(g, secrets, sid)) == Secret(g)
  {
    hide PartyFits, RefreshHonest, InboxOf, MulPair, MulSized, FastRun, Symmetric, FastMaps, Secret;
    forall i | i in parties ensures MulSized((parties[i].mulSenders, parties[i].mulReceivers)) { SizedMaps(parties, g, i); }
    after := GatherFast(parties, g, secrets, sid, inboxes, parties.Keys);
    PairsAfterFast(parties, g, secrets, sid, inboxes, after);
    SecretKept(g, secrets, sid);
    TableSymmetric(secrets);
    GroupParts(g, secrets, sid);
    forall i | i in after ensures PartyFits(after[i], i, RefreshedGroup(g, secrets, sid)) {
      assert FastFits(parties[i], i, g, secrets, sid, inboxes(i), after[i]);
    }
    forall i | i in parties ensures ValidParameters(parties[i].parameters) {
      ParametersOf(parties[i], i, g);
    }
  }

  lemma ParametersOf(party: Party, i: nat, g: Group)
    requires PartyFits(party, i, g)
    ensures party.parameters == g.parameters
    ensures party.mulSenders.Keys == party.mulReceivers.Keys == Others(i, g.parameters.shareCount)
  {}

  lemma GroupParts(g: Group, secrets: Dealing, sid: Bytes)
    ensures RefreshedGroup(g, secrets, sid).parameters == g.parameters
    ensures RefreshedGroup(g, secrets, sid).seeds == TableOf(secrets)
  {}

  lemma {:induction false} GatherFast(parties: map<nat, Party>, g: Group, secrets: Dealing, sid: Bytes, inboxes: nat -> Inbox,
                                      keys: set<nat>) returns (after: map<nat, Party>)
    requires Compatible(parties, g) && RefreshHonest(g, secrets, sid) && keys <= parties.Keys
    requires forall i <- parties :: MulSized((parties[i].mulSenders, parties[i].mulReceivers))
    requires forall i <- parties :: InboxOf(secrets, g.parameters.shareCount, sid, i, inboxes(i))
    ensures after.Keys == keys
    ensures forall i <- after :: FastFits(parties[i], i, g, secrets, sid, inboxes(i), after[i])
    decreases |keys|
  {
    hide PartyFits, RefreshHonest, InboxOf, MulSized, Symmetric, PairsFit, FastFits;
    if keys == {} {
      after := map[];
    } else {
      var i :| i in keys;
      after := GatherFast(parties, g, secrets, sid, inboxes, keys - {i});
      assert PartyFits(parties[i], i, g);
      var p := HonestFast(parties[i], i, g, secrets, sid, inboxes(i));
      after := after[i := p];
    }
  }

  lemma HalvesAfterFast(party: Party, i: nat, g: Group, secrets: Dealing, sid: Bytes, inbox: Inbox, after: Party, j: nat)
    requires ValidParameters(party.parameters) && MulSized((party.mulSenders, party.mulReceivers))
    requires PartyFits(party, i, g) && FastFits(party, i, g, secrets, sid, inbox, after)
    requires j in Others(i, g.parameters.shareCount)
    ensures j in party.mulSenders && j in party.mulReceivers && j in after.mulSenders && j in after.mulReceivers
    ensures after.mulSenders[j] == NewSender(sid, i, SeedPair(i <= j, j, TableOf(secrets)(i, j)), party.mulSenders[j])
    ensures after.mulReceivers[j] == NewReceiver(sid, i, SeedPair(i <= j, j, TableOf(secrets)(i, j)), party.mulReceivers[j])
  {
    hide NewSender, NewReceiver, SenderSized, ReceiverSized, FastRun, HoldsSeeds, ValidParameters, Secret;
  }

  lemma PairsAfterFast(parties: map<nat, Party>, g: Group, secrets: Dealing, sid: Bytes, inboxes: nat -> Inbox,
                       after: map<nat, Party>)
    requires Compatible(parties, g) && after.Keys == parties.Keys
    requires forall i <- parties :: MulSized((parties[i].mulSenders, parties[i].mulReceivers))
    requires forall i <- after :: FastFits(parties[i], i, g, secrets, sid, inboxes(i), after[i])
    ensures PairsFit(after)
  {
    hide PartyFits, MulSized, MulPair, NewSender, NewReceiver, FastFits, Symmetric;
    var table, n := TableOf(secrets), g.parameters.shareCount;
    TableSymmetric(secrets);
    forall i, j | i in after && j in after && i != j
      ensures j in after[i].mulSenders && i in after[j].mulReceivers
      ensures MulPair(after[i].mulSenders[j], after[j].mulReceivers[i])
    {
      ParametersOf(parties[i], i, g);
      ParametersOf(parties[j], j, g);
      HalvesAfterFast(parties[i], i, g, secrets, sid, inboxes(i), after[i], j);
      HalvesAfterFast(parties[j], j, g, secrets, sid, inboxes(j), after[j], i);
      PairRefreshed(sid, i, j, table, parties[i].mulSenders[j], parties[j].mulReceivers[i]);
    }
  }

  // The complete refresh

  function CompleteRun(party: Party, secrets: Dealing, sid: Bytes, inbox: Inbox): Result<Party, AbortReason>
    requires ValidParameters(party.parameters)
  {
    var n := party.parameters.shareCount;
    CompleteReason(party, sid, ShareOf(secrets, n, party.index), inbox.pcs,
                   Seeds(OwnOpenings(secrets, n, party.index)), inbox.zero2, inbox.zero3,
                   OwnPairs(secrets, n, party.index), inbox.pairs)
  }

  ghost predicate CompleteFits(party: Party, i: nat, g: Group, secrets: Dealing, sid: Bytes, inbox: Inbox, after: Party)
    requires ValidParameters(g.parameters) && PartyFits(party, i, g)
  {
    && CompleteRun(party, secrets, sid, inbox) == Ok(after)
    && PartyFits(after, i, RefreshedGroup(g, secrets, sid))
    && HalvesOf(secrets, g.parameters.shareCount, sid, i, (after.mulSenders, after.mulReceivers))
  }

  lemma HonestComplete(party: Party, i: nat, g: Group, secrets: Dealing, sid: Bytes, inbox: Inbox) returns (after: Party)
    requires ValidParameters(g.parameters) && PartyFits(party, i, g) && RefreshHonest(g, secrets, sid)
    requires PairsHonest(secrets, g.parameters.shareCount, sid) && 0 < i <= g.parameters.shareCount
    requires InboxOf(secrets, g.parameters.shareCount, sid, i, inbox)
    ensures CompleteFits(party, i, g, secrets, sid, inbox, after)
  {
    hide RefreshHonest, CheckCorrections, ZeroBlock, MulBlock, Refreshed, AllProofs, Delivered, HoldsSeeds, PairsHonest,
         OwnOpenings, CommitmentsTo, OpeningsTo, PairsTo, OwnPairs, Seeds, TableOf, ShareOf, Eval, Others, RefreshedGroup,
         SenderHalf, ReceiverHalf;
    var n := g.parameters.shareCount;
    HonestCorrections(party, i, g, secrets, sid, inbox.pcs);
    var seeds := HonestSeeds(secrets, n, i, inbox.zero2, inbox.zero3);
    var maps := HonestPairs(secrets, n, sid, i, inbox.pairs);
    RefreshedFits(party, i, g, secrets, sid, seeds, maps);
    after := Refreshed(party, sid, ShareOf(secrets, n, i), seeds, maps).value;
  }

  lemma {:induction false} GatherComplete(parties: map<nat, Party>, g: Group, secrets: Dealing, sid: Bytes,
                                          inboxes: nat -> Inbox, keys: set<nat>) returns (after: map<nat, Party>)
    requires Compatible(parties, g) && RefreshHonest(g, secrets, sid) && keys <= parties.Keys
    requires PairsHonest(secrets, g.parameters.shareCount, sid)
    requires forall i <- parties :: InboxOf(secrets, g.parameters.shareCount, sid, i, inboxes(i))
    ensures after.Keys == keys
    ensures forall i <- after :: CompleteFits(parties[i], i, g, secrets, sid, inboxes(i), after[i])
    decreases |keys|
  {
    hide PartyFits, RefreshHonest, InboxOf, Symmetric, PairsFit, CompleteFits, PairsHonest;
    if keys == {} {
      after := map[];
    } else {
      var i :| i in keys;
      after := GatherComplete(parties, g, secrets, sid, inboxes, keys - {i});
      assert PartyFits(parties[i], i, g);
      var p := HonestComplete(parties[i], i, g, secrets, sid, inboxes(i));
      after := after[i := p];
    }
  }

  /** The same for the complete refresh. */
  lemma CompletePreserves(parties: map<nat, Party>, g: Group, secrets: Dealing, sid: Bytes, inboxes: nat -> Inbox)
    returns (after: map<nat, Party>)
    requires Compatible(parties, g) && RefreshHonest(g, secrets, sid)
    requires PairsHonest(secrets, g.parameters.shareCount, sid)
    requires forall i <- parties :: InboxOf(secrets, g.parameters.shareCount, sid, i, inboxes(i))
    ensures after.Keys == parties.Keys
    ensures forall i <- parties ::
      ValidParameters(parties[i].parameters) && CompleteRun(parties[i], secrets, sid, inboxes(i)) == Ok(after[i])
    ensures Compatible(after, RefreshedGroup(g, secrets, sid))
    ensures Secret(RefreshedGroup(g, secrets, sid)) == Secret(g)
  {
    hide PartyFits, RefreshHonest, InboxOf, MulPair, CompleteRun, Symmetric, HalvesOf, Secret, PairsHonest;
    after := GatherComplete(parties, g, secrets, sid, inboxes, parties.Keys);
    PairsOfRun(secrets, g.parameters.shareCount, sid, after);
    SecretKept(g, secrets, sid);
    TableSymmetric(secrets);
    GroupParts(g, secrets, sid);
    forall i | i in after ensures PartyFits(after[i], i, RefreshedGroup(g, secrets, sid)) {
      assert CompleteFits(parties[i], i, g, secrets, sid, inboxes(i), after[i]);
    }
    forall i | i in parties ensures ValidParameters(parties[i].parameters) {
      ParametersOf(parties[i], i, g);
    }
  }
}
