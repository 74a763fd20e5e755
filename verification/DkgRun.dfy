/** The run of key generation by n honest parties, for all randomness and any order of delivery. */
module DkgRun {
  import opened Scalars
  import opened Sums
  import opened Shamir
  import opened Results
  import OtErrors
  import opened Bits
  import opened Hashes
  import opened Curve
  import opened Proofs
  import opened BaseOt
  import opened ZeroShares
  import opened OtExtension
  import opened OtConstants
  import opened Multiplication
  import opened MulInit
  import opened Parties
  import opened Routing
  import opened KeyInit
  import opened Dkg
  import opened DkgPhases
  import opened Compatibility

  type Pair = d: PairDraws | PairSized(d) witness NoPair()

  function NoPair(): PairDraws {
    PairDraws(OtSender(0, DLogProof(IDENTITY, [], [])), 0, Zeros(), seq(KAPPA, _ => false), seq(KAPPA, _ => Draws(0, 0, 0, 0)))
  }

  /** Everything one party draws, with the proof its search found; seeds, salts and multiplication
      data are drawn for every other party. */
  datatype Secrets = Secrets(poly: Poly, proof: DLogProof, aux: Opening, opening: nat -> Opening, pair: nat -> Pair)

  /** What the parties draw, by index. */
  type Dealing = nat -> Secrets

  ghost predicate Degrees(secrets: Dealing, params: Parameters) {
    forall i: nat :: 0 < i <= params.shareCount ==> |secrets(i).poly| == params.threshold
  }

  function Polys(secrets: Dealing, n: nat): (ps: seq<Poly>)
    ensures |ps| == n
  {
    seq(n, k requires 0 <= k < n => secrets(k + 1).poly)
  }

  /** The joint polynomial. */
  function Joint(secrets: Dealing, n: nat): Poly {
    SumPoly(Polys(secrets, n))
  }

  /** The share of party i: the sum of the fragments dealt to it. */
  function ShareOf(secrets: Dealing, n: nat, i: nat): Scalar {
    SumSeq(ValuesAt(Polys(secrets, n), Reduce(i)))
  }

  lemma ShareIsValue(secrets: Dealing, n: nat, i: nat)
    ensures ShareOf(secrets, n, i) == Eval(Joint(secrets, n), Reduce(i))
  {
    hide Eval, Reduce, SumPoly, SumSeq;
    FragmentsSum(Polys(secrets, n), Reduce(i));
  }

  lemma JointDegree(secrets: Dealing, params: Parameters)
    requires ValidParameters(params) && Degrees(secrets, params)
    ensures |Joint(secrets, params.shareCount)| == params.threshold
  {
    hide SumPoly;
    SumPolySize(Polys(secrets, params.shareCount), params.threshold);
  }

  // What a party keeps and what it is sent

  function OwnOpenings(secrets: Dealing, n: nat, i: nat): map<nat, Opening> {
    map j | j in Others(i, n) :: secrets(i).opening(j)
  }

  function CommitmentsTo(secrets: Dealing, n: nat, i: nat): map<nat, Digest> {
    map j | j in Others(i, n) :: Commit(secrets(j).opening(i).seed, secrets(j).opening(i).salt)
  }

  function OpeningsTo(secrets: Dealing, n: nat, i: nat): map<nat, Opening> {
    map j | j in Others(i, n) :: secrets(j).opening(i)
  }

  function OwnPairs(secrets: Dealing, n: nat, i: nat): map<nat, MulInitKept> {
    map j | j in Others(i, n) :: PairKept(secrets(i).pair(j))
  }

  function PairsTo(secrets: Dealing, n: nat, sid: Bytes, i: nat): map<nat, MulInitMessage> {
    map j | j in Others(i, n) :: PairMessage(j, i, sid, secrets(j).pair(i))
  }

  function Broadcasts2(secrets: Dealing, n: nat): map<nat, Broadcast2> {
    map j | j in Others(0, n) :: Broadcast2(j, Commit(secrets(j).aux.seed, secrets(j).aux.salt), PROTOCOL_VERSION)
  }

  function Broadcasts3(secrets: Dealing, n: nat): map<nat, Broadcast3> {
    map j | j in Others(0, n) :: Broadcast3(j, secrets(j).aux.seed, secrets(j).aux.salt)
  }

  /** The proofs of all parties, in any order. */
  predicate AllProofs(secrets: Dealing, n: nat, sid: Bytes, pcs: seq<ProofCommitment>) {
    && (forall k :: 0 <= k < |pcs| ==> HonestProof(secrets, n, sid, pcs[k]))
    && (forall i | 0 < i <= n :: HasProof(pcs, i))
  }

  predicate HasProof(pcs: seq<ProofCommitment>, i: nat) {
    exists k :: 0 <= k < |pcs| && pcs[k].index == i
  }

  predicate HonestProof(secrets: Dealing, n: nat, sid: Bytes, pc: ProofCommitment) {
    && 0 < pc.index <= n
    && pc.proof == secrets(pc.index).proof
    && pc.commitment == DLogCommitment(pc.proof, sid)
  }

  /** Everything a party receives before phase 4. */
  datatype Inbox = Inbox(pcs: seq<ProofCommitment>, zero2: seq<Routed<Digest>>, zero3: seq<Routed<Opening>>,
                         pairs: seq<Routed<MulInitMessage>>)

  predicate InboxOf(secrets: Dealing, n: nat, sid: Bytes, i: nat, inbox: Inbox) {
    && AllProofs(secrets, n, sid, inbox.pcs)
    && Delivered(i, inbox.zero2, CommitmentsTo(secrets, n, i))
    && Delivered(i, inbox.zero3, OpeningsTo(secrets, n, i))
    && Delivered(i, inbox.pairs, PairsTo(secrets, n, sid, i))
  }

  // What honest randomness has to avoid

  /** The pair (receiver, sender): the receiver's proof is valid and the sender's statements are not
      degenerate. */
  predicate PairHonest(secrets: Dealing, sid: Bytes, receiver: nat, sender: nat) {
    var r, s := secrets(receiver).pair(sender), secrets(sender).pair(receiver);
    && r.ot.proof.point == GTimes(r.ot.s)
    && DLogVerify(r.ot.proof, MulSid(receiver, sender, sid))
    && AllNonDegenerate(MulSid(receiver, sender, sid), s.seed, s.correlation, s.draws)
  }

  /** The proof of party i is for its share. */
  predicate ProofHonest(secrets: Dealing, n: nat, sid: Bytes, i: nat) {
    && secrets(i).proof.point == GTimes(ShareOf(secrets, n, i))
    && DLogVerify(secrets(i).proof, sid)
  }

  ghost predicate ProofsHonest(secrets: Dealing, n: nat, sid: Bytes) {
    forall i: nat :: 0 < i <= n ==> ProofHonest(secrets, n, sid, i)
  }

  ghost predicate PairsHonest(secrets: Dealing, n: nat, sid: Bytes) {
    forall i: nat, j: nat :: 0 < i <= n && 0 < j <= n && i != j ==> PairHonest(secrets, sid, i, j)
  }

  ghost predicate RunHonest(secrets: Dealing, n: nat, sid: Bytes) {
    && !TrivialShare(Eval(Joint(secrets, n), 0))
    && (forall i: nat :: 0 < i <= n ==> !TrivialShare(ShareOf(secrets, n, i)))
    && ProofsHonest(secrets, n, sid)
    && PairsHonest(secrets, n, sid)
  }

  // The four parts of phase 4

  lemma {:induction false} PointsAll(secrets: Dealing, n: nat, sid: Bytes, pcs: seq<ProofCommitment>)
    requires forall k :: 0 <= k < |pcs| ==> HonestProof(secrets, n, sid, pcs[k])
    ensures forall k :: 0 <= k < |pcs| ==> pcs[k].index in PointsOf(pcs)
    ensures forall i <- PointsOf(pcs) :: 0 < i <= n && PointsOf(pcs)[i] == secrets(i).proof.point
    decreases |pcs|
  {
    hide DLogCommitment;
    if |pcs| > 0 {
      var last := |pcs| - 1;
      PointsAll(secrets, n, sid, pcs[..last]);
      assert HonestProof(secrets, n, sid, pcs[last]);
      forall k | 0 <= k < |pcs| ensures pcs[k].index in PointsOf(pcs) {
        if k < last { assert pcs[..last][k].index in PointsOf(pcs[..last]); }
      }
    }
  }

  /** The proofs are for the shares, as every proof that the search returns is for its scalar. */
  ghost predicate SharesProved(secrets: Dealing, n: nat) {
    forall i: nat :: 0 < i <= n ==> secrets(i).proof.point == GTimes(ShareOf(secrets, n, i))
  }

  /** The committed points are those of the joint polynomial. */
  lemma PointsJoint(secrets: Dealing, n: nat, sid: Bytes, pcs: seq<ProofCommitment>)
    requires SharesProved(secrets, n) && AllProofs(secrets, n, sid, pcs)
    ensures OnPolynomial(PointsOf(pcs), Joint(secrets, n), n)
  {
    hide Eval, Reduce, DLogVerify, DLogCommitment, PointsOf, Joint, ShareOf;
    PointsAll(secrets, n, sid, pcs);
    forall j | 0 < j <= n ensures j in PointsOf(pcs) && PointsOf(pcs)[j] == GTimes(Eval(Joint(secrets, n), Reduce(j))) {
      ShareIsValue(secrets, n, j);
      assert HasProof(pcs, j);
    }
  }

  /** No proof is rejected exactly when those of the others verify. */
  lemma NoneRejected(secrets: Dealing, n: nat, sid: Bytes, i: nat, pcs: seq<ProofCommitment>)
    requires AllProofs(secrets, n, sid, pcs)
    ensures FirstRejected(i, sid, pcs) == None <==> forall j: nat :: 0 < j <= n && j != i ==> DLogVerify(secrets(j).proof, sid)
  {
    hide DLogVerify, DLogCommitment, FirstRejected;
    NothingRejected(i, sid, pcs);
    forall k | 0 <= k < |pcs|
      ensures 0 < pcs[k].index <= n
      ensures pcs[k].index == i || DLogVerify(secrets(pcs[k].index).proof, sid) ==> Accepted(i, sid, pcs[k])
    {
      assert HonestProof(secrets, n, sid, pcs[k]);
    }
    forall j: nat | FirstRejected(i, sid, pcs) == None && 0 < j <= n && j != i ensures DLogVerify(secrets(j).proof, sid) {
      ProofAccepted(secrets, n, sid, i, pcs, j);
    }
  }

  lemma ProofAccepted(secrets: Dealing, n: nat, sid: Bytes, i: nat, pcs: seq<ProofCommitment>, j: nat)
    requires AllProofs(secrets, n, sid, pcs) && 0 < j <= n && j != i
    requires forall k :: 0 <= k < |pcs| ==> Accepted(i, sid, pcs[k])
    ensures DLogVerify(secrets(j).proof, sid)
  {
    hide DLogVerify, DLogCommitment;
    assert HasProof(pcs, j);
    var k :| 0 <= k < |pcs| && pcs[k].index == j;
    assert Accepted(i, sid, pcs[k]) && HonestProof(secrets, n, sid, pcs[k]);
  }

  lemma ProofsPoints(secrets: Dealing, n: nat, sid: Bytes)
    requires ProofsHonest(secrets, n, sid)
    ensures SharesProved(secrets, n) && forall j: nat :: 0 < j <= n ==> DLogVerify(secrets(j).proof, sid)
  {
    hide DLogVerify, ShareOf;
    forall j: nat | 0 < j <= n ensures DLogVerify(secrets(j).proof, sid) && secrets(j).proof.point == GTimes(ShareOf(secrets, n, j)) {
      assert ProofHonest(secrets, n, sid, j);
    }
  }

  lemma HonestStep5(secrets: Dealing, params: Parameters, sid: Bytes, i: nat, pcs: seq<ProofCommitment>)
    requires ValidParameters(params) && params.shareCount < MAX_INDEX && Degrees(secrets, params)
    requires ProofsHonest(secrets, params.shareCount, sid) && AllProofs(secrets, params.shareCount, sid, pcs)
    ensures Step5Result(params, i, sid, pcs) == Ok((GTimes(Eval(Joint(secrets, params.shareCount), 0)), PointsOf(pcs)))
  {
    hide Eval, DLogVerify, PointsOf, FirstRejected, Joint, ShareOf, Step5Result, SharesProved, AllProofs, ProofsHonest, OnPolynomial;
    var n := params.shareCount;
    JointDegree(secrets, params);
    ProofsPoints(secrets, n, sid);
    PointsJoint(secrets, n, sid, pcs);
    NoneRejected(secrets, n, sid, i, pcs);
    OnePolynomial(params, i, sid, pcs, GTimes(Eval(Joint(secrets, n), 0)));
  }

  /** The seed of a pair: both contributions, combined. */
  function PairSeed(secrets: Dealing, i: nat, j: nat): Digest {
    Xor(secrets(i).opening(j).seed, secrets(j).opening(i).seed)
  }

  ghost function TableOf(secrets: Dealing): SeedTable {
    (i: nat, j: nat) => PairSeed(secrets, i, j)
  }

  lemma TableSymmetric(secrets: Dealing)
    ensures Symmetric(TableOf(secrets))
  {
    hide Xor;
    forall i: nat, j: nat ensures TableOf(secrets)(i, j) == TableOf(secrets)(j, i) {
      XorCancel(secrets(i).opening(j).seed, secrets(j).opening(i).seed);
    }
  }

  lemma OthersAscending(me: nat, n: nat)
    requires n <= MAX_INDEX
    ensures var ts := Ascending(Others(me, n), MAX_INDEX);
            Distinct(ts) && forall k :: k in ts <==> 0 < k <= n && k != me
  {
    AscendingMembers(Others(me, n), MAX_INDEX);
  }

  lemma SameKeys<S, T>(m: map<nat, S>, m': map<nat, T>)
    requires m.Keys == m'.Keys
    ensures |m| == |m'|
  {
    assert |m| == |m.Keys| && |m'| == |m'.Keys|;
  }

  lemma HonestSeeds(secrets: Dealing, n: nat, i: nat, zero2: seq<Routed<Digest>>, zero3: seq<Routed<Opening>>)
    returns (pairs: seq<SeedPair>)
    requires n <= MAX_INDEX && 0 < i <= n
    requires Delivered(i, zero2, CommitmentsTo(secrets, n, i)) && Delivered(i, zero3, OpeningsTo(secrets, n, i))
    ensures ZeroBlock(i, Seeds(OwnOpenings(secrets, n, i)), zero2, zero3) == Ok(pairs)
    ensures HoldsSeeds(pairs, i, Span(1, n), TableOf(secrets))
  {
    hide Commit, Xor, SeedPairs, Delivered, Ascending, HoldsSeeds;
    var kept, r2, r3 := Seeds(OwnOpenings(secrets, n, i)), CommitmentsTo(secrets, n, i), OpeningsTo(secrets, n, i);
    assert kept.Keys == r2.Keys == r3.Keys == Others(i, n);
    SameKeys(kept, r2);
    SameKeys(kept, r3);
    CollectDelivered(i, zero2, r2);
    CollectDelivered(i, zero3, r3);
    var ts := Ascending(kept.Keys, MAX_INDEX);
    OthersAscending(i, n);
    pairs := SeedsGathered(secrets, n, i, ts, kept, r2, r3);
  }

  lemma SeedsGathered(secrets: Dealing, n: nat, i: nat, ts: seq<nat>, kept: map<nat, Digest>,
                      r2: map<nat, Digest>, r3: map<nat, Opening>) returns (pairs: seq<SeedPair>)
    requires n <= MAX_INDEX && Distinct(ts) && forall k :: k in ts <==> 0 < k <= n && k != i
    requires kept == Seeds(OwnOpenings(secrets, n, i))
    requires r2 == CommitmentsTo(secrets, n, i) && r3 == OpeningsTo(secrets, n, i)
    ensures SeedPairs(i, ts, kept, r2, r3, |ts|) == Ok(pairs)
    ensures HoldsSeeds(pairs, i, Span(1, n), TableOf(secrets))
  {
    hide Commit, Xor, SeedPairs, HoldsSeeds, Span;
    SeedPairsSpec(i, ts, kept, r2, r3, |ts|);
    pairs := SeedPairs(i, ts, kept, r2, r3, |ts|).value;
    ListedSeeds(pairs, i, ts, n, TableOf(secrets));
  }

  lemma ListedSeeds(pairs: seq<SeedPair>, i: nat, ts: seq<nat>, n: nat, table: SeedTable)
    requires n <= MAX_INDEX && Distinct(ts) && |pairs| == |ts| && forall k :: k in ts <==> 0 < k <= n && k != i
    requires forall k :: 0 <= k < |ts| ==> pairs[k] == SeedPair(i <= ts[k], ts[k], table(i, ts[k]))
    ensures HoldsSeeds(pairs, i, Span(1, n), table)
  {
    SpanIndices(1, n);
    assert Counterparties(pairs) == ts;
  }

  /** Both halves of the pair (receiver, sender) are initialised, and fit together. */
  lemma PairSucceeds(secrets: Dealing, sid: Bytes, receiver: nat, sender: nat)
    requires PairHonest(secrets, sid, receiver, sender)
    ensures ReceiverHalf(secrets, sid, receiver, sender).Ok?
    ensures SenderHalf(secrets, sid, receiver, sender).Ok?
    ensures MulPair(SenderHalf(secrets, sid, receiver, sender).value, ReceiverHalf(secrets, sid, receiver, sender).value)
  {
    hide InitSender, InitReceiver, DLogVerify, AllNonDegenerate, ReceiverProofs, MulSid, MulPair;
    var r, s := secrets(receiver).pair(sender), secrets(sender).pair(receiver);
    InitEstablishes(r.ot, MulSid(receiver, sender, sid), s.seed, s.correlation, s.draws, PairKept(s).rs, r.nonce);
  }

  function ReceiverHalf(secrets: Dealing, sid: Bytes, receiver: nat, sender: nat): Result<MulReceiver, OtErrors.ErrorOt> {
    var k, m := PairKept(secrets(receiver).pair(sender)), PairMessage(sender, receiver, sid, secrets(sender).pair(receiver));
    InitReceiver(k.ot, MulSid(receiver, sender, sid), m.seed, m.encs, k.nonce)
  }

  function SenderHalf(secrets: Dealing, sid: Bytes, receiver: nat, sender: nat): Result<MulSender, OtErrors.ErrorOt> {
    var k, m := PairKept(secrets(sender).pair(receiver)), PairMessage(receiver, sender, sid, secrets(receiver).pair(sender));
    InitSender(MulSid(receiver, sender, sid), k.correlation, k.rs, m.proof, m.nonce)
  }

  /** The multiplication data of a party are its halves of its pairs. */
  ghost predicate HalvesOf(secrets: Dealing, n: nat, sid: Bytes, i: nat, maps: MulMaps) {
    && maps.0.Keys == maps.1.Keys == Others(i, n)
    && (forall j <- maps.0 :: SenderHalf(secrets, sid, j, i) == Ok(maps.0[j]))
    && (forall j <- maps.1 :: ReceiverHalf(secrets, sid, i, j) == Ok(maps.1[j]))
  }

  /** The multiplication block succeeds exactly when both halves of every pair are initialised, and
      then holds them. */
  lemma MulBlockExact(secrets: Dealing, n: nat, sid: Bytes, i: nat, messages: seq<Routed<MulInitMessage>>)
    requires n <= MAX_INDEX && 0 < i <= n && Delivered(i, messages, PairsTo(secrets, n, sid, i))
    ensures var r := MulBlock(i, sid, OwnPairs(secrets, n, i), messages);
            && (r.Ok? <==> forall t <- Others(i, n) :: ReceiverHalf(secrets, sid, i, t).Ok? && SenderHalf(secrets, sid, t, i).Ok?)
            && (r.Ok? ==> HalvesOf(secrets, n, sid, i, r.value))
  {
    hide PairMessage, PairKept, MulPairs, Delivered, Ascending, InitSender, InitReceiver, MulSid, HalvesOf, ReceiverHalf,
         SenderHalf, PairStarts, PairInitialised;
    var kept, received := OwnPairs(secrets, n, i), PairsTo(secrets, n, sid, i);
    assert kept.Keys == received.Keys == Others(i, n);
    SameKeys(kept, received);
    CollectDelivered(i, messages, received);
    var ts := Ascending(kept.Keys, MAX_INDEX);
    OthersAscending(i, n);
    MulPairsSpec(i, sid, ts, kept, received, |ts|);
    assert ts[..|ts|] == ts;
    forall t | t in Others(i, n)
      ensures PairStarts(i, sid, t, kept[t], received[t])
         <==> ReceiverHalf(secrets, sid, i, t).Ok? && SenderHalf(secrets, sid, t, i).Ok?
    {
      HalvesStart(secrets, n, sid, i, t);
    }
    var r := MulPairs(i, sid, ts, kept, received, |ts|);
    if r.Ok? { HalvesGathered(secrets, n, sid, i, r.value); }
  }

  lemma HalvesStart(secrets: Dealing, n: nat, sid: Bytes, i: nat, t: nat)
    requires t in Others(i, n)
    ensures PairStarts(i, sid, t, OwnPairs(secrets, n, i)[t], PairsTo(secrets, n, sid, i)[t])
       <==> ReceiverHalf(secrets, sid, i, t).Ok? && SenderHalf(secrets, sid, t, i).Ok?
  {
    hide PairMessage, PairKept, InitSender, InitReceiver, MulSid;
  }

  lemma HonestPairs(secrets: Dealing, n: nat, sid: Bytes, i: nat, messages: seq<Routed<MulInitMessage>>)
    returns (maps: MulMaps)
    requires n <= MAX_INDEX && 0 < i <= n
    requires PairsHonest(secrets, n, sid) && Delivered(i, messages, PairsTo(secrets, n, sid, i))
    ensures MulBlock(i, sid, OwnPairs(secrets, n, i), messages) == Ok(maps)
    ensures HalvesOf(secrets, n, sid, i, maps)
  {
    hide MulBlock, Delivered, PairHonest, SenderHalf, ReceiverHalf, HalvesOf, OwnPairs, PairsTo;
    forall t | t in Others(i, n) ensures ReceiverHalf(secrets, sid, i, t).Ok? && SenderHalf(secrets, sid, t, i).Ok? {
      assert PairHonest(secrets, sid, i, t) && PairHonest(secrets, sid, t, i);
      PairSucceeds(secrets, sid, i, t);
      PairSucceeds(secrets, sid, t, i);
    }
    MulBlockExact(secrets, n, sid, i, messages);
    maps := MulBlock(i, sid, OwnPairs(secrets, n, i), messages).value;
  }

  lemma HalvesGathered(secrets: Dealing, n: nat, sid: Bytes, i: nat, maps: MulMaps)
    requires forall t :: t in maps.0 <==> t in Others(i, n)
    requires forall t :: t in maps.1 <==> t in Others(i, n)
    requires forall t <- Others(i, n) :: PairInitialised(i, sid, t, OwnPairs(secrets, n, i)[t], PairsTo(secrets, n, sid, i)[t], maps)
    ensures HalvesOf(secrets, n, sid, i, maps)
  {
    hide OwnPairs, PairsTo, SenderHalf, ReceiverHalf, PairInitialised;
    assert maps.0.Keys == Others(i, n) && maps.1.Keys == Others(i, n);
    forall t | t in Others(i, n)
      ensures SenderHalf(secrets, sid, t, i) == Ok(maps.0[t]) && ReceiverHalf(secrets, sid, i, t) == Ok(maps.1[t])
    {
      HalvesMatch(secrets, n, sid, i, t, maps);
    }
  }

  lemma HalvesMatch(secrets: Dealing, n: nat, sid: Bytes, i: nat, t: nat, maps: MulMaps)
    requires t in Others(i, n)
    requires PairInitialised(i, sid, t, OwnPairs(secrets, n, i)[t], PairsTo(secrets, n, sid, i)[t], maps)
    ensures SenderHalf(secrets, sid, t, i) == Ok(maps.0[t]) && ReceiverHalf(secrets, sid, i, t) == Ok(maps.1[t])
  {
    hide PairMessage, PairKept, InitSender, InitReceiver, MulSid;
  }

  lemma {:induction false} HonestChainCode(secrets: Dealing, n: nat, k: nat)
    requires k <= n
    ensures ChainCode(k, Broadcasts2(secrets, n), Broadcasts3(secrets, n)).Ok?
    decreases k
  {
    hide Commit, Xor;
    if k > 0 { HonestChainCode(secrets, n, k - 1); }
  }

  lemma {:induction false} HonestVersions(secrets: Dealing, n: nat, bound: nat)
    ensures WrongVersion(Broadcasts2(secrets, n), bound) == None
    decreases bound
  {
    hide Commit;
    if bound > 0 { HonestVersions(secrets, n, bound - 1); }
  }

  // The whole run

  function JointChainCode(secrets: Dealing, n: nat): Digest {
    HonestChainCode(secrets, n, n);
    ChainCode(n, Broadcasts2(secrets, n), Broadcasts3(secrets, n)).value
  }

  /** The group that results from a run. */
  ghost function GroupOf(secrets: Dealing, params: Parameters, sid: Bytes): Group {
    Group(params, Joint(secrets, params.shareCount), TableOf(secrets), sid, 0, 0, ToBe(0, FINGERPRINT_BYTES),
          JointChainCode(secrets, params.shareCount))
  }

  function Run4(secrets: Dealing, params: Parameters, sid: Bytes, i: nat, inbox: Inbox)
    : Result<(Party, PublicKeyPackage), AbortReason>
    requires ValidParameters(params)
  {
    var n := params.shareCount;
    Phase4Reason(SessionData(params, i, sid), ShareOf(secrets, n, i), inbox.pcs,
                 Seeds(OwnOpenings(secrets, n, i)), inbox.zero2, inbox.zero3,
                 OwnPairs(secrets, n, i), inbox.pairs, Broadcasts2(secrets, n), Broadcasts3(secrets, n))
  }

  /** The outcome of phase 4 for party i. */
  ghost predicate RunFits(secrets: Dealing, params: Parameters, sid: Bytes, i: nat, inbox: Inbox, party: Party)
    requires ValidParameters(params)
  {
    && PartyFits(party, i, GroupOf(secrets, params, sid))
    && HalvesOf(secrets, params.shareCount, sid, i, (party.mulSenders, party.mulReceivers))
    && Run4(secrets, params, sid, i, inbox)
         == Ok((party, PublicKeyPackage(party.pk, PointsOf(inbox.pcs), params)))
  }

  lemma HonestPhase4(secrets: Dealing, params: Parameters, sid: Bytes, i: nat, inbox: Inbox) returns (party: Party)
    requires ValidParameters(params) && params.shareCount < MAX_INDEX && Degrees(secrets, params)
    requires 0 < i <= params.shareCount
    requires RunHonest(secrets, params.shareCount, sid) && InboxOf(secrets, params.shareCount, sid, i, inbox)
    ensures RunFits(secrets, params, sid, i, inbox, party)
  {
    hide Eval, Reduce, Step5Result, ZeroBlock, MulBlock, ChainCode, WrongVersion, HoldsSeeds, PairsHonest, ProofsHonest, Delivered, Joint,
         ShareOf, DLogVerify, SenderHalf, ReceiverHalf, AllProofs, Broadcasts2, Broadcasts3, OwnOpenings, OwnPairs,
         CommitmentsTo, OpeningsTo, PairsTo, Seeds, Others, TableOf;
    var n := params.shareCount;
    HonestVersions(secrets, n, MAX_INDEX);
    HonestStep5(secrets, params, sid, i, inbox.pcs);
    ShareIsValue(secrets, n, i);
    var seeds := HonestSeeds(secrets, n, i, inbox.zero2, inbox.zero3);
    var maps := HonestPairs(secrets, n, sid, i, inbox.pairs);
    HonestChainCode(secrets, n, n);
    var pk := GTimes(Eval(Joint(secrets, n), 0));
    party := Party(params, i, sid, ShareOf(secrets, n, i), pk, seeds, maps.0, maps.1,
                   DerivData(0, 0, ToBe(0, FINGERPRINT_BYTES), ShareOf(secrets, n, i), pk, JointChainCode(secrets, n)));
  }

  /** Key generation by honest parties: for every t, n up to 254, all randomness that avoids the
      degenerate cases and every order of delivery, phase 4 succeeds for everybody and the parties
      fit together around the sum of their polynomials. */
  lemma DkgEstablishes(secrets: Dealing, params: Parameters, sid: Bytes, inboxes: nat -> Inbox)
    returns (parties: map<nat, Party>)
    requires ValidParameters(params) && params.shareCount < MAX_INDEX && Degrees(secrets, params)
    requires RunHonest(secrets, params.shareCount, sid)
    requires forall i: nat :: 0 < i <= params.shareCount ==> InboxOf(secrets, params.shareCount, sid, i, inboxes(i))
    ensures forall i :: i in parties <==> 0 < i <= params.shareCount
    ensures forall i <- parties :: Run4(secrets, params, sid, i, inboxes(i))
                                == Ok((parties[i], PublicKeyPackage(parties[i].pk, PointsOf(inboxes(i).pcs), params)))
    ensures Compatible(parties, GroupOf(secrets, params, sid))
  {
    hide Run4, PartyFits, InboxOf, RunHonest, Symmetric, Joint, PairsFit, HalvesOf, PointsOf, GroupOf;
    parties := Gather(secrets, params, sid, inboxes, params.shareCount);
    HonestParts(secrets, params.shareCount, sid);
    PairsOfRun(secrets, params.shareCount, sid, parties);
    TableSymmetric(secrets);
    JointDegree(secrets, params);
    GroupFields(secrets, params, sid);
  }

  lemma HonestParts(secrets: Dealing, n: nat, sid: Bytes)
    requires RunHonest(secrets, n, sid)
    ensures PairsHonest(secrets, n, sid)
  {}

  lemma GroupFields(secrets: Dealing, params: Parameters, sid: Bytes)
    ensures var g := GroupOf(secrets, params, sid);
            g.parameters == params && g.poly == Joint(secrets, params.shareCount) && g.seeds == TableOf(secrets)
  {
    hide Joint, TableOf, JointChainCode;
  }

  /** The outcomes of the first k parties. */
  lemma {:induction false} Gather(secrets: Dealing, params: Parameters, sid: Bytes, inboxes: nat -> Inbox, k: nat)
    returns (parties: map<nat, Party>)
    requires ValidParameters(params) && params.shareCount < MAX_INDEX && Degrees(secrets, params) && k <= params.shareCount
    requires RunHonest(secrets, params.shareCount, sid)
    requires forall i: nat :: 0 < i <= params.shareCount ==> InboxOf(secrets, params.shareCount, sid, i, inboxes(i))
    ensures forall i :: i in parties <==> 0 < i <= k
    ensures forall i <- parties :: RunFits(secrets, params, sid, i, inboxes(i), parties[i])
    decreases k
  {
    hide RunFits, RunHonest, InboxOf, Degrees;
    if k == 0 {
      parties := map[];
    } else {
      parties := Gather(secrets, params, sid, inboxes, k - 1);
      assert InboxOf(secrets, params.shareCount, sid, k, inboxes(k));
      var party := HonestPhase4(secrets, params, sid, k, inboxes(k));
      parties := parties[k := party];
    }
  }

  lemma PairsOfRun(secrets: Dealing, n: nat, sid: Bytes, parties: map<nat, Party>)
    requires PairsHonest(secrets, n, sid) && forall i :: i in parties <==> 0 < i <= n
    requires forall i <- parties :: HalvesOf(secrets, n, sid, i, (parties[i].mulSenders, parties[i].mulReceivers))
    ensures PairsFit(parties)
  {
    hide MulPair, PairHonest, SenderHalf, ReceiverHalf, HalvesOf;
    forall i, j | i in parties && j in parties && i != j
      ensures j in parties[i].mulSenders && i in parties[j].mulReceivers
      ensures MulPair(parties[i].mulSenders[j], parties[j].mulReceivers[i])
    {
      assert PairHonest(secrets, sid, j, i);
      PairSucceeds(secrets, sid, j, i);
      HalfHeld(secrets, n, sid, i, j, (parties[i].mulSenders, parties[i].mulReceivers));
      HalfHeld(secrets, n, sid, j, i, (parties[j].mulSenders, parties[j].mulReceivers));
    }
  }

  lemma HalfHeld(secrets: Dealing, n: nat, sid: Bytes, i: nat, j: nat, maps: MulMaps)
    requires HalvesOf(secrets, n, sid, i, maps) && 0 < j <= n && j != i
    ensures j in maps.0 && SenderHalf(secrets, sid, j, i) == Ok(maps.0[j])
    ensures j in maps.1 && ReceiverHalf(secrets, sid, i, j) == Ok(maps.1[j])
  {
    hide SenderHalf, ReceiverHalf;
    assert j in Others(i, n);
  }

  /** The public key package of phase 4 is the package of the group. */
  lemma PackageOfRun(secrets: Dealing, params: Parameters, sid: Bytes, pcs: seq<ProofCommitment>)
    requires ValidParameters(params) && ProofsHonest(secrets, params.shareCount, sid)
    requires AllProofs(secrets, params.shareCount, sid, pcs)
    ensures PackageFits(PublicKeyPackage(GTimes(Eval(Joint(secrets, params.shareCount), 0)), PointsOf(pcs), params),
                        GroupOf(secrets, params, sid))
  {
    hide Eval, Reduce, DLogVerify, DLogCommitment, PointsOf, Joint, ShareOf, TableOf, JointChainCode, SharesProved;
    var n := params.shareCount;
    PointsAll(secrets, n, sid, pcs);
    ProofsPoints(secrets, n, sid);
    PointsJoint(secrets, n, sid, pcs);
  }
}
