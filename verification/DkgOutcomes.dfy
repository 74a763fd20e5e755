/** Key generation exactly: that the messages of the phases are the ones the honest run is about, and
    when that run succeeds. */
module DkgOutcomes {
  import opened Scalars
  import opened Sums
  import opened Shamir
  import opened Results
  import opened Bits
  import opened Hashes
  import opened Curve
  import opened Proofs
  import opened BaseOt
  import opened ZeroShares
  import opened OtExtension
  import opened Multiplication
  import opened MulInit
  import opened Parties
  import opened Routing
  import opened KeyInit
  import opened Dkg
  import opened DkgPhases
  import opened DkgRun

  // Delivery

  /** Party i receives, in any order, the one message that each of the others addressed to it. */
  ghost predicate Received<T(!new)>(i: nat, n: nat, sent: nat -> seq<Routed<T>>, ms: seq<Routed<T>>) {
    && (forall a, b :: 0 <= a < b < |ms| ==> ms[a].sender != ms[b].sender)
    && (forall k :: 0 <= k < |ms| ==> ms[k].receiver == i && ms[k].sender in Others(i, n) && ms[k] in sent(ms[k].sender))
    && (forall j <- Others(i, n) :: exists k :: 0 <= k < |ms| && ms[k].sender == j)
  }

  lemma AddressDelivers<T(!new)>(i: nat, n: nat, sent: nat -> seq<Routed<T>>, bodies: nat -> map<nat, T>,
                                 ms: seq<Routed<T>>, expected: map<nat, T>)
    requires forall j <- Others(i, n) :: sent(j) == Address(j, n, bodies(j))
    requires expected.Keys == Others(i, n) && forall j <- expected :: i in bodies(j) && expected[j] == bodies(j)[i]
    requires Received(i, n, sent, ms)
    ensures Delivered(i, ms, expected)
  {
    hide Address;
    forall k | 0 <= k < |ms| ensures ms[k].sender in expected && ms[k].body == expected[ms[k].sender] {
      var j := ms[k].sender;
      AddressSpec(j, n, bodies(j));
    }
  }

  /** What party j draws for its pairs. */
  function OwnDraws(secrets: Dealing, n: nat, j: nat): (draws: map<nat, PairDraws>)
    ensures draws.Keys == Others(j, n) && forall k <- draws :: PairSized(draws[k])
  {
    map k | k in Others(j, n) :: secrets(j).pair(k)
  }

  /** What party j sends in phases 2 and 3, as `CommitSeeds`, `RevealSeeds` and `StartPairs` state it. */
  function SentCommitments(secrets: Dealing, n: nat, j: nat): seq<Routed<Digest>> {
    Address(j, n, SeedCommitments(OwnOpenings(secrets, n, j)))
  }

  function SentOpenings(secrets: Dealing, n: nat, j: nat): seq<Routed<Opening>> {
    Address(j, n, OwnOpenings(secrets, n, j))
  }

  function SentPairs(secrets: Dealing, n: nat, sid: Bytes, j: nat): seq<Routed<MulInitMessage>> {
    Address(j, n, PairMessages(j, sid, OwnDraws(secrets, n, j)))
  }

  /** What the phases transmit and keep is what the honest run is about, in every order of arrival. */
  lemma PhasesDeliver(secrets: Dealing, n: nat, sid: Bytes, i: nat, inbox: Inbox)
    requires 0 < i <= n && AllProofs(secrets, n, sid, inbox.pcs)
    requires Received(i, n, (j: nat) => SentCommitments(secrets, n, j), inbox.zero2)
    requires Received(i, n, (j: nat) => SentOpenings(secrets, n, j), inbox.zero3)
    requires Received(i, n, (j: nat) => SentPairs(secrets, n, sid, j), inbox.pairs)
    ensures InboxOf(secrets, n, sid, i, inbox)
    ensures KeptPairs(OwnDraws(secrets, n, i)) == OwnPairs(secrets, n, i)
  {
    hide AllProofs, Delivered, Received, CommitmentsTo, OpeningsTo, PairsTo, SentCommitments, SentOpenings, SentPairs, KeptPairs,
         OwnPairs;
    CommitmentsDeliver(secrets, n, i, inbox.zero2);
    OpeningsDeliver(secrets, n, i, inbox.zero3);
    PairsDeliver(secrets, n, sid, i, inbox.pairs);
    PairsAreKept(secrets, n, i);
  }

  lemma CommitmentsDeliver(secrets: Dealing, n: nat, i: nat, ms: seq<Routed<Digest>>)
    requires 0 < i <= n && Received(i, n, (j: nat) => SentCommitments(secrets, n, j), ms)
    ensures Delivered(i, ms, CommitmentsTo(secrets, n, i))
  {
    hide Address, Commit, Delivered, Received;
    AddressDelivers(i, n, (j: nat) => SentCommitments(secrets, n, j), (j: nat) => SeedCommitments(OwnOpenings(secrets, n, j)),
                    ms, CommitmentsTo(secrets, n, i));
  }

  lemma OpeningsDeliver(secrets: Dealing, n: nat, i: nat, ms: seq<Routed<Opening>>)
    requires 0 < i <= n && Received(i, n, (j: nat) => SentOpenings(secrets, n, j), ms)
    ensures Delivered(i, ms, OpeningsTo(secrets, n, i))
  {
    hide Address, Delivered, Received;
    AddressDelivers(i, n, (j: nat) => SentOpenings(secrets, n, j), (j: nat) => OwnOpenings(secrets, n, j),
                    ms, OpeningsTo(secrets, n, i));
  }

  lemma PairsDeliver(secrets: Dealing, n: nat, sid: Bytes, i: nat, ms: seq<Routed<MulInitMessage>>)
    requires 0 < i <= n && Received(i, n, (j: nat) => SentPairs(secrets, n, sid, j), ms)
    ensures Delivered(i, ms, PairsTo(secrets, n, sid, i))
  {
    hide Address, PairMessage, Delivered, Received;
    AddressDelivers(i, n, (j: nat) => SentPairs(secrets, n, sid, j), (j: nat) => PairMessages(j, sid, OwnDraws(secrets, n, j)),
                    ms, PairsTo(secrets, n, sid, i));
  }

  lemma PairsAreKept(secrets: Dealing, n: nat, i: nat)
    ensures KeptPairs(OwnDraws(secrets, n, i)) == OwnPairs(secrets, n, i)
  {
    hide PairKept;
  }

  /** The fragments that the dealers compute for party i in step 2 sum to its share in step 3. */
  lemma FragmentsDealt(secrets: Dealing, n: nat, i: nat, fragments: seq<Scalar>)
    requires 0 < i <= n && |fragments| == n
    requires forall k :: 0 <= k < n ==> fragments[k] == Evaluations(secrets(k + 1).poly, n)[i - 1]
    ensures SumSeq(fragments) == ShareOf(secrets, n, i)
  {
    hide Eval, Reduce, SumSeq;
    assert fragments == ValuesAt(Polys(secrets, n), Reduce(i));
  }

  // When phase 4 succeeds

  /** Every base-OT proof is for the secret of its sender, as the search returns it. */
  ghost predicate PairsProved(secrets: Dealing, n: nat) {
    forall i: nat, j: nat :: 0 < i <= n && j in Others(i, n) ==>
      secrets(i).pair(j).ot.proof.point == GTimes(secrets(i).pair(j).ot.s)
  }

  lemma ReceiverHalfExact(secrets: Dealing, sid: Bytes, receiver: nat, sender: nat)
    requires secrets(receiver).pair(sender).ot.proof.point == GTimes(secrets(receiver).pair(sender).ot.s)
    ensures var s := secrets(sender).pair(receiver);
            (ReceiverHalf(secrets, sid, receiver, sender).Ok?
             <==> AllNonDegenerate(MulSid(receiver, sender, sid), s.seed, s.correlation, s.draws))
    ensures SenderHalf(secrets, sid, receiver, sender).Ok?
       <==> DLogVerify(secrets(receiver).pair(sender).ot.proof, MulSid(receiver, sender, sid))
  {
    hide InitSender, InitReceiver, DLogVerify, AllNonDegenerate, ReceiverProofs, MulSid, MulPair;
    var r, s := secrets(receiver).pair(sender), secrets(sender).pair(receiver);
    InitEstablishes(r.ot, MulSid(receiver, sender, sid), s.seed, s.correlation, s.draws, PairKept(s).rs, r.nonce);
  }

  /** What party i needs from the pair with j: j's statements as base-OT receiver are not degenerate,
      and j's base-OT proof verifies. */
  predicate PairFine(secrets: Dealing, sid: Bytes, i: nat, j: nat) {
    && AllNonDegenerate(MulSid(i, j, sid), secrets(j).pair(i).seed, secrets(j).pair(i).correlation, secrets(j).pair(i).draws)
    && DLogVerify(secrets(j).pair(i).ot.proof, MulSid(j, i, sid))
  }

  /** Nothing drawn by the parties is degenerate for party i, and the proofs it receives verify. */
  ghost predicate Completes(secrets: Dealing, params: Parameters, sid: Bytes, i: nat) {
    var n := params.shareCount;
    && n < MAX_INDEX
    && (forall j: nat :: 0 < j <= n && j != i ==> DLogVerify(secrets(j).proof, sid))
    && !TrivialShare(Eval(Joint(secrets, n), 0))
    && !TrivialShare(ShareOf(secrets, n, i))
    && forall j <- Others(i, n) :: PairFine(secrets, sid, i, j)
  }

  /** With 255 parties the window check cannot leave a usable key, so phase 4 never succeeds, whatever
      it is given. */
  lemma NeverAt255(data: SessionData, polyPoint: Scalar, pcs: seq<ProofCommitment>,
                   zeroKept: map<nat, Digest>, zero2: seq<Routed<Digest>>, zero3: seq<Routed<Opening>>,
                   mulKept: map<nat, MulInitKept>, mulMessages: seq<Routed<MulInitMessage>>,
                   bip2: map<nat, Broadcast2>, bip3: map<nat, Broadcast3>)
    requires ValidParameters(data.parameters) && data.parameters.shareCount == MAX_INDEX
    ensures Phase4Reason(data, polyPoint, pcs, zeroKept, zero2, zero3, mulKept, mulMessages, bip2, bip3).Err?
  {
    hide Step5Result, FirstRejected, PointsOf, Phase4Rest, WrongVersion, OnPolynomial, Eval;
    var params := data.parameters;
    if params.threshold < MAX_INDEX {
      LastWindowWraps(params, data.index, data.sid, pcs);
    } else {
      FullThresholdUnchecked(params, data.index, data.sid, pcs);
      Step5Errors(params, data.index, data.sid, pcs);
    }
  }

  /** Phase 4 on the messages of honest parties, in any order: it succeeds for party i exactly when the
      key and the share of i are not trivial, the proofs that i receives verify, no statement sent to i
      is degenerate, and there are fewer than 255 parties. */
  lemma HonestRunExact(secrets: Dealing, params: Parameters, sid: Bytes, i: nat, inbox: Inbox)
    requires ValidParameters(params) && Degrees(secrets, params) && 0 < i <= params.shareCount
    requires SharesProved(secrets, params.shareCount) && PairsProved(secrets, params.shareCount)
    requires InboxOf(secrets, params.shareCount, sid, i, inbox)
    ensures Run4(secrets, params, sid, i, inbox).Ok? <==> Completes(secrets, params, sid, i)
  {
    hide Eval, Step5Result, ZeroBlock, MulBlock, ChainCode, WrongVersion, HoldsSeeds, Delivered, Joint, ShareOf, DLogVerify,
         SenderHalf, ReceiverHalf, AllProofs, Broadcasts2, Broadcasts3, OwnOpenings, OwnPairs, CommitmentsTo, OpeningsTo, PairsTo,
         Seeds, Others, TableOf, SharesProved, PairsProved, PairFine, HalvesOf, FirstRejected, PointsOf;
    var n := params.shareCount;
    if n == MAX_INDEX {
      NeverAt255(SessionData(params, i, sid), ShareOf(secrets, n, i), inbox.pcs, Seeds(OwnOpenings(secrets, n, i)), inbox.zero2,
                 inbox.zero3, OwnPairs(secrets, n, i), inbox.pairs, Broadcasts2(secrets, n), Broadcasts3(secrets, n));
    } else {
      HonestVersions(secrets, n, MAX_INDEX);
      Step5Exact(secrets, params, sid, i, inbox.pcs);
      var seeds := HonestSeeds(secrets, n, i, inbox.zero2, inbox.zero3);
      HonestChainCode(secrets, n, n);
      MulBlockExact(secrets, n, sid, i, inbox.pairs);
      forall j | j in Others(i, n)
        ensures PairFine(secrets, sid, i, j) <==> ReceiverHalf(secrets, sid, i, j).Ok? && SenderHalf(secrets, sid, j, i).Ok?
      {
        PairExact(secrets, n, sid, i, j);
      }
    }
  }

  lemma PairExact(secrets: Dealing, n: nat, sid: Bytes, i: nat, j: nat)
    requires PairsProved(secrets, n) && 0 < i <= n && j in Others(i, n)
    ensures PairFine(secrets, sid, i, j) <==> ReceiverHalf(secrets, sid, i, j).Ok? && SenderHalf(secrets, sid, j, i).Ok?
  {
    hide DLogVerify, AllNonDegenerate, MulSid, SenderHalf, ReceiverHalf;
    assert i in Others(j, n);
    ReceiverHalfExact(secrets, sid, i, j);
    ReceiverHalfExact(secrets, sid, j, i);
  }

  lemma Step5Exact(secrets: Dealing, params: Parameters, sid: Bytes, i: nat, pcs: seq<ProofCommitment>)
    requires ValidParameters(params) && params.shareCount < MAX_INDEX && Degrees(secrets, params)
    requires SharesProved(secrets, params.shareCount) && AllProofs(secrets, params.shareCount, sid, pcs)
    ensures var r := Step5Result(params, i, sid, pcs);
            && (r.Ok? <==> forall j: nat :: 0 < j <= params.shareCount && j != i ==> DLogVerify(secrets(j).proof, sid))
            && (r.Ok? ==> r == Ok((GTimes(Eval(Joint(secrets, params.shareCount), 0)), PointsOf(pcs))))
  {
    hide Eval, DLogVerify, PointsOf, FirstRejected, Joint, Step5Result, SharesProved, AllProofs, OnPolynomial;
    var n := params.shareCount;
    JointDegree(secrets, params);
    PointsJoint(secrets, n, sid, pcs);
    NoneRejected(secrets, n, sid, i, pcs);
    Step5Errors(params, i, sid, pcs);
    if FirstRejected(i, sid, pcs) == None { OnePolynomial(params, i, sid, pcs, GTimes(Eval(Joint(secrets, n), 0))); }
  }
}
