/** Signing by a set of honest parties, for all randomness and every order of delivery. */
module SignRun {
  import opened Scalars
  import opened Sums
  import opened Shamir
  import opened Results
  import opened OtConstants
  import opened Hashes
  import opened Hex
  import opened Curve
  import opened ZeroShares
  import opened OtExtension
  import opened Multiplication
  import opened MulInit
  import opened Parties
  import opened Routing
  import opened Dkg
  import opened Ecdsa
  import opened SignAlgebra
  import opened Compatibility
  import opened Signing
  import KeyInit

  /** A signing session: who signs what, the order in which each signer lists the others, and
      everything that is drawn. */
  datatype Session = Session(xs: seq<nat>, signId: Bytes, hash: Digest, party: nat -> Party, order: nat -> seq<nat>,
                             key: nat -> Scalar, mask: nat -> Scalar,
                             draw1: nat -> nat -> SizedDraw1, draw2: nat -> nat -> SizedDraw2)

  function DataOf(s: Session, i: nat): SignData {
    SignData(s.signId, s.order(i), s.hash)
  }

  ghost predicate SignerFits(s: Session, g: Group, i: nat) {
    && PartyFits(s.party(i), i, g)
    && PartySized(s.party(i))
    && multiset(s.order(i)) == multiset(Without(s.xs, i))
  }

  ghost predicate PairFits(s: Session, i: nat, j: nat) {
    && j in s.party(i).mulSenders
    && i in s.party(j).mulReceivers
    && MulPair(s.party(i).mulSenders[j], s.party(j).mulReceivers[i])
  }

  /** Any t distinct parties of a group that fits together, with identifiers of the right length. */
  ghost predicate SessionFits(s: Session, g: Group) {
    && ValidParameters(g.parameters)
    && Distinct(s.xs) && |s.xs| == g.parameters.threshold && |g.poly| <= g.parameters.threshold
    && (forall i <- s.xs :: 0 < i <= g.parameters.shareCount)
    && |s.signId| == |g.sid| == ID_LEN
    && Symmetric(g.seeds)
    && (forall i <- s.xs :: SignerFits(s, g, i))
    && (forall i <- s.xs, j <- s.xs :: i != j ==> PairFits(s, i, j))
  }

  lemma OrderMembers(s: Session, g: Group, i: nat)
    requires SessionFits(s, g) && i in s.xs
    ensures Distinct(s.order(i)) && |s.order(i)| == g.parameters.threshold - 1
    ensures forall j :: j in s.order(i) <==> j in s.xs && j != i
  {
    hide PartyFits, PairFits, PartySized, Symmetric;
    WithoutMembers(s.xs, i);
    assert SignerFits(s, g, i);
    SamePermutation(s.order(i), Without(s.xs, i));
  }

  lemma SamePermutation(ys: seq<nat>, zs: seq<nat>)
    requires multiset(ys) == multiset(zs) && Distinct(zs)
    ensures Distinct(ys) && |ys| == |zs|
    ensures forall j :: j in ys <==> j in zs
  {
    assert |multiset(ys)| == |ys| && |multiset(zs)| == |zs|;
    forall j ensures j in ys <==> j in zs { assert j in ys <==> j in multiset(ys); assert j in zs <==> j in multiset(zs); }
    DistinctMultiset(zs);
    forall i, j | 0 <= i < j < |ys| ensures ys[i] != ys[j] {
      assert ys == ys[..i] + [ys[i]] + ys[i + 1..j] + [ys[j]] + ys[j + 1..];
      assert ys[i] == ys[j] ==> multiset(ys)[ys[i]] >= 2;
      assert multiset(ys)[ys[i]] == multiset(zs)[ys[i]] <= 1;
    }
  }

  // Pairwise multiplications

  /** The multiplication of receiver i with sender j: the receiver's factor, what it keeps and sends,
      and what the sender answers, with both outputs. */
  datatype Exchange = Exchange(chi: Scalar, kept: MulKept, ote: OteData, sent: seq<Scalar>, message: MulData, got: seq<Scalar>)

  function MulSidOf(s: Session, i: nat, j: nat): Bytes {
    SignMulSid(i, j, s.party(i), DataOf(s, i))
  }

  function ShareInput(s: Session, i: nat): Scalar {
    KeyShare(s.party(i), DataOf(s, i), Zeta(s, i))
  }

  function Zeta(s: Session, i: nat): Scalar {
    Compute(s.party(i).zeroShare, s.order(i), ZeroSid(s.party(i), DataOf(s, i)))
  }

  /** What the exchange of the pair yields. */
  ghost predicate Exchanged(s: Session, i: nat, j: nat, o: Exchange)
    requires i in s.party(j).mulSenders && j in s.party(i).mulReceivers
    requires |s.party(j).mulSenders[i].gadget| == |s.party(i).mulReceivers[j].gadget| == BATCH_SIZE
  {
    var receiver, sender, sid := s.party(i).mulReceivers[j], s.party(j).mulSenders[i], MulSidOf(s, i, j);
    && KeptSized(o.kept) && |o.sent| == |o.got| == L
    && RunPhase1(receiver, sid, s.draw1(i)(j).choice, s.draw1(i)(j).noise) == Ok((o.chi, o.kept, o.ote))
    && Run(sender, sid, [s.key(j), ShareInput(s, j)], s.draw2(j)(i).aTilde, s.draw2(j)(i).aHat, o.ote) == Ok((o.sent, o.message))
    && RunPhase2(receiver, sid, o.kept, o.message) == Ok(o.got)
    && Add(o.sent[0], o.got[0]) == Mul(o.chi, s.key(j))
    && Add(o.sent[1], o.got[1]) == Mul(o.chi, ShareInput(s, j))
  }

  lemma PairExchange(s: Session, g: Group, i: nat, j: nat) returns (o: Exchange)
    requires SessionFits(s, g) && i in s.xs && j in s.xs && i != j
    ensures PairFits(s, j, i) && Exchanged(s, i, j, o)
  {
    assert PairFits(s, j, i);
    hide PartyFits, PartySized, Symmetric, PairFits;
    hide Run, RunPhase1, RunPhase2, KeyShare, Zeta, SeedRelation, Selected, MulSidOf;
    var receiver, sender := s.party(i).mulReceivers[j], s.party(j).mulSenders[i];
    var kept, ote, sent, message, got :=
      MulExchange(sender, receiver, MulSidOf(s, i, j), [s.key(j), ShareInput(s, j)], s.draw2(j)(i).aTilde, s.draw2(j)(i).aHat,
                  s.draw1(i)(j).choice, s.draw1(i)(j).noise);
    o := Exchange(Selected(receiver.gadget, s.draw1(i)(j).choice), kept, ote, sent, message, got);
  }

  /** Both parties of a pair derive the same identifier. */
  lemma SameMulSid(s: Session, g: Group, i: nat, j: nat)
    requires SessionFits(s, g) && i in s.xs && j in s.xs
    ensures SignMulSid(i, j, s.party(j), DataOf(s, j)) == MulSidOf(s, i, j)
    ensures RootDigest(s.party(i), DataOf(s, i)) == RootDigest(s.party(j), DataOf(s, j))
    ensures ZeroSid(s.party(i), DataOf(s, i)) == ZeroSid(s.party(j), DataOf(s, j))
  {
    assert SignerFits(s, g, i) && SignerFits(s, g, j);
    hide KeyInit.MulSid, TaggedHash, HoldsSeeds;
  }

  /** All pairs of a session. */
  type Outcomes = (nat, nat) -> Exchange

  ghost predicate AllExchanged(s: Session, os: Outcomes) {
    forall i <- s.xs, j <- s.xs :: i != j ==>
      && i in s.party(j).mulSenders && j in s.party(i).mulReceivers
      && |s.party(j).mulSenders[i].gadget| == |s.party(i).mulReceivers[j].gadget| == BATCH_SIZE
      && Exchanged(s, i, j, os(i, j))
  }

  ghost function PairOutcome(s: Session, g: Group, i: nat, j: nat): (o: Exchange)
    requires SessionFits(s, g) && i in s.xs && j in s.xs && i != j
    ensures PairFits(s, j, i) && Exchanged(s, i, j, o)
  {
    assert exists o :: PairFits(s, j, i) && Exchanged(s, i, j, o) by { var o := PairExchange(s, g, i, j); }
    var o :| PairFits(s, j, i) && Exchanged(s, i, j, o);
    o
  }

  lemma Exchanges(s: Session, g: Group) returns (os: Outcomes)
    requires SessionFits(s, g)
    ensures AllExchanged(s, os)
  {
    var nothing := Exchange(0, MulKept(0, [], [], [], []), OteData([], seq(OT_SECURITY_BYTES, _ => 0), []), [],
                           MulData([], Zeros(), [], []), []);
    os := (i: nat, j: nat) => if i in s.xs && j in s.xs && i != j && SessionFits(s, g) then PairOutcome(s, g, i, j) else nothing;
    forall i, j | i in s.xs && j in s.xs && i != j
      ensures PairFits(s, j, i) && Exchanged(s, i, j, os(i, j))
    {
      assert os(i, j) == PairOutcome(s, g, i, j);
    }
    hide SessionFits, Exchanged;
  }

  // Phase 1

  function Body1To(s: Session, os: Outcomes, i: nat, c: nat): Body1 {
    Body1(CommitPoint(GTimes(s.key(i)), s.draw1(i)(c).salt), PROTOCOL_VERSION, RootDigest(s.party(i), DataOf(s, i)), os(i, c).ote)
  }

  function Keep1For(s: Session, os: Outcomes, i: nat, c: nat): Keep1 {
    Keep1(s.draw1(i)(c).salt, os(i, c).chi, os(i, c).kept)
  }

  /** Party i keeps what is due for every other signer. */
  predicate Keeps1(s: Session, os: Outcomes, i: nat, keep: map<nat, Keep1>) {
    forall c <- s.xs :: c != i ==> c in keep && keep[c] == Keep1For(s, os, i, c)
  }

  lemma {:induction false} NoCounterpartyFault(party: Party, cps: seq<nat>, n: nat)
    requires n <= |cps| && Distinct(cps)
    requires forall c <- cps :: c <= party.parameters.shareCount && c != party.index && c in party.mulSenders && c in party.mulReceivers
    ensures CounterpartyFault(party, cps, n) == None
  {
    if n > 0 {
      NoCounterpartyFault(party, cps, n - 1);
      var c := cps[n - 1];
      assert c in cps;
      assert forall k :: 0 <= k < n - 1 ==> cps[k] != c;
    }
  }

  lemma NoPhase1Fault(s: Session, g: Group, i: nat)
    requires SessionFits(s, g) && i in s.xs
    ensures Phase1Fault(s.party(i), DataOf(s, i)) == None
  {
    OrderMembers(s, g, i);
    assert SignerFits(s, g, i);
    hide HoldsSeeds, CounterpartyFault, MulPair;
    forall c | c in s.order(i) ensures c in s.party(i).mulSenders && c in s.party(i).mulReceivers {
      assert PairFits(s, i, c) && PairFits(s, c, i);
    }
    NoCounterpartyFault(s.party(i), s.order(i), |s.order(i)|);
  }

  /** The first n entries that party i keeps, and the first n messages it sends. */
  function Kept1(s: Session, os: Outcomes, i: nat, n: nat): map<nat, Keep1>
    requires n <= |s.order(i)|
  {
    if n == 0 then map[] else Kept1(s, os, i, n - 1)[s.order(i)[n - 1] := Keep1For(s, os, i, s.order(i)[n - 1])]
  }

  function Sent1(s: Session, os: Outcomes, i: nat, n: nat): seq<Routed<Body1>>
    requires n <= |s.order(i)|
  {
    if n == 0 then []
    else Sent1(s, os, i, n - 1) + [Routed(i, s.order(i)[n - 1], Body1To(s, os, i, s.order(i)[n - 1]))]
  }

  /** The receiver's first step with party c has the outcome `os`. */
  predicate FirstStep(s: Session, os: Outcomes, i: nat, c: nat) {
    && c in s.party(i).mulReceivers
    && |s.party(i).mulReceivers[c].gadget| == BATCH_SIZE
    && RunPhase1(s.party(i).mulReceivers[c], SignMulSid(i, c, s.party(i), DataOf(s, i)), s.draw1(i)(c).choice, s.draw1(i)(c).noise)
         == Ok((os(i, c).chi, os(i, c).kept, os(i, c).ote))
  }

  lemma FirstSteps(s: Session, os: Outcomes, i: nat, c: nat)
    requires AllExchanged(s, os) && i in s.xs && c in s.xs && i != c
    ensures FirstStep(s, os, i, c)
  {
    hide RunPhase1, Run, RunPhase2, SignMulSid, ShareInput;
  }

  lemma {:induction false} Messages1(s: Session, os: Outcomes, i: nat, n: nat)
    requires n <= |s.order(i)| && PartySized(s.party(i)) && s.party(i).index == i
    requires forall c <- s.order(i) :: FirstStep(s, os, i, c)
    ensures Phase1Messages(s.party(i), DataOf(s, i), GTimes(s.key(i)), s.draw1(i), n)
         == Ok((Kept1(s, os, i, n), Sent1(s, os, i, n)))
    decreases n
  {
    hide PartySized, RunPhase1, RootDigest, CommitPoint, SignMulSid;
    if n > 0 {
      Messages1(s, os, i, n - 1);
      assert FirstStep(s, os, i, s.order(i)[n - 1]);
    }
  }

  lemma {:induction false} Kept1Spec(s: Session, os: Outcomes, i: nat, n: nat)
    requires n <= |s.order(i)|
    ensures forall k :: 0 <= k < n ==>
      s.order(i)[k] in Kept1(s, os, i, n) && Kept1(s, os, i, n)[s.order(i)[k]] == Keep1For(s, os, i, s.order(i)[k])
    ensures |Sent1(s, os, i, n)| == n
    ensures forall k :: 0 <= k < n ==> Sent1(s, os, i, n)[k] == Routed(i, s.order(i)[k], Body1To(s, os, i, s.order(i)[k]))
    decreases n
  {
    hide Keep1For, Body1To;
    if n > 0 { Kept1Spec(s, os, i, n - 1); }
  }

  /** Phase 1 of an honest signer succeeds and produces its messages. */
  lemma HonestPhase1(s: Session, g: Group, os: Outcomes, i: nat)
    requires SessionFits(s, g) && AllExchanged(s, os) && i in s.xs
    ensures PartySized(s.party(i))
    ensures Phase1(s.party(i), DataOf(s, i), s.key(i), s.mask(i), s.draw1(i))
         == Ok((UniqueOf(s, i), Kept1(s, os, i, |s.order(i)|), Sent1(s, os, i, |s.order(i)|)))
    ensures Keeps1(s, os, i, Kept1(s, os, i, |s.order(i)|))
  {
    hide SessionFits, PartySized, Phase1Messages, Phase1Fault, Keep1For, Body1To, Compute, AllExchanged, FirstStep, SignerFits;
    SignerOf(s, g, i);
    OrderMembers(s, g, i);
    NoPhase1Fault(s, g, i);
    PartyIndex(s, g, i);
    forall c | c in s.order(i) ensures FirstStep(s, os, i, c) { FirstSteps(s, os, i, c); }
    Messages1(s, os, i, |s.order(i)|);
    Kept1Spec(s, os, i, |s.order(i)|);
    hide Kept1, Sent1;
    forall c | c in s.xs && c != i
      ensures c in Kept1(s, os, i, |s.order(i)|) && Kept1(s, os, i, |s.order(i)|)[c] == Keep1For(s, os, i, c)
    {
      assert c in s.order(i);
    }
  }

  function UniqueOf(s: Session, i: nat): Unique1 {
    Unique1(s.key(i), GTimes(s.key(i)), s.mask(i), Zeta(s, i))
  }

  lemma SignerOf(s: Session, g: Group, i: nat)
    requires SessionFits(s, g) && i in s.xs
    ensures SignerFits(s, g, i)
  {
    hide SignerFits, PairFits, Symmetric;
  }

  lemma PartyIndex(s: Session, g: Group, i: nat)
    requires SignerFits(s, g, i)
    ensures s.party(i).index == i && PartySized(s.party(i)) && s.party(i).parameters == g.parameters
    ensures s.party(i).pk == GTimes(Secret(g))
  {}

  // Delivery

  /** Exactly one message from every other signer, in any order. */
  ghost predicate Arrived<T(!new)>(s: Session, i: nat, ms: seq<Routed<T>>, body: nat -> T) {
    && Distinct(Senders(ms))
    && (forall c :: c in Senders(ms) <==> c in s.xs && c != i)
    && (forall k :: 0 <= k < |ms| ==> ms[k].receiver == i && ms[k].body == body(ms[k].sender))
  }

  lemma ArrivedCount<T(!new)>(s: Session, g: Group, i: nat, ms: seq<Routed<T>>, body: nat -> T)
    requires SessionFits(s, g) && i in s.xs && Arrived(s, i, ms, body)
    ensures |ms| == |s.order(i)|
    ensures multiset(Senders(ms)) == multiset(Without(s.xs, i))
    ensures forall k :: 0 <= k < |ms| ==> ms[k].sender in s.xs && ms[k].sender != i && ms[k].sender in s.order(i)
  {
    hide SignerFits, PairFits, Symmetric;
    OrderMembers(s, g, i);
    WithoutMembers(s.xs, i);
    SameMembers(Senders(ms), Without(s.xs, i));
    assert |multiset(Senders(ms))| == |ms|;
    forall k | 0 <= k < |ms| ensures ms[k].sender in s.xs && ms[k].sender != i && ms[k].sender in s.order(i) {
      assert Senders(ms)[k] == ms[k].sender;
    }
  }

  // Phase 2

  function Keep2For(s: Session, os: Outcomes, i: nat, c: nat): Keep2
    requires |os(c, i).sent| == L
  {
    Keep2(os(c, i).sent[0], os(c, i).sent[1], CommitPoint(GTimes(s.key(c)), s.draw1(c)(i).salt), os(i, c).kept, os(i, c).chi)
  }

  function Body2To(s: Session, os: Outcomes, i: nat, c: nat): Body2
    requires |os(c, i).sent| == L
  {
    Body2(GTimes(os(c, i).sent[0]), GTimes(os(c, i).sent[1]), Sub(s.mask(i), os(i, c).chi), GTimes(ShareInput(s, i)),
          GTimes(s.key(i)), s.draw1(i)(c).salt, os(c, i).message)
  }

  lemma {:induction false} NoRoutingFault(s: Session, i: nat, cps: seq<nat>, ms: seq<Routed<Body1>>, n: nat)
    requires n <= |ms| && Distinct(Senders(ms))
    requires forall k :: 0 <= k < |ms| ==> ms[k].receiver == i && ms[k].sender in cps
    ensures RoutingFault(i, cps, ms, n) == None
    decreases n
  {
    if n > 0 {
      NoRoutingFault(s, i, cps, ms, n - 1);
      var before, m := ms[..n - 1], ms[n - 1];
      forall k | 0 <= k < |before| ensures Senders(before)[k] != m.sender {
        assert Senders(ms)[k] != Senders(ms)[n - 1];
      }
    }
  }

  lemma {:induction false} NoVersionFault(ms: seq<Routed<Body1>>, root: Digest, n: nat)
    requires n <= |ms|
    requires forall k :: 0 <= k < |ms| ==> ms[k].body.version == PROTOCOL_VERSION && ms[k].body.root == root
    ensures VersionFault(ms, n) == None && RootFault(ms, root, n) == None
  {
    if n > 0 { NoVersionFault(ms, root, n - 1); }
  }

  lemma NoPhase2Fault(s: Session, g: Group, os: Outcomes, i: nat, ms: seq<Routed<Body1>>)
    requires SessionFits(s, g) && i in s.xs && Arrived(s, i, ms, (c: nat) => Body1To(s, os, c, i))
    ensures Phase2Fault(s.party(i), DataOf(s, i), ms) == None
  {
    hide RoutingFault, VersionFault, RootFault, RootDigest, SignerFits, SessionFits, CommitPoint, Denominator;
    ArrivedCount(s, g, i, ms, (c: nat) => Body1To(s, os, c, i));
    OrderMembers(s, g, i);
    SignerOf(s, g, i);
    PartyIndex(s, g, i);
    IndicesSmall(s, g);
    DenominatorNonzero(i, s.order(i));
    NoRoutingFault(s, i, s.order(i), ms, |ms|);
    forall k | 0 <= k < |ms|
      ensures ms[k].body.version == PROTOCOL_VERSION && ms[k].body.root == RootDigest(s.party(i), DataOf(s, i))
    {
      SameMulSid(s, g, ms[k].sender, i);
    }
    NoVersionFault(ms, RootDigest(s.party(i), DataOf(s, i)), |ms|);
  }

  lemma IndicesSmall(s: Session, g: Group)
    requires SessionFits(s, g)
    ensures Indices(s.xs)
  {}

  /** The sender's step with party c, who is the receiver, has the outcome `os`. */
  predicate SecondStep(s: Session, os: Outcomes, i: nat, c: nat) {
    && c in s.party(i).mulSenders
    && |s.party(i).mulSenders[c].gadget| == BATCH_SIZE
    && |os(c, i).sent| == L
    && Run(s.party(i).mulSenders[c], SignMulSid(c, i, s.party(i), DataOf(s, i)), [s.key(i), ShareInput(s, i)],
           s.draw2(i)(c).aTilde, s.draw2(i)(c).aHat, os(c, i).ote) == Ok((os(c, i).sent, os(c, i).message))
  }

  lemma SecondSteps(s: Session, g: Group, os: Outcomes, i: nat, c: nat)
    requires SessionFits(s, g) && AllExchanged(s, os) && i in s.xs && c in s.xs && i != c
    ensures SecondStep(s, os, i, c)
  {
    SameMulSid(s, g, c, i);
    hide RunPhase1, Run, RunPhase2, SignMulSid, ShareInput, MulSidOf, SessionFits;
  }

  lemma Message2(s: Session, os: Outcomes, i: nat, m: Routed<Body1>, keep: map<nat, Keep1>)
    requires PartySized(s.party(i)) && s.party(i).index == i && SecondStep(s, os, i, m.sender)
    requires m.sender in keep && keep[m.sender] == Keep1For(s, os, i, m.sender) && m.body == Body1To(s, os, m.sender, i)
    ensures Phase2Message(s.party(i), DataOf(s, i), UniqueOf(s, i), keep, ShareInput(s, i), m, s.draw2(i)(m.sender))
         == Ok((Keep2For(s, os, i, m.sender), Body2To(s, os, i, m.sender)))
  {
    hide PartySized, RootDigest, CommitPoint, Run, ShareInput, SignMulSid, Zeta, Mul;
  }

  /** What party i keeps and sends for the first n messages. */
  function Kept2(s: Session, os: Outcomes, i: nat, cs: seq<nat>): map<nat, Keep2>
    requires forall c <- cs :: |os(c, i).sent| == L
  {
    if |cs| == 0 then map[] else Kept2(s, os, i, cs[..|cs| - 1])[cs[|cs| - 1] := Keep2For(s, os, i, cs[|cs| - 1])]
  }

  function Sent2(s: Session, os: Outcomes, i: nat, cs: seq<nat>): seq<Routed<Body2>>
    requires forall c <- cs :: |os(c, i).sent| == L
  {
    if |cs| == 0 then []
    else Sent2(s, os, i, cs[..|cs| - 1]) + [Routed(i, cs[|cs| - 1], Body2To(s, os, i, cs[|cs| - 1]))]
  }

  lemma {:induction false} Messages2(s: Session, os: Outcomes, i: nat, ms: seq<Routed<Body1>>, keep: map<nat, Keep1>, n: nat)
    requires n <= |ms| && PartySized(s.party(i)) && s.party(i).index == i
    requires forall k :: 0 <= k < |ms| ==>
      && SecondStep(s, os, i, ms[k].sender) && ms[k].body == Body1To(s, os, ms[k].sender, i)
      && ms[k].sender in keep && keep[ms[k].sender] == Keep1For(s, os, i, ms[k].sender)
    ensures forall c <- Senders(ms[..n]) :: |os(c, i).sent| == L
    ensures Phase2Messages(s.party(i), DataOf(s, i), UniqueOf(s, i), keep, ShareInput(s, i), ms, s.draw2(i), n)
         == Ok((Kept2(s, os, i, Senders(ms[..n])), Sent2(s, os, i, Senders(ms[..n]))))
    decreases n
  {
    hide PartySized, Phase2Message, Keep2For, Body2To, ShareInput, Zeta, Body1To, Run, SignMulSid, Keep1For, UniqueOf;
    if n > 0 {
      Messages2(s, os, i, ms, keep, n - 1);
      Message2(s, os, i, ms[n - 1], keep);
      assert Senders(ms[..n]) == Senders(ms[..n - 1]) + [ms[n - 1].sender];
    }
  }

  lemma {:induction false} Kept2Spec(s: Session, os: Outcomes, i: nat, cs: seq<nat>)
    requires forall c <- cs :: |os(c, i).sent| == L
    ensures forall c :: c in Kept2(s, os, i, cs) <==> c in cs
    ensures forall c <- cs :: Kept2(s, os, i, cs)[c] == Keep2For(s, os, i, c)
    ensures |Sent2(s, os, i, cs)| == |cs|
    ensures forall k :: 0 <= k < |cs| ==> Sent2(s, os, i, cs)[k] == Routed(i, cs[k], Body2To(s, os, i, cs[k]))
    decreases |cs|
  {
    hide Keep2For, Body2To;
    if |cs| > 0 { Kept2Spec(s, os, i, cs[..|cs| - 1]); }
  }

  /** Party i keeps what phase 3 needs, for every other signer and nobody else. */
  ghost predicate Keeps2(s: Session, os: Outcomes, i: nat, keep: map<nat, Keep2>) {
    && (forall c :: c in keep <==> c in s.xs && c != i)
    && (forall c <- keep :: |os(c, i).sent| == L && keep[c] == Keep2For(s, os, i, c))
  }

  /** Phase 2 of an honest signer succeeds and produces its messages. */
  lemma HonestPhase2(s: Session, g: Group, os: Outcomes, i: nat, ms: seq<Routed<Body1>>, keep: map<nat, Keep1>)
    requires SessionFits(s, g) && AllExchanged(s, os) && i in s.xs && Keeps1(s, os, i, keep)
    requires Arrived(s, i, ms, (c: nat) => Body1To(s, os, c, i))
    ensures PartySized(s.party(i))
    ensures forall c <- Senders(ms) :: |os(c, i).sent| == L
    ensures Phase2(s.party(i), DataOf(s, i), UniqueOf(s, i), keep, ms, s.draw2(i))
         == Ok((Unique2Of(s, i), Kept2(s, os, i, Senders(ms)), Sent2(s, os, i, Senders(ms))))
    ensures Keeps2(s, os, i, Kept2(s, os, i, Senders(ms)))
  {
    hide SessionFits, AllExchanged, PartySized, Phase2Messages, Phase2Fault, Keep2For, Body2To, Zeta, Body1To, KeyShare, SecondStep,
         Kept2, Sent2, SignerFits, Keep1For;
    SignerOf(s, g, i);
    PartyIndex(s, g, i);
    ArrivedCount(s, g, i, ms, (c: nat) => Body1To(s, os, c, i));
    NoPhase2Fault(s, g, os, i, ms);
    forall k | 0 <= k < |ms|
      ensures SecondStep(s, os, i, ms[k].sender) && ms[k].body == Body1To(s, os, ms[k].sender, i)
      ensures ms[k].sender in keep && keep[ms[k].sender] == Keep1For(s, os, i, ms[k].sender)
    {
      SecondSteps(s, g, os, i, ms[k].sender);
    }
    Messages2(s, os, i, ms, keep, |ms|);
    assert ms[..|ms|] == ms;
    Kept2Spec(s, os, i, Senders(ms));
  }

  function Unique2Of(s: Session, i: nat): Unique2 {
    Unique2(s.key(i), GTimes(s.key(i)), s.mask(i), ShareInput(s, i), GTimes(ShareInput(s, i)))
  }
}
