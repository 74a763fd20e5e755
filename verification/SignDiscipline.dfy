/** Discipline around the algebra of signing: what the guards establish, whom a ban can name, and
    when two session identifiers coincide. */
module SignDiscipline {
  import opened Scalars
  import opened Sums
  import opened Shamir
  import opened Results
  import opened OtConstants
  import opened Hashes
  import opened Oracles
  import opened Curve
  import opened ZeroShares
  import opened OtExtension
  import opened Multiplication
  import opened MulInit
  import opened Parties
  import opened Routing
  import opened Signing
  import KeyInit
  import MulErrors

  // Guards

  /** The list of counterparties is sound. */
  predicate CounterpartiesSound(party: Party, cps: seq<nat>) {
    && Distinct(cps)
    && forall k :: 0 <= k < |cps| ==>
         && cps[k] <= party.parameters.shareCount && cps[k] != party.index
         && cps[k] in party.mulSenders && cps[k] in party.mulReceivers
  }

  lemma {:induction false} CounterpartyGuard(party: Party, cps: seq<nat>, n: nat)
    requires n <= |cps|
    ensures CounterpartyFault(party, cps, n) == None <==> CounterpartiesSound(party, cps[..n])
    decreases n
  {
    if n > 0 {
      CounterpartyGuard(party, cps, n - 1);
      SoundStep(party, cps[..n - 1], cps[n - 1]);
      assert cps[..n] == cps[..n - 1] + [cps[n - 1]];
      hide CounterpartiesSound;
    }
  }

  lemma SoundStep(party: Party, cps: seq<nat>, c: nat)
    ensures CounterpartiesSound(party, cps + [c])
       <==> && CounterpartiesSound(party, cps)
            && c <= party.parameters.shareCount && c != party.index && c !in cps
            && c in party.mulSenders && c in party.mulReceivers
  {
    var all := cps + [c];
    forall k | 0 <= k < |cps| ensures all[k] == cps[k] {}
    assert all[|cps|] == c;
    if CounterpartiesSound(party, all) {
      forall k | 0 <= k < |cps| ensures cps[k] != c { assert all[k] != all[|cps|]; }
      forall i, j | 0 <= i < j < |cps| ensures cps[i] != cps[j] { assert all[i] != all[j]; }
    }
  }

  /** The guard of phase 1, exactly. */
  lemma Phase1Guard(party: Party, data: SignData)
    requires PartySized(party)
    ensures Phase1Fault(party, data) == None
       <==> && |party.sid| == |data.signId| == ID_LEN
            && |data.counterparties| == party.parameters.threshold - 1
            && party.index <= party.parameters.shareCount
            && CounterpartiesSound(party, data.counterparties)
  {
    hide CounterpartyFault, CounterpartiesSound;
    CounterpartyGuard(party, data.counterparties, |data.counterparties|);
    assert data.counterparties[..|data.counterparties|] == data.counterparties;
  }

  lemma {:induction false} RoutedSenders(me: nat, cps: seq<nat>, ms: seq<Routed<Body1>>, n: nat)
    requires n <= |ms|
    ensures RoutingFault(me, cps, ms, n) == None
       <==> && Distinct(Senders(ms[..n]))
            && forall k :: 0 <= k < n ==> ms[k].receiver == me && ms[k].sender in cps
    decreases n
  {
    if n > 0 {
      RoutedSenders(me, cps, ms, n - 1);
      assert Senders(ms[..n]) == Senders(ms[..n - 1]) + [ms[n - 1].sender];
      DistinctAppend(Senders(ms[..n - 1]), ms[n - 1].sender);
      hide Distinct, Senders;
    }
  }

  lemma DistinctAppend(xs: seq<nat>, y: nat)
    ensures Distinct(xs + [y]) <==> Distinct(xs) && y !in xs
  {
    var all := xs + [y];
    assert all[|xs|] == y;
    forall k | 0 <= k < |xs| ensures all[k] == xs[k] {}
    if Distinct(all) {
      forall k | 0 <= k < |xs| ensures xs[k] != y { assert all[k] != all[|xs|]; }
      forall i, j | 0 <= i < j < |xs| ensures xs[i] != xs[j] { assert all[i] != all[j]; }
    }
  }

  lemma {:induction false} SubPermutation(xs: seq<nat>, ys: seq<nat>)
    requires Distinct(xs) && Distinct(ys) && |xs| == |ys| && forall x <- xs :: x in ys
    ensures multiset(xs) == multiset(ys)
  {
    DistinctSize(xs);
    DistinctSize(ys);
    SameSize(MembersOf(xs), MembersOf(ys));
    forall y ensures y in xs <==> y in ys { assert y in MembersOf(xs) <==> y in MembersOf(ys); }
    SameMembers(xs, ys);
  }

  function MembersOf(xs: seq<nat>): set<nat> {
    set x | x in xs
  }

  lemma {:induction false} DistinctSize(xs: seq<nat>)
    requires Distinct(xs)
    ensures |MembersOf(xs)| == |xs|
  {
    if |xs| > 0 {
      var ys, x0 := xs[..|xs| - 1], xs[|xs| - 1];
      DistinctSize(ys);
      assert xs == ys + [x0];
      DistinctAppend(ys, x0);
      assert MembersOf(xs) == MembersOf(ys) + {x0};
    }
  }

  /** Passing the checks of phase 2 forces the senders to be exactly the expected counterparties, each
      once, all on our protocol version and with our root digest. */
  lemma Phase2Guard(party: Party, data: SignData, ms: seq<Routed<Body1>>)
    requires Distinct(data.counterparties) && Phase2Fault(party, data, ms) == None
    ensures multiset(Senders(ms)) == multiset(data.counterparties)
    ensures forall k :: 0 <= k < |ms| ==>
      && ms[k].receiver == party.index && ms[k].sender in data.counterparties
      && ms[k].body.version == PROTOCOL_VERSION && ms[k].body.root == RootDigest(party, data)
  {
    hide RootDigest, Denominator;
    RoutedSenders(party.index, data.counterparties, ms, |ms|);
    assert ms[..|ms|] == ms;
    VersionsAgree(ms, RootDigest(party, data), |ms|);
    forall x | x in Senders(ms) ensures x in data.counterparties {
      var k :| 0 <= k < |ms| && Senders(ms)[k] == x;
      assert ms[k].sender == x;
    }
    SubPermutation(Senders(ms), data.counterparties);
  }

  lemma {:induction false} VersionsAgree(ms: seq<Routed<Body1>>, root: Digest, n: nat)
    requires n <= |ms| && VersionFault(ms, n) == None && RootFault(ms, root, n) == None
    ensures forall k :: 0 <= k < n ==> ms[k].body.version == PROTOCOL_VERSION && ms[k].body.root == root
  {
    if n > 0 { VersionsAgree(ms, root, n - 1); }
  }

  // Bans

  /** No receiver whose half fits ours can have produced this data, whatever it chose. */
  ghost predicate NotFromHonestReceiver(sender: MulSender, sid: Bytes, ote: OteData) {
    forall receiver: MulReceiver, choice: seq<bool>, noise: seq<bool> ::
      MulPair(sender, receiver) && |choice| == BATCH_SIZE && |noise| == OT_SECURITY ==>
        RunPhase1(receiver, sid, choice, noise).Ok? && RunPhase1(receiver, sid, choice, noise).value.2 != ote
  }

  lemma RejectedIsDishonest(sender: MulSender, sid: Bytes, input: seq<Scalar>, draw: SizedDraw2, ote: OteData)
    requires |sender.gadget| == BATCH_SIZE && |input| >= L
    requires Run(sender, sid, input, draw.aTilde, draw.aHat, ote).Err?
    ensures NotFromHonestReceiver(sender, sid, ote)
  {
    hide Run, RunPhase1, RunPhase2, SeedRelation;
    forall receiver: MulReceiver, choice: seq<bool>, noise: seq<bool>
      | MulPair(sender, receiver) && |choice| == BATCH_SIZE && |noise| == OT_SECURITY
      ensures RunPhase1(receiver, sid, choice, noise).Ok? && RunPhase1(receiver, sid, choice, noise).value.2 != ote
    {
      var kept, data, sent, message, got := MulExchange(sender, receiver, sid, input, draw.aTilde, draw.aHat, choice, noise);
    }
  }

  /** What a ban in phase 2 is based on. */
  ghost predicate JustBan2(party: Party, data: SignData, m: Routed<Body1>, a: Abort)
    requires PartySized(party)
  {
    var c := m.sender;
    && a == Ban(party.index, c, MultiplicationVerificationFailed(c))
    && c in party.mulSenders
    && SenderSized(party.mulSenders[c].ote) && DataSized(m.body.mul)
    && !Consistent(party.mulSenders[c].ote, OteSid(SignMulSid(c, party.index, party, data)), m.body.mul)
    && NotFromHonestReceiver(party.mulSenders[c], SignMulSid(c, party.index, party, data), m.body.mul)
  }

  lemma MessageBan2(party: Party, data: SignData, unique: Unique1, kept: map<nat, Keep1>, keyShare: Scalar,
                    m: Routed<Body1>, draw: SizedDraw2, a: Abort)
    requires PartySized(party) && Phase2Message(party, data, unique, kept, keyShare, m, draw) == Err(a)
    requires a.kind.BanCounterparty?
    ensures JustBan2(party, data, m, a)
  {
    hide Run, SignMulSid, Consistent, OteSid, NotFromHonestReceiver;
    var c := m.sender;
    var sid := SignMulSid(c, party.index, party, data);
    SenderBans(party.mulSenders[c], sid, [unique.key, keyShare], draw.aTilde, draw.aHat, m.body.mul);
    RejectedIsDishonest(party.mulSenders[c], sid, [unique.key, keyShare], draw, m.body.mul);
  }

  lemma {:induction false} LoopBan2(party: Party, data: SignData, unique: Unique1, kept: map<nat, Keep1>, keyShare: Scalar,
                                    ms: seq<Routed<Body1>>, draws: nat -> SizedDraw2, n: nat, a: Abort) returns (k: nat)
    requires n <= |ms| && PartySized(party)
    requires Phase2Messages(party, data, unique, kept, keyShare, ms, draws, n) == Err(a) && a.kind.BanCounterparty?
    ensures k < n && JustBan2(party, data, ms[k], a)
    decreases n
  {
    hide PartySized, Phase2Message, JustBan2;
    if Phase2Messages(party, data, unique, kept, keyShare, ms, draws, n - 1).Err? {
      k := LoopBan2(party, data, unique, kept, keyShare, ms, draws, n - 1, a);
    } else {
      k := n - 1;
      MessageBan2(party, data, unique, kept, keyShare, ms[k], draws(ms[k].sender), a);
    }
  }

  /** Phase 2 bans only after every message has passed routing, version and root checks. The ban names
      an expected counterparty whose well-formed data failed the OT consistency check, and whose data
      no receiver that fits our half could have sent. */
  lemma Phase2Bans(party: Party, data: SignData, unique: Unique1, kept: map<nat, Keep1>,
                   ms: seq<Routed<Body1>>, draws: nat -> SizedDraw2, a: Abort) returns (k: nat)
    requires PartySized(party) && Distinct(data.counterparties)
    requires Phase2(party, data, unique, kept, ms, draws) == Err(a) && a.kind.BanCounterparty?
    ensures Phase2Fault(party, data, ms) == None && multiset(Senders(ms)) == multiset(data.counterparties)
    ensures k < |ms| && ms[k].sender in data.counterparties && a.kind == BanCounterparty(ms[k].sender)
    ensures JustBan2(party, data, ms[k], a)
  {
    hide PartySized, Phase2Messages, Phase2Fault, KeyShare;
    Phase2Guard(party, data, ms);
    k := LoopBan2(party, data, unique, kept, KeyShare(party, data, unique.zeta), ms, draws, |ms|, a);
    hide Consistent, NotFromHonestReceiver, OteSid, SignMulSid;
  }

  /** An answer that an honest sender gives: outputs of its multiplication in the exponent, for the
      key and the share it committed to. */
  ghost predicate HonestAnswer(body: Body2, sender: MulSender, sid: Bytes, ote: OteData) {
    exists key: Scalar, share: Scalar, draw: SizedDraw2 :: AnswersWith(body, sender, sid, ote, key, share, draw)
  }

  predicate AnswersWith(body: Body2, sender: MulSender, sid: Bytes, ote: OteData, key: Scalar, share: Scalar, draw: SizedDraw2) {
    && |sender.gadget| == BATCH_SIZE
    && var r := Run(sender, sid, [key, share], draw.aTilde, draw.aHat, ote);
       && r.Ok?
       && body.mul == r.value.1
       && body.gammaU == GTimes(r.value.0[0]) && body.gammaV == GTimes(r.value.0[1])
       && body.point == GTimes(key) && body.publicShare == GTimes(share)
  }

  /** The state kept for c comes from our own phase 1. */
  predicate KeptFrom(receiver: MulReceiver, sid: Bytes, draw: SizedDraw1, k: Keep2, ote: OteData) {
    |receiver.gadget| == BATCH_SIZE && RunPhase1(receiver, sid, draw.choice, draw.noise) == Ok((k.chi, k.mul, ote))
  }

  /** What a ban in phase 3 is based on: a failed check value of a well-formed multiplication message,
      or one of the two equations in the exponent, in this order. A dimension fault never bans. */
  predicate JustBan3(party: Party, data: SignData, k: Keep2, m: Routed<Body2>, a: Abort)
    requires m.sender in party.mulReceivers && |party.mulReceivers[m.sender].gadget| == BATCH_SIZE && KeptSized(k.mul)
  {
    var c := m.sender;
    match RunPhase2(party.mulReceivers[c], SignMulSid(party.index, c, party, data), k.mul, m.body.mul)
    case Err(e) => e.ConsistencyFailure? && a == Ban(party.index, c, MultiplicationVerificationFailed(c))
    case Ok(d) =>
      if Times(m.body.point, k.chi) != Plus(GTimes(d[0]), m.body.gammaU) then a == Ban(party.index, c, GammaUInconsistency(c))
      else
        && Times(m.body.publicShare, k.chi) != Plus(GTimes(d[1]), m.body.gammaV)
        && a == Ban(party.index, c, OtConsistencyCheckFailed(c))
  }

  /** Phase 3 bans only a counterparty of the session whose message was for us and opened its
      commitment. */
  lemma MessageBan3(party: Party, data: SignData, kept: map<nat, Keep2>, seen: seq<nat>, m: Routed<Body2>, s: SumState, a: Abort)
    requires PartySized(party) && Keep2Sized(kept)
    requires Phase3Message(party, data, kept, seen, m, s) == Err(a) && a.kind.BanCounterparty?
    ensures a.kind == BanCounterparty(m.sender) && Phase3Fault(party, data, kept, seen, m) == None
    ensures m.sender in data.counterparties && m.receiver == party.index && m.sender in kept && m.sender in party.mulReceivers
    ensures VerifyCommitment(PointBytes(m.body.point), kept[m.sender].commitment, m.body.salt)
    ensures JustBan3(party, data, kept[m.sender], m, a)
  {
    hide RunPhase2, SignMulSid, VerifyCommitment, PointBytes, Times, Plus;
  }

  /** An honest answer to our own phase 1 is never a reason to ban. */
  lemma HonestNotBanned3(party: Party, data: SignData, kept: map<nat, Keep2>, seen: seq<nat>, m: Routed<Body2>, s: SumState,
                         sender: MulSender, draw: SizedDraw1, ote: OteData)
    requires PartySized(party) && Keep2Sized(kept)
    requires m.sender in kept && m.sender in party.mulReceivers
    requires MulPair(sender, party.mulReceivers[m.sender])
    requires KeptFrom(party.mulReceivers[m.sender], SignMulSid(party.index, m.sender, party, data), draw, kept[m.sender], ote)
    requires HonestAnswer(m.body, sender, SignMulSid(party.index, m.sender, party, data), ote)
    ensures var r := Phase3Message(party, data, kept, seen, m, s); r.Err? ==> r.error.kind == Recoverable
  {
    hide Run, RunPhase1, RunPhase2, SignMulSid, SeedRelation, Phase3Fault, Mul, Selected;
    var sid := SignMulSid(party.index, m.sender, party, data);
    var key: Scalar, share: Scalar, d: SizedDraw2 :| AnswersWith(m.body, sender, sid, ote, key, share, d);
    var k, o, sent, message, got :=
      MulExchange(sender, party.mulReceivers[m.sender], sid, [key, share], d.aTilde, d.aHat, draw.choice, draw.noise);
    MulComm(kept[m.sender].chi, key);
    MulComm(kept[m.sender].chi, share);
  }

  /** Gadgets that differ are not caught by the check value but by these equations: an honest answer made
      with another gadget passes the first check and is banned exactly when the difference of the gadgets
      does not vanish on the OT outputs that enter the two equations. */
  lemma GadgetMismatchBans(party: Party, data: SignData, kept: map<nat, Keep2>, seen: seq<nat>, m: Routed<Body2>, s: SumState,
                           sender: MulSender, draw: SizedDraw1, ote: OteData, key: Scalar, share: Scalar, d: SizedDraw2)
    returns (z: Matrix)
    requires PartySized(party) && Keep2Sized(kept)
    requires Phase3Fault(party, data, kept, seen, m) == None
    requires m.sender in party.mulReceivers && m.sender in kept
    requires SeedRelation(sender.ote, party.mulReceivers[m.sender].ote)
    requires KeptFrom(party.mulReceivers[m.sender], SignMulSid(party.index, m.sender, party, data), draw, kept[m.sender], ote)
    requires AnswersWith(m.body, sender, SignMulSid(party.index, m.sender, party, data), ote, key, share, d)
    ensures MatrixSized(z, OT_WIDTH)
    ensures SenderRun(sender.ote, OteSid(SignMulSid(party.index, m.sender, party, data)), OT_WIDTH,
                      Correlations(d.aTilde, d.aHat), ote) == Ok((z, m.body.mul.taus))
    ensures var c := m.sender;
            var gap := Differences(sender.gadget, party.mulReceivers[c].gadget);
            var r := Phase3Message(party, data, kept, seen, m, s);
            && (Dot(gap, z[0]) != 0 ==> r == Err(Ban(party.index, c, GammaUInconsistency(c))))
            && (Dot(gap, z[0]) == 0 && Dot(gap, z[1]) != 0 ==> r == Err(Ban(party.index, c, OtConsistencyCheckFailed(c))))
            && (Dot(gap, z[0]) == 0 && Dot(gap, z[1]) == 0 ==> r.Ok?)
  {
    hide Run, RunPhase1, RunPhase2, SignMulSid, SeedRelation, Phase3Fault, Mul, Selected, SenderRun, Correlations, Dot, Differences,
         OteSid;
    var c := m.sender;
    var receiver, sid, chi := party.mulReceivers[c], SignMulSid(party.index, c, party, data), kept[c].chi;
    var k, o, sent, message, got;
    k, o, sent, message, got, z := MulExchangeAny(sender, receiver, sid, [key, share], d.aTilde, d.aHat, draw.choice, draw.noise);
    var gap := Differences(sender.gadget, receiver.gadget);
    GammaGap(chi, key, sent[0], got[0], Dot(gap, z[0]));
    GammaGap(chi, share, sent[1], got[1], Dot(gap, z[1]));
  }

  lemma GammaGap(chi: Scalar, a: Scalar, c: Scalar, d: Scalar, gap: Scalar)
    requires Add(c, d) == Add(Mul(chi, a), gap)
    ensures Times(GTimes(a), chi) == Plus(GTimes(d), GTimes(c)) <==> gap == 0
  {
    hide Mul;
    MulComm(chi, a);
  }

  lemma {:induction false} LoopBan3(party: Party, data: SignData, unique: Unique2, kept: map<nat, Keep2>,
                                    ms: seq<Routed<Body2>>, n: nat, a: Abort) returns (k: nat, s: SumState)
    requires n <= |ms| && PartySized(party) && Keep2Sized(kept)
    requires Phase3Messages(party, data, unique, kept, ms, n) == Err(a) && a.kind.BanCounterparty?
    ensures k < n && Phase3Message(party, data, kept, Senders(ms[..k]), ms[k], s) == Err(a)
    decreases n
  {
    hide PartySized, Keep2Sized, Phase3Message;
    if Phase3Messages(party, data, unique, kept, ms, n - 1).Err? {
      k, s := LoopBan3(party, data, unique, kept, ms, n - 1, a);
    } else {
      k, s := n - 1, Phase3Messages(party, data, unique, kept, ms, n - 1).value;
    }
  }

  lemma BannedIsSized(party: Party, data: SignData, kept: map<nat, Keep2>, m: Routed<Body2>, a: Abort,
                      draw: SizedDraw1, ote: OteData)
    requires PartySized(party) && Keep2Sized(kept) && m.sender in party.mulReceivers && m.sender in kept
    requires KeptFrom(party.mulReceivers[m.sender], SignMulSid(party.index, m.sender, party, data), draw, kept[m.sender], ote)
    requires JustBan3(party, data, kept[m.sender], m, a)
    ensures a.reason == MultiplicationVerificationFailed(m.sender) ==> MessageSized(m.body.mul)
  {
    hide RunPhase1, RunPhase2, SignMulSid, Times, Plus;
    KeptRows(party.mulReceivers[m.sender], SignMulSid(party.index, m.sender, party, data), draw, kept[m.sender], ote);
    ReceiverBans(party.mulReceivers[m.sender], SignMulSid(party.index, m.sender, party, data), kept[m.sender].mul, m.body.mul);
  }

  lemma KeptRows(receiver: MulReceiver, sid: Bytes, draw: SizedDraw1, k: Keep2, ote: OteData)
    requires KeptFrom(receiver, sid, draw, k, ote)
    ensures |k.mul.choice| == BATCH_SIZE && |k.mul.rows| == KAPPA
  {
    hide ReceiverData, ChiTilde, ChiHat, Selected, OteSid;
  }

  /** A ban in phase 3 names an expected counterparty, for a message that passed every other check and
      that no honest sender fitting our half gives. */
  lemma Phase3Bans(party: Party, data: SignData, unique: Unique2, kept: map<nat, Keep2>, ms: seq<Routed<Body2>>, a: Abort,
                   draws: nat -> SizedDraw1, otes: nat -> OteData) returns (k: nat)
    requires PartySized(party) && Keep2Sized(kept)
    requires forall c <- kept :: c in party.mulReceivers ==>
      KeptFrom(party.mulReceivers[c], SignMulSid(party.index, c, party, data), draws(c), kept[c], otes(c))
    requires Phase3(party, data, unique, kept, ms) == Err(a) && a.kind.BanCounterparty?
    ensures k < |ms| && ms[k].sender in data.counterparties && ms[k].receiver == party.index
    ensures a.kind == BanCounterparty(ms[k].sender)
    ensures Phase3Fault(party, data, kept, Senders(ms[..k]), ms[k]) == None
    ensures ms[k].sender in party.mulReceivers && ms[k].sender in kept
    ensures JustBan3(party, data, kept[ms[k].sender], ms[k], a)
    ensures a.reason == MultiplicationVerificationFailed(ms[k].sender) ==> MessageSized(ms[k].body.mul)
    ensures forall sender: MulSender :: MulPair(sender, party.mulReceivers[ms[k].sender]) ==>
      !HonestAnswer(ms[k].body, sender, SignMulSid(party.index, ms[k].sender, party, data), otes(ms[k].sender))
  {
    hide PartySized, Keep2Sized, Phase3Messages, Phase3Message, Phase3Fault, SignMulSid, KeptFrom, HonestAnswer, MulPair, JustBan3;
    var s;
    k, s := LoopBan3(party, data, unique, kept, ms, |ms|, a);
    MessageBan3(party, data, kept, Senders(ms[..k]), ms[k], s, a);
    var m := ms[k];
    BannedIsSized(party, data, kept, m, a, draws(m.sender), otes(m.sender));
    forall sender: MulSender | MulPair(sender, party.mulReceivers[m.sender])
      ensures !HonestAnswer(m.body, sender, SignMulSid(party.index, m.sender, party, data), otes(m.sender))
    {
      if HonestAnswer(m.body, sender, SignMulSid(party.index, m.sender, party, data), otes(m.sender)) {
        HonestNotBanned3(party, data, kept, Senders(ms[..k]), m, s, sender, draws(m.sender), otes(m.sender));
        assert false;
      }
    }
  }

  // Session identifiers

  lemma SplitFront(a: Bytes, b: Bytes, a': Bytes, b': Bytes)
    requires |a| == |a'|
    ensures a + b == a' + b' <==> a == a' && b == b'
  {
    if a + b == a' + b' {
      assert a == (a + b)[..|a|] && b == (a + b)[|a|..];
      assert a' == (a' + b')[..|a|] && b' == (a' + b')[|a|..];
    }
  }

  lemma SessionInjective(party: Party, data: SignData, party': Party, data': SignData)
    requires |party.sid| == |party'.sid| == |data.signId| == |data'.signId| == ID_LEN
    ensures SessionOf(party, data) == SessionOf(party', data')
       <==> party.sid == party'.sid && data.signId == data'.signId && party.derivation.chainCode == party'.derivation.chainCode
  {
    SplitFront(party.sid + data.signId, party.derivation.chainCode, party'.sid + data'.signId, party'.derivation.chainCode);
    SplitFront(party.sid, data.signId, party'.sid, data'.signId);
  }

  /** With identifiers of the guarded length, distinct (receiver, sender, session, sign id, chain code)
      never give the same multiplication or zero-share identifier. */
  lemma SidsInjective(receiver: nat, sender: nat, party: Party, data: SignData,
                      receiver': nat, sender': nat, party': Party, data': SignData)
    requires receiver <= MAX_INDEX && sender <= MAX_INDEX && receiver' <= MAX_INDEX && sender' <= MAX_INDEX
    requires |party.sid| == |party'.sid| == |data.signId| == |data'.signId| == ID_LEN
    ensures SignMulSid(receiver, sender, party, data) == SignMulSid(receiver', sender', party', data')
       <==> && receiver == receiver' && sender == sender'
            && party.sid == party'.sid && data.signId == data'.signId && party.derivation.chainCode == party'.derivation.chainCode
    ensures ZeroSid(party, data) == ZeroSid(party', data')
       <==> party.sid == party'.sid && data.signId == data'.signId && party.derivation.chainCode == party'.derivation.chainCode
  {
    hide Ascii, SessionOf;
    SessionInjective(party, data, party', data');
    var tag, s, s' := Ascii("Multiplication protocol"), SessionOf(party, data), SessionOf(party', data');
    SplitFront(tag + ToBe(receiver, 1) + ToBe(sender, 1), s, tag + ToBe(receiver', 1) + ToBe(sender', 1), s');
    SplitFront(tag + ToBe(receiver, 1), ToBe(sender, 1), tag + ToBe(receiver', 1), ToBe(sender', 1));
    SplitFront(tag, ToBe(receiver, 1), tag, ToBe(receiver', 1));
    SplitFront(Ascii("Zero shares protocol"), s, Ascii("Zero shares protocol"), s');
    Pow256Values();
    if ToBe(receiver, 1) == ToBe(receiver', 1) { BeInjective(receiver, receiver', 1); }
    if ToBe(sender, 1) == ToBe(sender', 1) { BeInjective(sender, sender', 1); }
  }

  /** Without the length guard they can: moving a byte from one identifier to the other changes
      nothing in the concatenation. */
  lemma SidsAmbiguous(party: Party, data: SignData, b: bv8)
    ensures SessionOf(party.(sid := party.sid + [b]), data) == SessionOf(party, data.(signId := [b] + data.signId))
    ensures party.sid + [b] != party.sid
  {
    assert (party.sid + [b]) + data.signId == party.sid + ([b] + data.signId);
  }
}
