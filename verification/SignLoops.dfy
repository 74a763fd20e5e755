/** The loops of the signing phases, proved to compute the functions of `Signing`. */
module SignLoops {
  import opened Scalars
  import opened Sums
  import opened Shamir
  import opened Results
  import opened OtConstants
  import opened Hashes
  import opened Oracles
  import opened Hex
  import opened Curve
  import opened ZeroShares
  import opened OtExtension
  import opened Multiplication
  import opened Parties
  import opened Routing
  import opened Dkg
  import opened Ecdsa
  import opened Signing

  // Phase 1

  lemma {:induction false} CounterpartyFaultStays(party: Party, cps: seq<nat>, n: nat, m: nat)
    requires n <= m <= |cps| && CounterpartyFault(party, cps, n).Some?
    ensures CounterpartyFault(party, cps, m) == CounterpartyFault(party, cps, n)
    decreases m
  {
    if n < m { CounterpartyFaultStays(party, cps, n, m - 1); }
  }

  method CheckCounterparties(party: Party, cps: seq<nat>) returns (r: Option<AbortReason>)
    ensures r == CounterpartyFault(party, cps, |cps|)
  {
    var seen: set<nat> := {};
    for k := 0 to |cps|
      invariant CounterpartyFault(party, cps, k) == None
      invariant forall x :: x in seen <==> x in cps[..k]
    {
      var c := cps[k];
      if c > party.parameters.shareCount {
        CounterpartyFaultStays(party, cps, k + 1, |cps|);
        return Some(InvalidPartyIndex(c));
      }
      if c in seen {
        CounterpartyFaultStays(party, cps, k + 1, |cps|);
        return Some(DuplicateCounterparty(c));
      }
      seen := seen + {c};
      if c == party.index {
        CounterpartyFaultStays(party, cps, k + 1, |cps|);
        return Some(SelfInCounterparties);
      }
      if c !in party.mulSenders || c !in party.mulReceivers {
        CounterpartyFaultStays(party, cps, k + 1, |cps|);
        return Some(MissingMulState(c));
      }
      assert cps[..k + 1] == cps[..k] + [c];
    }
    r := None;
  }

  lemma {:induction false} Phase1Stays(party: Party, data: SignData, point: Point, draws: nat -> SizedDraw1, n: nat, m: nat)
    requires n <= m <= |data.counterparties| && PartySized(party)
    requires Phase1Messages(party, data, point, draws, n).Err?
    ensures Phase1Messages(party, data, point, draws, m) == Phase1Messages(party, data, point, draws, n)
    decreases m
  {
    hide PartySized, RunPhase1, SignMulSid, RootDigest, CommitPoint;
    if n < m { Phase1Stays(party, data, point, draws, n, m - 1); }
  }

  /** The loop of phase 1 over the counterparties. */
  method PrepareMessages(party: Party, data: SignData, point: Point, draws: nat -> SizedDraw1)
    returns (r: Result<(map<nat, Keep1>, seq<Routed<Body1>>), AbortReason>)
    requires PartySized(party)
    ensures r == Phase1Messages(party, data, point, draws, |data.counterparties|)
  {
    hide RunPhase1, SignMulSid, RootDigest, CommitPoint;
    var keep: map<nat, Keep1>, transmit: seq<Routed<Body1>> := map[], [];
    for k := 0 to |data.counterparties|
      invariant Phase1Messages(party, data, point, draws, k) == Ok((keep, transmit))
    {
      var c := data.counterparties[k];
      if c !in party.mulReceivers {
        Phase1Stays(party, data, point, draws, k + 1, |data.counterparties|);
        return Err(MissingMulState(c));
      }
      var commitment := CommitPoint(point, draws(c).salt);
      var started := RunMulReceiverPhase1(party.mulReceivers[c], SignMulSid(party.index, c, party, data),
                                          draws(c).choice, draws(c).noise);
      if started.Err? {
        Phase1Stays(party, data, point, draws, k + 1, |data.counterparties|);
        return Err(MultiplicationVerificationFailed(c));
      }
      var (chi, mul, sent) := started.value;
      keep := keep[c := Keep1(draws(c).salt, chi, mul)];
      transmit := transmit + [Routed(party.index, c, Body1(commitment, PROTOCOL_VERSION, RootDigest(party, data), sent))];
    }
    r := Ok((keep, transmit));
  }

  /** `Party::sign_phase1`; instance key, inversion mask and the draws for every counterparty are
      given by the caller. */
  method SignPhase1(party: Party, data: SignData, key: Scalar, mask: Scalar, draws: nat -> SizedDraw1)
    returns (r: Result<Out1, Abort>)
    requires PartySized(party)
    ensures match Phase1(party, data, key, mask, draws)
            case Err(e) => r == Err(AbortRecoverable(party.index, e))
            case Ok(v) => r == Ok(v)
  {
    hide Phase1Messages, CounterpartyFault, Compute, PartySized;
    if |party.sid| != ID_LEN || |data.signId| != ID_LEN {
      return Err(AbortRecoverable(party.index, MalformedSessionId));
    }
    ThresholdPositive(party);
    if |data.counterparties| != party.parameters.threshold - 1 {
      return Err(AbortRecoverable(party.index, WrongCounterpartyCount(party.parameters.threshold - 1, |data.counterparties|)));
    }
    if party.index > party.parameters.shareCount {
      return Err(AbortRecoverable(party.index, InvalidPartyIndex(party.index)));
    }
    var fault := CheckCounterparties(party, data.counterparties);
    if fault.Some? {
      return Err(AbortRecoverable(party.index, fault.value));
    }
    var point := GTimes(key);
    var messages := PrepareMessages(party, data, point, draws);
    if messages.Err? {
      return Err(AbortRecoverable(party.index, messages.error));
    }
    var zeta := ComputeShare(party.zeroShare, data.counterparties, ZeroSid(party, data));
    r := Ok((Unique1(key, point, mask, zeta), messages.value.0, messages.value.1));
  }

  lemma ThresholdPositive(party: Party)
    requires PartySized(party)
    ensures party.parameters.threshold > 0
  {}

  // Phase 2

  /** The loop over the counterparties for our own Lagrange coefficient; none when a denominator
      vanishes. */
  method OwnLagrange(party: Party, cps: seq<nat>) returns (l: Option<Scalar>)
    ensures l == if Denominator(party.index, cps) == 0 then None else Some(Lagrange(party.index, cps))
  {
    hide Mul, Numerator, Denominator, Lagrange, Reduce, Inv;
    var numerator: Scalar, denominator: Scalar := 1, 1;
    FractionStart(party.index);
    for k := 0 to |cps|
      invariant numerator == Numerator(cps[..k]) && denominator == Denominator(party.index, cps[..k])
    {
      var c := cps[k];
      FractionStep(party.index, cps[..k], c);
      assert cps[..k + 1] == cps[..k] + [c];
      numerator := Mul(numerator, Reduce(c));
      denominator := Mul(denominator, Sub(Reduce(c), Reduce(party.index)));
    }
    assert cps[..|cps|] == cps;
    if denominator == 0 {
      return None;
    }
    LagrangeFraction(party.index, cps);
    l := Some(Mul(numerator, Inv(denominator)));
  }

  lemma {:induction false} RoutingStays(me: nat, cps: seq<nat>, ms: seq<Routed<Body1>>, n: nat, m: nat)
    requires n <= m <= |ms| && RoutingFault(me, cps, ms, n).Some?
    ensures RoutingFault(me, cps, ms, m) == RoutingFault(me, cps, ms, n)
    decreases m
  {
    if n < m { RoutingStays(me, cps, ms, n, m - 1); }
  }

  method CheckRouting(me: nat, cps: seq<nat>, ms: seq<Routed<Body1>>) returns (r: Option<AbortReason>)
    ensures r == RoutingFault(me, cps, ms, |ms|)
  {
    var seen: set<nat> := {};
    for k := 0 to |ms|
      invariant RoutingFault(me, cps, ms, k) == None
      invariant forall x :: x in seen <==> x in Senders(ms[..k])
    {
      var m := ms[k];
      assert Senders(ms[..k + 1]) == Senders(ms[..k]) + [m.sender];
      if m.sender !in cps {
        RoutingStays(me, cps, ms, k + 1, |ms|);
        return Some(UnexpectedSender(m.sender));
      }
      if m.receiver != me {
        RoutingStays(me, cps, ms, k + 1, |ms|);
        return Some(MisroutedMessage(me, m.receiver));
      }
      if m.sender in seen {
        RoutingStays(me, cps, ms, k + 1, |ms|);
        return Some(DuplicateSender(m.sender));
      }
      seen := seen + {m.sender};
    }
    r := None;
  }

  lemma {:induction false} VersionStays(ms: seq<Routed<Body1>>, n: nat, m: nat)
    requires n <= m <= |ms| && VersionFault(ms, n).Some?
    ensures VersionFault(ms, m) == VersionFault(ms, n)
    decreases m
  {
    if n < m { VersionStays(ms, n, m - 1); }
  }

  lemma {:induction false} RootStays(ms: seq<Routed<Body1>>, root: Digest, n: nat, m: nat)
    requires n <= m <= |ms| && RootFault(ms, root, n).Some?
    ensures RootFault(ms, root, m) == RootFault(ms, root, n)
    decreases m
  {
    if n < m { RootStays(ms, root, n, m - 1); }
  }

  method CheckVersions(ms: seq<Routed<Body1>>) returns (r: Option<AbortReason>)
    ensures r == VersionFault(ms, |ms|)
  {
    for k := 0 to |ms|
      invariant VersionFault(ms, k) == None
    {
      if ms[k].body.version != PROTOCOL_VERSION {
        VersionStays(ms, k + 1, |ms|);
        return Some(ProtocolVersionMismatch(ms[k].sender, PROTOCOL_VERSION, ms[k].body.version));
      }
    }
    r := None;
  }

  method CheckRoots(ms: seq<Routed<Body1>>, root: Digest) returns (r: Option<AbortReason>)
    ensures r == RootFault(ms, root, |ms|)
  {
    for k := 0 to |ms|
      invariant RootFault(ms, root, k) == None
    {
      if ms[k].body.root != root {
        RootStays(ms, root, k + 1, |ms|);
        return Some(RootAgreementMismatch(ms[k].sender));
      }
    }
    r := None;
  }

  /** Everything that is checked before the first multiplication step. */
  method CheckPhase2(party: Party, data: SignData, ms: seq<Routed<Body1>>) returns (r: Option<AbortReason>)
    requires Denominator(party.index, data.counterparties) != 0
    ensures r == Phase2Fault(party, data, ms)
  {
    hide RoutingFault, VersionFault, RootFault, RootDigest, Denominator;
    if |ms| != |data.counterparties| {
      return Some(WrongMessageCount(|data.counterparties|, |ms|));
    }
    r := CheckRouting(party.index, data.counterparties, ms);
    if r.Some? { return r; }
    r := CheckVersions(ms);
    if r.Some? { return r; }
    r := CheckRoots(ms, RootDigest(party, data));
  }

  method AnswerMessage(party: Party, data: SignData, unique: Unique1, kept: map<nat, Keep1>, keyShare: Scalar,
                       m: Routed<Body1>, draw: SizedDraw2) returns (r: Result<(Keep2, Body2), Abort>)
    requires PartySized(party)
    ensures r == Phase2Message(party, data, unique, kept, keyShare, m, draw)
  {
    hide Run, SignMulSid;
    var c := m.sender;
    if c !in kept || c !in party.mulSenders {
      return Err(AbortRecoverable(party.index, MissingMulState(c)));
    }
    var current := kept[c];
    var result := RunMulSender(party.mulSenders[c], SignMulSid(c, party.index, party, data), [unique.key, keyShare],
                               draw.aTilde, draw.aHat, m.body.mul);
    match result {
      case Err(e) => r := Err(MulAbort(party.index, c, e));
      case Ok((outputs, sent)) =>
        var cu, cv := outputs[0], outputs[1];
        r := Ok((Keep2(cu, cv, m.body.commitment, current.mul, current.chi),
                 Body2(GTimes(cu), GTimes(cv), Sub(unique.mask, current.chi), GTimes(keyShare), unique.point, current.salt, sent)));
    }
  }

  lemma {:induction false} Phase2Stays(party: Party, data: SignData, unique: Unique1, kept: map<nat, Keep1>, keyShare: Scalar,
                                       ms: seq<Routed<Body1>>, draws: nat -> SizedDraw2, n: nat, m: nat)
    requires n <= m <= |ms| && PartySized(party)
    requires Phase2Messages(party, data, unique, kept, keyShare, ms, draws, n).Err?
    ensures Phase2Messages(party, data, unique, kept, keyShare, ms, draws, m)
         == Phase2Messages(party, data, unique, kept, keyShare, ms, draws, n)
    decreases m
  {
    hide PartySized, Phase2Message;
    if n < m { Phase2Stays(party, data, unique, kept, keyShare, ms, draws, n, m - 1); }
  }

  /** `Party::sign_phase2`. */
  method SignPhase2(party: Party, data: SignData, unique: Unique1, kept: map<nat, Keep1>,
                    ms: seq<Routed<Body1>>, draws: nat -> SizedDraw2) returns (r: Result<Out2, Abort>)
    requires PartySized(party)
    ensures r == Phase2(party, data, unique, kept, ms, draws)
  {
    hide Phase2Message, PartySized, Denominator, Lagrange, Mul, RoutingFault, VersionFault, RootFault, RootDigest;
    var l := OwnLagrange(party, data.counterparties);
    if l.None? {
      return Err(AbortRecoverable(party.index, LagrangeCoefficientFailed));
    }
    var keyShare := Add(Mul(party.polyPoint, l.value), unique.zeta);
    var fault := CheckPhase2(party, data, ms);
    if fault.Some? {
      return Err(AbortRecoverable(party.index, fault.value));
    }
    hide Phase2Fault;
    var keep: map<nat, Keep2>, transmit: seq<Routed<Body2>> := map[], [];
    for k := 0 to |ms|
      invariant Phase2Messages(party, data, unique, kept, keyShare, ms, draws, k) == Ok((keep, transmit))
    {
      var c := ms[k].sender;
      var answer := AnswerMessage(party, data, unique, kept, keyShare, ms[k], draws(c));
      match answer {
        case Err(e) =>
          Phase2Stays(party, data, unique, kept, keyShare, ms, draws, k + 1, |ms|);
          return Err(e);
        case Ok((entry, body)) =>
          keep, transmit := keep[c := entry], transmit + [Routed(party.index, c, body)];
      }
    }
    r := Ok((Unique2(unique.key, unique.point, unique.mask, keyShare, GTimes(keyShare)), keep, transmit));
  }

  // Phase 3

  /** The checks on one message, in the order of the source. */
  method CheckMessage(party: Party, data: SignData, kept: map<nat, Keep2>, seen: set<nat>, ghost before: seq<nat>, m: Routed<Body2>)
    returns (r: Option<AbortReason>)
    requires forall x :: x in seen <==> x in before
    ensures r == Phase3Fault(party, data, kept, before, m)
  {
    hide VerifyCommitment, PointBytes;
    var c := m.sender;
    if c !in data.counterparties { return Some(UnexpectedSender(c)); }
    if m.receiver != party.index { return Some(MisroutedMessage(party.index, m.receiver)); }
    if m.body.point == IDENTITY { return Some(TrivialInstancePoint(c)); }
    if c in seen { return Some(DuplicateSender(c)); }
    if c !in kept { return Some(MissingMulState(c)); }
    if !VerifyCommitment(PointBytes(m.body.point), kept[c].commitment, m.body.salt) { return Some(CommitmentMismatch(c)); }
    if c !in party.mulReceivers { return Some(MissingMulState(c)); }
    r := None;
  }

  method FinishMessage(party: Party, data: SignData, kept: map<nat, Keep2>, seen: set<nat>, ghost before: seq<nat>,
                       m: Routed<Body2>, s: SumState) returns (r: Result<SumState, Abort>)
    requires PartySized(party) && Keep2Sized(kept)
    requires forall x :: x in seen <==> x in before
    ensures r == Phase3Message(party, data, kept, before, m, s)
  {
    hide RunPhase2, SignMulSid, VerifyCommitment, PointBytes, Times, Plus, Add;
    var fault := CheckMessage(party, data, kept, seen, before, m);
    if fault.Some? {
      return Err(AbortRecoverable(party.index, fault.value));
    }
    var c := m.sender;
    var k := kept[c];
    var result := RunMulReceiverPhase2(party.mulReceivers[c], SignMulSid(party.index, c, party, data), k.mul, m.body.mul);
    match result {
      case Err(e) => r := Err(MulAbort(party.index, c, e));
      case Ok(d) =>
        if Times(m.body.point, k.chi) != Plus(GTimes(d[0]), m.body.gammaU) {
          return Err(Ban(party.index, c, GammaUInconsistency(c)));
        }
        if Times(m.body.publicShare, k.chi) != Plus(GTimes(d[1]), m.body.gammaV) {
          return Err(Ban(party.index, c, OtConsistencyCheckFailed(c)));
        }
        r := Ok(SumState(Plus(s.pk, m.body.publicShare), Plus(s.point, m.body.point), Add(s.first, m.body.psi),
                         Add(Add(s.u, k.cu), d[0]), Add(Add(s.v, k.cv), d[1])));
    }
  }

  lemma {:induction false} Phase3Stays(party: Party, data: SignData, unique: Unique2, kept: map<nat, Keep2>,
                                       ms: seq<Routed<Body2>>, n: nat, m: nat)
    requires n <= m <= |ms| && PartySized(party) && Keep2Sized(kept)
    requires Phase3Messages(party, data, unique, kept, ms, n).Err?
    ensures Phase3Messages(party, data, unique, kept, ms, m) == Phase3Messages(party, data, unique, kept, ms, n)
    decreases m
  {
    hide PartySized, Keep2Sized, Phase3Message;
    if n < m { Phase3Stays(party, data, unique, kept, ms, n, m - 1); }
  }

  /** The loop of phase 3. */
  method SumMessages(party: Party, data: SignData, unique: Unique2, kept: map<nat, Keep2>, ms: seq<Routed<Body2>>)
    returns (r: Result<SumState, Abort>)
    requires PartySized(party) && Keep2Sized(kept)
    ensures r == Phase3Messages(party, data, unique, kept, ms, |ms|)
  {
    hide PartySized, Keep2Sized, Phase3Message;
    var s := SumState(unique.publicShare, unique.point, unique.mask, 0, 0);
    var seen: set<nat> := {};
    for k := 0 to |ms|
      invariant Phase3Messages(party, data, unique, kept, ms, k) == Ok(s)
      invariant forall x :: x in seen <==> x in Senders(ms[..k])
    {
      var m := ms[k];
      var next := FinishMessage(party, data, kept, seen, Senders(ms[..k]), m, s);
      if next.Err? {
        Phase3Stays(party, data, unique, kept, ms, k + 1, |ms|);
        return Err(next.error);
      }
      assert Senders(ms[..k + 1]) == Senders(ms[..k]) + [m.sender];
      seen := seen + {m.sender};
      s := next.value;
    }
    r := Ok(s);
  }

  /** `Party::sign_phase3`. */
  method SignPhase3(party: Party, data: SignData, unique: Unique2, kept: map<nat, Keep2>, ms: seq<Routed<Body2>>)
    returns (r: Result<(string, Broadcast), Abort>)
    requires PartySized(party) && Keep2Sized(kept)
    ensures r == Phase3(party, data, unique, kept, ms)
  {
    hide PartySized, Keep2Sized, Phase3Messages, Mul, Add, EncodeHex, XBytes, ReduceBytes;
    if |ms| != |data.counterparties| {
      return Err(AbortRecoverable(party.index, WrongMessageCount(|data.counterparties|, |ms|)));
    }
    var sums := SumMessages(party, data, unique, kept, ms);
    if sums.Err? {
      return Err(sums.error);
    }
    var s := sums.value;
    if s.pk != party.pk {
      return Err(AbortRecoverable(party.index, PolynomialInconsistency));
    }
    if s.point == IDENTITY {
      return Err(AbortRecoverable(party.index, PolynomialInconsistency));
    }
    var u := Add(Mul(unique.key, s.first), s.u);
    var v := Add(Mul(unique.keyShare, s.first), s.v);
    var w := Add(Mul(ReduceBytes(data.hash), unique.mask), Mul(v, ReduceBytes(XBytes(s.point))));
    r := Ok((EncodeHex(XBytes(s.point)), Broadcast(u, w)));
  }

  // Phase 4

  method SumBroadcasts(bs: seq<Broadcast>) returns (numerator: Scalar, denominator: Scalar)
    ensures numerator == SumSeq(Ws(bs)) && denominator == SumSeq(Us(bs))
  {
    hide Add;
    numerator, denominator := 0, 0;
    for k := 0 to |bs|
      invariant numerator == SumSeq(Ws(bs)[..k]) && denominator == SumSeq(Us(bs)[..k])
    {
      assert Ws(bs)[..k + 1][..k] == Ws(bs)[..k] && Us(bs)[..k + 1][..k] == Us(bs)[..k];
      numerator, denominator := Add(numerator, bs[k].w), Add(denominator, bs[k].u);
    }
    assert Ws(bs)[..|bs|] == Ws(bs) && Us(bs)[..|bs|] == Us(bs);
  }

  /** `Party::sign_phase4`. */
  method SignPhase4(party: Party, data: SignData, x: string, bs: seq<Broadcast>, normalize: bool)
    returns (r: Result<(string, nat), Abort>)
    ensures match Phase4(party, data, x, bs, normalize)
            case Err(e) => r == Err(AbortRecoverable(party.index, e))
            case Ok(v) => r == Ok(v)
  {
    hide Mul, Inv, VerifySignature, EncodeHex, DecodeField, ScalarBytes, RecomputedPoint, RecoveryId;
    var numerator, denominator := SumBroadcasts(bs);
    if denominator == 0 {
      return Err(AbortRecoverable(party.index, ZeroDenominator));
    }
    var decoded := DecodeField(x);
    if decoded.None? {
      return Err(AbortRecoverable(party.index, InvalidXCoordinateHex));
    }
    var s := Mul(numerator, Inv(denominator));
    if normalize && IsHigh(s) {
      s := Neg(s);
    }
    var signature := EncodeHex(ScalarBytes(s));
    if !VerifySignature(data.hash, party.pk, x, signature) {
      return Err(AbortRecoverable(party.index, SignatureVerificationFailed));
    }
    var point := RecomputedPoint(ReduceBytes(data.hash), party.pk, ReduceBytes(decoded.value), s);
    r := Ok((signature, RecoveryId(point, decoded.value)));
  }
}
