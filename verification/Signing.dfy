/** The four phases of signing (Protocol 3.6 of eprint 2023/765), with every check and abort of the
    source. Random draws are parameters. */
module Signing {
  import opened Scalars
  import opened Sums
  import opened Shamir
  import opened Results
  import opened OtConstants
  import opened Hashes
  import opened Oracles
  import opened Hex
  import opened Curve
  import opened ZeroShares
  import opened OtExtension
  import opened Multiplication
  import opened Parties
  import opened Routing
  import opened Dkg
  import opened Ecdsa
  import KeyInit
  import MulErrors

  const ID_LEN := 32

  datatype SignData = SignData(signId: Bytes, counterparties: seq<nat>, hash: Digest)

  datatype Unique1 = Unique1(key: Scalar, point: Point, mask: Scalar, zeta: Scalar)

  datatype Keep1 = Keep1(salt: Bytes, chi: Scalar, mul: MulKept)

  datatype Body1 = Body1(commitment: Digest, version: nat, root: Digest, mul: OteData)

  datatype Unique2 = Unique2(key: Scalar, point: Point, mask: Scalar, keyShare: Scalar, publicShare: Point)

  datatype Keep2 = Keep2(cu: Scalar, cv: Scalar, commitment: Digest, mul: MulKept, chi: Scalar)

  datatype Body2 = Body2(gammaU: Point, gammaV: Point, psi: Scalar, publicShare: Point, point: Point, salt: Bytes, mul: MulData)

  datatype Broadcast = Broadcast(u: Scalar, w: Scalar)

  /** The parameters are valid, and the multiplication data was set up with full gadgets. */
  predicate PartySized(party: Party) {
    && ValidParameters(party.parameters)
    && (forall j <- party.mulSenders :: |party.mulSenders[j].gadget| == BATCH_SIZE)
    && (forall j <- party.mulReceivers :: |party.mulReceivers[j].gadget| == BATCH_SIZE)
  }

  // Session identifiers

  function SessionOf(party: Party, data: SignData): Bytes {
    party.sid + data.signId + party.derivation.chainCode
  }

  function SignMulSid(receiver: nat, sender: nat, party: Party, data: SignData): Bytes {
    KeyInit.MulSid(receiver, sender, SessionOf(party, data))
  }

  function ZeroSid(party: Party, data: SignData): Bytes {
    Ascii("Zero shares protocol") + SessionOf(party, data)
  }

  function RootDigest(party: Party, data: SignData): Digest {
    TaggedHash(TAG_ROOT_AGREEMENT, [party.sid, data.signId, party.derivation.chainCode])
  }

  function CommitPoint(p: Point, salt: Bytes): Digest {
    Commit(PointBytes(p), salt)
  }

  // Phase 1

  /** The first fault among the first n counterparties. */
  function CounterpartyFault(party: Party, cps: seq<nat>, n: nat): Option<AbortReason>
    requires n <= |cps|
  {
    if n == 0 then None
    else
      match CounterpartyFault(party, cps, n - 1)
      case Some(e) => Some(e)
      case None =>
        var c := cps[n - 1];
        if c > party.parameters.shareCount then Some(InvalidPartyIndex(c))
        else if c in cps[..n - 1] then Some(DuplicateCounterparty(c))
        else if c == party.index then Some(SelfInCounterparties)
        else if c !in party.mulSenders || c !in party.mulReceivers then Some(MissingMulState(c))
        else None
  }

  function Phase1Fault(party: Party, data: SignData): Option<AbortReason>
    requires PartySized(party)
  {
    if |party.sid| != ID_LEN || |data.signId| != ID_LEN then Some(MalformedSessionId)
    else if |data.counterparties| != party.parameters.threshold - 1 then
      Some(WrongCounterpartyCount(party.parameters.threshold - 1, |data.counterparties|))
    else if party.index > party.parameters.shareCount then Some(InvalidPartyIndex(party.index))
    else CounterpartyFault(party, data.counterparties, |data.counterparties|)
  }

  /** What is drawn for one counterparty in phase 1. */
  datatype Draw1 = Draw1(salt: Bytes, choice: seq<bool>, noise: seq<bool>)

  predicate Draw1Sized(d: Draw1) {
    |d.choice| == BATCH_SIZE && |d.noise| == OT_SECURITY
  }

  type SizedDraw1 = d: Draw1 | Draw1Sized(d) witness Draw1([], seq(BATCH_SIZE, _ => false), seq(OT_SECURITY, _ => false))

  function Phase1Messages(party: Party, data: SignData, point: Point, draws: nat -> SizedDraw1, n: nat)
    : Result<(map<nat, Keep1>, seq<Routed<Body1>>), AbortReason>
    requires n <= |data.counterparties| && PartySized(party)
  {
    if n == 0 then Ok((map[], []))
    else
      match Phase1Messages(party, data, point, draws, n - 1)
      case Err(e) => Err(e)
      case Ok((keep, transmit)) =>
        var c := data.counterparties[n - 1];
        if c !in party.mulReceivers then Err(MissingMulState(c))
        else
          match RunPhase1(party.mulReceivers[c], SignMulSid(party.index, c, party, data), draws(c).choice, draws(c).noise)
          case Err(_) => Err(MultiplicationVerificationFailed(c))
          case Ok((chi, mul, sent)) =>
            Ok((keep[c := Keep1(draws(c).salt, chi, mul)],
                transmit + [Routed(party.index, c, Body1(CommitPoint(point, draws(c).salt), PROTOCOL_VERSION,
                                                         RootDigest(party, data), sent))]))
  }

  type Out1 = (Unique1, map<nat, Keep1>, seq<Routed<Body1>>)

  function Phase1(party: Party, data: SignData, key: Scalar, mask: Scalar, draws: nat -> SizedDraw1): Result<Out1, AbortReason>
    requires PartySized(party)
  {
    match Phase1Fault(party, data)
    case Some(e) => Err(e)
    case None =>
      var point := GTimes(key);
      match Phase1Messages(party, data, point, draws, |data.counterparties|)
      case Err(e) => Err(e)
      case Ok((keep, transmit)) =>
        Ok((Unique1(key, point, mask, Compute(party.zeroShare, data.counterparties, ZeroSid(party, data))), keep, transmit))
  }

  // Phase 2

  function KeyShare(party: Party, data: SignData, zeta: Scalar): Scalar {
    Add(Mul(party.polyPoint, Lagrange(party.index, data.counterparties)), zeta)
  }

  function Senders<T>(ms: seq<Routed<T>>): (xs: seq<nat>)
    ensures |xs| == |ms|
  {
    seq(|ms|, k requires 0 <= k < |ms| => ms[k].sender)
  }

  /** The first routing fault among the first n messages. */
  function RoutingFault(me: nat, cps: seq<nat>, ms: seq<Routed<Body1>>, n: nat): Option<AbortReason>
    requires n <= |ms|
  {
    if n == 0 then None
    else
      match RoutingFault(me, cps, ms, n - 1)
      case Some(e) => Some(e)
      case None =>
        var m := ms[n - 1];
        if m.sender !in cps then Some(UnexpectedSender(m.sender))
        else if m.receiver != me then Some(MisroutedMessage(me, m.receiver))
        else if m.sender in Senders(ms[..n - 1]) then Some(DuplicateSender(m.sender))
        else None
  }

  function VersionFault(ms: seq<Routed<Body1>>, n: nat): Option<AbortReason>
    requires n <= |ms|
  {
    if n == 0 then None
    else
      match VersionFault(ms, n - 1)
      case Some(e) => Some(e)
      case None =>
        var m := ms[n - 1];
        if m.body.version != PROTOCOL_VERSION then Some(ProtocolVersionMismatch(m.sender, PROTOCOL_VERSION, m.body.version))
        else None
  }

  function RootFault(ms: seq<Routed<Body1>>, root: Digest, n: nat): Option<AbortReason>
    requires n <= |ms|
  {
    if n == 0 then None
    else
      match RootFault(ms, root, n - 1)
      case Some(e) => Some(e)
      case None => if ms[n - 1].body.root != root then Some(RootAgreementMismatch(ms[n - 1].sender)) else None
  }

  /** Pads and check values for one counterparty. */
  datatype Draw2 = Draw2(aTilde: seq<Scalar>, aHat: seq<Scalar>)

  type SizedDraw2 = d: Draw2 | |d.aTilde| == |d.aHat| == L witness Draw2(seq(L, _ => 0), seq(L, _ => 0))

  /** Only a failed consistency check bans. */
  function MulAbort(me: nat, counterparty: nat, e: MulErrors.ErrorMul): Abort {
    match e
    case ConsistencyFailure => Ban(me, counterparty, MultiplicationVerificationFailed(counterparty))
    case MalformedMessage => AbortRecoverable(me, MultiplicationVerificationFailed(counterparty))
  }

  type Loop2 = (map<nat, Keep2>, seq<Routed<Body2>>)

  /** One message of phase 2: we are the sender of the multiplication. */
  function Phase2Message(party: Party, data: SignData, unique: Unique1, kept: map<nat, Keep1>, keyShare: Scalar,
                         m: Routed<Body1>, draw: SizedDraw2): Result<(Keep2, Body2), Abort>
    requires PartySized(party)
  {
    var c := m.sender;
    if c !in kept || c !in party.mulSenders then Err(AbortRecoverable(party.index, MissingMulState(c)))
    else
      match Run(party.mulSenders[c], SignMulSid(c, party.index, party, data), [unique.key, keyShare],
                draw.aTilde, draw.aHat, m.body.mul)
      case Err(e) => Err(MulAbort(party.index, c, e))
      case Ok((outputs, sent)) =>
        Ok((Keep2(outputs[0], outputs[1], m.body.commitment, kept[c].mul, kept[c].chi),
            Body2(GTimes(outputs[0]), GTimes(outputs[1]), Sub(unique.mask, kept[c].chi), GTimes(keyShare),
                  unique.point, kept[c].salt, sent)))
  }

  function Phase2Messages(party: Party, data: SignData, unique: Unique1, kept: map<nat, Keep1>, keyShare: Scalar,
                          ms: seq<Routed<Body1>>, draws: nat -> SizedDraw2, n: nat): Result<Loop2, Abort>
    requires n <= |ms| && PartySized(party)
  {
    if n == 0 then Ok((map[], []))
    else
      match Phase2Messages(party, data, unique, kept, keyShare, ms, draws, n - 1)
      case Err(e) => Err(e)
      case Ok((keep, transmit)) =>
        var m := ms[n - 1];
        match Phase2Message(party, data, unique, kept, keyShare, m, draws(m.sender))
        case Err(e) => Err(e)
        case Ok((k, body)) => Ok((keep[m.sender := k], transmit + [Routed(party.index, m.sender, body)]))
  }

  /** The checks of phase 2 that come before the first multiplication step. */
  function Phase2Fault(party: Party, data: SignData, ms: seq<Routed<Body1>>): Option<AbortReason> {
    if Denominator(party.index, data.counterparties) == 0 then Some(LagrangeCoefficientFailed)
    else if |ms| != |data.counterparties| then Some(WrongMessageCount(|data.counterparties|, |ms|))
    else
      match RoutingFault(party.index, data.counterparties, ms, |ms|)
      case Some(e) => Some(e)
      case None =>
        match VersionFault(ms, |ms|)
        case Some(e) => Some(e)
        case None => RootFault(ms, RootDigest(party, data), |ms|)
  }

  type Out2 = (Unique2, map<nat, Keep2>, seq<Routed<Body2>>)

  function Phase2(party: Party, data: SignData, unique: Unique1, kept: map<nat, Keep1>,
                  ms: seq<Routed<Body1>>, draws: nat -> SizedDraw2): Result<Out2, Abort>
    requires PartySized(party)
  {
    match Phase2Fault(party, data, ms)
    case Some(e) => Err(AbortRecoverable(party.index, e))
    case None =>
      var keyShare := KeyShare(party, data, unique.zeta);
      match Phase2Messages(party, data, unique, kept, keyShare, ms, draws, |ms|)
      case Err(e) => Err(e)
      case Ok((keep, transmit)) =>
        Ok((Unique2(unique.key, unique.point, unique.mask, keyShare, GTimes(keyShare)), keep, transmit))
  }

  // Phase 3

  predicate Keep2Sized(kept: map<nat, Keep2>) {
    forall c <- kept :: KeptSized(kept[c].mul)
  }

  /** The running sums of phase 3. */
  datatype SumState = SumState(pk: Point, point: Point, first: Scalar, u: Scalar, v: Scalar)

  /** The checks on one message before its multiplication is finished. */
  function Phase3Fault(party: Party, data: SignData, kept: map<nat, Keep2>, seen: seq<nat>, m: Routed<Body2>): Option<AbortReason> {
    var c := m.sender;
    if c !in data.counterparties then Some(UnexpectedSender(c))
    else if m.receiver != party.index then Some(MisroutedMessage(party.index, m.receiver))
    else if m.body.point == IDENTITY then Some(TrivialInstancePoint(c))
    else if c in seen then Some(DuplicateSender(c))
    else if c !in kept then Some(MissingMulState(c))
    else if !VerifyCommitment(PointBytes(m.body.point), kept[c].commitment, m.body.salt) then Some(CommitmentMismatch(c))
    else if c !in party.mulReceivers then Some(MissingMulState(c))
    else None
  }

  function Phase3Message(party: Party, data: SignData, kept: map<nat, Keep2>, seen: seq<nat>, m: Routed<Body2>, s: SumState)
    : Result<SumState, Abort>
    requires PartySized(party) && Keep2Sized(kept)
  {
    var c := m.sender;
    match Phase3Fault(party, data, kept, seen, m)
    case Some(e) => Err(AbortRecoverable(party.index, e))
    case None =>
      var k := kept[c];
      match RunPhase2(party.mulReceivers[c], SignMulSid(party.index, c, party, data), k.mul, m.body.mul)
      case Err(e) => Err(MulAbort(party.index, c, e))
      case Ok(d) =>
        if Times(m.body.point, k.chi) != Plus(GTimes(d[0]), m.body.gammaU) then Err(Ban(party.index, c, GammaUInconsistency(c)))
        else if Times(m.body.publicShare, k.chi) != Plus(GTimes(d[1]), m.body.gammaV)
        then Err(Ban(party.index, c, OtConsistencyCheckFailed(c)))
        else Ok(SumState(Plus(s.pk, m.body.publicShare), Plus(s.point, m.body.point), Add(s.first, m.body.psi),
                         Add(Add(s.u, k.cu), d[0]), Add(Add(s.v, k.cv), d[1])))
  }

  function Phase3Messages(party: Party, data: SignData, unique: Unique2, kept: map<nat, Keep2>,
                          ms: seq<Routed<Body2>>, n: nat): Result<SumState, Abort>
    requires n <= |ms| && PartySized(party) && Keep2Sized(kept)
  {
    if n == 0 then Ok(SumState(unique.publicShare, unique.point, unique.mask, 0, 0))
    else
      match Phase3Messages(party, data, unique, kept, ms, n - 1)
      case Err(e) => Err(e)
      case Ok(s) => Phase3Message(party, data, kept, Senders(ms[..n - 1]), ms[n - 1], s)
  }

  function Phase3(party: Party, data: SignData, unique: Unique2, kept: map<nat, Keep2>, ms: seq<Routed<Body2>>)
    : Result<(string, Broadcast), Abort>
    requires PartySized(party) && Keep2Sized(kept)
  {
    if |ms| != |data.counterparties| then Err(AbortRecoverable(party.index, WrongMessageCount(|data.counterparties|, |ms|)))
    else
      match Phase3Messages(party, data, unique, kept, ms, |ms|)
      case Err(e) => Err(e)
      case Ok(s) =>
        if s.pk != party.pk || s.point == IDENTITY then Err(AbortRecoverable(party.index, PolynomialInconsistency))
        else
          var u := Add(Mul(unique.key, s.first), s.u);
          var v := Add(Mul(unique.keyShare, s.first), s.v);
          var w := Add(Mul(ReduceBytes(data.hash), unique.mask), Mul(v, ReduceBytes(XBytes(s.point))));
          Ok((EncodeHex(XBytes(s.point)), Broadcast(u, w)))
  }

  // Phase 4

  function Us(bs: seq<Broadcast>): (us: seq<Scalar>)
    ensures |us| == |bs|
  {
    seq(|bs|, i requires 0 <= i < |bs| => bs[i].u)
  }

  function Ws(bs: seq<Broadcast>): (ws: seq<Scalar>)
    ensures |ws| == |bs|
  {
    seq(|bs|, i requires 0 <= i < |bs| => bs[i].w)
  }

  /** Bit 0: the parity of the recomputed point; bit 1: whether reduction changed the x-coordinate. */
  function RecoveryId(point: Point, x: Digest): nat {
    (if PointBytes(point)[0] == 3 then 1 else 0) + (if x != ScalarBytes(ReduceBytes(x)) then 2 else 0)
  }

  /** The recomputation in phase 4. */
  function RecomputedPoint(m: Scalar, pk: Point, rx: Scalar, s: Scalar): Point {
    Times(Plus(Times(GENERATOR, m), Times(pk, rx)), Inv(s))
  }

  function Phase4(party: Party, data: SignData, x: string, bs: seq<Broadcast>, normalize: bool): Result<(string, nat), AbortReason> {
    var denominator := SumSeq(Us(bs));
    if denominator == 0 then Err(ZeroDenominator)
    else
      match DecodeField(x)
      case None => Err(InvalidXCoordinateHex)
      case Some(bytes) =>
        var quotient := Mul(SumSeq(Ws(bs)), Inv(denominator));
        var s := if normalize then LowS(quotient) else quotient;
        var signature := EncodeHex(ScalarBytes(s));
        if !VerifySignature(data.hash, party.pk, x, signature) then Err(SignatureVerificationFailed)
        else
          var point := RecomputedPoint(ReduceBytes(data.hash), party.pk, ReduceBytes(bytes), s);
          Ok((signature, RecoveryId(point, bytes)))
  }
}
