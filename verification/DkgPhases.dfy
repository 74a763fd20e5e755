/** The four phases of key generation, and the honest run of all parties. */
module DkgPhases {
  import opened Scalars
  import opened Sums
  import opened Shamir
  import opened Results
  import opened OtConstants
  import opened Bits
  import opened Hashes
  import opened Oracles
  import opened Curve
  import opened Proofs
  import opened BaseOt
  import opened ZeroShares
  import opened OtExtension
  import opened Multiplication
  import opened MulInit
  import opened Parties
  import opened Routing
  import opened KeyInit
  import opened Dkg
  import opened Compatibility

  datatype SessionData = SessionData(parameters: Parameters, index: nat, sid: Bytes)

  datatype Broadcast2 = Broadcast2(sender: nat, commitment: Digest, version: nat)

  datatype Broadcast3 = Broadcast3(sender: nat, aux: Digest, salt: Bytes)

  // Phase 2

  /** Phase 2: the share, the proof with its commitment, and the commitments to seeds and chain
      code. The proof, the seeds and the salts are drawn by the caller. */
  method Phase2(data: SessionData, fragments: seq<Scalar>, proof: DLogProof, openings: map<nat, Opening>, aux: Opening)
    returns (polyPoint: Scalar, pc: ProofCommitment, keep: map<nat, Opening>, transmit: seq<Routed<Digest>>, broadcast: Broadcast2)
    requires ValidParameters(data.parameters) && openings.Keys == Others(data.index, data.parameters.shareCount)
    ensures polyPoint == SumSeq(fragments)
    ensures pc == ProofCommitment(data.index, proof, DLogCommitment(proof, data.sid))
    ensures keep == openings
    ensures transmit == Address(data.index, data.parameters.shareCount, SeedCommitments(openings))
    ensures broadcast == Broadcast2(data.index, Commit(aux.seed, aux.salt), PROTOCOL_VERSION)
  {
    hide DLogCommitment, Commit, SeedCommitments;
    polyPoint, pc := Step3(data.index, data.sid, fragments, proof);
    keep, transmit := CommitSeeds(data.index, data.parameters.shareCount, openings);
    broadcast := Broadcast2(data.index, Commit(aux.seed, aux.salt), PROTOCOL_VERSION);
  }

  // Phase 4

  /** The first broadcast, by index, with another protocol version. */
  function WrongVersion(bip2: map<nat, Broadcast2>, bound: nat): Option<nat> {
    if bound == 0 then None
    else
      match WrongVersion(bip2, bound - 1)
      case Some(j) => Some(j)
      case None => if bound in bip2 && bip2[bound].version != PROTOCOL_VERSION then Some(bound) else None
  }

  lemma {:induction false} WrongVersionSpec(bip2: map<nat, Broadcast2>, bound: nat)
    ensures match WrongVersion(bip2, bound)
            case Some(j) =>
              && 0 < j <= bound && j in bip2 && bip2[j].version != PROTOCOL_VERSION
              && (forall k :: 0 < k < j && k in bip2 ==> bip2[k].version == PROTOCOL_VERSION)
            case None => forall j :: 0 < j <= bound && j in bip2 ==> bip2[j].version == PROTOCOL_VERSION
  {
    if bound > 0 { WrongVersionSpec(bip2, bound - 1); }
  }

  /** The XOR of the auxiliary chain codes of parties 1 to n. */
  function ChainCode(n: nat, bip2: map<nat, Broadcast2>, bip3: map<nat, Broadcast3>): Result<Digest, AbortReason> {
    if n == 0 then Ok(Zeros())
    else
      match ChainCode(n - 1, bip2, bip3)
      case Err(e) => Err(e)
      case Ok(code) =>
        if n !in bip3 || n !in bip2 then Err(MissingMessageFromParty(n))
        else if !VerifyCommitment(bip3[n].aux, bip2[n].commitment, bip3[n].salt) then Err(ChainCodeCommitmentFailed(n))
        else Ok(Xor(code, bip3[n].aux))
  }

  lemma {:induction false} ChainCodeErr(n: nat, k: nat, bip2: map<nat, Broadcast2>, bip3: map<nat, Broadcast3>)
    requires k <= n && ChainCode(k, bip2, bip3).Err?
    ensures ChainCode(n, bip2, bip3) == ChainCode(k, bip2, bip3)
    decreases n
  {
    if k < n { ChainCodeErr(n - 1, k, bip2, bip3); }
  }

  method AssembleChainCode(n: nat, bip2: map<nat, Broadcast2>, bip3: map<nat, Broadcast3>)
    returns (r: Result<Digest, AbortReason>)
    ensures r == ChainCode(n, bip2, bip3)
  {
    hide VerifyCommitment, Xor;
    var code: Digest := Zeros();
    for i := 1 to n + 1
      invariant ChainCode(i - 1, bip2, bip3) == Ok(code)
    {
      if i !in bip3 || i !in bip2 {
        ChainCodeErr(n, i, bip2, bip3);
        return Err(MissingMessageFromParty(i));
      }
      if !VerifyCommitment(bip3[i].aux, bip2[i].commitment, bip3[i].salt) {
        ChainCodeErr(n, i, bip2, bip3);
        return Err(ChainCodeCommitmentFailed(i));
      }
      code := XorDigests(code, bip3[i].aux);
    }
    r := Ok(code);
  }

  predicate TrivialShare(s: Scalar) {
    s == 0 || s == 1
  }

  /** The initialisations after the key itself: zero shares, multiplication, chain code. */
  function Phase4Rest(data: SessionData, polyPoint: Scalar, pk: Point, points: map<nat, Point>,
                      zeroKept: map<nat, Digest>, zero2: seq<Routed<Digest>>, zero3: seq<Routed<Opening>>,
                      mulKept: map<nat, MulInitKept>, mulMessages: seq<Routed<MulInitMessage>>,
                      bip2: map<nat, Broadcast2>, bip3: map<nat, Broadcast3>)
    : Result<(Party, PublicKeyPackage), AbortReason>
  {
    match ZeroBlock(data.index, zeroKept, zero2, zero3)
    case Err(e) => Err(e)
    case Ok(seeds) =>
      match MulBlock(data.index, data.sid, mulKept, mulMessages)
      case Err(e) => Err(e)
      case Ok((senders, receivers)) =>
        match ChainCode(data.parameters.shareCount, bip2, bip3)
        case Err(e) => Err(e)
        case Ok(code) =>
          Ok((Party(data.parameters, data.index, data.sid, polyPoint, pk, seeds, senders, receivers,
                    DerivData(0, 0, ToBe(0, FINGERPRINT_BYTES), polyPoint, pk, code)),
              PublicKeyPackage(pk, points, data.parameters)))
  }

  function Phase4Reason(data: SessionData, polyPoint: Scalar, pcs: seq<ProofCommitment>,
                        zeroKept: map<nat, Digest>, zero2: seq<Routed<Digest>>, zero3: seq<Routed<Opening>>,
                        mulKept: map<nat, MulInitKept>, mulMessages: seq<Routed<MulInitMessage>>,
                        bip2: map<nat, Broadcast2>, bip3: map<nat, Broadcast3>)
    : Result<(Party, PublicKeyPackage), AbortReason>
    requires ValidParameters(data.parameters)
  {
    match WrongVersion(bip2, MAX_INDEX)
    case Some(j) => WrongVersionSpec(bip2, MAX_INDEX); Err(ProtocolVersionMismatch(j, PROTOCOL_VERSION, bip2[j].version))
    case None =>
      match Step5Result(data.parameters, data.index, data.sid, pcs)
      case Err(e) => Err(e)
      case Ok((pk, points)) =>
        if pk == IDENTITY || pk == GENERATOR then Err(TrivialPublicKey)
        else if TrivialShare(polyPoint) then Err(TrivialKeyShare)
        else Phase4Rest(data, polyPoint, pk, points, zeroKept, zero2, zero3, mulKept, mulMessages, bip2, bip3)
  }

  method CheckVersions(bip2: map<nat, Broadcast2>) returns (r: Option<nat>)
    ensures r == WrongVersion(bip2, MAX_INDEX)
  {
    for i := 1 to MAX_INDEX + 1
      invariant WrongVersion(bip2, i - 1) == None
    {
      if i in bip2 && bip2[i].version != PROTOCOL_VERSION {
        FirstVersion(bip2, i, MAX_INDEX);
        return Some(i);
      }
    }
    r := None;
  }

  lemma {:induction false} FirstVersion(bip2: map<nat, Broadcast2>, k: nat, bound: nat)
    requires k <= bound && WrongVersion(bip2, k).Some?
    ensures WrongVersion(bip2, bound) == WrongVersion(bip2, k)
    decreases bound
  {
    if k < bound { FirstVersion(bip2, k, bound - 1); }
  }

  /** Phase 4. No fault of key generation bans anybody. */
  method Phase4(data: SessionData, polyPoint: Scalar, pcs: seq<ProofCommitment>,
                zeroKept: map<nat, Digest>, zero2: seq<Routed<Digest>>, zero3: seq<Routed<Opening>>,
                mulKept: map<nat, MulInitKept>, mulMessages: seq<Routed<MulInitMessage>>,
                bip2: map<nat, Broadcast2>, bip3: map<nat, Broadcast3>)
    returns (r: Result<(Party, PublicKeyPackage), Abort>)
    requires ValidParameters(data.parameters)
    ensures match Phase4Reason(data, polyPoint, pcs, zeroKept, zero2, zero3, mulKept, mulMessages, bip2, bip3)
            case Err(e) => r == Err(Abort(data.index, Recoverable, e))
            case Ok(v) => r == Ok(v)
  {
    hide WrongVersion, Step5Result, ZeroBlock, MulBlock, ChainCode;
    var wrong := CheckVersions(bip2);
    if wrong.Some? {
      WrongVersionSpec(bip2, MAX_INDEX);
      return Err(AbortRecoverable(data.index, ProtocolVersionMismatch(wrong.value, PROTOCOL_VERSION, bip2[wrong.value].version)));
    }
    var key := Step5(data.parameters, data.index, data.sid, pcs);
    if key.Err? {
      return Err(AbortRecoverable(data.index, key.error));
    }
    var (pk, points) := key.value;
    if pk == IDENTITY || pk == GENERATOR {
      return Err(AbortRecoverable(data.index, TrivialPublicKey));
    }
    if TrivialShare(polyPoint) {
      return Err(AbortRecoverable(data.index, TrivialKeyShare));
    }
    var seeds := InitZeroShares(data.index, zeroKept, zero2, zero3);
    if seeds.Err? {
      return Err(AbortRecoverable(data.index, seeds.error));
    }
    var mul := InitMultiplication(data.index, data.sid, mulKept, mulMessages);
    if mul.Err? {
      return Err(AbortRecoverable(data.index, mul.error));
    }
    var code := AssembleChainCode(data.parameters.shareCount, bip2, bip3);
    if code.Err? {
      return Err(AbortRecoverable(data.index, code.error));
    }
    var derivation := DerivData(0, 0, ToBe(0, FINGERPRINT_BYTES), polyPoint, pk, code.value);
    var party := Party(data.parameters, data.index, data.sid, polyPoint, pk, seeds.value, mul.value.0, mul.value.1, derivation);
    r := Ok((party, PublicKeyPackage(pk, points, data.parameters)));
  }
}
