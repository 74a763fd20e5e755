/** Initialisation of a multiplication pair by the base OT, with the roles reversed: the sender of
    the extension is the receiver of the base OT. */
module MulInit {
  import opened Scalars
  import opened Results
  import opened OtErrors
  import opened OtConstants
  import opened Hashes
  import opened Curve
  import opened Proofs
  import opened BaseOt
  import opened OtExtension
  import opened Multiplication

  /** `MulSender::init_phase2`. */
  function InitSender(sid: Bytes, correlation: seq<bool>, rs: seq<Scalar>, proof: DLogProof, nonce: Scalar)
    : Result<MulSender, ErrorOt>
  {
    match ReceiverBatch(sid, rs, proof)
    case Err(e) => Err(e)
    case Ok(seeds) => Ok(MulSender(Gadget(sid, nonce, BATCH_SIZE), OteSender(correlation, seeds)))
  }

  /** `MulReceiver::init_phase2`. */
  function InitReceiver(ot: OtSender, sid: Bytes, seed: Digest, encs: seq<EncProof>, nonce: Scalar)
    : Result<MulReceiver, ErrorOt>
  {
    match SenderBatch(ot, sid, seed, encs)
    case Err(e) => Err(e)
    case Ok((seeds0, seeds1)) => Ok(MulReceiver(Gadget(sid, nonce, BATCH_SIZE), OteReceiver(seeds0, seeds1)))
  }

  method RunInitSender(sid: Bytes, correlation: seq<bool>, rs: seq<Scalar>, proof: DLogProof, nonce: Scalar)
    returns (r: Result<MulSender, ErrorOt>)
    ensures r == InitSender(sid, correlation, rs, proof, nonce)
  {
    hide ReceiverBatch, Gadget;
    var seeds := RunReceiverBatch(sid, rs, proof);
    match seeds {
      case Err(e) => r := Err(e);
      case Ok(s) =>
        var gadget := ComputeGadget(sid, nonce);
        r := Ok(MulSender(gadget, OteSender(correlation, s)));
    }
  }

  method RunInitReceiver(ot: OtSender, sid: Bytes, seed: Digest, encs: seq<EncProof>, nonce: Scalar)
    returns (r: Result<MulReceiver, ErrorOt>)
    ensures r == InitReceiver(ot, sid, seed, encs, nonce)
  {
    hide SenderBatch, Gadget;
    var seeds := RunSenderBatch(ot, sid, seed, encs);
    match seeds {
      case Err(e) => r := Err(e);
      case Ok((s0, s1)) =>
        var gadget := ComputeGadget(sid, nonce);
        r := Ok(MulReceiver(gadget, OteReceiver(s0, s1)));
    }
  }

  /** A pair ready to multiply: seeds that agree in every column, and a common gadget. */
  predicate MulPair(s: MulSender, r: MulReceiver) {
    SeedRelation(s.ote, r.ote) && s.gadget == r.gadget && |s.gadget| == BATCH_SIZE
  }

  /** Base-OT initialisation establishes the seed relation in all columns. The receiver's side fails
      exactly when an encryption statement is degenerate, the sender's exactly when the proof it got
      does not verify. */
  lemma InitEstablishes(ot: OtSender, sid: Bytes, seed: Digest, correlation: seq<bool>, draws: seq<Draws>,
                        rs: seq<Scalar>, nonce: Scalar)
    requires |correlation| == |draws| == |rs| == KAPPA
    requires forall i :: 0 <= i < KAPPA ==> rs[i] == draws[i].r
    requires ot.proof.point == GTimes(ot.s)
    ensures var s := InitSender(sid, correlation, rs, ot.proof, nonce);
            var r := InitReceiver(ot, sid, seed, ReceiverProofs(seed, sid, correlation, draws), nonce);
            && (s.Ok? <==> DLogVerify(ot.proof, sid))
            && (r.Ok? <==> AllNonDegenerate(sid, seed, correlation, draws))
            && (s.Ok? && r.Ok? ==> MulPair(s.value, r.value))
  {
    hide SenderBatch, ReceiverBatch, ReceiverProofs, AllNonDegenerate, Gadget, DLogVerify;
    BatchAgrees(ot, sid, seed, correlation, draws, rs);
  }
}
