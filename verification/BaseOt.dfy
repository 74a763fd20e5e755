/** The base OT: the endemic protocol of Zhou et al., in batches. */
module BaseOt {
  import opened Scalars
  import opened Results
  import opened OtErrors
  import opened Hashes
  import opened Oracles
  import opened Curve
  import opened Proofs

  datatype OtSender = OtSender(s: Scalar, proof: DLogProof)

  /** What the receiver draws for one instance: its secret, and the randomness of its proof. */
  datatype Draws = Draws(r: Scalar, nonce: Scalar, fakeChallenge: Scalar, fakeResponse: Scalar)

  const MAX_BATCH := 65535

  /** The second generator of a session, from the receiver's seed. */
  function BaseH(sid: Bytes, seed: Digest): Point {
    GTimes(TaggedScalar(TAG_OT_BASE_H, [sid, seed]))
  }

  function Pad(sid: Bytes, p: Point): Digest {
    TaggedHash(TAG_OT_BASE_MSG, [sid, PointBytes(p)])
  }

  function IndexedSid(i: nat, sid: Bytes): Bytes {
    ToBe(i, 2) + sid
  }

  // The sender

  function SenderPhase2(sender: OtSender, sid: Bytes, seed: Digest, enc: EncProof): Result<(Digest, Digest), ErrorOt> {
    var h := BaseH(sid, seed);
    if !EncVerify(enc, sid) || h != enc.proof0.baseH then Err(MalformedMessage)
    else
      var v := enc.proof0.u;
      Ok((Pad(sid, Times(v, sender.s)), Pad(sid, Times(Minus(v, h), sender.s))))
  }

  predicate AllAccepted(sender: OtSender, sid: Bytes, seed: Digest, encs: seq<EncProof>) {
    forall i :: 0 <= i < |encs| ==> SenderPhase2(sender, IndexedSid(i, sid), seed, encs[i]).Ok?
  }

  function SenderBatch(sender: OtSender, sid: Bytes, seed: Digest, encs: seq<EncProof>)
    : Result<(seq<Digest>, seq<Digest>), ErrorOt>
  {
    if |encs| > MAX_BATCH || !AllAccepted(sender, sid, seed, encs) then Err(MalformedMessage)
    else
      Ok((seq(|encs|, i requires 0 <= i < |encs| => SenderPhase2(sender, IndexedSid(i, sid), seed, encs[i]).value.0),
          seq(|encs|, i requires 0 <= i < |encs| => SenderPhase2(sender, IndexedSid(i, sid), seed, encs[i]).value.1)))
  }

  method RunSenderBatch(sender: OtSender, sid: Bytes, seed: Digest, encs: seq<EncProof>)
    returns (result: Result<(seq<Digest>, seq<Digest>), ErrorOt>)
    ensures result == SenderBatch(sender, sid, seed, encs)
  {
    hide SenderPhase2, IndexedSid;
    if |encs| > MAX_BATCH {
      return Err(MalformedMessage);
    }
    var m0: seq<Digest>, m1: seq<Digest> := [], [];
    for i := 0 to |encs|
      invariant |m0| == |m1| == i
      invariant forall k :: 0 <= k < i ==> SenderPhase2(sender, IndexedSid(k, sid), seed, encs[k]) == Ok((m0[k], m1[k]))
    {
      var messages := SenderPhase2(sender, IndexedSid(i, sid), seed, encs[i]);
      OnlyMalformed(sender, IndexedSid(i, sid), seed, encs[i]);
      match messages {
        case Err(e) =>
          assert !AllAccepted(sender, sid, seed, encs);
          return Err(e);
        case Ok((a, b)) =>
          m0, m1 := m0 + [a], m1 + [b];
      }
    }
    var n := |encs|;
    assert m0 == seq(n, i requires 0 <= i < n => SenderPhase2(sender, IndexedSid(i, sid), seed, encs[i]).value.0);
    assert m1 == seq(n, i requires 0 <= i < n => SenderPhase2(sender, IndexedSid(i, sid), seed, encs[i]).value.1);
    result := Ok((m0, m1));
  }

  lemma OnlyMalformed(sender: OtSender, sid: Bytes, seed: Digest, enc: EncProof)
    ensures var r := SenderPhase2(sender, sid, seed, enc); r.Err? ==> r == Err(MalformedMessage)
  {}

  // The receiver

  function ReceiverProof(seed: Digest, sid: Bytes, bit: bool, d: Draws): EncProof {
    Prove(sid, BaseH(sid, seed), d.r, bit, d.nonce, d.fakeChallenge, d.fakeResponse)
  }

  function ReceiverProofs(seed: Digest, sid: Bytes, bits: seq<bool>, draws: seq<Draws>): (encs: seq<EncProof>)
    requires |bits| == |draws|
    ensures |encs| == |bits|
  {
    seq(|bits|, i requires 0 <= i < |bits| => ReceiverProof(seed, IndexedSid(i, sid), bits[i], draws[i]))
  }

  /** `OTReceiver::run_phase1_batch`. */
  method RunReceiverPhase1Batch(seed: Digest, sid: Bytes, bits: seq<bool>, draws: seq<Draws>)
    returns (result: Result<(seq<Scalar>, seq<EncProof>), ErrorOt>)
    requires |bits| == |draws|
    ensures |bits| > MAX_BATCH ==> result == Err(MalformedMessage)
    ensures |bits| <= MAX_BATCH ==>
      result == Ok((seq(|bits|, i requires 0 <= i < |bits| => draws[i].r), ReceiverProofs(seed, sid, bits, draws)))
  {
    hide ReceiverProof, IndexedSid;
    if |bits| > MAX_BATCH {
      return Err(MalformedMessage);
    }
    var rs: seq<Scalar>, encs: seq<EncProof> := [], [];
    for i := 0 to |bits|
      invariant |rs| == |encs| == i
      invariant forall k :: 0 <= k < i ==>
        rs[k] == draws[k].r && encs[k] == ReceiverProof(seed, IndexedSid(k, sid), bits[k], draws[k])
    {
      rs := rs + [draws[i].r];
      encs := encs + [ReceiverProof(seed, IndexedSid(i, sid), bits[i], draws[i])];
    }
    assert rs == seq(|bits|, i requires 0 <= i < |bits| => draws[i].r);
    assert encs == ReceiverProofs(seed, sid, bits, draws);
    result := Ok((rs, encs));
  }

  function ReceiverPad(sid: Bytes, r: Scalar, z: Point): Digest {
    Pad(sid, Times(z, r))
  }

  function ReceiverBatch(sid: Bytes, rs: seq<Scalar>, proof: DLogProof): Result<seq<Digest>, ErrorOt> {
    if !DLogVerify(proof, sid) || |rs| > MAX_BATCH then Err(MalformedMessage)
    else Ok(seq(|rs|, i requires 0 <= i < |rs| => ReceiverPad(IndexedSid(i, sid), rs[i], proof.point)))
  }

  /** `OTReceiver::run_phase2_batch`. */
  method RunReceiverBatch(sid: Bytes, rs: seq<Scalar>, proof: DLogProof) returns (result: Result<seq<Digest>, ErrorOt>)
    ensures result == ReceiverBatch(sid, rs, proof)
  {
    hide DLogVerify, ReceiverPad, IndexedSid;
    var verified := VerifyDLog(proof, sid);
    if !verified || |rs| > MAX_BATCH {
      return Err(MalformedMessage);
    }
    var mb: seq<Digest> := [];
    for i := 0 to |rs|
      invariant |mb| == i
      invariant forall k :: 0 <= k < i ==> mb[k] == ReceiverPad(IndexedSid(k, sid), rs[k], proof.point)
    {
      mb := mb + [ReceiverPad(IndexedSid(i, sid), rs[i], proof.point)];
    }
    assert mb == seq(|rs|, i requires 0 <= i < |rs| => ReceiverPad(IndexedSid(i, sid), rs[i], proof.point));
    result := Ok(mb);
  }

  // Agreement

  /** One instance: the sender accepts exactly the non-degenerate proofs, and its message for the
      receiver's bit is then the receiver's pad. */
  lemma InstanceAgrees(sender: OtSender, sid: Bytes, seed: Digest, bit: bool, d: Draws)
    ensures var m := SenderPhase2(sender, sid, seed, ReceiverProof(seed, sid, bit, d));
            && (m.Ok? <==> NonDegenerate(BaseH(sid, seed), d.r, bit))
            && (m.Ok? ==> (if bit then m.value.1 else m.value.0) == ReceiverPad(sid, d.r, GTimes(sender.s)))
  {
    hide Mul, EncVerify, BaseH, Pad, EncChallenge;
    EncComplete(sid, BaseH(sid, seed), d.r, bit, d.nonce, d.fakeChallenge, d.fakeResponse);
    MulComm(d.r, sender.s);
    SubAdd(d.r, BaseH(sid, seed).log);
    ProofPoints(sid, BaseH(sid, seed), d.r, bit, d.nonce, d.fakeChallenge, d.fakeResponse);
    hide Prove;
  }

  lemma SubAdd(a: Scalar, b: Scalar)
    ensures Sub(Add(a, b), b) == a && Add(Sub(a, b), b) == a
  {}

  lemma ProofPoints(sid: Bytes, baseH: Point, scalar: Scalar, bit: bool,
                    nonce: Scalar, fakeChallenge: Scalar, fakeResponse: Scalar)
    ensures var p := Prove(sid, baseH, scalar, bit, nonce, fakeChallenge, fakeResponse);
            p.proof0.baseH == baseH && p.proof0.u == EncStatement(baseH, scalar, bit)
  {
    hide EncChallenge, Mul;
    MulOne(scalar);
  }

  predicate AllNonDegenerate(sid: Bytes, seed: Digest, bits: seq<bool>, draws: seq<Draws>)
    requires |bits| == |draws|
  {
    forall i :: 0 <= i < |bits| ==> NonDegenerate(BaseH(IndexedSid(i, sid), seed), draws[i].r, bits[i])
  }

  /** A whole batch: the sender accepts exactly when no instance is degenerate, the receiver exactly
      when the sender's proof verifies, and then for every index the receiver's output is the sender's
      message for its bit. */
  lemma BatchAgrees(sender: OtSender, sid: Bytes, seed: Digest, bits: seq<bool>, draws: seq<Draws>, rs: seq<Scalar>)
    requires |bits| == |draws| == |rs| <= MAX_BATCH
    requires forall i :: 0 <= i < |rs| ==> rs[i] == draws[i].r
    requires sender.proof.point == GTimes(sender.s)
    ensures var sent := SenderBatch(sender, sid, seed, ReceiverProofs(seed, sid, bits, draws));
            var got := ReceiverBatch(sid, rs, sender.proof);
            && (sent.Ok? <==> AllNonDegenerate(sid, seed, bits, draws))
            && (got.Ok? <==> DLogVerify(sender.proof, sid))
            && (got.Ok? ==> |got.value| == |bits|)
            && (sent.Ok? && got.Ok? ==>
                  && |sent.value.0| == |sent.value.1| == |bits|
                  && forall i :: 0 <= i < |bits| ==>
                       got.value[i] == if bits[i] then sent.value.1[i] else sent.value.0[i])
  {
    hide SenderPhase2, ReceiverProof, NonDegenerate, ReceiverPad, IndexedSid, BaseH, DLogVerify;
    forall i | 0 <= i < |bits|
      ensures var m := SenderPhase2(sender, IndexedSid(i, sid), seed, ReceiverProof(seed, IndexedSid(i, sid), bits[i], draws[i]));
              && (m.Ok? <==> NonDegenerate(BaseH(IndexedSid(i, sid), seed), draws[i].r, bits[i]))
              && (m.Ok? ==>
                    (if bits[i] then m.value.1 else m.value.0)
                      == ReceiverPad(IndexedSid(i, sid), draws[i].r, GTimes(sender.s)))
    {
      InstanceAgrees(sender, IndexedSid(i, sid), seed, bits[i], draws[i]);
    }
  }
}
