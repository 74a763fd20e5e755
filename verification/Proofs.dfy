/** Zero-knowledge proofs: Schnorr with the randomised Fischlin transform, Chaum-Pedersen, and
    the OR-composition used by the base OT. Random draws are parameters. */
module Proofs {
  import opened Scalars
  import opened Hashes
  import opened Oracles
  import opened Curve

  // Schnorr's protocol

  const T_BYTES := 4

  datatype Interactive = Interactive(challenge: Bytes, response: Scalar)

  /** A short challenge, extended to 32 bytes and reduced. */
  function ChallengeScalar(challenge: Bytes): Scalar
    requires |challenge| <= SECURITY
  {
    ReduceBytes(ToBe(0, SECURITY - |challenge|) + challenge)
  }

  /** The resampling loop of the first steps: the first nonzero draw. */
  method SampleNonzero(draws: seq<Scalar>) returns (s: Scalar, used: nat)
    requires exists k :: 0 <= k < |draws| && draws[k] != 0
    ensures 0 < used <= |draws| && s == draws[used - 1] != 0
    ensures forall k :: 0 <= k < used - 1 ==> draws[k] == 0
  {
    s, used := 0, 0;
    while s == 0
      invariant used <= |draws|
      invariant used == 0 ==> s == 0
      invariant used > 0 ==> s == draws[used - 1]
      invariant forall k :: 0 <= k < used - 1 ==> draws[k] == 0
      decreases |draws| - used
    {
      s, used := draws[used], used + 1;
    }
  }

  function ProveStep2(scalar: Scalar, nonce: Scalar, challenge: Bytes): Interactive
    requires |challenge| <= SECURITY
  {
    Interactive(challenge, Sub(nonce, Mul(ChallengeScalar(challenge), scalar)))
  }

  predicate InteractiveVerify(proof: Interactive, point: Point, commitment: Point) {
    && 0 < |proof.challenge| <= T_BYTES
    && Plus(GTimes(proof.response), Times(point, ChallengeScalar(proof.challenge))) == commitment
  }

  /** The Schnorr equation accepts the response of a prover who knows the logarithm. */
  lemma InteractiveComplete(scalar: Scalar, nonce: Scalar, challenge: Bytes)
    requires |challenge| <= SECURITY
    ensures InteractiveVerify(ProveStep2(scalar, nonce, challenge), GTimes(scalar), GTimes(nonce))
       <==> 0 < |challenge| <= T_BYTES
  {
    hide Mul;
    MulComm(ChallengeScalar(challenge), scalar);
  }

  /** The witness two answers to different challenges give away. */
  function Extract(c: Scalar, r: Scalar, c': Scalar, r': Scalar): Scalar {
    Mul(Sub(r, r'), Inv(Sub(c', c)))
  }

  /** Two equations a = r + x c = r' + x c' with c and c' different determine x. */
  lemma ExtractScalar(x: Scalar, c: Scalar, r: Scalar, c': Scalar, r': Scalar)
    requires c != c' && Add(r, Mul(x, c)) == Add(r', Mul(x, c'))
    ensures Extract(c, r, c', r') == x
  {
    hide Mul, Inv;
    var d := Sub(c', c);
    MulSub(x, c', c);
    MulInv(d);
    MulAssoc(x, d, Inv(d));
    MulOne(x);
  }

  lemma InteractiveSound(p: Interactive, p': Interactive, point: Point, commitment: Point)
    requires InteractiveVerify(p, point, commitment) && InteractiveVerify(p', point, commitment)
    requires ChallengeScalar(p.challenge) != ChallengeScalar(p'.challenge)
    ensures point == GTimes(Extract(ChallengeScalar(p.challenge), p.response, ChallengeScalar(p'.challenge), p'.response))
  {
    hide Mul;
    ExtractScalar(point.log, ChallengeScalar(p.challenge), p.response, ChallengeScalar(p'.challenge), p'.response);
  }

  // The non-interactive proof

  const R := 64
  const FISCHLIN_BYTES := 1

  datatype DLogProof = DLogProof(point: Point, commitments: seq<Point>, proofs: seq<Interactive>)

  function PointsBytes(ps: seq<Point>): Bytes {
    Concat(seq(|ps|, i requires 0 <= i < |ps| => PointBytes(ps[i])))
  }

  function FischlinHash(sid: Bytes, commitments: Bytes, i: nat, p: Interactive): Bytes {
    TaggedHash(TAG_DLOG_PROOF_FISCHLIN,
               [sid, PointBytes(GENERATOR) + commitments + ToBe(i, 2) + p.challenge + ScalarBytes(p.response)])
      [..FISCHLIN_BYTES]
  }

  predicate Collides(sid: Bytes, commitments: Bytes, proofs: seq<Interactive>, i: nat)
    requires |proofs| == R && i < R / 2
  {
    FischlinHash(sid, commitments, i, proofs[i]) == FischlinHash(sid, commitments, i + R / 2, proofs[i + R / 2])
  }

  predicate DistinctPoints(ps: seq<Point>) {
    forall i, j :: 0 <= i < j < |ps| ==> ps[i] != ps[j]
  }

  /** What an accepted proof satisfies. */
  predicate DLogVerify(proof: DLogProof, sid: Bytes) {
    && |proof.commitments| == |proof.proofs| == R
    && proof.point != IDENTITY
    && (forall i :: 0 <= i < R ==> proof.commitments[i] != IDENTITY)
    && DistinctPoints(proof.commitments)
    && (forall i :: 0 <= i < R / 2 ==> Collides(sid, PointsBytes(proof.commitments), proof.proofs, i))
    && (forall i :: 0 <= i < R ==> InteractiveVerify(proof.proofs[i], proof.point, proof.commitments[i]))
  }

  /** The verification loop, with its set of encodings already seen. */
  method VerifyDLog(proof: DLogProof, sid: Bytes) returns (ok: bool)
    ensures ok == DLogVerify(proof, sid)
  {
    hide PointBytes, FischlinHash, InteractiveVerify;
    if |proof.commitments| != R || |proof.proofs| != R {
      return false;
    }
    if proof.point == IDENTITY || exists i :: 0 <= i < R && proof.commitments[i] == IDENTITY {
      return false;
    }
    var distinct := AllDistinct(proof.commitments);
    if !distinct {
      return false;
    }
    var bytes := PointsBytes(proof.commitments);
    for i := 0 to R / 2
      invariant forall k :: 0 <= k < i ==> Collides(sid, bytes, proof.proofs, k)
      invariant forall k :: 0 <= k < i ==> InteractiveVerify(proof.proofs[k], proof.point, proof.commitments[k])
      invariant forall k :: R / 2 <= k < R / 2 + i ==>
        InteractiveVerify(proof.proofs[k], proof.point, proof.commitments[k])
    {
      var j := i + R / 2;
      if FischlinHash(sid, bytes, i, proof.proofs[i]) != FischlinHash(sid, bytes, j, proof.proofs[j]) {
        assert !Collides(sid, bytes, proof.proofs, i);
        return false;
      }
      if !InteractiveVerify(proof.proofs[i], proof.point, proof.commitments[i])
        || !InteractiveVerify(proof.proofs[j], proof.point, proof.commitments[j]) {
        return false;
      }
    }
    ok := true;
  }

  method AllDistinct(ps: seq<Point>) returns (ok: bool)
    ensures ok == DistinctPoints(ps)
  {
    hide PointBytes;
    var seen: set<Bytes> := {};
    for i := 0 to |ps|
      invariant forall b :: b in seen <==> exists k :: 0 <= k < i && PointBytes(ps[k]) == b
      invariant DistinctPoints(ps[..i])
    {
      var b := PointBytes(ps[i]);
      if b in seen {
        var k :| 0 <= k < i && PointBytes(ps[k]) == b;
        PointBytesInjective(ps[k], ps[i]);
        return false;
      }
      forall k | 0 <= k < i ensures ps[k] != ps[i] { PointBytesInjective(ps[k], ps[i]); }
      seen := seen + {b};
    }
    assert ps[..|ps|] == ps;
    ok := true;
  }

  /** The proof assembled from a witness, the nonces and the challenges found by the search. */
  function Assemble(scalar: Scalar, nonces: seq<Scalar>, challenges: seq<Bytes>): DLogProof
    requires |nonces| == |challenges| == R
    requires forall i :: 0 <= i < R ==> |challenges[i]| == T_BYTES
  {
    DLogProof(GTimes(scalar), seq(R, i requires 0 <= i < R => GTimes(nonces[i])),
              seq(R, i requires 0 <= i < R => ProveStep2(scalar, nonces[i], challenges[i])))
  }

  /** An assembled proof is accepted exactly when the witness and the nonces are nonzero, the
      nonces are distinct and the search has found its collisions. */
  lemma DLogComplete(scalar: Scalar, nonces: seq<Scalar>, challenges: seq<Bytes>, sid: Bytes)
    requires |nonces| == |challenges| == R
    requires forall i :: 0 <= i < R ==> |challenges[i]| == T_BYTES
    ensures DLogVerify(Assemble(scalar, nonces, challenges), sid)
       <==> && scalar != 0
            && (forall i :: 0 <= i < R ==> nonces[i] != 0)
            && (forall i, j :: 0 <= i < j < R ==> nonces[i] != nonces[j])
            && forall i :: 0 <= i < R / 2 ==>
                 Collides(sid, PointsBytes(Assemble(scalar, nonces, challenges).commitments),
                          Assemble(scalar, nonces, challenges).proofs, i)
  {
    hide Mul, ChallengeScalar, FischlinHash, PointBytes, Collides, InteractiveVerify, ProveStep2, Times;
    var p := Assemble(scalar, nonces, challenges);
    forall i | 0 <= i < R ensures InteractiveVerify(p.proofs[i], p.point, p.commitments[i]) {
      InteractiveComplete(scalar, nonces[i], challenges[i]);
      ChallengeKept(scalar, nonces[i], challenges[i]);
    }
    assert forall i, j :: 0 <= i < j < R ==> (p.commitments[i] != p.commitments[j] <==> nonces[i] != nonces[j]);
  }

  lemma ChallengeKept(scalar: Scalar, nonce: Scalar, challenge: Bytes)
    requires |challenge| <= SECURITY
    ensures ProveStep2(scalar, nonce, challenge).challenge == challenge
  {}

  /** Two accepted proofs with the same commitments that answer some challenge differently give
      away the logarithm. */
  lemma DLogSound(p: DLogProof, p': DLogProof, sid: Bytes, sid': Bytes, i: nat)
    requires DLogVerify(p, sid) && DLogVerify(p', sid')
    requires p.point == p'.point && p.commitments == p'.commitments && i < R
    requires ChallengeScalar(p.proofs[i].challenge) != ChallengeScalar(p'.proofs[i].challenge)
    ensures p.point == GTimes(Extract(ChallengeScalar(p.proofs[i].challenge), p.proofs[i].response,
                                      ChallengeScalar(p'.proofs[i].challenge), p'.proofs[i].response))
  {
    hide Collides, ChallengeScalar, Extract;
    InteractiveSound(p.proofs[i], p'.proofs[i], p.point, p.commitments[i]);
  }

  function DLogCommitment(proof: DLogProof, sid: Bytes): Digest {
    TaggedHash(TAG_DLOG_PROOF_COMMITMENT,
               [sid, PointBytes(proof.point) + PointsBytes(proof.commitments)
                     + Concat(seq(|proof.proofs|, i requires 0 <= i < |proof.proofs| => proof.proofs[i].challenge))
                     + Concat(seq(|proof.proofs|, i requires 0 <= i < |proof.proofs| => ScalarBytes(proof.proofs[i].response)))])
  }

  predicate DecommitVerify(proof: DLogProof, commitment: Digest, sid: Bytes) {
    commitment == DLogCommitment(proof, sid) && DLogVerify(proof, sid)
  }

  // The Chaum-Pedersen protocol

  datatype Commitments = Commitments(g: Point, h: Point)

  datatype CPProof = CPProof(baseG: Point, baseH: Point, u: Point, v: Point, response: Scalar)

  function CPStep1(baseG: Point, baseH: Point, nonce: Scalar): Commitments {
    Commitments(Times(baseG, nonce), Times(baseH, nonce))
  }

  function CPStep2(baseG: Point, baseH: Point, scalar: Scalar, nonce: Scalar, challenge: Scalar): CPProof {
    CPProof(baseG, baseH, Times(baseG, scalar), Times(baseH, scalar), Sub(nonce, Mul(challenge, scalar)))
  }

  predicate CPVerify(p: CPProof, c: Commitments, challenge: Scalar) {
    && p.u != IDENTITY && p.v != IDENTITY && p.baseH != IDENTITY
    && Plus(Times(p.baseG, p.response), Times(p.u, challenge)) == c.g
    && Plus(Times(p.baseH, p.response), Times(p.v, challenge)) == c.h
  }

  function Simulate(baseG: Point, baseH: Point, u: Point, v: Point, challenge: Scalar, response: Scalar)
    : (Commitments, CPProof)
  {
    (Commitments(Plus(Times(baseG, response), Times(u, challenge)), Plus(Times(baseH, response), Times(v, challenge))),
     CPProof(baseG, baseH, u, v, response))
  }

  /** b (k - c x) + (b x) c is b k. */
  lemma ResponseMatches(b: Scalar, x: Scalar, k: Scalar, c: Scalar)
    ensures Add(Mul(b, Sub(k, Mul(c, x))), Mul(Mul(b, x), c)) == Mul(b, k)
  {
    hide Mul;
    MulSub(b, k, Mul(c, x));
    MulComm(c, x);
    MulAssoc(b, x, c);
  }

  /** An honest transcript is accepted exactly when neither base nor the witness is zero. */
  lemma CPComplete(baseG: Point, baseH: Point, scalar: Scalar, nonce: Scalar, challenge: Scalar)
    ensures CPVerify(CPStep2(baseG, baseH, scalar, nonce, challenge), CPStep1(baseG, baseH, nonce), challenge)
       <==> baseG != IDENTITY && baseH != IDENTITY && scalar != 0
  {
    hide Mul;
    ResponseMatches(baseG.log, scalar, nonce, challenge);
    ResponseMatches(baseH.log, scalar, nonce, challenge);
    NoZeroDivisors(baseG.log, scalar);
    NoZeroDivisors(baseH.log, scalar);
  }

  /** The simulator's transcript is accepted exactly when the statement has no identity. */
  lemma SimulateComplete(baseG: Point, baseH: Point, u: Point, v: Point, challenge: Scalar, response: Scalar)
    ensures var (c, p) := Simulate(baseG, baseH, u, v, challenge, response);
            CPVerify(p, c, challenge) <==> u != IDENTITY && v != IDENTITY && baseH != IDENTITY
  {}

  predicate SameStatement(p: CPProof, p': CPProof) {
    p.baseG == p'.baseG && p.baseH == p'.baseH && p.u == p'.u && p.v == p'.v
  }

  /** One equation of special soundness: b r + u c = b r' + u c' makes u a multiple of b. */
  lemma ExtractPoint(b: Scalar, u: Scalar, c: Scalar, r: Scalar, c': Scalar, r': Scalar)
    requires c != c' && Add(Mul(b, r), Mul(u, c)) == Add(Mul(b, r'), Mul(u, c'))
    ensures Mul(b, Extract(c, r, c', r')) == u
  {
    hide Mul, Inv;
    var d, e := Sub(c', c), Sub(r, r');
    MulSub(u, c', c);
    MulSub(b, r, r');
    assert Mul(b, e) == Mul(u, d);
    MulAssoc(b, e, Inv(d));
    MulAssoc(u, d, Inv(d));
    MulInv(d);
    MulOne(u);
  }

  /** Special soundness: two accepted transcripts with the same commitments and different
      challenges determine one witness for both halves of the statement. */
  lemma CPSound(p: CPProof, p': CPProof, c: Commitments, challenge: Scalar, challenge': Scalar)
    requires SameStatement(p, p') && CPVerify(p, c, challenge) && CPVerify(p', c, challenge')
    requires challenge != challenge'
    ensures var w := Extract(challenge, p.response, challenge', p'.response);
            p.u == Times(p.baseG, w) && p.v == Times(p.baseH, w)
  {
    hide Mul, Extract;
    ExtractPoint(p.baseG.log, p.u.log, challenge, p.response, challenge', p'.response);
    ExtractPoint(p.baseH.log, p.v.log, challenge, p.response, challenge', p'.response);
  }

  // The encryption proof

  datatype EncProof = EncProof(proof0: CPProof, proof1: CPProof, commitments0: Commitments, commitments1: Commitments,
                               challenge0: Scalar, challenge1: Scalar)

  function EncChallenge(sid: Bytes, baseG: Point, baseH: Point, u: Point, v: Point, c0: Commitments, c1: Commitments): Scalar {
    TaggedScalar(TAG_ENCPROOF_FS,
                 [sid, PointBytes(baseG) + PointBytes(baseH) + PointBytes(u) + PointBytes(v)
                       + PointBytes(c0.g) + PointBytes(c0.h) + PointBytes(c1.g) + PointBytes(c1.h)])
  }

  /** The statement `v` of the receiver: an encryption of its bit. */
  function EncStatement(baseH: Point, scalar: Scalar, bit: bool): Point {
    var gs := GTimes(scalar);
    if bit then Plus(gs, baseH) else gs
  }

  function FakeStatement(baseH: Point, scalar: Scalar, bit: bool): Point {
    var gs := GTimes(scalar);
    if bit then Plus(gs, baseH) else Minus(gs, baseH)
  }

  function Prove(sid: Bytes, baseH: Point, scalar: Scalar, bit: bool,
                 nonce: Scalar, fakeChallenge: Scalar, fakeResponse: Scalar): EncProof
  {
    var u := Times(baseH, scalar);
    var v := EncStatement(baseH, scalar, bit);
    var genuine := CPStep1(GENERATOR, baseH, nonce);
    var (fake, fakeProof) := Simulate(GENERATOR, baseH, FakeStatement(baseH, scalar, bit), u, fakeChallenge, fakeResponse);
    var challenge := if bit then EncChallenge(sid, GENERATOR, baseH, u, v, fake, genuine)
                     else EncChallenge(sid, GENERATOR, baseH, u, v, genuine, fake);
    var realChallenge := Sub(challenge, fakeChallenge);
    var realProof := CPStep2(GENERATOR, baseH, scalar, nonce, realChallenge);
    if bit then EncProof(fakeProof, realProof, fake, genuine, fakeChallenge, realChallenge)
    else EncProof(realProof, fakeProof, genuine, fake, realChallenge, fakeChallenge)
  }

  predicate EncVerify(p: EncProof, sid: Bytes) {
    && p.proof0.baseG == GENERATOR
    && p.proof0.baseG == p.proof1.baseG
    && p.proof0.baseH == p.proof1.baseH
    && p.proof0.v == p.proof1.v
    && p.proof0.u == Plus(p.proof1.u, p.proof1.baseH)
    && EncChallenge(sid, p.proof0.baseG, p.proof0.baseH, p.proof0.v, p.proof0.u, p.commitments0, p.commitments1)
         == Add(p.challenge0, p.challenge1)
    && CPVerify(p.proof0, p.commitments0, p.challenge0)
    && CPVerify(p.proof1, p.commitments1, p.challenge1)
  }

  /** No point of the statement is the identity. */
  predicate NonDegenerate(baseH: Point, scalar: Scalar, bit: bool) {
    baseH != IDENTITY && scalar != 0 && FakeStatement(baseH, scalar, bit) != IDENTITY
  }

  /** Completeness of the OR-proof, for either bit and all draws: it is accepted exactly when its
      statement is not degenerate. */
  lemma EncComplete(sid: Bytes, baseH: Point, scalar: Scalar, bit: bool,
                    nonce: Scalar, fakeChallenge: Scalar, fakeResponse: Scalar)
    ensures EncVerify(Prove(sid, baseH, scalar, bit, nonce, fakeChallenge, fakeResponse), sid)
       <==> NonDegenerate(baseH, scalar, bit)
  {
    hide EncChallenge, CPVerify, Mul;
    var u, f := Times(baseH, scalar), FakeStatement(baseH, scalar, bit);
    var p := Prove(sid, baseH, scalar, bit, nonce, fakeChallenge, fakeResponse);
    CPComplete(GENERATOR, baseH, scalar, nonce, if bit then p.challenge1 else p.challenge0);
    SimulateComplete(GENERATOR, baseH, f, u, fakeChallenge, fakeResponse);
    NoZeroDivisors(baseH.log, scalar);
    MulOne(scalar);
  }

  /** Soundness of the OR-proof: two accepted proofs of one statement with the same commitments
      and different total challenges give away an opening of the statement to one of the bits. */
  lemma EncSound(p: EncProof, p': EncProof, sid: Bytes, sid': Bytes) returns (bit: bool, w: Scalar)
    requires EncVerify(p, sid) && EncVerify(p', sid')
    requires SameStatement(p.proof0, p'.proof0) && p.commitments0 == p'.commitments0 && p.commitments1 == p'.commitments1
    requires Add(p.challenge0, p.challenge1) != Add(p'.challenge0, p'.challenge1)
    ensures p.proof0.u == EncStatement(p.proof0.baseH, w, bit)
    ensures p.proof0.v == Times(p.proof0.baseH, w)
  {
    hide EncChallenge, CPVerify, Extract, Mul;
    bit := p.challenge0 == p'.challenge0;
    if bit {
      w := Extract(p.challenge1, p.proof1.response, p'.challenge1, p'.proof1.response);
      CPSound(p.proof1, p'.proof1, p.commitments1, p.challenge1, p'.challenge1);
    } else {
      w := Extract(p.challenge0, p.proof0.response, p'.challenge0, p'.proof0.response);
      CPSound(p.proof0, p'.proof0, p.commitments0, p.challenge0, p'.challenge0);
    }
    MulOne(w);
  }
}
