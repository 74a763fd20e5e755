/** The key-generation session object. */
module DkgSession {
  import opened Scalars
  import opened Shamir
  import opened Results
  import opened Hashes
  import opened Curve
  import opened Proofs
  import opened Parties
  import opened Routing
  import opened KeyInit
  import opened Dkg
  import opened ZeroShares
  import DkgPhases

  /** The fields of the session that change. */
  datatype State = State(polyPoint: Option<Scalar>, proof: Option<ProofCommitment>,
                         zero2: Option<map<nat, Opening>>, bip2: Option<Opening>,
                         zero3: Option<map<nat, Digest>>, mul3: Option<map<nat, MulInitKept>>)

  const EMPTY := State(None, None, None, None, None, None)

  /** What is drawn for a call. */
  datatype Call =
    | Second(fragments: seq<Scalar>, proof: DLogProof, openings: map<nat, Opening>, aux: Opening)
    | Third(pairs: map<nat, PairDraws>)

  datatype Event =
    | Shared(commitment: ProofCommitment, seeds: seq<Routed<Digest>>, broadcast2: DkgPhases.Broadcast2)
    | Revealed(openings: seq<Routed<Opening>>, pairs: seq<Routed<MulInitMessage>>, broadcast3: DkgPhases.Broadcast3)
    | Refused(abort: Abort)

  predicate CallSized(data: DkgPhases.SessionData, call: Call) {
    match call
    case Second(_, _, openings, _) => openings.Keys == Others(data.index, data.parameters.shareCount)
    case Third(pairs) =>
      pairs.Keys == Others(data.index, data.parameters.shareCount) && forall k <- pairs :: PairSized(pairs[k])
  }

  predicate StateSized(data: DkgPhases.SessionData, s: State) {
    && ValidParameters(data.parameters)
    && (s.zero2.Some? ==> s.zero2.value.Keys == Others(data.index, data.parameters.shareCount))
    && (s.zero2.Some? <==> s.bip2.Some?)
  }

  function OutOfOrder(data: DkgPhases.SessionData): Abort {
    AbortRecoverable(data.index, PhaseCalledOutOfOrder)
  }

  function Step(data: DkgPhases.SessionData, s: State, call: Call): (r: (State, Event))
    requires StateSized(data, s) && CallSized(data, call)
    ensures StateSized(data, r.0)
  {
    match call
    case Second(fragments, proof, openings, aux) =>
      if s.polyPoint.Some? then (s, Refused(OutOfOrder(data)))
      else
        var pc := ProofCommitment(data.index, proof, DLogCommitment(proof, data.sid));
        (s.(polyPoint := Some(SumSeq(fragments)), proof := Some(pc), zero2 := Some(openings), bip2 := Some(aux)),
         Shared(pc, Address(data.index, data.parameters.shareCount, SeedCommitments(openings)),
                DkgPhases.Broadcast2(data.index, Commit(aux.seed, aux.salt), PROTOCOL_VERSION)))
    case Third(pairs) =>
      if s.zero2.None? || s.bip2.None? then (s, Refused(OutOfOrder(data)))
      else
        (s.(zero2 := None, bip2 := None, zero3 := Some(Seeds(s.zero2.value)), mul3 := Some(KeptPairs(pairs))),
         Revealed(Address(data.index, data.parameters.shareCount, s.zero2.value),
                  Address(data.index, data.parameters.shareCount, PairMessages(data.index, data.sid, pairs)),
                  DkgPhases.Broadcast3(data.index, s.bip2.value.seed, s.bip2.value.salt)))
  }

  class DkgSession {
    const data: DkgPhases.SessionData
    var polyPoint: Option<Scalar>
    var proof: Option<ProofCommitment>
    var zero2: Option<map<nat, Opening>>
    var bip2: Option<Opening>
    var zero3: Option<map<nat, Digest>>
    var mul3: Option<map<nat, MulInitKept>>
    /** The session has been passed to phase 4 by value, so nobody can call it any more. */
    ghost var moved: bool

    function Contents(): State
      reads this
    {
      State(polyPoint, proof, zero2, bip2, zero3, mul3)
    }

    ghost predicate Valid()
      reads this
    {
      StateSized(data, Contents()) && !moved
    }

    constructor (data: DkgPhases.SessionData)
      requires ValidParameters(data.parameters)
      ensures Valid() && this.data == data && Contents() == EMPTY
    {
      this.data := data;
      polyPoint, proof, zero2, bip2, zero3, mul3 := None, None, None, None, None, None;
      moved := false;
    }

    /** Reads only; the polynomial is drawn by the caller. */
    method Phase1(polynomial: Poly) returns (points: seq<Scalar>)
      requires Valid() && |polynomial| == data.parameters.threshold
      ensures points == Evaluations(polynomial, data.parameters.shareCount)
    {
      points := Step2(data.parameters, polynomial);
      assert polynomial[..data.parameters.threshold] == polynomial;
    }

    method Phase2(fragments: seq<Scalar>, proof: DLogProof, openings: map<nat, Opening>, aux: Opening)
      returns (r: Result<(ProofCommitment, seq<Routed<Digest>>, DkgPhases.Broadcast2), Abort>)
      requires Valid() && CallSized(data, Second(fragments, proof, openings, aux))
      modifies this
      ensures Valid()
      ensures Contents() == Step(data, old(Contents()), Second(fragments, proof, openings, aux)).0
      ensures match r
              case Ok((pc, seeds, b)) =>
                Step(data, old(Contents()), Second(fragments, proof, openings, aux)).1 == Shared(pc, seeds, b)
              case Err(e) => Step(data, old(Contents()), Second(fragments, proof, openings, aux)).1 == Refused(e)
    {
      hide DLogCommitment, Commit, SeedCommitments, Address, SumSeq;
      if polyPoint.Some? {
        return Err(OutOfOrder(data));
      }
      var point, pc, keep, transmit, broadcast := DkgPhases.Phase2(data, fragments, proof, openings, aux);
      polyPoint := Some(point);
      this.proof := Some(pc);
      zero2 := Some(keep);
      bip2 := Some(aux);
      r := Ok((pc, transmit, broadcast));
    }

    /** Phase 3: the seeds and the chain code are revealed and every pair starts its multiplication. */
    method Phase3(pairs: map<nat, PairDraws>)
      returns (r: Result<(seq<Routed<Opening>>, seq<Routed<MulInitMessage>>, DkgPhases.Broadcast3), Abort>)
      requires Valid() && CallSized(data, Third(pairs))
      modifies this
      ensures Valid()
      ensures Contents() == Step(data, old(Contents()), Third(pairs)).0
      ensures match r
              case Ok((openings, messages, b)) => Step(data, old(Contents()), Third(pairs)).1 == Revealed(openings, messages, b)
              case Err(e) => Step(data, old(Contents()), Third(pairs)).1 == Refused(e)
    {
      hide PairMessages, KeptPairs, Seeds, Address;
      if zero2.None? {
        return Err(OutOfOrder(data));
      }
      if bip2.None? {
        return Err(OutOfOrder(data));
      }
      var seeds, openings := RevealSeeds(data.index, data.parameters.shareCount, zero2.value);
      var kept, messages := StartPairs(data.index, data.parameters.shareCount, data.sid, pairs);
      var broadcast := DkgPhases.Broadcast3(data.index, bip2.value.seed, bip2.value.salt);
      zero2 := None;
      bip2 := None;
      zero3 := Some(seeds);
      mul3 := Some(kept);
      r := Ok((openings, messages, broadcast));
    }

    /** The call that consumes the session: it works on the stored data, which are dropped and wiped
        afterwards, whatever the result. */
    method Phase4(pcs: seq<ProofCommitment>, zero2Received: seq<Routed<Digest>>, zero3Received: seq<Routed<Opening>>,
                  mulReceived: seq<Routed<MulInitMessage>>,
                  bip2Received: map<nat, DkgPhases.Broadcast2>, bip3Received: map<nat, DkgPhases.Broadcast3>)
      returns (r: Result<(Party, PublicKeyPackage), Abort>)
      requires Valid()
      modifies this
      ensures moved && Contents() == EMPTY
      ensures old(polyPoint.None? || zero3.None? || mul3.None?) ==> r == Err(OutOfOrder(data))
      ensures old(polyPoint.Some? && zero3.Some? && mul3.Some?) ==>
        match DkgPhases.Phase4Reason(data, old(polyPoint.value), pcs, old(zero3.value), zero2Received, zero3Received,
                                     old(mul3.value), mulReceived, bip2Received, bip3Received)
        case Err(e) => r == Err(Abort(data.index, Recoverable, e))
        case Ok(v) => r == Ok(v)
    {
      hide DkgPhases.Phase4Reason;
      if polyPoint.None? || zero3.None? || mul3.None? {
        r := Err(OutOfOrder(data));
      } else {
        r := DkgPhases.Phase4(data, polyPoint.value, pcs, zero3.value, zero2Received, zero3Received,
                              mul3.value, mulReceived, bip2Received, bip3Received);
      }
      Drop();
    }

    /** Every field is wiped. */
    method Drop()
      modifies this
      ensures moved && Contents() == EMPTY
    {
      polyPoint, proof, zero2, bip2, zero3, mul3 := None, None, None, None, None, None;
      moved := true;
    }
  }

  // Every sequence of calls

  function Trace(data: DkgPhases.SessionData, s: State, calls: seq<Call>): (r: (State, seq<Event>))
    requires StateSized(data, s) && forall c <- calls :: CallSized(data, c)
    ensures StateSized(data, r.0) && |r.1| == |calls|
  {
    if |calls| == 0 then (s, [])
    else
      var (before, events) := Trace(data, s, calls[..|calls| - 1]);
      var (after, event) := Step(data, before, calls[|calls| - 1]);
      (after, events + [event])
  }

  function Shares(events: seq<Event>): nat {
    if |events| == 0 then 0 else Shares(events[..|events| - 1]) + if events[|events| - 1].Shared? then 1 else 0
  }

  function Reveals(events: seq<Event>): nat {
    if |events| == 0 then 0 else Reveals(events[..|events| - 1]) + if events[|events| - 1].Revealed? then 1 else 0
  }

  /** What the state says about the past. */
  predicate Discipline(s: State, events: seq<Event>) {
    && Shares(events) <= 1 && Reveals(events) <= Shares(events)
    && (s.polyPoint.Some? <==> Shares(events) == 1)
    && (s.zero2.Some? <==> Shares(events) == 1 && Reveals(events) == 0)
    && (s.bip2.Some? <==> s.zero2.Some?)
    && (s.zero3.Some? <==> Reveals(events) == 1)
    && (s.mul3.Some? <==> s.zero3.Some?)
  }

  lemma StepDiscipline(data: DkgPhases.SessionData, s: State, call: Call, events: seq<Event>)
    requires StateSized(data, s) && CallSized(data, call) && Discipline(s, events)
    ensures Discipline(Step(data, s, call).0, events + [Step(data, s, call).1])
    ensures s.polyPoint.Some? ==> Step(data, s, call).0.polyPoint == s.polyPoint && Step(data, s, call).0.proof == s.proof
  {
    hide DLogCommitment, Commit, SeedCommitments, PairMessages, KeptPairs, Address, SumSeq;
    var event := Step(data, s, call).1;
    assert (events + [event])[..|events|] == events;
  }

  /** Over every sequence of calls, failing ones included, a session commits to one share, once; reveals
      its seeds at most once, after that; and the data that phase 4 needs are there exactly when both
      have happened. */
  lemma {:induction false} SingleUse(data: DkgPhases.SessionData, calls: seq<Call>)
    requires ValidParameters(data.parameters) && forall c <- calls :: CallSized(data, c)
    ensures Discipline(Trace(data, EMPTY, calls).0, Trace(data, EMPTY, calls).1)
    ensures var s := Trace(data, EMPTY, calls).0;
            s.polyPoint.Some? && s.zero3.Some? && s.mul3.Some? <==> Reveals(Trace(data, EMPTY, calls).1) == 1
    decreases |calls|
  {
    hide Step, CallSized;
    if |calls| > 0 {
      var n := |calls| - 1;
      SingleUse(data, calls[..n]);
      var (before, events) := Trace(data, EMPTY, calls[..n]);
      assert calls[n] in calls;
      StepDiscipline(data, before, calls[n], events);
    }
  }

  /** Once fixed, the share and its proof never change, and the seeds that phase 4 uses are the ones
      committed to in phase 2. */
  lemma {:induction false} ShareFixed(data: DkgPhases.SessionData, s: State, calls: seq<Call>)
    requires StateSized(data, s) && s.polyPoint.Some? && forall c <- calls :: CallSized(data, c)
    ensures var t := Trace(data, s, calls).0;
            && t.polyPoint == s.polyPoint && t.proof == s.proof
            && (s.zero2.Some? && t.zero3 != s.zero3 ==> t.zero3 == Some(Seeds(s.zero2.value)) && t.zero2.None?)
            && (s.zero2.Some? && t.zero2.Some? ==> t.zero2 == s.zero2)
            && (s.zero2.None? ==> t.zero3 == s.zero3 && t.zero2.None?)
    decreases |calls|
  {
    hide DLogCommitment, Commit, SeedCommitments, PairMessages, KeptPairs, Address, SumSeq, Seeds;
    if |calls| > 0 {
      var n := |calls| - 1;
      ShareFixed(data, s, calls[..n]);
      assert calls[n] in calls;
    }
  }
}
