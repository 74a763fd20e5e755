/** The signing session object: it hands out each stage of one signature at most once. */
module SignSession {
  import opened Scalars
  import opened Results
  import opened Hashes
  import opened Hex
  import opened Curve
  import opened Multiplication
  import opened Parties
  import opened Routing
  import opened Ecdsa
  import opened Signing
  import opened SignFinish
  import SignLoops

  datatype EcdsaSignature = EcdsaSignature(r: Digest, s: Digest, recoveryId: nat)

  /** The fields of the session that change. */
  datatype State = State(first: Option<(Unique1, map<nat, Keep1>)>, second: Option<(Unique2, map<nat, Keep2>)>,
                         x: Option<string>)

  predicate Keep1Sized(keep: map<nat, Keep1>) {
    forall c <- keep :: KeptSized(keep[c].mul)
  }

  predicate StateSized(s: State) {
    && (s.first.Some? ==> Keep1Sized(s.first.value.1))
    && (s.second.Some? ==> Keep2Sized(s.second.value.1))
  }

  lemma {:induction false} Messages1Sized(party: Party, data: SignData, point: Point, draws: nat -> SizedDraw1, n: nat)
    requires n <= |data.counterparties| && PartySized(party) && Phase1Messages(party, data, point, draws, n).Ok?
    ensures Keep1Sized(Phase1Messages(party, data, point, draws, n).value.0)
    decreases n
  {
    hide PartySized, RunPhase1, SignMulSid, RootDigest, CommitPoint, KeptSized;
    if n > 0 { Messages1Sized(party, data, point, draws, n - 1); }
  }

  lemma {:induction false} Messages2Sized(party: Party, data: SignData, unique: Unique1, kept: map<nat, Keep1>, keyShare: Scalar,
                                          ms: seq<Routed<Body1>>, draws: nat -> SizedDraw2, n: nat)
    requires n <= |ms| && PartySized(party) && Keep1Sized(kept)
    requires Phase2Messages(party, data, unique, kept, keyShare, ms, draws, n).Ok?
    ensures Keep2Sized(Phase2Messages(party, data, unique, kept, keyShare, ms, draws, n).value.0)
    decreases n
  {
    hide PartySized, Run, SignMulSid, KeptSized;
    if n > 0 { Messages2Sized(party, data, unique, kept, keyShare, ms, draws, n - 1); }
  }

  lemma Phase2Sized(party: Party, data: SignData, unique: Unique1, kept: map<nat, Keep1>,
                    ms: seq<Routed<Body1>>, draws: nat -> SizedDraw2)
    requires PartySized(party) && Keep1Sized(kept) && Phase2(party, data, unique, kept, ms, draws).Ok?
    ensures Keep2Sized(Phase2(party, data, unique, kept, ms, draws).value.1)
  {
    hide PartySized, Phase2Messages, Phase2Fault, KeyShare, Keep1Sized, Keep2Sized;
    Messages2Sized(party, data, unique, kept, KeyShare(party, data, unique.zeta), ms, draws, |ms|);
  }

  lemma Phase1Sized(party: Party, data: SignData, key: Scalar, mask: Scalar, draws: nat -> SizedDraw1)
    requires PartySized(party) && Phase1(party, data, key, mask, draws).Ok?
    ensures Keep1Sized(Phase1(party, data, key, mask, draws).value.1)
  {
    hide PartySized, Phase1Messages, Phase1Fault, Keep1Sized;
    Messages1Sized(party, data, GTimes(key), draws, |data.counterparties|);
  }

  // One call

  datatype Call = Second(ms: seq<Routed<Body1>>, draws: nat -> SizedDraw2) | Third(answers: seq<Routed<Body2>>)

  /** What a call gives its caller. */
  datatype Event = Batch(transmit: seq<Routed<Body2>>) | Share(broadcast: Broadcast) | Refused(abort: Abort)

  function OutOfOrder(party: Party): Abort {
    AbortRecoverable(party.index, PhaseCalledOutOfOrder)
  }

  /** The state is taken before the phase runs, so a failing call uses it up too. */
  function Step(party: Party, data: SignData, s: State, call: Call): (r: (State, Event))
    requires PartySized(party) && StateSized(s)
    ensures StateSized(r.0)
  {
    match call
    case Second(ms, draws) =>
      if s.first.None? then (s, Refused(OutOfOrder(party)))
      else
        var taken := s.(first := None);
        (match Phase2(party, data, s.first.value.0, s.first.value.1, ms, draws)
         case Err(e) => (taken, Refused(e))
         case Ok((unique, keep, transmit)) =>
           Phase2Sized(party, data, s.first.value.0, s.first.value.1, ms, draws);
           (taken.(second := Some((unique, keep))), Batch(transmit)))
    case Third(ms) =>
      if s.second.None? then (s, Refused(OutOfOrder(party)))
      else
        var taken := s.(second := None);
        (match Phase3(party, data, s.second.value.0, s.second.value.1, ms)
         case Err(e) => (taken, Refused(e))
         case Ok((x, broadcast)) => (taken.(x := Some(x)), Share(broadcast)))
  }

  /** The last call, which consumes the session. */
  function Finish(party: Party, data: SignData, s: State, bs: seq<Broadcast>): Result<EcdsaSignature, Abort> {
    match s.x
    case None => Err(OutOfOrder(party))
    case Some(x) =>
      match Phase4(party, data, x, bs, true)
      case Err(e) => Err(AbortRecoverable(party.index, e))
      case Ok((signature, recoveryId)) =>
        match (DecodeField(x), DecodeField(signature))
        case (Some(r), Some(sBytes)) => Ok(EcdsaSignature(r, sBytes, recoveryId))
        case _ => Err(AbortRecoverable(party.index, InvalidHex))
  }

  class SignSession {
    const party: Party
    const data: SignData
    var first: Option<(Unique1, map<nat, Keep1>)>
    var second: Option<(Unique2, map<nat, Keep2>)>
    var x: Option<string>
    /** The session has been passed to phase 4 by value, so nobody can call it any more. */
    ghost var moved: bool

    function Contents(): State
      reads this
    {
      State(first, second, x)
    }

    ghost predicate Valid()
      reads this
    {
      PartySized(party) && StateSized(Contents()) && !moved
    }

    /** `SignSession::new`, after a successful phase 1. */
    constructor (party: Party, data: SignData, unique: Unique1, keep: map<nat, Keep1>)
      requires PartySized(party) && Keep1Sized(keep)
      ensures Valid() && this.party == party && this.data == data
      ensures Contents() == State(Some((unique, keep)), None, None)
    {
      this.party, this.data := party, data;
      first, second, x := Some((unique, keep)), None, None;
      moved := false;
    }

    method Phase2(ms: seq<Routed<Body1>>, draws: nat -> SizedDraw2) returns (r: Result<seq<Routed<Body2>>, Abort>)
      requires Valid()
      modifies this
      ensures Valid()
      ensures Contents() == Step(party, data, old(Contents()), Second(ms, draws)).0
      ensures match r
              case Ok(transmit) => Step(party, data, old(Contents()), Second(ms, draws)).1 == Batch(transmit)
              case Err(e) => Step(party, data, old(Contents()), Second(ms, draws)).1 == Refused(e)
    {
      hide PartySized, Signing.Phase2, Keep1Sized, Keep2Sized, Signing.Phase3;
      if first.None? {
        return Err(OutOfOrder(party));
      }
      var (unique, kept) := first.value;
      first := None;
      var result := SignLoops.SignPhase2(party, data, unique, kept, ms, draws);
      match result {
        case Err(e) => r := Err(e);
        case Ok((newUnique, newKept, transmit)) =>
          Phase2Sized(party, data, unique, kept, ms, draws);
          second := Some((newUnique, newKept));
          r := Ok(transmit);
      }
    }

    method Phase3(ms: seq<Routed<Body2>>) returns (r: Result<Broadcast, Abort>)
      requires Valid()
      modifies this
      ensures Valid()
      ensures Contents() == Step(party, data, old(Contents()), Third(ms)).0
      ensures match r
              case Ok(broadcast) => Step(party, data, old(Contents()), Third(ms)).1 == Share(broadcast)
              case Err(e) => Step(party, data, old(Contents()), Third(ms)).1 == Refused(e)
    {
      hide PartySized, Signing.Phase2, Keep1Sized, Keep2Sized, Signing.Phase3;
      if second.None? {
        return Err(OutOfOrder(party));
      }
      var (unique, kept) := second.value;
      second := None;
      var result := SignLoops.SignPhase3(party, data, unique, kept, ms);
      match result {
        case Err(e) => r := Err(e);
        case Ok((xCoord, broadcast)) =>
          x := Some(xCoord);
          r := Ok(broadcast);
      }
    }

    /** The call that consumes the session. */
    method Phase4(bs: seq<Broadcast>) returns (r: Result<EcdsaSignature, Abort>)
      requires Valid()
      modifies this
      ensures r == Finish(party, data, old(Contents()), bs)
      ensures moved && Contents() == old(Contents()).(x := None)
    {
      hide Signing.Phase4, DecodeField;
      moved := true;
      if x.None? {
        return Err(OutOfOrder(party));
      }
      var xCoord := x.value;
      x := None;
      var result := SignLoops.SignPhase4(party, data, xCoord, bs, true);
      if result.Err? {
        return Err(result.error);
      }
      var (signature, recoveryId) := result.value;
      var rBytes, sBytes := DecodeField(xCoord), DecodeField(signature);
      if rBytes.None? || sBytes.None? {
        return Err(AbortRecoverable(party.index, InvalidHex));
      }
      r := Ok(EcdsaSignature(rBytes.value, sBytes.value, recoveryId));
    }
  }

  /** `SignSession::new`: phase 1, and on success a session that holds its secrets. */
  method NewSession(party: Party, data: SignData, key: Scalar, mask: Scalar, draws: nat -> SizedDraw1)
    returns (r: Result<(SignSession, seq<Routed<Body1>>), Abort>)
    requires PartySized(party)
    ensures match Phase1(party, data, key, mask, draws)
            case Err(e) => r == Err(AbortRecoverable(party.index, e))
            case Ok((unique, keep, transmit)) =>
              && r.Ok? && r.value.1 == transmit && fresh(r.value.0) && r.value.0.Valid()
              && r.value.0.party == party && r.value.0.data == data
              && r.value.0.Contents() == State(Some((unique, keep)), None, None)
  {
    hide Phase1, PartySized, Keep1Sized;
    var started := SignLoops.SignPhase1(party, data, key, mask, draws);
    if started.Err? {
      return Err(started.error);
    }
    Phase1Sized(party, data, key, mask, draws);
    var (unique, keep, transmit) := started.value;
    var session := new SignSession(party, data, unique, keep);
    r := Ok((session, transmit));
  }

  // Every sequence of calls

  /** The events of a sequence of calls, and the state it ends in. */
  function Trace(party: Party, data: SignData, s: State, calls: seq<Call>): (r: (State, seq<Event>))
    requires PartySized(party) && StateSized(s)
    ensures StateSized(r.0) && |r.1| == |calls|
  {
    if |calls| == 0 then (s, [])
    else
      var (before, events) := Trace(party, data, s, calls[..|calls| - 1]);
      var (after, event) := Step(party, data, before, calls[|calls| - 1]);
      (after, events + [event])
  }

  function Batches(events: seq<Event>): nat {
    if |events| == 0 then 0 else Batches(events[..|events| - 1]) + if events[|events| - 1].Batch? then 1 else 0
  }

  function Shares(events: seq<Event>): nat {
    if |events| == 0 then 0 else Shares(events[..|events| - 1]) + if events[|events| - 1].Share? then 1 else 0
  }

  /** What is left to hand out. */
  predicate Discipline(s: State, events: seq<Event>) {
    && Batches(events) <= 1 && Shares(events) <= Batches(events)
    && (s.first.Some? ==> Batches(events) == 0 && s.second.None? && s.x.None?)
    && (s.second.Some? ==> Batches(events) == 1 && Shares(events) == 0 && s.x.None?)
    && (s.x.Some? ==> Shares(events) == 1)
  }

  lemma StepDiscipline(party: Party, data: SignData, s: State, call: Call, events: seq<Event>)
    requires PartySized(party) && StateSized(s) && Discipline(s, events)
    ensures Discipline(Step(party, data, s, call).0, events + [Step(party, data, s, call).1])
  {
    hide PartySized, Phase2, Phase3, Keep1Sized, Keep2Sized;
    var event := Step(party, data, s, call).1;
    assert (events + [event])[..|events|] == events;
  }

  /** Single use. Over every sequence of calls, failing ones included, a session emits at most one
      batch of phase-2 messages and at most one broadcast, never the broadcast before the batch; and a
      signature can only be asked for after the broadcast. */
  lemma {:induction false} SingleUse(party: Party, data: SignData, unique: Unique1, keep: map<nat, Keep1>, calls: seq<Call>)
    requires PartySized(party) && Keep1Sized(keep)
    ensures var start := State(Some((unique, keep)), None, None);
            Discipline(Trace(party, data, start, calls).0, Trace(party, data, start, calls).1)
    decreases |calls|
  {
    hide PartySized, Keep1Sized, Keep2Sized, Step, Discipline;
    var start := State(Some((unique, keep)), None, None);
    if |calls| == 0 {
      assert Discipline(start, []) by { Fresh(unique, keep); }
    } else {
      var n := |calls| - 1;
      SingleUse(party, data, unique, keep, calls[..n]);
      var (before, events) := Trace(party, data, start, calls[..n]);
      StepDiscipline(party, data, before, calls[n], events);
    }
  }

  lemma Fresh(unique: Unique1, keep: map<nat, Keep1>)
    ensures Discipline(State(Some((unique, keep)), None, None), [])
  {}

  lemma {:induction false} SameInstance2(party: Party, data: SignData, unique: Unique1, kept: map<nat, Keep1>, keyShare: Scalar,
                                         ms: seq<Routed<Body1>>, draws: nat -> SizedDraw2, n: nat)
    requires n <= |ms| && PartySized(party) && Phase2Messages(party, data, unique, kept, keyShare, ms, draws, n).Ok?
    ensures forall m <- Phase2Messages(party, data, unique, kept, keyShare, ms, draws, n).value.1 :: m.body.point == unique.point
    decreases n
  {
    hide PartySized, Run, SignMulSid;
    if n > 0 { SameInstance2(party, data, unique, kept, keyShare, ms, draws, n - 1); }
  }

  /** Every message of the batch decommits the instance point of this session. */
  lemma BatchInstance(party: Party, data: SignData, s: State, call: Call)
    requires PartySized(party) && StateSized(s) && Step(party, data, s, call).1.Batch?
    ensures s.first.Some? && forall m <- Step(party, data, s, call).1.transmit :: m.body.point == s.first.value.0.point
  {
    hide PartySized, Phase2Messages, Phase2Fault, KeyShare, Keep1Sized, Keep2Sized, Phase3;
    var unique, kept := s.first.value.0, s.first.value.1;
    SameInstance2(party, data, unique, kept, KeyShare(party, data, unique.zeta), call.ms, call.draws, |call.ms|);
  }

  /** Finalisation: the decoding after phase 4 cannot fail; the result is a canonical, low-S signature
      that verifies, with recovery id 0 or 1. */
  lemma FinishedSignature(party: Party, data: SignData, s: State, bs: seq<Broadcast>)
    requires s.x.Some? && Phase4(party, data, s.x.value, bs, true).Ok?
    ensures Finish(party, data, s, bs).Ok?
    ensures var f := Finish(party, data, s, bs).value;
            && FromBe(f.r) < Q && FromBe(f.s) < Q && !IsHigh(FromBe(f.s)) && f.recoveryId < 2
            && VerifyScalars(ReduceBytes(data.hash), party.pk, FromBe(f.r), FromBe(f.s))
  {
    hide RecomputedPoint, RecoveryId, Mul, Inv, VerifyScalars, EncodeHex, DecodeField;
    Phase4Verifies(party, data, s.x.value, bs, true);
    var signature := Phase4(party, data, s.x.value, bs, true).value.0;
    var low: Scalar :| signature == EncodeHex(ScalarBytes(low)) && !IsHigh(low);
    FieldRoundTrip(ScalarBytes(low));
    ScalarRoundTrip(low);
  }
}
