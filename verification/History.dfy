/** Whole histories: any sequence of refreshes and derivations of a group of honest parties. */
module History {
  import opened Scalars
  import opened Sums
  import opened Shamir
  import opened Results
  import opened Hashes
  import opened Curve
  import opened Parties
  import opened Dkg
  import opened DkgRun
  import opened Compatibility
  import opened Refresh
  import opened RefreshRun
  import opened Derivation

  datatype Op =
    | FastRefresh(secrets: Dealing, sid: Bytes, inboxes: nat -> Inbox)
    | CompleteRefresh(secrets: Dealing, sid: Bytes, inboxes: nat -> Inbox)
    | Derive(path: seq<nat>)

  ghost predicate OpHonest(op: Op, g: Group) {
    match op
    case FastRefresh(secrets, sid, inboxes) =>
      && RefreshHonest(g, secrets, sid)
      && forall i: nat :: 0 < i <= g.parameters.shareCount ==> InboxOf(secrets, g.parameters.shareCount, sid, i, inboxes(i))
    case CompleteRefresh(secrets, sid, inboxes) =>
      && RefreshHonest(g, secrets, sid)
      && PairsHonest(secrets, g.parameters.shareCount, sid)
      && forall i: nat :: 0 < i <= g.parameters.shareCount ==> InboxOf(secrets, g.parameters.shareCount, sid, i, inboxes(i))
    case Derive(path) => DerivedPath(g, path).Ok?
  }

  ghost function After(op: Op, g: Group): Group
    requires OpHonest(op, g)
  {
    match op
    case FastRefresh(secrets, sid, _) => RefreshedGroup(g, secrets, sid)
    case CompleteRefresh(secrets, sid, _) => RefreshedGroup(g, secrets, sid)
    case Derive(path) => DerivedPath(g, path).value
  }

  /** What the operation makes of one party. */
  ghost predicate Becomes(op: Op, g: Group, i: nat, party: Party, after: Party) {
    match op
    case FastRefresh(secrets, sid, inboxes) =>
      && ValidParameters(party.parameters) && MulSized((party.mulSenders, party.mulReceivers))
      && FastRun(party, g, secrets, sid, inboxes(i)) == Ok(after)
    case CompleteRefresh(secrets, sid, inboxes) =>
      ValidParameters(party.parameters) && CompleteRun(party, secrets, sid, inboxes(i)) == Ok(after)
    case Derive(path) => DerivePartyPath(party, path) == Ok(after)
  }

  ghost predicate Performs(op: Op, g: Group, parties: map<nat, Party>, after: map<nat, Party>) {
    after.Keys == parties.Keys && forall i <- parties :: Becomes(op, g, i, parties[i], after[i])
  }

  /** The change of the secret key: only derivations shift it. */
  ghost function Shift(op: Op, g: Group): Scalar
    requires OpHonest(op, g)
  {
    if op.Derive? then Tweaks(g, op.path) else 0
  }

  lemma OpKeeps(op: Op, g: Group, parties: map<nat, Party>) returns (after: map<nat, Party>)
    requires Compatible(parties, g) && OpHonest(op, g)
    ensures Performs(op, g, parties, after)
    ensures Compatible(after, After(op, g))
    ensures Secret(After(op, g)) == Add(Secret(g), Shift(op, g))
  {
    hide RefreshHonest, InboxOf, FastRun, CompleteRun, DerivePartyPath, PartyFits, Secret, Tweaks, PairsHonest, DerivedPath;
    match op {
      case FastRefresh(secrets, sid, inboxes) => after := FastPreserves(parties, g, secrets, sid, inboxes);
      case CompleteRefresh(secrets, sid, inboxes) => after := CompletePreserves(parties, g, secrets, sid, inboxes);
      case Derive(path) => after := PathCommutes(parties, g, path);
    }
  }

  /** The group after a history, when every step of it is honest. */
  ghost function Outcome(ops: seq<Op>, g: Group): Option<Group> {
    if |ops| == 0 then Some(g)
    else
      match Outcome(ops[..|ops| - 1], g)
      case None => None
      case Some(h) => if OpHonest(ops[|ops| - 1], h) then Some(After(ops[|ops| - 1], h)) else None
  }

  ghost function TotalShift(ops: seq<Op>, g: Group): Scalar
    requires Outcome(ops, g).Some?
  {
    if |ops| == 0 then 0
    else Add(TotalShift(ops[..|ops| - 1], g), Shift(ops[|ops| - 1], Outcome(ops[..|ops| - 1], g).value))
  }

  ghost predicate Performed(ops: seq<Op>, g: Group, parties: map<nat, Party>, after: map<nat, Party>)
    requires Outcome(ops, g).Some?
  {
    if |ops| == 0 then after == parties
    else
      exists mid :: LastStep(ops, g, mid, after) && Performed(ops[..|ops| - 1], g, parties, mid)
  }

  ghost predicate LastStep(ops: seq<Op>, g: Group, mid: map<nat, Party>, after: map<nat, Party>)
    requires |ops| > 0 && Outcome(ops, g).Some?
  {
    Performs(ops[|ops| - 1], Outcome(ops[..|ops| - 1], g).value, mid, after)
  }

  /** The invariant survives every history: no step aborts, and at the end the parties still fit
      together, around the original secret key plus the tweaks of the derivations. */
  lemma {:induction false} HistoryKeeps(ops: seq<Op>, g: Group, parties: map<nat, Party>) returns (after: map<nat, Party>)
    requires Compatible(parties, g) && Outcome(ops, g).Some?
    ensures Performed(ops, g, parties, after)
    ensures Compatible(after, Outcome(ops, g).value)
    ensures Secret(Outcome(ops, g).value) == Add(Secret(g), TotalShift(ops, g))
    decreases |ops|
  {
    hide Compatible, OpHonest, After, Shift, Performs, Secret;
    if |ops| == 0 {
      after := parties;
    } else {
      var n := |ops| - 1;
      var mid := HistoryKeeps(ops[..n], g, parties);
      after := OpKeeps(ops[n], Outcome(ops[..n], g).value, mid);
      assert LastStep(ops, g, mid, after);
    }
  }

  lemma {:induction false} NoShift(ops: seq<Op>, g: Group)
    requires Outcome(ops, g).Some? && forall k :: 0 <= k < |ops| ==> !ops[k].Derive?
    ensures TotalShift(ops, g) == 0
    decreases |ops|
  {
    hide OpHonest, After;
    if |ops| > 0 { NoShift(ops[..|ops| - 1], g); }
  }

  /** After any number of refreshes, in any order, every t shares reconstruct the original secret
      and the public key is unchanged. */
  lemma RefreshesKeepKey(ops: seq<Op>, g: Group, parties: map<nat, Party>, xs: seq<nat>) returns (after: map<nat, Party>)
    requires Compatible(parties, g) && Outcome(ops, g).Some?
    requires forall k :: 0 <= k < |ops| ==> !ops[k].Derive?
    requires Distinct(xs) && |xs| >= Outcome(ops, g).value.parameters.threshold && forall x <- xs :: x in parties
    ensures Performed(ops, g, parties, after) && after.Keys == parties.Keys
    ensures Interpolated(SharesOf(after), xs) == Secret(g)
    ensures forall i <- after :: after[i].pk == GTimes(Secret(g))
  {
    hide Outcome, Performed, Secret, Compatible, Interpolated, TotalShift, Distinct, SharesOf;
    after := HistoryKeeps(ops, g, parties);
    NoShift(ops, g);
    KeysKept(ops, g, parties, after);
    CompatibleReconstructs(after, Outcome(ops, g).value, xs);
  }

  lemma {:induction false} KeysKept(ops: seq<Op>, g: Group, parties: map<nat, Party>, after: map<nat, Party>)
    requires Outcome(ops, g).Some? && Performed(ops, g, parties, after)
    ensures after.Keys == parties.Keys
    decreases |ops|
  {
    hide OpHonest, After, Becomes;
    if |ops| > 0 {
      var n := |ops| - 1;
      var mid :| LastStep(ops, g, mid, after) && Performed(ops[..n], g, parties, mid);
      KeysKept(ops[..n], g, parties, mid);
    }
  }
}
