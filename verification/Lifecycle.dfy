/** From key generation through any history to a signature. */
module Lifecycle {
  import opened Scalars
  import opened Sums
  import opened Shamir
  import opened Results
  import opened Hashes
  import opened Curve
  import opened Parties
  import opened KeyInit
  import opened Dkg
  import opened DkgPhases
  import opened DkgRun
  import opened Compatibility
  import opened History
  import opened Signing
  import opened SignRun
  import opened SignFinish

  /** A session of t of these parties. */
  ghost predicate BuiltOn(s: Session, parties: map<nat, Party>, g: Group) {
    && Distinct(s.xs) && |s.xs| == g.parameters.threshold
    && (forall i <- s.xs :: i in parties && s.party(i) == parties[i])
    && (forall i <- s.xs :: multiset(s.order(i)) == multiset(Without(s.xs, i)))
    && |s.signId| == |g.sid| == ID_LEN
  }

  /** After key generation by honest parties and any honest history of refreshes and derivations, every
      t parties can sign for the generated key plus the tweaks of the derivations. */
  lemma KeyLifecycle(secrets: Dealing, params: Parameters, sid: Bytes, inboxes: nat -> Inbox, ops: seq<Op>)
    returns (parties: map<nat, Party>, after: map<nat, Party>)
    requires ValidParameters(params) && params.shareCount < MAX_INDEX && Degrees(secrets, params)
    requires RunHonest(secrets, params.shareCount, sid)
    requires forall i: nat :: 0 < i <= params.shareCount ==> InboxOf(secrets, params.shareCount, sid, i, inboxes(i))
    requires Outcome(ops, DkgRun.GroupOf(secrets, params, sid)).Some?
    ensures var g := DkgRun.GroupOf(secrets, params, sid);
            && (forall i <- parties :: Run4(secrets, params, sid, i, inboxes(i)).Ok?
                                       && Run4(secrets, params, sid, i, inboxes(i)).value.0 == parties[i])
            && Performed(ops, g, parties, after)
            && Secret(Outcome(ops, g).value) == Add(Eval(Joint(secrets, params.shareCount), 0), TotalShift(ops, g))
            && forall s: Session :: BuiltOn(s, after, Outcome(ops, g).value) ==> SessionFits(s, Outcome(ops, g).value)
  {
    hide Run4, Outcome, Performed, TotalShift, Compatible, SessionFits, Degrees, RunHonest, InboxOf, Eval;
    var g := DkgRun.GroupOf(secrets, params, sid);
    parties := DkgEstablishes(secrets, params, sid, inboxes);
    after := HistoryKeeps(ops, g, parties);
    var h := Outcome(ops, g).value;
    forall s: Session | BuiltOn(s, after, h) ensures SessionFits(s, h) { SessionOfGroup(after, h, s); }
    SecretOfRun(secrets, params, sid);
  }

  lemma SecretOfRun(secrets: Dealing, params: Parameters, sid: Bytes)
    ensures Secret(DkgRun.GroupOf(secrets, params, sid)) == Eval(Joint(secrets, params.shareCount), 0)
  {
    hide Eval, Joint;
  }
}
