/** The end of an honest signing session: the third and fourth phases, and the correctness of the
    signature. */
module SignFinish {
  import opened Scalars
  import opened Sums
  import opened Shamir
  import opened Results
  import opened OtConstants
  import opened Hashes
  import opened Hex
  import opened Curve
  import opened ZeroShares
  import opened OtExtension
  import opened Multiplication
  import opened MulInit
  import opened Parties
  import opened Routing
  import opened Dkg
  import opened Ecdsa
  import opened SignAlgebra
  import opened Compatibility
  import opened Signing
  import opened SignRun

  // The tables of a session

  function Chis(os: Outcomes): Table {
    (i: nat, j: nat) => os(i, j).chi
  }

  function Entry(xs: seq<Scalar>, k: nat): Scalar {
    if k < |xs| then xs[k] else 0
  }

  /** What sender i got from its multiplication with receiver j. */
  function SentTable(os: Outcomes, k: nat): Table {
    (i: nat, j: nat) => Entry(os(j, i).sent, k)
  }

  /** What receiver i got from its multiplication with sender j. */
  function GotTable(os: Outcomes, k: nat): Table {
    (i: nat, j: nat) => Entry(os(i, j).got, k)
  }

  function Shares(s: Session): nat -> Scalar {
    (i: nat) => ShareInput(s, i)
  }

  // Phase 3

  /** The receiver's last step with party c has the outcome `os`. */
  predicate ThirdStep(s: Session, os: Outcomes, i: nat, c: nat) {
    && c in s.party(i).mulReceivers
    && |s.party(i).mulReceivers[c].gadget| == BATCH_SIZE
    && KeptSized(os(i, c).kept) && |os(i, c).sent| == |os(i, c).got| == L
    && RunPhase2(s.party(i).mulReceivers[c], SignMulSid(i, c, s.party(i), DataOf(s, i)), os(i, c).kept, os(i, c).message)
         == Ok(os(i, c).got)
    && Add(os(i, c).sent[0], os(i, c).got[0]) == Mul(os(i, c).chi, s.key(c))
    && Add(os(i, c).sent[1], os(i, c).got[1]) == Mul(os(i, c).chi, ShareInput(s, c))
  }

  lemma ThirdSteps(s: Session, os: Outcomes, i: nat, c: nat)
    requires AllExchanged(s, os) && i in s.xs && c in s.xs && i != c
    ensures ThirdStep(s, os, i, c) && |os(c, i).sent| == L && KeptSized(os(i, c).kept)
  {
    hide RunPhase1, Run, RunPhase2, SignMulSid, ShareInput, Mul;
  }

  /** The sums after the messages of the parties in cs. */
  function StateOf(s: Session, os: Outcomes, i: nat, cs: seq<nat>): SumState {
    SumState(Point(Add(ShareInput(s, i), SumOver(cs, Shares(s)))), Point(Add(s.key(i), SumOver(cs, s.key))),
             Add(s.mask(i), SumOver(cs, Psi(s.mask, Chis(os), i))),
             SumOver(cs, Both(SentTable(os, 0), GotTable(os, 0), i)), SumOver(cs, Both(SentTable(os, 1), GotTable(os, 1), i)))
  }

  /** The check against gamma. */
  lemma GammaHolds(chi: Scalar, a: Scalar, c: Scalar, d: Scalar)
    requires Add(c, d) == Mul(chi, a)
    ensures Times(GTimes(a), chi) == Plus(GTimes(d), GTimes(c))
  {
    hide Mul;
    MulComm(chi, a);
  }

  lemma NextState(s: Session, os: Outcomes, i: nat, cs: seq<nat>, c: nat)
    requires |os(c, i).sent| == |os(i, c).got| == L
    ensures var a, b := StateOf(s, os, i, cs), StateOf(s, os, i, cs + [c]);
            && b.pk == Plus(a.pk, GTimes(ShareInput(s, c)))
            && b.point == Plus(a.point, GTimes(s.key(c)))
            && b.first == Add(a.first, Sub(s.mask(c), os(c, i).chi))
            && b.u == Add(Add(a.u, os(c, i).sent[0]), os(i, c).got[0])
            && b.v == Add(Add(a.v, os(c, i).sent[1]), os(i, c).got[1])
  {
    hide ShareInput;
    assert (cs + [c])[..|cs|] == cs;
    forall k | 0 <= k < L
      ensures Both(SentTable(os, k), GotTable(os, k), i)(c) == Add(os(c, i).sent[k], os(i, c).got[k])
    {
      assert SentTable(os, k)(i, c) == os(c, i).sent[k] && GotTable(os, k)(i, c) == os(i, c).got[k];
    }
  }

  lemma Message3(s: Session, os: Outcomes, i: nat, m: Routed<Body2>, keep: map<nat, Keep2>, seen: seq<nat>)
    requires PartySized(s.party(i)) && s.party(i).index == i && Keep2Sized(keep)
    requires ThirdStep(s, os, i, m.sender) && |os(m.sender, i).sent| == L
    requires m.sender in s.order(i) && m.sender !in seen && m.receiver == i && s.key(m.sender) != 0
    requires m.sender in keep && keep[m.sender] == Keep2For(s, os, i, m.sender) && m.body == Body2To(s, os, m.sender, i)
    ensures Phase3Message(s.party(i), DataOf(s, i), keep, seen, m, StateOf(s, os, i, seen))
         == Ok(StateOf(s, os, i, seen + [m.sender]))
  {
    hide PartySized, Keep2Sized, Commit, PointBytes, RunPhase2, ShareInput, SignMulSid, StateOf, Mul;
    var c := m.sender;
    GammaHolds(os(i, c).chi, s.key(c), os(i, c).sent[0], os(i, c).got[0]);
    GammaHolds(os(i, c).chi, ShareInput(s, c), os(i, c).sent[1], os(i, c).got[1]);
    NextState(s, os, i, seen, c);
  }

  /** The first of the parties with a zero instance key. */
  function FirstTrivial(s: Session, cs: seq<nat>): Option<nat> {
    if |cs| == 0 then None
    else
      match FirstTrivial(s, cs[..|cs| - 1])
      case Some(c) => Some(c)
      case None => if s.key(cs[|cs| - 1]) == 0 then Some(cs[|cs| - 1]) else None
  }

  lemma {:induction false} TrivialMembers(s: Session, cs: seq<nat>)
    ensures FirstTrivial(s, cs) == None <==> forall c <- cs :: s.key(c) != 0
    ensures FirstTrivial(s, cs).Some? ==> FirstTrivial(s, cs).value in cs && s.key(FirstTrivial(s, cs).value) == 0
    decreases |cs|
  {
    if |cs| > 0 { TrivialMembers(s, cs[..|cs| - 1]); }
  }

  /** The sums after the messages of cs, or the abort at the first trivial instance point. */
  function LoopResult(s: Session, os: Outcomes, i: nat, cs: seq<nat>): Result<SumState, Abort> {
    match FirstTrivial(s, cs)
    case Some(c) => Err(AbortRecoverable(i, TrivialInstancePoint(c)))
    case None => Ok(StateOf(s, os, i, cs))
  }

  lemma TrivialMessage(s: Session, os: Outcomes, i: nat, m: Routed<Body2>, keep: map<nat, Keep2>, seen: seq<nat>, st: SumState)
    requires PartySized(s.party(i)) && s.party(i).index == i && Keep2Sized(keep) && |os(m.sender, i).sent| == L
    requires m.sender in s.order(i) && m.receiver == i && s.key(m.sender) == 0
    requires |os(i, m.sender).sent| == L && m.body == Body2To(s, os, m.sender, i)
    ensures Phase3Message(s.party(i), DataOf(s, i), keep, seen, m, st) == Err(AbortRecoverable(i, TrivialInstancePoint(m.sender)))
  {
    hide PartySized, Keep2Sized, Commit, PointBytes, RunPhase2, ShareInput, SignMulSid, Mul;
  }

  lemma {:induction false} Messages3(s: Session, os: Outcomes, i: nat, ms: seq<Routed<Body2>>, keep: map<nat, Keep2>, n: nat)
    requires PartySized(s.party(i)) && s.party(i).index == i && Keep2Sized(keep) && n <= |ms| && Distinct(Senders(ms))
    requires forall k :: 0 <= k < |ms| ==>
      && ms[k].sender in s.order(i) && ms[k].receiver == i
      && ThirdStep(s, os, i, ms[k].sender) && |os(ms[k].sender, i).sent| == L
      && ms[k].sender in keep && keep[ms[k].sender] == Keep2For(s, os, i, ms[k].sender)
      && ms[k].body == Body2To(s, os, ms[k].sender, i)
    ensures Phase3Messages(s.party(i), DataOf(s, i), Unique2Of(s, i), keep, ms, n) == LoopResult(s, os, i, Senders(ms[..n]))
    decreases n
  {
    hide PartySized, Keep2Sized, Phase3Message, Keep2For, Body2To, ThirdStep, Psi, Both, SentTable, GotTable, Chis, ShareInput;
    if n == 0 {
      EmptyState(s, os, i);
    } else {
      Messages3(s, os, i, ms, keep, n - 1);
      var m, before := ms[n - 1], Senders(ms[..n - 1]);
      forall k | 0 <= k < |before| ensures before[k] != m.sender { assert Senders(ms)[k] != Senders(ms)[n - 1]; }
      assert Senders(ms[..n]) == before + [m.sender];
      assert Senders(ms[..n])[..n - 1] == before;
      if FirstTrivial(s, before) == None {
        if s.key(m.sender) == 0 {
          ThirdSent(s, os, i, m.sender);
          TrivialMessage(s, os, i, m, keep, before, StateOf(s, os, i, before));
        } else {
          Message3(s, os, i, m, keep, before);
        }
      }
    }
  }

  lemma ThirdSent(s: Session, os: Outcomes, i: nat, c: nat)
    requires ThirdStep(s, os, i, c)
    ensures |os(i, c).sent| == L
  {
    hide RunPhase2, SignMulSid, ShareInput, Mul;
  }

  lemma EmptyState(s: Session, os: Outcomes, i: nat)
    ensures StateOf(s, os, i, []) == SumState(GTimes(ShareInput(s, i)), GTimes(s.key(i)), s.mask(i), 0, 0)
  {
    hide ShareInput;
  }

  // The sums over all signers

  function TotalKey(s: Session): Scalar {
    SumOver(s.xs, s.key)
  }

  function TotalMask(s: Session): Scalar {
    SumOver(s.xs, s.mask)
  }

  /** The additive shares of the signers add up to the secret key. */
  lemma SharesAddUp(s: Session, g: Group)
    requires SessionFits(s, g)
    ensures SumOver(s.xs, Shares(s)) == Secret(g)
  {
    hide Mul, Lagrange, Eval, Reduce, Compute, HoldsSeeds, PairFits;
    IndicesSmall(s, g);
    var weights := (i: nat) => Mul(Eval(g.poly, Reduce(i)), Lagrange(i, Without(s.xs, i)));
    var zetas := (i: nat) => Zeta(s, i);
    forall i | i in s.xs ensures Shares(s)(i) == Add(weights(i), zetas(i)) {
      assert SignerFits(s, g, i);
      LagrangePermutation(i, s.order(i), Without(s.xs, i));
    }
    SumAdd(s.xs, weights, zetas, Shares(s));
    Reconstruction(s.xs, g.poly);
    SumExt(s.xs, weights, (x: nat) => Mul(Eval(g.poly, Reduce(x)), Lagrange(x, Without(s.xs, x))));
    ZetasCancel(s, g);
  }

  lemma ZetasCancel(s: Session, g: Group)
    requires SessionFits(s, g)
    ensures SumOver(s.xs, (i: nat) => Zeta(s, i)) == 0
  {
    hide Compute, HoldsSeeds, PairFits, ZeroSid;
    if |s.xs| > 0 {
      var sid := ZeroSid(s.party(s.xs[0]), DataOf(s, s.xs[0]));
      var share := (i: nat) => s.party(i).zeroShare;
      forall i | i in s.xs
        ensures Zeta(s, i) == Compute(share(i), Without(s.xs, i), sid)
        ensures HoldsSeeds(share(i), i, Span(1, g.parameters.shareCount), g.seeds)
      {
        assert SignerFits(s, g, i);
        SameMulSid(s, g, i, s.xs[0]);
        OrderMembers(s, g, i);
        WithoutMembers(s.xs, i);
        ComputeMembers(share(i), s.order(i), Without(s.xs, i), sid);
      }
      SpanIndices(1, g.parameters.shareCount);
      SharesOfZero(share, Span(1, g.parameters.shareCount), g.seeds, s.xs, sid);
      SumExt(s.xs, (i: nat) => Zeta(s, i), (i: nat) => Compute(share(i), Without(s.xs, i), sid));
    }
  }

  /** The broadcast of party i, in terms of the session. */
  function UOf(s: Session, os: Outcomes, i: nat): Scalar {
    SignAlgebra.Contribution(s.key, s.mask, Chis(os), SentTable(os, 0), GotTable(os, 0), s.xs, i)
  }

  function VOf(s: Session, os: Outcomes, i: nat): Scalar {
    SignAlgebra.Contribution(Shares(s), s.mask, Chis(os), SentTable(os, 1), GotTable(os, 1), s.xs, i)
  }

  function InstancePoint(s: Session): Point {
    GTimes(TotalKey(s))
  }

  function RScalar(s: Session): Scalar {
    ReduceBytes(XBytes(InstancePoint(s)))
  }

  function BroadcastOf(s: Session, os: Outcomes, i: nat): Broadcast {
    Broadcast(UOf(s, os, i), Add(Mul(ReduceBytes(s.hash), s.mask(i)), Mul(VOf(s, os, i), RScalar(s))))
  }

  lemma StateTotals(s: Session, g: Group, os: Outcomes, i: nat, cs: seq<nat>)
    requires SessionFits(s, g) && i in s.xs && multiset(cs) == multiset(Without(s.xs, i))
    ensures var st := StateOf(s, os, i, cs);
            && st.pk == GTimes(Secret(g))
            && st.point == InstancePoint(s)
            && Add(Mul(s.key(i), st.first), st.u) == UOf(s, os, i)
            && Add(Mul(ShareInput(s, i), st.first), st.v) == VOf(s, os, i)
  {
    hide Mul, ShareInput, SignerFits, PairFits, Secret, SumOver, Chis, SentTable, GotTable, Psi, Both;
    var ws := Without(s.xs, i);
    SumPermutation(cs, ws, Shares(s));
    SumPermutation(cs, ws, s.key);
    SumPermutation(cs, ws, Psi(s.mask, Chis(os), i));
    SumPermutation(cs, ws, Both(SentTable(os, 0), GotTable(os, 0), i));
    SumPermutation(cs, ws, Both(SentTable(os, 1), GotTable(os, 1), i));
    SumWithout(s.xs, i, Shares(s));
    SumWithout(s.xs, i, s.key);
    SharesAddUp(s, g);
  }

  predicate KeysNonzero(s: Session) {
    forall i <- s.xs :: s.key(i) != 0
  }

  /** What phase 3 answers to honest messages from the parties cs: an abort for the first zero instance
      key, an abort for a zero total key, and otherwise the x-coordinate and the broadcast. */
  function Phase3Result(s: Session, os: Outcomes, i: nat, cs: seq<nat>): Result<(string, Broadcast), Abort> {
    match FirstTrivial(s, cs)
    case Some(c) => Err(AbortRecoverable(i, TrivialInstancePoint(c)))
    case None =>
      if TotalKey(s) == 0 then Err(AbortRecoverable(i, PolynomialInconsistency))
      else Ok((EncodeHex(XBytes(InstancePoint(s))), BroadcastOf(s, os, i)))
  }

  lemma KeepSized(s: Session, os: Outcomes, i: nat, keep: map<nat, Keep2>)
    requires AllExchanged(s, os) && i in s.xs && Keeps2(s, os, i, keep)
    ensures Keep2Sized(keep)
  {
    hide AllExchanged, KeptSized;
    forall c | c in keep ensures KeptSized(keep[c].mul) { ThirdSteps(s, os, i, c); }
  }

  /** Phase 3 of an honest signer, exactly: every check on the messages passes but the ones for trivial
      points, and its outputs are the common x-coordinate and its broadcast. */
  lemma HonestPhase3(s: Session, g: Group, os: Outcomes, i: nat, ms: seq<Routed<Body2>>, keep: map<nat, Keep2>)
    requires SessionFits(s, g) && AllExchanged(s, os) && i in s.xs && Keeps2(s, os, i, keep)
    requires Distinct(Senders(ms)) && forall c :: c in Senders(ms) <==> c in s.xs && c != i
    requires forall k :: 0 <= k < |ms| ==>
      ms[k].receiver == i && |os(i, ms[k].sender).sent| == L && ms[k].body == Body2To(s, os, ms[k].sender, i)
    ensures PartySized(s.party(i)) && Keep2Sized(keep)
    ensures Phase3(s.party(i), DataOf(s, i), Unique2Of(s, i), keep, ms) == Phase3Result(s, os, i, Senders(ms))
  {
    hide SessionFits, AllExchanged, PartySized, Phase3Messages, Keep2For, Body2To, ThirdStep, StateOf, SignerFits, UOf, VOf,
         ShareInput, Mul, Secret, TotalKey, Keep2Sized, FirstTrivial;
    SignerOf(s, g, i);
    PartyIndex(s, g, i);
    OrderMembers(s, g, i);
    KeepSized(s, os, i, keep);
    forall k | 0 <= k < |ms|
      ensures ms[k].sender in s.order(i)
      ensures ThirdStep(s, os, i, ms[k].sender) && |os(ms[k].sender, i).sent| == L
      ensures ms[k].sender in keep && keep[ms[k].sender] == Keep2For(s, os, i, ms[k].sender)
    {
      assert Senders(ms)[k] == ms[k].sender;
      ThirdSteps(s, os, i, ms[k].sender);
    }
    Messages3(s, os, i, ms, keep, |ms|);
    assert ms[..|ms|] == ms;
    WithoutMembers(s.xs, i);
    DistinctXs(s, g);
    SameMembers(Senders(ms), Without(s.xs, i));
    Phase3Ends(s, g, os, i, ms, keep);
  }

  /** The checks and outputs after the loop of phase 3. */
  lemma Phase3Ends(s: Session, g: Group, os: Outcomes, i: nat, ms: seq<Routed<Body2>>, keep: map<nat, Keep2>)
    requires SessionFits(s, g) && i in s.xs && PartySized(s.party(i)) && Keep2Sized(keep)
    requires multiset(Senders(ms)) == multiset(Without(s.xs, i))
    requires Phase3Messages(s.party(i), DataOf(s, i), Unique2Of(s, i), keep, ms, |ms|) == LoopResult(s, os, i, Senders(ms))
    ensures Phase3(s.party(i), DataOf(s, i), Unique2Of(s, i), keep, ms) == Phase3Result(s, os, i, Senders(ms))
  {
    hide SessionFits, PartySized, Phase3Messages, StateOf, SignerFits, UOf, VOf, ShareInput, Mul, Secret, TotalKey, Keep2Sized,
         FirstTrivial, Without, EncodeHex, XBytes, ReduceBytes;
    SignerOf(s, g, i);
    PartyIndex(s, g, i);
    assert |multiset(Senders(ms))| == |ms|;
    OrderCount(s, g, i);
    StateTotals(s, g, os, i, Senders(ms));
  }

  lemma DistinctXs(s: Session, g: Group)
    requires SessionFits(s, g)
    ensures Distinct(s.xs)
  {}

  lemma OrderCount(s: Session, g: Group, i: nat)
    requires SignerFits(s, g, i)
    ensures |s.order(i)| == |Without(s.xs, i)|
  {
    assert |multiset(s.order(i))| == |s.order(i)| && |multiset(Without(s.xs, i))| == |Without(s.xs, i)|;
  }

  // Phase 4

  lemma AllMultiplied(s: Session, os: Outcomes)
    requires AllExchanged(s, os)
    ensures Multiplied(s.key, Chis(os), SentTable(os, 0), GotTable(os, 0), s.xs)
    ensures Multiplied(Shares(s), Chis(os), SentTable(os, 1), GotTable(os, 1), s.xs)
  {
    hide Mul, ShareInput, AllExchanged;
    forall i: nat, j: nat | i in s.xs && j in s.xs && i != j
      ensures Add(SentTable(os, 0)(i, j), GotTable(os, 0)(j, i)) == Mul(Chis(os)(j, i), s.key(i))
      ensures Add(SentTable(os, 1)(i, j), GotTable(os, 1)(j, i)) == Mul(Chis(os)(j, i), Shares(s)(i))
    {
      ThirdSteps(s, os, j, i);
    }
  }

  lemma {:induction false} SumOfList(xs: seq<nat>, f: nat -> Scalar, vs: seq<Scalar>)
    requires |vs| == |xs| && forall k :: 0 <= k < |xs| ==> vs[k] == f(xs[k])
    ensures SumSeq(vs) == SumOver(xs, f)
    decreases |xs|
  {
    if |xs| > 0 { SumOfList(xs[..|xs| - 1], f, vs[..|xs| - 1]); }
  }

  /** The two sums of phase 4: the total key times the total mask, and the total mask times
      m + r sk. */
  lemma BroadcastTotals(s: Session, g: Group, os: Outcomes, ys: seq<nat>, bs: seq<Broadcast>)
    requires SessionFits(s, g) && AllExchanged(s, os)
    requires multiset(ys) == multiset(s.xs) && |bs| == |ys|
    requires forall k :: 0 <= k < |bs| ==> bs[k] == BroadcastOf(s, os, ys[k])
    ensures SumSeq(Us(bs)) == Mul(TotalKey(s), TotalMask(s))
    ensures SumSeq(Ws(bs)) == Mul(TotalMask(s), Add(ReduceBytes(s.hash), Mul(Secret(g), RScalar(s))))
  {
    hide Mul, SessionFits, AllExchanged, Secret, RScalar, ShareInput, UOf, VOf, ReduceBytes;
    var u, v := (i: nat) => UOf(s, os, i), (i: nat) => VOf(s, os, i);
    var w := (i: nat) => BroadcastOf(s, os, i).w;
    SumOfList(ys, u, Us(bs));
    SumOfList(ys, w, Ws(bs));
    SumPermutation(ys, s.xs, u);
    SumPermutation(ys, s.xs, w);
    DistinctXs(s, g);
    VTotals(s, g, os, u, v);
    var m, r := ReduceBytes(s.hash), RScalar(s);
    var masks, rs := (i: nat) => Mul(m, s.mask(i)), (i: nat) => Mul(r, v(i));
    SumScale(s.xs, m, s.mask, masks);
    SumScale(s.xs, r, v, rs);
    forall i | i in s.xs ensures w(i) == Add(masks(i), rs(i)) { MulComm(r, v(i)); }
    SumAdd(s.xs, masks, rs, w);
    NumeratorForm(m, r, Secret(g), TotalMask(s));
  }

  lemma VTotals(s: Session, g: Group, os: Outcomes, u: nat -> Scalar, v: nat -> Scalar)
    requires SessionFits(s, g) && AllExchanged(s, os)
    requires forall i: nat :: u(i) == UOf(s, os, i) && v(i) == VOf(s, os, i)
    ensures SumOver(s.xs, u) == Mul(TotalKey(s), TotalMask(s))
    ensures SumOver(s.xs, v) == Mul(Secret(g), TotalMask(s))
  {
    hide Mul, SessionFits, AllExchanged, Secret, SignAlgebra.Contribution, Multiplied;
    AllMultiplied(s, os);
    DistinctXs(s, g);
    SharesAddUp(s, g);
    ContributionsSum(s.key, s.mask, Chis(os), SentTable(os, 0), GotTable(os, 0), s.xs);
    ContributionsSum(Shares(s), s.mask, Chis(os), SentTable(os, 1), GotTable(os, 1), s.xs);
    SumExt(s.xs, u, (i: nat) => SignAlgebra.Contribution(s.key, s.mask, Chis(os), SentTable(os, 0), GotTable(os, 0), s.xs, i));
    SumExt(s.xs, v, (i: nat) => SignAlgebra.Contribution(Shares(s), s.mask, Chis(os), SentTable(os, 1), GotTable(os, 1), s.xs, i));
  }

  lemma NumeratorForm(m: Scalar, r: Scalar, sk: Scalar, phi: Scalar)
    ensures Add(Mul(m, phi), Mul(r, Mul(sk, phi))) == Mul(phi, Add(m, Mul(sk, r)))
  {
    hide Mul;
    MulComm(m, phi);
    MulAssoc(r, sk, phi);
    MulComm(r, sk);
    MulComm(Mul(sk, r), phi);
    MulAdd(phi, m, Mul(sk, r));
  }

  /** The quotient of the two sums: s k = m + r sk, the masks having cancelled. */
  lemma QuotientEquation(k: Scalar, phi: Scalar, e: Scalar)
    requires k != 0 && phi != 0
    ensures Mul(k, phi) != 0 && Mul(Mul(Mul(phi, e), Inv(Mul(k, phi))), k) == e
  {
    hide Mul, Inv;
    NoZeroDivisors(k, phi);
    var d := Mul(k, phi);
    MulInv(d);
    var q := Mul(Mul(phi, e), Inv(d));
    MulAssoc(Mul(phi, e), Inv(d), d);
    MulComm(Inv(d), d);
    MulOne(Mul(phi, e));
    MulAssoc(q, k, phi);
    MulComm(Mul(q, k), phi);
    Cancel(phi, Mul(q, k), e);
  }

  /** The recomputation of phase 4 is the point the verifier computes. */
  lemma RecomputedIsSignaturePoint(m: Scalar, pk: Point, rx: Scalar, s: Scalar)
    ensures RecomputedPoint(m, pk, rx, s) == SignaturePoint(m, pk, rx, s)
  {
    hide Mul, Inv;
    var i := Inv(s);
    MulOne(m);
    MulOne(Mul(m, i));
    MulComm(Add(m, Mul(pk.log, rx)), i);
    MulAdd(i, m, Mul(pk.log, rx));
    MulComm(i, m);
    MulComm(i, Mul(pk.log, rx));
    MulAssoc(pk.log, rx, i);
  }

  /** The s that phase 4 outputs, and the discrete logarithm of the point that fits it. */
  function FinalS(q: Scalar, normalize: bool): Scalar {
    if normalize then LowS(q) else q
  }

  function FinalK(q: Scalar, k: Scalar, normalize: bool): Scalar {
    if normalize && IsHigh(q) then Neg(k) else k
  }

  lemma FinalEquation(m: Scalar, sk: Scalar, r: Scalar, k: Scalar, q: Scalar, normalize: bool)
    requires k != 0 && Mul(q, k) == Add(m, Mul(sk, r))
    ensures Mul(FinalS(q, normalize), FinalK(q, k, normalize)) == Add(m, Mul(sk, r))
    ensures FinalK(q, k, normalize) != 0 && X(GTimes(FinalK(q, k, normalize))) == X(GTimes(k))
    ensures FinalS(q, normalize) == 0 <==> q == 0
    ensures normalize ==> !IsHigh(FinalS(q, normalize))
  {
    hide Mul;
    NegatedEquation(m, sk, r, k, q);
    OppositeCoordinates(GTimes(k));
  }

  /** What phase 4 answers for an x-coordinate of a point k G and sums whose quotient q satisfies the
      signing equation: it succeeds exactly when that x-coordinate is canonical and nonzero and s is
      nonzero. */
  lemma Phase4Outcome(party: Party, data: SignData, sk: Scalar, k: Scalar, bs: seq<Broadcast>, normalize: bool)
    requires party.pk == GTimes(sk) && k != 0 && SumSeq(Us(bs)) != 0
    requires Mul(Mul(SumSeq(Ws(bs)), Inv(SumSeq(Us(bs)))), k)
          == Add(ReduceBytes(data.hash), Mul(sk, ReduceBytes(XBytes(GTimes(k)))))
    ensures var q := Mul(SumSeq(Ws(bs)), Inv(SumSeq(Us(bs))));
            var r := Phase4(party, data, EncodeHex(XBytes(GTimes(k))), bs, normalize);
            && (r.Ok? <==> X(GTimes(k)) < Q && X(GTimes(k)) != 0 && q != 0)
            && (r.Err? ==> r == Err(SignatureVerificationFailed))
            && (r.Ok? ==> r.value == (EncodeHex(ScalarBytes(FinalS(q, normalize))),
                                      if YIsOdd(GTimes(FinalK(q, k, normalize))) then 1 else 0))
  {
    hide Mul, Inv, EncodeHex, DecodeField, ScalarBytes, SignaturePoint, RecomputedPoint;
    var q := Mul(SumSeq(Ws(bs)), Inv(SumSeq(Us(bs))));
    var m, x := ReduceBytes(data.hash), XBytes(GTimes(k));
    var s, k' := FinalS(q, normalize), FinalK(q, k, normalize);
    FieldRoundTrip(x);
    FieldRoundTrip(ScalarBytes(s));
    ScalarRoundTrip(s);
    ReduceX(GTimes(k));
    FinalEquation(m, sk, ReduceBytes(x), k, q, normalize);
    if X(GTimes(k)) < Q {
      var r: Scalar := X(GTimes(k));
      Small(r);
      SigningEquation(m, sk, k', s);
      RecomputedIsSignaturePoint(m, party.pk, r, s);
      if s != 0 { PointRecovered(m, sk, r, k', s); }
      XIsScalar(GTimes(k), r);
    }
  }

  lemma XIsScalar(p: Point, r: Scalar)
    requires X(p) == r
    ensures XBytes(p) == ScalarBytes(r)
  {}

  // Whole sessions

  function Phase1Of(s: Session, i: nat): Result<Out1, AbortReason>
    requires PartySized(s.party(i))
  {
    Phase1(s.party(i), DataOf(s, i), s.key(i), s.mask(i), s.draw1(i))
  }

  function Phase2Of(s: Session, i: nat, ms: seq<Routed<Body1>>): Result<Out2, Abort>
    requires PartySized(s.party(i))
  {
    match Phase1Of(s, i)
    case Err(e) => Err(AbortRecoverable(s.party(i).index, e))
    case Ok((unique, keep, _)) => Phase2(s.party(i), DataOf(s, i), unique, keep, ms, s.draw2(i))
  }

  function Phase3Of(s: Session, i: nat, ms: seq<Routed<Body1>>, ms2: seq<Routed<Body2>>): Result<(string, Broadcast), Abort>
    requires PartySized(s.party(i))
  {
    match Phase2Of(s, i, ms)
    case Err(e) => Err(e)
    case Ok((unique, keep, _)) =>
      if Keep2Sized(keep) then Phase3(s.party(i), DataOf(s, i), unique, keep, ms2)
      else Err(AbortRecoverable(s.party(i).index, PolynomialInconsistency))
  }

  /** What party c sends in phase 1: nothing if it aborts. */
  function Sends1(s: Session, c: nat): seq<Routed<Body1>> {
    if PartySized(s.party(c)) && Phase1Of(s, c).Ok? then Phase1Of(s, c).value.2 else []
  }

  /** What party c sends in phase 2 on the messages it received. */
  function Sends2(s: Session, c: nat, ms: seq<Routed<Body1>>): seq<Routed<Body2>> {
    if PartySized(s.party(c)) && Phase2Of(s, c, ms).Ok? then Phase2Of(s, c, ms).value.2 else []
  }

  /** One message from every other signer. */
  ghost predicate FromOthers<T>(s: Session, i: nat, ms: seq<Routed<T>>) {
    Distinct(Senders(ms)) && forall c :: c in Senders(ms) <==> c in s.xs && c != i
  }

  /** Party i receives, in any order, the phase-1 message each of the others sent to it. */
  ghost predicate Inbox1(s: Session, i: nat, ms: seq<Routed<Body1>>) {
    FromOthers(s, i, ms) && forall k :: 0 <= k < |ms| ==> ms[k].receiver == i && ms[k] in Sends1(s, ms[k].sender)
  }

  /** The same for phase 2, given what the others received in phase 1. */
  ghost predicate Inbox2(s: Session, i: nat, inboxes: nat -> seq<Routed<Body1>>, ms: seq<Routed<Body2>>) {
    && FromOthers(s, i, ms)
    && forall k :: 0 <= k < |ms| ==> ms[k].receiver == i && ms[k] in Sends2(s, ms[k].sender, inboxes(ms[k].sender))
  }

  lemma Sent1Bodies(s: Session, os: Outcomes, c: nat, n: nat, m: Routed<Body1>)
    requires n <= |s.order(c)| && m in Sent1(s, os, c, n)
    ensures m.sender == c && m.body == Body1To(s, os, c, m.receiver)
  {
    hide Body1To;
    Kept1Spec(s, os, c, n);
  }

  lemma Inbox1Arrived(s: Session, g: Group, os: Outcomes, i: nat, ms: seq<Routed<Body1>>)
    requires SessionFits(s, g) && AllExchanged(s, os) && i in s.xs && Inbox1(s, i, ms)
    ensures Arrived(s, i, ms, (c: nat) => Body1To(s, os, c, i))
  {
    hide SessionFits, AllExchanged, PartySized, Phase1, Sent1, Kept1, Body1To, Keeps1, UniqueOf;
    forall k | 0 <= k < |ms| ensures ms[k].body == Body1To(s, os, ms[k].sender, i) {
      var c := ms[k].sender;
      assert Senders(ms)[k] == c;
      HonestPhase1(s, g, os, c);
      assert Sends1(s, c) == Sent1(s, os, c, |s.order(c)|);
      Sent1Bodies(s, os, c, |s.order(c)|, ms[k]);
    }
  }

  /** Phase 2 of party i in the session. */
  lemma SessionPhase2(s: Session, g: Group, os: Outcomes, i: nat, ms: seq<Routed<Body1>>)
    requires SessionFits(s, g) && AllExchanged(s, os) && i in s.xs && Inbox1(s, i, ms)
    ensures PartySized(s.party(i)) && forall c <- Senders(ms) :: |os(c, i).sent| == L
    ensures Phase2Of(s, i, ms) == Ok((Unique2Of(s, i), Kept2(s, os, i, Senders(ms)), Sent2(s, os, i, Senders(ms))))
    ensures Keeps2(s, os, i, Kept2(s, os, i, Senders(ms)))
  {
    hide SessionFits, AllExchanged, PartySized, Phase1, Phase2, Sent1, Kept1, Body1To, Keeps1, UniqueOf, Inbox1, Arrived, Kept2,
         Sent2, Keeps2;
    HonestPhase1(s, g, os, i);
    Inbox1Arrived(s, g, os, i, ms);
    HonestPhase2(s, g, os, i, ms, Kept1(s, os, i, |s.order(i)|));
  }

  /** Phase 3 of party i in the session. */
  lemma SessionPhase3(s: Session, g: Group, os: Outcomes, i: nat, inboxes: nat -> seq<Routed<Body1>>, ms: seq<Routed<Body2>>)
    requires SessionFits(s, g) && AllExchanged(s, os) && i in s.xs
    requires forall c <- s.xs :: Inbox1(s, c, inboxes(c))
    requires Inbox2(s, i, inboxes, ms)
    ensures PartySized(s.party(i))
    ensures Phase3Of(s, i, inboxes(i), ms) == Phase3Result(s, os, i, Senders(ms))
  {
    hide SessionFits, AllExchanged, PartySized, Phase2Of, Phase3, Inbox1, Kept2, Sent2, Keeps2, Unique2Of, Body2To, BroadcastOf,
         TotalKey, InstancePoint, Keep2Sized, Phase3Result;
    SessionPhase2(s, g, os, i, inboxes(i));
    forall k | 0 <= k < |ms|
      ensures |os(i, ms[k].sender).sent| == L && ms[k].body == Body2To(s, os, ms[k].sender, i)
    {
      var c := ms[k].sender;
      assert Senders(ms)[k] == c;
      SessionPhase2(s, g, os, c, inboxes(c));
      Kept2Spec(s, os, c, Senders(inboxes(c)));
    }
    HonestPhase3(s, g, os, i, ms, Kept2(s, os, i, Senders(inboxes(i))));
  }

  // The three phases, from the session alone

  lemma Phase1Succeeds(s: Session, g: Group, i: nat)
    requires SessionFits(s, g) && i in s.xs
    ensures PartySized(s.party(i)) && Phase1Of(s, i).Ok?
  {
    hide SessionFits, AllExchanged, PartySized, Phase1, Kept1, Sent1, Keeps1, UniqueOf;
    var os := Exchanges(s, g);
    HonestPhase1(s, g, os, i);
  }

  lemma Phase2Succeeds(s: Session, g: Group, i: nat, ms: seq<Routed<Body1>>)
    requires SessionFits(s, g) && i in s.xs && Inbox1(s, i, ms)
    ensures PartySized(s.party(i)) && Phase2Of(s, i, ms).Ok?
  {
    hide SessionFits, AllExchanged, PartySized, Phase2Of, Inbox1, Kept2, Sent2, Keeps2, Unique2Of;
    var os := Exchanges(s, g);
    SessionPhase2(s, g, os, i, ms);
  }

  /** Phase 3 on honest messages succeeds exactly when no other instance key and not their total is zero. */
  lemma Phase3Exact(s: Session, g: Group, i: nat, inboxes: nat -> seq<Routed<Body1>>, ms: seq<Routed<Body2>>)
    requires SessionFits(s, g) && i in s.xs
    requires (forall c <- s.xs :: Inbox1(s, c, inboxes(c))) && Inbox2(s, i, inboxes, ms)
    ensures PartySized(s.party(i))
    ensures var r := Phase3Of(s, i, inboxes(i), ms);
            && (r.Ok? <==> TotalKey(s) != 0 && forall c <- s.xs :: c != i ==> s.key(c) != 0)
            && (r.Ok? ==> r.value.0 == EncodeHex(XBytes(InstancePoint(s))))
            && (r.Err? ==> r == Err(AbortRecoverable(i, PolynomialInconsistency))
                           || exists c <- s.xs :: s.key(c) == 0 && r == Err(AbortRecoverable(i, TrivialInstancePoint(c))))
  {
    hide SessionFits, AllExchanged, PartySized, Phase3Of, Inbox1, BroadcastOf, TotalKey, FirstTrivial, XBytes, EncodeHex;
    var os := Exchanges(s, g);
    SessionPhase3(s, g, os, i, inboxes, ms);
    TrivialMembers(s, Senders(ms));
  }

  /** No honest signer aborts in the first three phases: phases 1 and 2 always succeed, in whatever order
      the messages arrive, and phase 3 does when the instance keys and their total are not zero; all then
      agree on the x-coordinate. */
  lemma PhasesSucceed(s: Session, g: Group)
    requires SessionFits(s, g) && KeysNonzero(s) && TotalKey(s) != 0
    ensures forall i <- s.xs :: PartySized(s.party(i)) && Phase1Of(s, i).Ok?
    ensures forall i <- s.xs, ms :: Inbox1(s, i, ms) ==> Phase2Of(s, i, ms).Ok?
    ensures forall i <- s.xs, inboxes: nat -> seq<Routed<Body1>>, ms ::
      (forall c <- s.xs :: Inbox1(s, c, inboxes(c))) && Inbox2(s, i, inboxes, ms) ==>
        Phase3Of(s, i, inboxes(i), ms).Ok? && Phase3Of(s, i, inboxes(i), ms).value.0 == EncodeHex(XBytes(InstancePoint(s)))
  {
    hide SessionFits, PartySized, Phase1Of, Phase2Of, Phase3Of, Inbox1, Inbox2, TotalKey, XBytes, EncodeHex, InstancePoint;
    forall i | i in s.xs ensures PartySized(s.party(i)) && Phase1Of(s, i).Ok? { Phase1Succeeds(s, g, i); }
    forall i, ms | i in s.xs && Inbox1(s, i, ms) ensures Phase2Of(s, i, ms).Ok? { Phase2Succeeds(s, g, i, ms); }
    forall i, inboxes: nat -> seq<Routed<Body1>>, ms
      | i in s.xs && (forall c <- s.xs :: Inbox1(s, c, inboxes(c))) && Inbox2(s, i, inboxes, ms)
      ensures Phase3Of(s, i, inboxes(i), ms).Ok?
      ensures Phase3Of(s, i, inboxes(i), ms).value.0 == EncodeHex(XBytes(InstancePoint(s)))
    {
      Phase3Exact(s, g, i, inboxes, ms);
    }
  }

  /** The messages from the parties cs to party i. */
  function Gathered1(s: Session, os: Outcomes, i: nat, cs: seq<nat>): (ms: seq<Routed<Body1>>)
    ensures Senders(ms) == cs
  {
    var ms := seq(|cs|, k requires 0 <= k < |cs| => Routed(cs[k], i, Body1To(s, os, cs[k], i)));
    assert Senders(ms) == cs;
    ms
  }

  function Gathered2(s: Session, os: Outcomes, i: nat, cs: seq<nat>): (ms: seq<Routed<Body2>>)
    requires forall c <- cs :: |os(i, c).sent| == L
    ensures Senders(ms) == cs
  {
    var ms := seq(|cs|, k requires 0 <= k < |cs| => Routed(cs[k], i, Body2To(s, os, cs[k], i)));
    assert Senders(ms) == cs;
    ms
  }

  lemma ArrivalMembers(s: Session, g: Group, i: nat, cs: seq<nat>)
    requires SessionFits(s, g) && i in s.xs && multiset(cs) == multiset(Without(s.xs, i))
    ensures Distinct(cs) && forall c :: c in cs <==> c in s.xs && c != i
  {
    hide SessionFits, Distinct;
    DistinctXs(s, g);
    WithoutMembers(s.xs, i);
    SamePermutation(cs, Without(s.xs, i));
  }

  lemma Inbox1Exists(s: Session, g: Group, os: Outcomes, i: nat, cs: seq<nat>)
    requires SessionFits(s, g) && AllExchanged(s, os) && i in s.xs && multiset(cs) == multiset(Without(s.xs, i))
    ensures Inbox1(s, i, Gathered1(s, os, i, cs))
  {
    hide SessionFits, AllExchanged, PartySized, Phase1, Sent1, Kept1, Body1To, Keeps1, UniqueOf;
    ArrivalMembers(s, g, i, cs);
    var ms := Gathered1(s, os, i, cs);
    forall k | 0 <= k < |ms| ensures ms[k] in Sends1(s, ms[k].sender) {
      var c := cs[k];
      assert c in cs;
      HonestPhase1(s, g, os, c);
      OrderMembers(s, g, c);
      Kept1Spec(s, os, c, |s.order(c)|);
      var j :| 0 <= j < |s.order(c)| && s.order(c)[j] == i;
      assert Sent1(s, os, c, |s.order(c)|)[j] == ms[k];
    }
  }

  lemma Inbox2Exists(s: Session, g: Group, os: Outcomes, i: nat, inboxes: nat -> seq<Routed<Body1>>, cs: seq<nat>)
    requires SessionFits(s, g) && AllExchanged(s, os) && i in s.xs && multiset(cs) == multiset(Without(s.xs, i))
    requires forall c <- s.xs :: Inbox1(s, c, inboxes(c))
    ensures forall c <- cs :: |os(i, c).sent| == L
    ensures Inbox2(s, i, inboxes, Gathered2(s, os, i, cs))
  {
    hide SessionFits, AllExchanged, PartySized, Phase2Of, Inbox1, Kept2, Sent2, Keeps2, Unique2Of, Body2To;
    ArrivalMembers(s, g, i, cs);
    forall c | c in cs ensures |os(i, c).sent| == L { ThirdSteps(s, os, c, i); }
    var ms := Gathered2(s, os, i, cs);
    forall k | 0 <= k < |ms| ensures ms[k] in Sends2(s, ms[k].sender, inboxes(ms[k].sender)) {
      var c := cs[k];
      assert c in cs;
      SessionPhase2(s, g, os, c, inboxes(c));
      Kept2Spec(s, os, c, Senders(inboxes(c)));
      assert FromOthers(s, c, inboxes(c)) by { Inbox1Others(s, c, inboxes(c)); }
      var j :| 0 <= j < |Senders(inboxes(c))| && Senders(inboxes(c))[j] == i;
      assert Sent2(s, os, c, Senders(inboxes(c)))[j] == ms[k];
    }
  }

  lemma Inbox1Others(s: Session, i: nat, ms: seq<Routed<Body1>>)
    requires Inbox1(s, i, ms)
    ensures FromOthers(s, i, ms)
  {}

  /** Every order of arrival is possible: each signer sends each of the others its message in both
      phases. */
  lemma InboxesExist(s: Session, g: Group, arrivals1: nat -> seq<nat>, arrivals2: nat -> seq<nat>)
    returns (inboxes1: nat -> seq<Routed<Body1>>, inboxes2: nat -> seq<Routed<Body2>>)
    requires SessionFits(s, g)
    requires forall i <- s.xs :: multiset(arrivals1(i)) == multiset(arrivals2(i)) == multiset(Without(s.xs, i))
    ensures forall i <- s.xs :: Inbox1(s, i, inboxes1(i)) && Senders(inboxes1(i)) == arrivals1(i)
    ensures forall i <- s.xs :: Inbox2(s, i, inboxes1, inboxes2(i)) && Senders(inboxes2(i)) == arrivals2(i)
  {
    hide SessionFits, AllExchanged, Inbox1, Inbox2, Gathered1, Gathered2;
    var os := Exchanges(s, g);
    inboxes1 := (i: nat) => Gathered1(s, os, i, arrivals1(i));
    forall i | i in s.xs ensures Inbox1(s, i, inboxes1(i)) && Senders(inboxes1(i)) == arrivals1(i) {
      Inbox1Exists(s, g, os, i, arrivals1(i));
    }
    inboxes2 := (i: nat) => if forall c <- arrivals2(i) :: |os(i, c).sent| == L then Gathered2(s, os, i, arrivals2(i)) else [];
    forall i | i in s.xs ensures Inbox2(s, i, inboxes1, inboxes2(i)) && Senders(inboxes2(i)) == arrivals2(i) {
      Inbox2Exists(s, g, os, i, inboxes1, arrivals2(i));
    }
  }

  /** The signature point has a canonical, nonzero x-coordinate. */
  predicate CanonicalX(p: Point) {
    0 < X(p) < Q
  }

  /** Correctness of signing. For every set of t signers that fit together, all messages delivered in
      any order and all draws with nonzero instance keys and nonzero total key: every signer completes
      the first three phases, all agree on the x-coordinate, the broadcasts add up to k phi and to
      phi (m + r sk), and phase 4 of every signer outputs the same signature, which verifies under the
      public key, exactly when the total mask is not zero, the x-coordinate of R is canonical and nonzero
      and m + r sk is nonzero. */
  lemma SigningCorrect(s: Session, g: Group, inboxes1: nat -> seq<Routed<Body1>>, inboxes2: nat -> seq<Routed<Body2>>,
                       ys: seq<nat>, i: nat, normalize: bool) returns (bs: seq<Broadcast>)
    requires SessionFits(s, g) && KeysNonzero(s) && TotalKey(s) != 0
    requires forall c <- s.xs :: Inbox1(s, c, inboxes1(c)) && Inbox2(s, c, inboxes1, inboxes2(c))
    requires multiset(ys) == multiset(s.xs) && i in s.xs
    ensures |bs| == |ys|
    ensures forall k :: 0 <= k < |ys| ==>
      && PartySized(s.party(ys[k]))
      && Phase3Of(s, ys[k], inboxes1(ys[k]), inboxes2(ys[k])) == Ok((EncodeHex(XBytes(InstancePoint(s))), bs[k]))
    ensures SumSeq(Us(bs)) == Mul(TotalKey(s), TotalMask(s))
    ensures SumSeq(Ws(bs)) == Mul(TotalMask(s), SignedScalar(s, g))
    ensures var x := EncodeHex(XBytes(InstancePoint(s)));
            var r := Phase4(s.party(i), DataOf(s, i), x, bs, normalize);
            && (r.Ok? <==> TotalMask(s) != 0 && CanonicalX(InstancePoint(s)) && SignedScalar(s, g) != 0)
            && (r.Err? ==> r == Err(if TotalMask(s) == 0 then ZeroDenominator else SignatureVerificationFailed))
            && (r.Ok? ==> r == Ok(SignatureOf(s, g, normalize)))
            && (r.Ok? ==> VerifySignature(s.hash, GTimes(Secret(g)), x, r.value.0))
  {
    hide SessionFits, AllExchanged, Inbox1, Inbox2, PartySized, Phase3Of, Mul, Inv, Secret, TotalKey, TotalMask, BroadcastOf,
         ReduceBytes, XBytes, EncodeHex, VerifySignature, SignerFits, FirstTrivial, FromOthers, Phase4;
    var os := Exchanges(s, g);
    DistinctXs(s, g);
    SamePermutation(ys, s.xs);
    bs := seq(|ys|, k requires 0 <= k < |ys| => BroadcastOf(s, os, ys[k]));
    forall k | 0 <= k < |ys|
      ensures PartySized(s.party(ys[k]))
      ensures Phase3Of(s, ys[k], inboxes1(ys[k]), inboxes2(ys[k])) == Ok((EncodeHex(XBytes(InstancePoint(s))), bs[k]))
    {
      assert ys[k] in s.xs;
      NoTrivial(s, ys[k], inboxes1, inboxes2(ys[k]));
      SessionPhase3(s, g, os, ys[k], inboxes1, inboxes2(ys[k]));
    }
    BroadcastTotals(s, g, os, ys, bs);
    SignerOf(s, g, i);
    PartyIndex(s, g, i);
    if TotalMask(s) == 0 {
      MulZero(TotalKey(s));
      ZeroMask(s.party(i), DataOf(s, i), EncodeHex(XBytes(InstancePoint(s))), bs, normalize);
    } else {
      QuotientEquation(TotalKey(s), TotalMask(s), SignedScalar(s, g));
      Phase4Outcome(s.party(i), DataOf(s, i), Secret(g), TotalKey(s), bs, normalize);
      QuotientZero(s, g);
      Phase4Verifies(s.party(i), DataOf(s, i), EncodeHex(XBytes(InstancePoint(s))), bs, normalize);
    }
  }

  lemma NoTrivial(s: Session, i: nat, inboxes: nat -> seq<Routed<Body1>>, ms: seq<Routed<Body2>>)
    requires KeysNonzero(s) && Inbox2(s, i, inboxes, ms)
    ensures FirstTrivial(s, Senders(ms)) == None
  {
    hide FirstTrivial, Sends2;
    TrivialMembers(s, Senders(ms));
  }

  lemma ZeroMask(party: Party, data: SignData, x: string, bs: seq<Broadcast>, normalize: bool)
    requires SumSeq(Us(bs)) == 0
    ensures Phase4(party, data, x, bs, normalize) == Err(ZeroDenominator)
  {}

  /** m + r sk. */
  function SignedBy(s: Session, sk: Scalar): Scalar {
    Add(ReduceBytes(s.hash), Mul(sk, RScalar(s)))
  }

  ghost function SignedScalar(s: Session, g: Group): Scalar {
    SignedBy(s, Secret(g))
  }

  /** k^-1 (m + r sk), in low-S form if asked for, with the recovery id. */
  ghost function SignatureOf(s: Session, g: Group, normalize: bool): (string, nat) {
    var q := Mul(Mul(TotalMask(s), SignedScalar(s, g)), Inv(Mul(TotalKey(s), TotalMask(s))));
    (EncodeHex(ScalarBytes(FinalS(q, normalize))), if YIsOdd(GTimes(FinalK(q, TotalKey(s), normalize))) then 1 else 0)
  }

  lemma QuotientZero(s: Session, g: Group)
    requires TotalKey(s) != 0 && TotalMask(s) != 0
    ensures Mul(Mul(TotalMask(s), SignedScalar(s, g)), Inv(Mul(TotalKey(s), TotalMask(s)))) == 0 <==> SignedScalar(s, g) == 0
  {
    hide Mul, Inv, SignedScalar, TotalKey, TotalMask;
    var d := Mul(TotalKey(s), TotalMask(s));
    NoZeroDivisors(TotalKey(s), TotalMask(s));
    InvNonzero(d);
    NoZeroDivisors(TotalMask(s), SignedScalar(s, g));
    NoZeroDivisors(Mul(TotalMask(s), SignedScalar(s, g)), Inv(d));
  }

  /** Phase 4 never outputs a signature that does not verify, and never sets bit 1 of the recovery
      id; when asked to normalise it outputs a low s. */
  lemma Phase4Verifies(party: Party, data: SignData, x: string, bs: seq<Broadcast>, normalize: bool)
    ensures var r := Phase4(party, data, x, bs, normalize);
            r.Ok? ==>
              && VerifySignature(data.hash, party.pk, x, r.value.0)
              && r.value.1 < 2
              && (normalize ==> exists s: Scalar :: r.value.0 == EncodeHex(ScalarBytes(s)) && !IsHigh(s))
  {
    hide EncodeHex, ScalarBytes, SignaturePoint, RecomputedPoint, Mul, Inv, ReduceBytes, PointBytes, VerifyScalars;
    var r := Phase4(party, data, x, bs, normalize);
    if r.Ok? {
      var bytes := DecodeField(x).value;
      CanonicalBytes(bytes);
      if normalize {
        var q := Mul(SumSeq(Ws(bs)), Inv(SumSeq(Us(bs))));
        LowSIsLow(q);
        assert r.value.0 == EncodeHex(ScalarBytes(LowS(q)));
      }
    }
  }

  lemma CanonicalBytes(x: Digest)
    requires ParseScalar(x).Some?
    ensures x == ScalarBytes(ReduceBytes(x))
  {
    BytesRoundTrip(x);
    DivMod(FromBe(x), 0, FromBe(x));
  }

  /** Public key recovery from an honest signature: the point that the recovery id selects is R or
      its opposite, exactly according to whether s was negated, and it yields the public key. */
  lemma RecoveryCorrect(s: Session, g: Group, normalize: bool, point: Point)
    requires TotalKey(s) != 0 && TotalMask(s) != 0 && CanonicalX(InstancePoint(s)) && SignedScalar(s, g) != 0
    requires Decompresses(X(InstancePoint(s)), SignatureOf(s, g, normalize).1 == 1, point)
    ensures var q := Mul(Mul(TotalMask(s), SignedScalar(s, g)), Inv(Mul(TotalKey(s), TotalMask(s))));
            && point == (if normalize && IsHigh(q) then Opposite(InstancePoint(s)) else InstancePoint(s))
            && Recover(ReduceBytes(s.hash), RScalar(s), FinalS(q, normalize), point) == GTimes(Secret(g))
  {
    hide Mul, Inv, Secret, TotalKey, TotalMask, EncodeHex, ScalarBytes, Recover, ReduceBytes;
    var k := TotalKey(s);
    var q := Mul(Mul(TotalMask(s), SignedScalar(s, g)), Inv(Mul(k, TotalMask(s))));
    QuotientEquation(k, TotalMask(s), SignedScalar(s, g));
    FinalEquation(ReduceBytes(s.hash), Secret(g), RScalar(s), k, q, normalize);
    Decompression(point, GTimes(FinalK(q, k, normalize)));
    ReduceX(InstancePoint(s));
    RNonzero(InstancePoint(s));
    RecoverPublicKey(ReduceBytes(s.hash), Secret(g), RScalar(s), FinalK(q, k, normalize), FinalS(q, normalize));
  }

  lemma RNonzero(p: Point)
    requires CanonicalX(p)
    ensures Reduce(X(p)) != 0
  {
    Small(X(p));
  }

  // From a group to a session

  /** Any t parties of a compatible group can hold a session. */
  lemma SessionOfGroup(parties: map<nat, Party>, g: Group, s: Session)
    requires Compatible(parties, g)
    requires Distinct(s.xs) && |s.xs| == g.parameters.threshold && forall i <- s.xs :: i in parties && s.party(i) == parties[i]
    requires forall i <- s.xs :: multiset(s.order(i)) == multiset(Without(s.xs, i))
    requires |s.signId| == |g.sid| == ID_LEN
    ensures SessionFits(s, g)
  {
    hide HoldsSeeds, Symmetric, PairsFit;
    forall i | i in s.xs ensures SignerFits(s, g, i) {
      assert PartyFits(parties[i], i, g);
      SizedParty(parties, g, i);
    }
    forall i, j | i in s.xs && j in s.xs && i != j ensures PairFits(s, i, j) { PairOfGroup(parties, g, i, j); }
  }

  lemma PairOfGroup(parties: map<nat, Party>, g: Group, i: nat, j: nat)
    requires Compatible(parties, g) && i in parties && j in parties && i != j
    ensures j in parties[i].mulSenders && i in parties[j].mulReceivers
    ensures MulPair(parties[i].mulSenders[j], parties[j].mulReceivers[i])
  {
    hide PartyFits, Symmetric, MulPair;
  }

  lemma SizedParty(parties: map<nat, Party>, g: Group, i: nat)
    requires Compatible(parties, g) && i in parties
    ensures PartySized(parties[i])
  {
    hide HoldsSeeds, Symmetric, PairsFit;
    assert PartyFits(parties[i], i, g);
    forall j | j in parties[i].mulSenders ensures |parties[i].mulSenders[j].gadget| == BATCH_SIZE {
      PairOfGroup(parties, g, i, j);
    }
    forall j | j in parties[i].mulReceivers ensures |parties[i].mulReceivers[j].gadget| == BATCH_SIZE {
      PairOfGroup(parties, g, j, i);
    }
  }
}
