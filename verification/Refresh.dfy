/** Refreshing key shares: the complete refresh, and the fast one that re-randomises the OT seeds
    of every pair from their common seed. */
module Refresh {
  import opened Scalars
  import opened Sums
  import opened Shamir
  import opened Results
  import opened OtConstants
  import opened Bits
  import opened Hashes
  import opened Oracles
  import opened Curve
  import opened ZeroShares
  import opened OtExtension
  import opened Multiplication
  import opened MulInit
  import opened Parties
  import opened Routing
  import opened KeyInit
  import opened Dkg
  import opened DkgPhases

  // Re-randomisation of the OT seeds

  /** The salts of column i; the sender of the extension comes first. */
  function Salts(sid: Bytes, i: nat, sender: nat, receiver: nat, seed: Digest): seq<Bytes> {
    [sid, ToBe(i, 2), ToBe(sender, 2), ToBe(receiver, 2), seed]
  }

  function R0(sid: Bytes, i: nat, sender: nat, receiver: nat, seed: Digest): Digest {
    TaggedHash(TAG_REFRESH_FAST_R0, Salts(sid, i, sender, receiver, seed))
  }

  function R1(sid: Bytes, i: nat, sender: nat, receiver: nat, seed: Digest): Digest {
    TaggedHash(TAG_REFRESH_FAST_R1, Salts(sid, i, sender, receiver, seed))
  }

  /** The flip of column i: the parity of the first byte. */
  predicate Flip(sid: Bytes, i: nat, sender: nat, receiver: nat, seed: Digest) {
    TaggedHash(TAG_REFRESH_FAST_B, Salts(sid, i, sender, receiver, seed))[0] as nat % 2 == 1
  }

  function NewSenderSeed(previous: Digest, bit: bool, r0: Digest, r1: Digest): Digest {
    Xor(previous, if bit then r1 else r0)
  }

  function NewSeed0(seed0: Digest, seed1: Digest, flip: bool, r0: Digest): Digest {
    Xor(if flip then seed1 else seed0, r0)
  }

  function NewSeed1(seed0: Digest, seed1: Digest, flip: bool, r1: Digest): Digest {
    Xor(if flip then seed0 else seed1, r1)
  }

  function NewCorrelation(sid: Bytes, sender: nat, receiver: nat, seed: Digest, s: OteSender): (c: seq<bool>)
    requires SenderSized(s)
    ensures |c| == KAPPA
  {
    seq(KAPPA, i requires 0 <= i < |s.seeds| => s.correlation[i] != Flip(sid, i, sender, receiver, seed))
  }

  function NewSenderSeeds(sid: Bytes, sender: nat, receiver: nat, seed: Digest, s: OteSender): (seeds: seq<Digest>)
    requires SenderSized(s)
    ensures |seeds| == KAPPA
  {
    seq(KAPPA, i requires 0 <= i < |s.seeds| =>
      NewSenderSeed(s.seeds[i], s.correlation[i] != Flip(sid, i, sender, receiver, seed),
                    R0(sid, i, sender, receiver, seed), R1(sid, i, sender, receiver, seed)))
  }

  function RefreshedSender(sid: Bytes, sender: nat, receiver: nat, seed: Digest, s: OteSender): OteSender
    requires SenderSized(s)
  {
    OteSender(NewCorrelation(sid, sender, receiver, seed, s), NewSenderSeeds(sid, sender, receiver, seed, s))
  }

  function NewSeeds0(sid: Bytes, sender: nat, receiver: nat, seed: Digest, r: OteReceiver): (seeds: seq<Digest>)
    requires ReceiverSized(r)
    ensures |seeds| == KAPPA
  {
    seq(KAPPA, i requires 0 <= i < |r.seeds0| =>
      NewSeed0(r.seeds0[i], r.seeds1[i], Flip(sid, i, sender, receiver, seed), R0(sid, i, sender, receiver, seed)))
  }

  function NewSeeds1(sid: Bytes, sender: nat, receiver: nat, seed: Digest, r: OteReceiver): (seeds: seq<Digest>)
    requires ReceiverSized(r)
    ensures |seeds| == KAPPA
  {
    seq(KAPPA, i requires 0 <= i < |r.seeds0| =>
      NewSeed1(r.seeds0[i], r.seeds1[i], Flip(sid, i, sender, receiver, seed), R1(sid, i, sender, receiver, seed)))
  }

  function RefreshedReceiver(sid: Bytes, sender: nat, receiver: nat, seed: Digest, r: OteReceiver): OteReceiver
    requires ReceiverSized(r)
  {
    OteReceiver(NewSeeds0(sid, sender, receiver, seed, r), NewSeeds1(sid, sender, receiver, seed, r))
  }

  /** One column: the sender's new seed is the receiver's new seed for the new bit. */
  lemma ColumnKept(bit: bool, flip: bool, seed0: Digest, seed1: Digest, r0: Digest, r1: Digest)
    ensures NewSenderSeed(if bit then seed1 else seed0, bit != flip, r0, r1)
         == if bit != flip then NewSeed1(seed0, seed1, flip, r1) else NewSeed0(seed0, seed1, flip, r0)
  {}

  /** The fast refresh keeps the seed relation, although each party only updates its own half. */
  lemma RelationKept(sid: Bytes, sender: nat, receiver: nat, seed: Digest, s: OteSender, r: OteReceiver)
    requires SeedRelation(s, r)
    ensures SeedRelation(RefreshedSender(sid, sender, receiver, seed, s), RefreshedReceiver(sid, sender, receiver, seed, r))
  {
    hide NewSenderSeed, NewSeed0, NewSeed1, Flip, R0, R1;
    forall i | 0 <= i < KAPPA
      ensures RefreshedSender(sid, sender, receiver, seed, s).seeds[i]
           == if RefreshedSender(sid, sender, receiver, seed, s).correlation[i]
              then RefreshedReceiver(sid, sender, receiver, seed, r).seeds1[i]
              else RefreshedReceiver(sid, sender, receiver, seed, r).seeds0[i]
    {
      ColumnKept(s.correlation[i], Flip(sid, i, sender, receiver, seed), r.seeds0[i], r.seeds1[i],
                 R0(sid, i, sender, receiver, seed), R1(sid, i, sender, receiver, seed));
    }
  }

  /** A history of fast refreshes of one pair, the latest last. */
  function RefreshedPair(rounds: seq<(Bytes, Digest)>, sender: nat, receiver: nat, s: OteSender, r: OteReceiver)
    : (p: (OteSender, OteReceiver))
    requires SeedRelation(s, r)
    ensures SeedRelation(p.0, p.1)
  {
    if |rounds| == 0 then (s, r)
    else
      var (s', r') := RefreshedPair(rounds[..|rounds| - 1], sender, receiver, s, r);
      var (sid, seed) := rounds[|rounds| - 1];
      RelationKept(sid, sender, receiver, seed, s', r');
      (RefreshedSender(sid, sender, receiver, seed, s'), RefreshedReceiver(sid, sender, receiver, seed, r'))
  }

  method Expand(sid: Bytes, i: nat, sender: nat, receiver: nat, seed: Digest) returns (r0: Digest, r1: Digest, b: bool)
    ensures r0 == R0(sid, i, sender, receiver, seed)
    ensures r1 == R1(sid, i, sender, receiver, seed)
    ensures b == Flip(sid, i, sender, receiver, seed)
  {
    hide TaggedHash;
    r0 := HashComponents(TAG_REFRESH_FAST_R0, Salts(sid, i, sender, receiver, seed));
    r1 := HashComponents(TAG_REFRESH_FAST_R1, Salts(sid, i, sender, receiver, seed));
    var h := HashComponents(TAG_REFRESH_FAST_B, Salts(sid, i, sender, receiver, seed));
    b := h[0] as nat % 2 == 1;
  }

  /** The sender's update of column i, in place. */
  method UpdateSender(sid: Bytes, me: nat, other: nat, seed: Digest, i: nat, correlation: array<bool>, seeds: array<Digest>)
    requires correlation.Length == seeds.Length == KAPPA && i < KAPPA
    modifies correlation, seeds
    ensures correlation[..] == old(correlation[..])[i := old(correlation[i]) != Flip(sid, i, me, other, seed)]
    ensures seeds[..] == old(seeds[..])[i := NewSenderSeed(old(seeds[i]), old(correlation[i]) != Flip(sid, i, me, other, seed),
                                                           R0(sid, i, me, other, seed), R1(sid, i, me, other, seed))]
  {
    hide R0, R1, Flip, Xor;
    var r0, r1, b := Expand(sid, i, me, other, seed);
    var bit := correlation[i] != b;
    var x := XorDigests(seeds[i], if bit then r1 else r0);
    correlation[i] := bit;
    seeds[i] := x;
  }

  /** The receiver's update of column i, in place. */
  method UpdateReceiver(sid: Bytes, me: nat, other: nat, seed: Digest, i: nat, seeds0: array<Digest>, seeds1: array<Digest>)
    requires seeds0.Length == seeds1.Length == KAPPA && i < KAPPA && seeds0 != seeds1
    modifies seeds0, seeds1
    ensures seeds0[..] == old(seeds0[..])[i := NewSeed0(old(seeds0[i]), old(seeds1[i]), Flip(sid, i, other, me, seed),
                                                        R0(sid, i, other, me, seed))]
    ensures seeds1[..] == old(seeds1[..])[i := NewSeed1(old(seeds0[i]), old(seeds1[i]), Flip(sid, i, other, me, seed),
                                                        R1(sid, i, other, me, seed))]
  {
    hide R0, R1, Flip, Xor;
    var r0, r1, b := Expand(sid, i, other, me, seed);
    var x0 := XorDigests(if b then seeds1[i] else seeds0[i], r0);
    var x1 := XorDigests(if b then seeds0[i] else seeds1[i], r1);
    seeds0[i] := x0;
    seeds1[i] := x1;
  }

  /** The first i columns of one of the vectors hold their new values, the others their old ones. */
  predicate Upto<T(==)>(now: seq<T>, before: seq<T>, after: seq<T>, i: nat) {
    && |now| == |before| == |after| == KAPPA
    && (forall k :: 0 <= k < i && k < KAPPA ==> now[k] == after[k])
    && (forall k :: i <= k < KAPPA ==> now[k] == before[k])
  }

  lemma UptoStart<T>(before: seq<T>, after: seq<T>)
    requires |before| == |after| == KAPPA
    ensures Upto(before, before, after, 0)
  {}

  lemma UptoStep<T>(now: seq<T>, before: seq<T>, after: seq<T>, i: nat)
    requires Upto(now, before, after, i) && i < KAPPA
    ensures |now| == |before| == |after| == KAPPA && now[i] == before[i]
    ensures Upto(now[i := after[i]], before, after, i + 1)
  {}

  lemma UptoEnd<T>(now: seq<T>, before: seq<T>, after: seq<T>)
    requires Upto(now, before, after, KAPPA)
    ensures now == after
  {}

  /** The sender's half of the loop over the columns, in place. */
  method RefreshSender(sid: Bytes, me: nat, other: nat, seed: Digest, s: OteSender, i: nat,
                       correlation: array<bool>, seeds: array<Digest>)
    requires SenderSized(s) && i < KAPPA
    requires Upto(correlation[..], s.correlation, RefreshedSender(sid, me, other, seed, s).correlation, i)
    requires Upto(seeds[..], s.seeds, RefreshedSender(sid, me, other, seed, s).seeds, i)
    modifies correlation, seeds
    ensures Upto(correlation[..], s.correlation, RefreshedSender(sid, me, other, seed, s).correlation, i + 1)
    ensures Upto(seeds[..], s.seeds, RefreshedSender(sid, me, other, seed, s).seeds, i + 1)
  {
    hide R0, R1, Flip, NewSenderSeed, Upto, RefreshedSender;
    ghost var t := RefreshedSender(sid, me, other, seed, s);
    UptoStep(correlation[..], s.correlation, t.correlation, i);
    UptoStep(seeds[..], s.seeds, t.seeds, i);
    SenderEntry(sid, me, other, seed, s, i);
    UpdateSender(sid, me, other, seed, i, correlation, seeds);
  }

  /** The receiver's half. */
  method RefreshReceiver(sid: Bytes, me: nat, other: nat, seed: Digest, r: OteReceiver, i: nat,
                         seeds0: array<Digest>, seeds1: array<Digest>)
    requires ReceiverSized(r) && i < KAPPA && seeds0 != seeds1
    requires Upto(seeds0[..], r.seeds0, RefreshedReceiver(sid, other, me, seed, r).seeds0, i)
    requires Upto(seeds1[..], r.seeds1, RefreshedReceiver(sid, other, me, seed, r).seeds1, i)
    modifies seeds0, seeds1
    ensures Upto(seeds0[..], r.seeds0, RefreshedReceiver(sid, other, me, seed, r).seeds0, i + 1)
    ensures Upto(seeds1[..], r.seeds1, RefreshedReceiver(sid, other, me, seed, r).seeds1, i + 1)
  {
    hide R0, R1, Flip, NewSeed0, NewSeed1, Upto, RefreshedReceiver;
    ghost var t := RefreshedReceiver(sid, other, me, seed, r);
    UptoStep(seeds0[..], r.seeds0, t.seeds0, i);
    UptoStep(seeds1[..], r.seeds1, t.seeds1, i);
    ReceiverEntry(sid, me, other, seed, r, i);
    UpdateReceiver(sid, me, other, seed, i, seeds0, seeds1);
  }

  /** The loop over the columns, on copies of the two halves a party keeps with another. */
  method RefreshOt(sid: Bytes, me: nat, other: nat, seed: Digest, s: OteSender, r: OteReceiver)
    returns (s': OteSender, r': OteReceiver)
    requires SenderSized(s) && ReceiverSized(r)
    ensures s' == RefreshedSender(sid, me, other, seed, s)
    ensures r' == RefreshedReceiver(sid, other, me, seed, r)
  {
    hide RefreshedSender, RefreshedReceiver, Upto;
    var correlation := new bool[KAPPA](i requires 0 <= i < KAPPA => s.correlation[i]);
    var seeds := new Digest[KAPPA](i requires 0 <= i < KAPPA => s.seeds[i]);
    var seeds0 := new Digest[KAPPA](i requires 0 <= i < KAPPA => r.seeds0[i]);
    var seeds1 := new Digest[KAPPA](i requires 0 <= i < KAPPA => r.seeds1[i]);
    ghost var ts, tr := RefreshedSender(sid, me, other, seed, s), RefreshedReceiver(sid, other, me, seed, r);
    assert correlation[..] == s.correlation && seeds[..] == s.seeds;
    assert seeds0[..] == r.seeds0 && seeds1[..] == r.seeds1;
    RefreshedSizes(sid, me, other, seed, s, r);
    UptoStart(s.correlation, ts.correlation);
    UptoStart(s.seeds, ts.seeds);
    UptoStart(r.seeds0, tr.seeds0);
    UptoStart(r.seeds1, tr.seeds1);
    for i := 0 to KAPPA
      invariant Upto(correlation[..], s.correlation, ts.correlation, i) && Upto(seeds[..], s.seeds, ts.seeds, i)
      invariant Upto(seeds0[..], r.seeds0, tr.seeds0, i) && Upto(seeds1[..], r.seeds1, tr.seeds1, i)
    {
      RefreshSender(sid, me, other, seed, s, i, correlation, seeds);
      RefreshReceiver(sid, me, other, seed, r, i, seeds0, seeds1);
    }
    UptoEnd(correlation[..], s.correlation, ts.correlation);
    UptoEnd(seeds[..], s.seeds, ts.seeds);
    UptoEnd(seeds0[..], r.seeds0, tr.seeds0);
    UptoEnd(seeds1[..], r.seeds1, tr.seeds1);
    s', r' := OteSender(correlation[..], seeds[..]), OteReceiver(seeds0[..], seeds1[..]);
  }

  lemma RefreshedSizes(sid: Bytes, me: nat, other: nat, seed: Digest, s: OteSender, r: OteReceiver)
    requires SenderSized(s) && ReceiverSized(r)
    ensures SenderSized(RefreshedSender(sid, me, other, seed, s)) && ReceiverSized(RefreshedReceiver(sid, other, me, seed, r))
  {
    hide R0, R1, Flip, NewSenderSeed, NewSeed0, NewSeed1;
  }

  lemma SenderEntry(sid: Bytes, me: nat, other: nat, seed: Digest, s: OteSender, i: nat)
    requires SenderSized(s) && i < KAPPA
    ensures var t := RefreshedSender(sid, me, other, seed, s);
            && |t.correlation| == |t.seeds| == KAPPA
            && t.correlation[i] == (s.correlation[i] != Flip(sid, i, me, other, seed))
            && t.seeds[i] == NewSenderSeed(s.seeds[i], s.correlation[i] != Flip(sid, i, me, other, seed),
                                           R0(sid, i, me, other, seed), R1(sid, i, me, other, seed))
  {
    hide R0, R1, Flip, NewSenderSeed;
  }

  lemma ReceiverEntry(sid: Bytes, me: nat, other: nat, seed: Digest, r: OteReceiver, i: nat)
    requires ReceiverSized(r) && i < KAPPA
    ensures var t := RefreshedReceiver(sid, other, me, seed, r);
            && |t.seeds0| == |t.seeds1| == KAPPA
            && t.seeds0[i] == NewSeed0(r.seeds0[i], r.seeds1[i], Flip(sid, i, other, me, seed), R0(sid, i, other, me, seed))
            && t.seeds1[i] == NewSeed1(r.seeds0[i], r.seeds1[i], Flip(sid, i, other, me, seed), R1(sid, i, other, me, seed))
  {
    hide R0, R1, Flip, NewSeed0, NewSeed1;
  }

  // The multiplication data in the fast refresh

  predicate MulSized(m: MulMaps) {
    && (forall j <- m.0 :: SenderSized(m.0[j].ote))
    && (forall j <- m.1 :: ReceiverSized(m.1[j].ote))
  }

  function NewSender(sid: Bytes, me: nat, pair: SeedPair, s: MulSender): MulSender
    requires SenderSized(s.ote)
  {
    MulSender(s.gadget, RefreshedSender(sid, me, pair.counterparty, pair.seed, s.ote))
  }

  function NewReceiver(sid: Bytes, me: nat, pair: SeedPair, r: MulReceiver): MulReceiver
    requires ReceiverSized(r.ote)
  {
    MulReceiver(r.gadget, RefreshedReceiver(sid, pair.counterparty, me, pair.seed, r.ote))
  }

  function FastMul(sid: Bytes, me: nat, maps: MulMaps, pairs: seq<SeedPair>): Result<MulMaps, AbortReason>
    requires MulSized(maps)
  {
    if |pairs| == 0 then Ok((map[], map[]))
    else
      match FastMul(sid, me, maps, pairs[..|pairs| - 1])
      case Err(e) => Err(e)
      case Ok((senders, receivers)) =>
        var pair := pairs[|pairs| - 1];
        var j := pair.counterparty;
        if j !in maps.0 || j !in maps.1 then Err(MissingMulState(j))
        else Ok((senders[j := NewSender(sid, me, pair, maps.0[j])], receivers[j := NewReceiver(sid, me, pair, maps.1[j])]))
  }

  lemma {:induction false} FastMulErr(sid: Bytes, me: nat, maps: MulMaps, pairs: seq<SeedPair>, n: nat)
    requires MulSized(maps) && n <= |pairs| && FastMul(sid, me, maps, pairs[..n]).Err?
    ensures FastMul(sid, me, maps, pairs) == FastMul(sid, me, maps, pairs[..n])
    decreases |pairs| - n
  {
    hide NewSender, NewReceiver;
    if n == |pairs| {
      assert pairs[..n] == pairs;
    } else {
      assert pairs[..n + 1][..n] == pairs[..n];
      FastMulErr(sid, me, maps, pairs, n + 1);
    }
  }

  method RefreshMul(sid: Bytes, me: nat, maps: MulMaps, pairs: seq<SeedPair>) returns (r: Result<MulMaps, AbortReason>)
    requires MulSized(maps)
    ensures r == FastMul(sid, me, maps, pairs)
  {
    hide RefreshedSender, RefreshedReceiver, SenderSized, ReceiverSized;
    var senders: map<nat, MulSender>, receivers: map<nat, MulReceiver> := map[], map[];
    for i := 0 to |pairs|
      invariant FastMul(sid, me, maps, pairs[..i]) == Ok((senders, receivers))
    {
      var pair := pairs[i];
      var j := pair.counterparty;
      assert pairs[..i + 1][..i] == pairs[..i];
      if j !in maps.0 || j !in maps.1 {
        FastMulErr(sid, me, maps, pairs, i + 1);
        return Err(MissingMulState(j));
      }
      var s, t := maps.0[j], maps.1[j];
      var s', t' := RefreshOt(sid, me, j, pair.seed, s.ote, t.ote);
      senders, receivers := senders[j := MulSender(s.gadget, s')], receivers[j := MulReceiver(t.gadget, t')];
    }
    assert pairs[..|pairs|] == pairs;
    r := Ok((senders, receivers));
  }

  // Phase 4

  /** The refreshed party: new share, seeds and multiplication data, everything public as before. */
  function Refreshed(party: Party, sid: Bytes, correction: Scalar, seeds: seq<SeedPair>, maps: MulMaps): Result<Party, AbortReason> {
    var share := Add(party.polyPoint, correction);
    if TrivialShare(share) then Err(TrivialKeyShare)
    else Ok(Party(party.parameters, party.index, sid, share, party.pk, seeds, maps.0, maps.1,
                  DerivData(party.derivation.depth, party.derivation.childNumber, party.derivation.parentFingerprint,
                            share, party.pk, party.derivation.chainCode)))
  }

  /** The corrections must share zero. */
  function CheckCorrections(party: Party, sid: Bytes, pcs: seq<ProofCommitment>): Result<(), AbortReason>
    requires ValidParameters(party.parameters)
  {
    match Step5Result(party.parameters, party.index, sid, pcs)
    case Err(e) => Err(e)
    case Ok((pk, _)) => if pk != IDENTITY then Err(PolynomialInconsistency) else Ok(())
  }

  function FastReason(party: Party, sid: Bytes, correction: Scalar, pcs: seq<ProofCommitment>,
                      kept: map<nat, Digest>, messages2: seq<Routed<Digest>>, messages3: seq<Routed<Opening>>)
    : Result<Party, AbortReason>
    requires ValidParameters(party.parameters) && MulSized((party.mulSenders, party.mulReceivers))
  {
    match CheckCorrections(party, sid, pcs)
    case Err(e) => Err(e)
    case Ok(_) =>
      match ZeroBlock(party.index, kept, messages2, messages3)
      case Err(e) => Err(e)
      case Ok(seeds) =>
        match FastMul(sid, party.index, (party.mulSenders, party.mulReceivers), seeds)
        case Err(e) => Err(e)
        case Ok(maps) => Refreshed(party, sid, correction, seeds, maps)
  }

  function CompleteReason(party: Party, sid: Bytes, correction: Scalar, pcs: seq<ProofCommitment>,
                          zeroKept: map<nat, Digest>, zero2: seq<Routed<Digest>>, zero3: seq<Routed<Opening>>,
                          mulKept: map<nat, MulInitKept>, mulMessages: seq<Routed<MulInitMessage>>)
    : Result<Party, AbortReason>
    requires ValidParameters(party.parameters)
  {
    match CheckCorrections(party, sid, pcs)
    case Err(e) => Err(e)
    case Ok(_) =>
      match ZeroBlock(party.index, zeroKept, zero2, zero3)
      case Err(e) => Err(e)
      case Ok(seeds) =>
        match MulBlock(party.index, sid, mulKept, mulMessages)
        case Err(e) => Err(e)
        case Ok(maps) => Refreshed(party, sid, correction, seeds, maps)
  }

  /** A party after its secrets have been wiped; only public values are left. */
  function Wiped(party: Party): Party {
    Party(party.parameters, party.index, [], 0, party.pk, [], map[], map[],
          DerivData(0, 0, ToBe(0, FINGERPRINT_BYTES), 0, party.derivation.pk, Zeros()))
  }

  /** The party object that a refresh replaces. */
  class PartyCell {
    var party: Party

    constructor (p: Party)
      ensures party == p
    {
      party := p;
    }

    method CheckStep5(sid: Bytes, pcs: seq<ProofCommitment>) returns (r: Result<(), AbortReason>)
      requires ValidParameters(party.parameters)
      ensures r == CheckCorrections(party, sid, pcs)
    {
      hide Step5Result;
      var key := Step5(party.parameters, party.index, sid, pcs);
      if key.Err? {
        return Err(key.error);
      }
      if key.value.0 != IDENTITY {
        return Err(PolynomialInconsistency);
      }
      r := Ok(());
    }

    /** Phase 4 of the fast refresh: the old secrets are wiped exactly on success. */
    method RefreshPhase4(sid: Bytes, correction: Scalar, pcs: seq<ProofCommitment>,
                         kept: map<nat, Digest>, messages2: seq<Routed<Digest>>, messages3: seq<Routed<Opening>>)
      returns (r: Result<Party, Abort>)
      requires ValidParameters(party.parameters) && MulSized((party.mulSenders, party.mulReceivers))
      modifies this
      ensures match FastReason(old(party), sid, correction, pcs, kept, messages2, messages3)
              case Err(e) => r == Err(Abort(old(party.index), Recoverable, e)) && party == old(party)
              case Ok(p) => r == Ok(p) && party == Wiped(old(party))
    {
      hide CheckCorrections, ZeroBlock, FastMul;
      var checked := CheckStep5(sid, pcs);
      if checked.Err? {
        return Err(AbortRecoverable(party.index, checked.error));
      }
      var seeds := InitZeroShares(party.index, kept, messages2, messages3);
      if seeds.Err? {
        return Err(AbortRecoverable(party.index, seeds.error));
      }
      var maps := RefreshMul(sid, party.index, (party.mulSenders, party.mulReceivers), seeds.value);
      if maps.Err? {
        return Err(AbortRecoverable(party.index, maps.error));
      }
      r := Replace(sid, correction, seeds.value, maps.value);
    }

    /** Phase 4 of the complete refresh. */
    method RefreshCompletePhase4(sid: Bytes, correction: Scalar, pcs: seq<ProofCommitment>,
                                 zeroKept: map<nat, Digest>, zero2: seq<Routed<Digest>>, zero3: seq<Routed<Opening>>,
                                 mulKept: map<nat, MulInitKept>, mulMessages: seq<Routed<MulInitMessage>>)
      returns (r: Result<Party, Abort>)
      requires ValidParameters(party.parameters)
      modifies this
      ensures match CompleteReason(old(party), sid, correction, pcs, zeroKept, zero2, zero3, mulKept, mulMessages)
              case Err(e) => r == Err(Abort(old(party.index), Recoverable, e)) && party == old(party)
              case Ok(p) => r == Ok(p) && party == Wiped(old(party))
    {
      hide CheckCorrections, ZeroBlock, MulBlock;
      var checked := CheckStep5(sid, pcs);
      if checked.Err? {
        return Err(AbortRecoverable(party.index, checked.error));
      }
      var seeds := InitZeroShares(party.index, zeroKept, zero2, zero3);
      if seeds.Err? {
        return Err(AbortRecoverable(party.index, seeds.error));
      }
      var maps := InitMultiplication(party.index, sid, mulKept, mulMessages);
      if maps.Err? {
        return Err(AbortRecoverable(party.index, maps.error));
      }
      r := Replace(sid, correction, seeds.value, maps.value);
    }

    /** The end of both: the new party, and the wiping of the old one. */
    method Replace(sid: Bytes, correction: Scalar, seeds: seq<SeedPair>, maps: MulMaps) returns (r: Result<Party, Abort>)
      modifies this
      ensures match Refreshed(old(party), sid, correction, seeds, maps)
              case Err(e) => r == Err(Abort(old(party.index), Recoverable, e)) && party == old(party)
              case Ok(p) => r == Ok(p) && party == Wiped(old(party))
    {
      var refreshed := Refreshed(party, sid, correction, seeds, maps);
      match refreshed {
        case Err(e) => r := Err(AbortRecoverable(party.index, e));
        case Ok(p) =>
          party := Wiped(party);
          r := Ok(p);
      }
    }
  }
}
