/** The parts of phase 4 that key generation and refresh have in common: the seeds of the zero
    shares and the multiplication pairs, from messages grouped by sender. */
module KeyInit {
  import opened Scalars
  import opened Sums
  import opened Results
  import opened OtErrors
  import opened OtConstants
  import opened Bits
  import opened Hashes
  import opened Oracles
  import opened Curve
  import opened Proofs
  import opened BaseOt
  import opened ZeroShares
  import opened OtExtension
  import opened Multiplication
  import opened MulInit
  import opened Parties
  import opened Routing

  /** A revealed seed with the salt of its commitment. */
  datatype Opening = Opening(seed: Digest, salt: Bytes)

  /** All the other parties. */
  function Others(me: nat, n: nat): (s: set<nat>)
    ensures forall k :: k in s <==> 0 < k <= n && k != me
  {
    if n == 0 then {} else Others(me, n - 1) + (if n == me then {} else {n})
  }

  // Outgoing messages

  /** One message for every other party, in the order of the indices. */
  function Address<T>(me: nat, n: nat, bodies: map<nat, T>): (ms: seq<Routed<T>>) {
    if n == 0 then []
    else Address(me, n - 1, bodies) + (if n in bodies then [Routed(me, n, bodies[n])] else [])
  }

  lemma AddressNext<T>(me: nat, i: nat, bodies: map<nat, T>)
    requires i > 0
    ensures Address(me, 0, bodies) == []
    ensures Address(me, i, bodies)
         == Address(me, i - 1, bodies) + (if i in bodies then [Routed(me, i, bodies[i])] else [])
  {}

  /** Every body is sent exactly once, to the party it is for. */
  lemma {:induction false} AddressSpec<T>(me: nat, n: nat, bodies: map<nat, T>)
    ensures forall m <- Address(me, n, bodies) ::
      m.sender == me && 0 < m.receiver <= n && m.receiver in bodies && m.body == bodies[m.receiver]
    ensures forall k :: 0 < k <= n && k in bodies ==> Routed(me, k, bodies[k]) in Address(me, n, bodies)
    ensures forall i, j :: 0 <= i < j < |Address(me, n, bodies)| ==>
      Address(me, n, bodies)[i].receiver < Address(me, n, bodies)[j].receiver
  {
    if n > 0 {
      AddressSpec(me, n - 1, bodies);
      var ms := Address(me, n - 1, bodies);
      forall i | 0 <= i < |ms| ensures ms[i].receiver < n { assert ms[i] in ms; }
    }
  }

  function SeedCommitments(openings: map<nat, Opening>): map<nat, Digest> {
    map k | k in openings :: Commit(openings[k].seed, openings[k].salt)
  }

  function Seeds(openings: map<nat, Opening>): map<nat, Digest> {
    map k | k in openings :: openings[k].seed
  }

  /** The loop of phase 2: seeds are kept and their commitments sent. */
  method CommitSeeds(me: nat, n: nat, openings: map<nat, Opening>)
    returns (keep: map<nat, Opening>, transmit: seq<Routed<Digest>>)
    requires openings.Keys == Others(me, n)
    ensures keep == openings
    ensures transmit == Address(me, n, SeedCommitments(openings))
  {
    hide Commit, Address, Others;
    keep, transmit := map[], [];
    ghost var bodies := SeedCommitments(openings);
    assert bodies.Keys == openings.Keys && forall k <- bodies :: bodies[k] == Commit(openings[k].seed, openings[k].salt);
    AddressNext(me, 1, bodies);
    hide SeedCommitments;
    for i := 1 to n + 1
      invariant forall k :: k in keep <==> 0 < k < i && k != me
      invariant forall k <- keep :: k in openings && keep[k] == openings[k]
      invariant transmit == Address(me, i - 1, bodies)
    {
      AddressNext(me, i, bodies);
      if i == me {
        continue;
      }
      assert i in openings.Keys;
      keep := keep[i := openings[i]];
      transmit := transmit + [Routed(me, i, Commit(openings[i].seed, openings[i].salt))];
    }
    assert keep == openings;
  }

  /** The loop of phase 3: seeds are revealed and kept. */
  method RevealSeeds(me: nat, n: nat, kept: map<nat, Opening>)
    returns (keep: map<nat, Digest>, transmit: seq<Routed<Opening>>)
    requires kept.Keys == Others(me, n)
    ensures keep == Seeds(kept)
    ensures transmit == Address(me, n, kept)
  {
    hide Address, Others;
    keep, transmit := map[], [];
    AddressNext(me, 1, kept);
    for i := 1 to n + 1
      invariant forall k :: k in keep <==> 0 < k < i && k != me
      invariant forall k <- keep :: k in kept && keep[k] == kept[k].seed
      invariant transmit == Address(me, i - 1, kept)
    {
      AddressNext(me, i, kept);
      if i == me {
        continue;
      }
      assert i in kept.Keys;
      keep := keep[i := kept[i].seed];
      transmit := transmit + [Routed(me, i, kept[i])];
    }
    assert keep == Seeds(kept);
  }

  /** What one party draws for the pair with another: as base-OT sender, and as base-OT receiver. */
  datatype PairDraws = PairDraws(ot: OtSender, nonce: Scalar, seed: Digest, correlation: seq<bool>, draws: seq<Draws>)

  predicate PairSized(d: PairDraws) {
    |d.correlation| == |d.draws| == KAPPA
  }

  function PairMessage(me: nat, other: nat, sid: Bytes, d: PairDraws): MulInitMessage
    requires PairSized(d)
  {
    MulInitMessage(d.ot.proof, d.nonce, ReceiverProofs(d.seed, MulSid(other, me, sid), d.correlation, d.draws), d.seed)
  }

  function PairKept(d: PairDraws): MulInitKept {
    MulInitKept(d.ot, d.nonce, d.seed, d.correlation, seq(|d.draws|, i requires 0 <= i < |d.draws| => d.draws[i].r))
  }

  function PairMessages(me: nat, sid: Bytes, pairs: map<nat, PairDraws>): map<nat, MulInitMessage>
    requires forall k <- pairs :: PairSized(pairs[k])
  {
    map k | k in pairs :: PairMessage(me, k, sid, pairs[k])
  }

  function KeptPairs(pairs: map<nat, PairDraws>): map<nat, MulInitKept> {
    map k | k in pairs :: PairKept(pairs[k])
  }

  /** The state of the loop of phase 3 after the first i indices. */
  ghost predicate PairsStarted(me: nat, i: nat, sid: Bytes, pairs: map<nat, PairDraws>,
                               keep: map<nat, MulInitKept>, transmit: seq<Routed<MulInitMessage>>)
    requires forall k <- pairs :: PairSized(pairs[k])
  {
    && (forall k :: k in keep <==> 0 < k <= i && k in pairs)
    && (forall k <- keep :: keep[k] == PairKept(pairs[k]))
    && transmit == Address(me, i, PairMessages(me, sid, pairs))
  }

  /** The loop of phase 3 that starts the multiplication with every other party, in both roles. */
  method StartPairs(me: nat, n: nat, sid: Bytes, pairs: map<nat, PairDraws>)
    returns (keep: map<nat, MulInitKept>, transmit: seq<Routed<MulInitMessage>>)
    requires pairs.Keys == Others(me, n)
    requires forall k <- pairs :: PairSized(pairs[k])
    ensures keep == KeptPairs(pairs)
    ensures transmit == Address(me, n, PairMessages(me, sid, pairs))
  {
    keep, transmit := map[], [];
    hide PairKept, PairMessages;
    assert PairsStarted(me, 0, sid, pairs, keep, transmit);
    for i := 1 to n + 1
      invariant PairsStarted(me, i - 1, sid, pairs, keep, transmit)
    {
      hide *;
      if i == me {
        AddressNextPair(me, i, sid, pairs, keep, transmit);
        continue;
      }
      assert i in pairs.Keys;
      keep, transmit := StartPair(me, i, sid, pairs, keep, transmit);
    }
    assert keep == KeptPairs(pairs);
  }

  lemma AddressNextPair(me: nat, i: nat, sid: Bytes, pairs: map<nat, PairDraws>,
                        keep: map<nat, MulInitKept>, transmit: seq<Routed<MulInitMessage>>)
    requires forall k <- pairs :: PairSized(pairs[k])
    requires i > 0 && i !in pairs && PairsStarted(me, i - 1, sid, pairs, keep, transmit)
    ensures PairsStarted(me, i, sid, pairs, keep, transmit)
  {
    hide PairKept, PairMessage;
  }

  /** The loop body for party i. */
  method StartPair(me: nat, i: nat, sid: Bytes, pairs: map<nat, PairDraws>,
                   keep: map<nat, MulInitKept>, transmit: seq<Routed<MulInitMessage>>)
    returns (keep': map<nat, MulInitKept>, transmit': seq<Routed<MulInitMessage>>)
    requires forall k <- pairs :: PairSized(pairs[k])
    requires i > 0 && i in pairs && PairsStarted(me, i - 1, sid, pairs, keep, transmit)
    ensures PairsStarted(me, i, sid, pairs, keep', transmit')
  {
    hide MulSid, ReceiverProofs;
    var d := pairs[i];
    var started := RunReceiverPhase1Batch(d.seed, MulSid(i, me, sid), d.correlation, d.draws);
    var (rs, encs) := started.value;
    keep' := keep[i := MulInitKept(d.ot, d.nonce, d.seed, d.correlation, rs)];
    transmit' := transmit + [Routed(me, i, MulInitMessage(d.ot.proof, d.nonce, encs, d.seed))];
  }

  // Zero shares

  /** The seed pairs of the first `count` counterparties of the list. */
  function SeedPairs(me: nat, targets: seq<nat>, kept: map<nat, Digest>, received2: map<nat, Digest>,
                     received3: map<nat, Opening>, count: nat): Result<seq<SeedPair>, AbortReason>
    requires count <= |targets| && forall t <- targets :: t in kept
  {
    if count == 0 then Ok([])
    else
      match SeedPairs(me, targets, kept, received2, received3, count - 1)
      case Err(e) => Err(e)
      case Ok(pairs) =>
        var t := targets[count - 1];
        if t !in received2 || t !in received3 then Err(MissingMessageFromParty(t))
        else if !VerifyCommitment(received3[t].seed, received2[t], received3[t].salt) then Err(ZeroShareDecommitFailed(t))
        else Ok(pairs + [SeedPair(me <= t, t, Xor(kept[t], received3[t].seed))])
  }

  function ZeroBlock(me: nat, kept: map<nat, Digest>, messages2: seq<Routed<Digest>>, messages3: seq<Routed<Opening>>)
    : Result<seq<SeedPair>, AbortReason>
  {
    match Collect(me, kept.Keys, messages2)
    case Err(e) => Err(e)
    case Ok(received2) =>
      match Collect(me, kept.Keys, messages3)
      case Err(e) => Err(e)
      case Ok(received3) =>
        if |received2| != |kept| then Err(WrongMessageCount(|kept|, |received2|))
        else if |received3| != |kept| then Err(WrongMessageCount(|kept|, |received3|))
        else
          var targets := Ascending(kept.Keys, MAX_INDEX);
          SeedPairs(me, targets, kept, received2, received3, |targets|)
  }

  lemma {:induction false} SeedPairsErr(me: nat, targets: seq<nat>, kept: map<nat, Digest>, received2: map<nat, Digest>,
                                        received3: map<nat, Opening>, count: nat)
    requires count <= |targets| && forall t <- targets :: t in kept
    requires SeedPairs(me, targets, kept, received2, received3, count).Err?
    ensures SeedPairs(me, targets, kept, received2, received3, |targets|)
         == SeedPairs(me, targets, kept, received2, received3, count)
    decreases |targets| - count
  {
    if count < |targets| { SeedPairsErr(me, targets, kept, received2, received3, count + 1); }
  }

  method InitZeroShares(me: nat, kept: map<nat, Digest>, messages2: seq<Routed<Digest>>, messages3: seq<Routed<Opening>>)
    returns (r: Result<seq<SeedPair>, AbortReason>)
    ensures r == ZeroBlock(me, kept, messages2, messages3)
  {
    hide Collect, VerifyCommitment, Xor;
    var c2 := CollectBySender(me, kept.Keys, messages2);
    if c2.Err? {
      return Err(c2.error);
    }
    var c3 := CollectBySender(me, kept.Keys, messages3);
    if c3.Err? {
      return Err(c3.error);
    }
    var received2, received3 := c2.value, c3.value;
    if |received2| != |kept| {
      return Err(WrongMessageCount(|kept|, |received2|));
    }
    if |received3| != |kept| {
      return Err(WrongMessageCount(|kept|, |received3|));
    }
    r := CombineSeeds(me, kept, received2, received3);
  }

  /** The loop over the kept seeds. */
  method CombineSeeds(me: nat, kept: map<nat, Digest>, received2: map<nat, Digest>, received3: map<nat, Opening>)
    returns (r: Result<seq<SeedPair>, AbortReason>)
    ensures r == SeedPairs(me, Ascending(kept.Keys, MAX_INDEX), kept, received2, received3,
                           |Ascending(kept.Keys, MAX_INDEX)|)
  {
    hide VerifyCommitment, Xor, Ascending;
    AscendingMembers(kept.Keys, MAX_INDEX);
    var targets := Ascending(kept.Keys, MAX_INDEX);
    var pairs: seq<SeedPair> := [];
    for i := 0 to |targets|
      invariant SeedPairs(me, targets, kept, received2, received3, i) == Ok(pairs)
    {
      var t := targets[i];
      if t !in received2 || t !in received3 {
        SeedPairsErr(me, targets, kept, received2, received3, i + 1);
        return Err(MissingMessageFromParty(t));
      }
      if !VerifyCommitment(received3[t].seed, received2[t], received3[t].salt) {
        SeedPairsErr(me, targets, kept, received2, received3, i + 1);
        return Err(ZeroShareDecommitFailed(t));
      }
      var pair := GenerateSeedPair(me, t, kept[t], received3[t].seed);
      pairs := pairs + [pair];
    }
    r := Ok(pairs);
  }

  lemma {:induction false} SeedPairsSpec(me: nat, targets: seq<nat>, kept: map<nat, Digest>, received2: map<nat, Digest>,
                                         received3: map<nat, Opening>, count: nat)
    requires count <= |targets| && forall t <- targets :: t in kept && t in received2 && t in received3
    ensures SeedPairs(me, targets, kept, received2, received3, count).Ok?
       <==> forall i :: 0 <= i < count ==>
              VerifyCommitment(received3[targets[i]].seed, received2[targets[i]], received3[targets[i]].salt)
    ensures SeedPairs(me, targets, kept, received2, received3, count).Ok? ==>
      SeedPairs(me, targets, kept, received2, received3, count).value
        == seq(count, i requires 0 <= i < count =>
             SeedPair(me <= targets[i], targets[i], Xor(kept[targets[i]], received3[targets[i]].seed)))
    ensures SeedPairs(me, targets, kept, received2, received3, count).Err? ==>
      SeedPairs(me, targets, kept, received2, received3, count).error.ZeroShareDecommitFailed?
    decreases count
  {
    hide VerifyCommitment, Xor;
    if count > 0 { SeedPairsSpec(me, targets, kept, received2, received3, count - 1); }
  }

  /** After the routing and count checks no message can be missing. */
  lemma ZeroBlockNeverMissing(me: nat, kept: map<nat, Digest>, messages2: seq<Routed<Digest>>, messages3: seq<Routed<Opening>>)
    ensures var r := ZeroBlock(me, kept, messages2, messages3); r.Err? ==> !r.error.MissingMessageFromParty?
  {
    hide SeedPairs, VerifyCommitment;
    var c2, c3 := Collect(me, kept.Keys, messages2), Collect(me, kept.Keys, messages3);
    NoMissingInCollect(me, kept.Keys, messages2);
    NoMissingInCollect(me, kept.Keys, messages3);
    AscendingMembers(kept.Keys, MAX_INDEX);
    if c2.Ok? && c3.Ok? && |c2.value| == |kept| && |c3.value| == |kept| {
      assert |kept| == |kept.Keys|;
      SendersExact(me, kept.Keys, messages2);
      SendersExact(me, kept.Keys, messages3);
      var targets := Ascending(kept.Keys, MAX_INDEX);
      SeedPairsSpec(me, targets, kept, c2.value, c3.value, |targets|);
    }
  }

  lemma {:induction false} NoMissingInCollect<T>(me: nat, expected: set<nat>, messages: seq<Routed<T>>)
    ensures var r := Collect(me, expected, messages); r.Err? ==> !r.error.MissingMessageFromParty?
  {
    if |messages| > 0 { NoMissingInCollect(me, expected, messages[..|messages| - 1]); }
  }

  // Multiplication pairs

  datatype MulInitMessage = MulInitMessage(proof: DLogProof, nonce: Scalar, encs: seq<EncProof>, seed: Digest)

  datatype MulInitKept = MulInitKept(ot: OtSender, nonce: Scalar, seed: Digest, correlation: seq<bool>, rs: seq<Scalar>)

  /** The receiver's index comes first. */
  function MulSid(receiver: nat, sender: nat, sid: Bytes): Bytes {
    Ascii("Multiplication protocol") + ToBe(receiver, 1) + ToBe(sender, 1) + sid
  }

  type MulMaps = (map<nat, MulSender>, map<nat, MulReceiver>)

  function MulPairs(me: nat, sid: Bytes, targets: seq<nat>, kept: map<nat, MulInitKept>, received: map<nat, MulInitMessage>,
                    count: nat): Result<MulMaps, AbortReason>
    requires count <= |targets| && forall t <- targets :: t in kept
  {
    if count == 0 then Ok((map[], map[]))
    else
      match MulPairs(me, sid, targets, kept, received, count - 1)
      case Err(e) => Err(e)
      case Ok((senders, receivers)) =>
        var t := targets[count - 1];
        if t !in received then Err(MissingMessageFromParty(t))
        else
          var k, m := kept[t], received[t];
          match InitReceiver(k.ot, MulSid(me, t, sid), m.seed, m.encs, k.nonce)
          case Err(_) => Err(MultiplicationVerificationFailed(t))
          case Ok(receiver) =>
            match InitSender(MulSid(t, me, sid), k.correlation, k.rs, m.proof, m.nonce)
            case Err(_) => Err(MultiplicationVerificationFailed(t))
            case Ok(sender) => Ok((senders[t := sender], receivers[t := receiver]))
  }

  function MulBlock(me: nat, sid: Bytes, kept: map<nat, MulInitKept>, messages: seq<Routed<MulInitMessage>>)
    : Result<MulMaps, AbortReason>
  {
    match Collect(me, kept.Keys, messages)
    case Err(e) => Err(e)
    case Ok(received) =>
      if |received| != |kept| then Err(WrongMessageCount(|kept|, |received|))
      else
        var targets := Ascending(kept.Keys, MAX_INDEX);
        MulPairs(me, sid, targets, kept, received, |targets|)
  }

  lemma {:induction false} MulPairsErr(me: nat, sid: Bytes, targets: seq<nat>, kept: map<nat, MulInitKept>,
                                       received: map<nat, MulInitMessage>, count: nat)
    requires count <= |targets| && forall t <- targets :: t in kept
    requires MulPairs(me, sid, targets, kept, received, count).Err?
    ensures MulPairs(me, sid, targets, kept, received, |targets|) == MulPairs(me, sid, targets, kept, received, count)
    decreases |targets| - count
  {
    hide InitReceiver, InitSender, MulSid;
    if count < |targets| { MulPairsErr(me, sid, targets, kept, received, count + 1); }
  }

  method InitMultiplication(me: nat, sid: Bytes, kept: map<nat, MulInitKept>, messages: seq<Routed<MulInitMessage>>)
    returns (r: Result<MulMaps, AbortReason>)
    ensures r == MulBlock(me, sid, kept, messages)
  {
    hide Collect, InitReceiver, InitSender, MulSid, Ascending;
    var c := CollectBySender(me, kept.Keys, messages);
    if c.Err? {
      return Err(c.error);
    }
    var received := c.value;
    if |received| != |kept| {
      return Err(WrongMessageCount(|kept|, |received|));
    }
    AscendingMembers(kept.Keys, MAX_INDEX);
    var targets := Ascending(kept.Keys, MAX_INDEX);
    var senders: map<nat, MulSender>, receivers: map<nat, MulReceiver> := map[], map[];
    for i := 0 to |targets|
      invariant MulPairs(me, sid, targets, kept, received, i) == Ok((senders, receivers))
    {
      var t := targets[i];
      if t !in received {
        MulPairsErr(me, sid, targets, kept, received, i + 1);
        return Err(MissingMessageFromParty(t));
      }
      var k, m := kept[t], received[t];
      var receiver := RunInitReceiver(k.ot, MulSid(me, t, sid), m.seed, m.encs, k.nonce);
      if receiver.Err? {
        MulPairsErr(me, sid, targets, kept, received, i + 1);
        return Err(MultiplicationVerificationFailed(t));
      }
      var sender := RunInitSender(MulSid(t, me, sid), k.correlation, k.rs, m.proof, m.nonce);
      if sender.Err? {
        MulPairsErr(me, sid, targets, kept, received, i + 1);
        return Err(MultiplicationVerificationFailed(t));
      }
      senders, receivers := senders[t := sender.value], receivers[t := receiver.value];
    }
    r := Ok((senders, receivers));
  }

  /** Both halves kept with party t are the outcome of their initialisations. */
  predicate PairInitialised(me: nat, sid: Bytes, t: nat, k: MulInitKept, m: MulInitMessage, maps: MulMaps) {
    && t in maps.0 && t in maps.1
    && InitReceiver(k.ot, MulSid(me, t, sid), m.seed, m.encs, k.nonce) == Ok(maps.1[t])
    && InitSender(MulSid(t, me, sid), k.correlation, k.rs, m.proof, m.nonce) == Ok(maps.0[t])
  }

  predicate PairStarts(me: nat, sid: Bytes, t: nat, k: MulInitKept, m: MulInitMessage) {
    && InitReceiver(k.ot, MulSid(me, t, sid), m.seed, m.encs, k.nonce).Ok?
    && InitSender(MulSid(t, me, sid), k.correlation, k.rs, m.proof, m.nonce).Ok?
  }

  /** The block succeeds exactly when both initialisations do for every counterparty, and then holds
      their outcomes. */
  lemma {:induction false} MulPairsSpec(me: nat, sid: Bytes, targets: seq<nat>, kept: map<nat, MulInitKept>,
                                        received: map<nat, MulInitMessage>, count: nat)
    requires count <= |targets| && Distinct(targets)
    requires forall t <- targets :: t in kept && t in received
    ensures var r := MulPairs(me, sid, targets, kept, received, count);
            && (r.Err? ==> r.error.MultiplicationVerificationFailed?)
            && (r.Ok? <==> forall t <- targets[..count] :: PairStarts(me, sid, t, kept[t], received[t]))
            && (r.Ok? ==>
                  && (forall t :: t in r.value.0 <==> t in targets[..count])
                  && (forall t :: t in r.value.1 <==> t in targets[..count])
                  && forall t <- targets[..count] :: PairInitialised(me, sid, t, kept[t], received[t], r.value))
    decreases count
  {
    hide InitReceiver, InitSender, MulSid;
    if count > 0 {
      hide PairInitialised;
      MulPairsSpec(me, sid, targets, kept, received, count - 1);
      var t := targets[count - 1];
      assert targets[..count] == targets[..count - 1] + [t];
      assert t !in targets[..count - 1];
      var before, after := MulPairs(me, sid, targets, kept, received, count - 1), MulPairs(me, sid, targets, kept, received, count);
      if after.Ok? {
        PairAdded(me, sid, t, kept[t], received[t], before.value, after.value);
        forall u | u in targets[..count - 1] ensures PairInitialised(me, sid, u, kept[u], received[u], after.value) {
          PairStays(me, sid, u, t, kept[u], received[u], before.value, after.value);
        }
      }
    }
  }

  lemma PairAdded(me: nat, sid: Bytes, t: nat, k: MulInitKept, m: MulInitMessage, before: MulMaps, after: MulMaps)
    requires InitReceiver(k.ot, MulSid(me, t, sid), m.seed, m.encs, k.nonce).Ok?
    requires InitSender(MulSid(t, me, sid), k.correlation, k.rs, m.proof, m.nonce).Ok?
    requires after.0 == before.0[t := InitSender(MulSid(t, me, sid), k.correlation, k.rs, m.proof, m.nonce).value]
    requires after.1 == before.1[t := InitReceiver(k.ot, MulSid(me, t, sid), m.seed, m.encs, k.nonce).value]
    ensures PairInitialised(me, sid, t, k, m, after)
  {
    hide InitReceiver, InitSender, MulSid;
  }

  lemma PairStays(me: nat, sid: Bytes, u: nat, t: nat, k: MulInitKept, m: MulInitMessage, before: MulMaps, after: MulMaps)
    requires PairInitialised(me, sid, u, k, m, before) && u != t
    requires u in after.0 && u in after.1 && after.0[u] == before.0[u] && after.1[u] == before.1[u]
    ensures PairInitialised(me, sid, u, k, m, after)
  {
    hide InitReceiver, InitSender, MulSid;
  }

  lemma MulBlockNeverMissing(me: nat, sid: Bytes, kept: map<nat, MulInitKept>, messages: seq<Routed<MulInitMessage>>)
    ensures var r := MulBlock(me, sid, kept, messages); r.Err? ==> !r.error.MissingMessageFromParty?
  {
    hide MulPairs, PairInitialised;
    var c := Collect(me, kept.Keys, messages);
    NoMissingInCollect(me, kept.Keys, messages);
    AscendingMembers(kept.Keys, MAX_INDEX);
    if c.Ok? && |c.value| == |kept| {
      assert |kept| == |kept.Keys|;
      SendersExact(me, kept.Keys, messages);
      var targets := Ascending(kept.Keys, MAX_INDEX);
      MulPairsSpec(me, sid, targets, kept, c.value, |targets|);
    }
  }
}
