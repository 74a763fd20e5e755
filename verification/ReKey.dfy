/** Splitting an existing secret key by a trusted dealer. */
module ReKey {
  import opened Scalars
  import opened Sums
  import opened Shamir
  import opened OtConstants
  import opened Hashes
  import opened Curve
  import opened ZeroShares
  import opened OtExtension
  import opened Multiplication
  import opened MulInit
  import opened Parties
  import opened KeyInit
  import opened Dkg
  import opened Compatibility

  // Zero shares

  /** The seeds the dealer draws, by lower and higher index. */
  type SeedDraws = (nat, nat) -> Digest

  /** Row l - 1 holds the seeds of the pairs (l, l + 1), ..., (l, n). */
  predicate Triangular(seeds: seq<seq<Digest>>, n: nat, draws: SeedDraws) {
    && |seeds| == (if n == 0 then 0 else n - 1)
    && forall k :: 0 <= k < |seeds| ==> TriangularRow(seeds[k], k + 1, n, draws)
  }

  predicate TriangularRow(row: seq<Digest>, l: nat, n: nat, draws: SeedDraws)
    requires l <= n
  {
    |row| == n - l && forall k :: 0 <= k < n - l ==> row[k] == draws(l, l + k + 1)
  }

  method DrawSeeds(n: nat, draws: SeedDraws) returns (seeds: seq<seq<Digest>>)
    requires n > 0
    ensures Triangular(seeds, n, draws)
  {
    seeds := [];
    for l := 1 to n
      invariant |seeds| == l - 1
      invariant forall k :: 0 <= k < |seeds| ==> TriangularRow(seeds[k], k + 1, n, draws)
    {
      var row: seq<Digest> := [];
      for h := l + 1 to n + 1
        invariant |row| == h - l - 1
        invariant forall k :: 0 <= k < |row| ==> row[k] == draws(l, l + k + 1)
      {
        row := row + [draws(l, h)];
      }
      seeds := seeds + [row];
    }
  }

  /** The same table by unordered pair. */
  ghost function TableOf(draws: SeedDraws): SeedTable {
    (i: nat, j: nat) => if i <= j then draws(i, j) else draws(j, i)
  }

  /** The pairs of one party: first those in which it has the higher index, then the others. */
  method PartySeeds(seeds: seq<seq<Digest>>, n: nat, party: nat, ghost draws: SeedDraws) returns (pairs: seq<SeedPair>)
    requires Triangular(seeds, n, draws) && 0 < party <= n <= MAX_INDEX
    ensures HoldsSeeds(pairs, party, Span(1, n), TableOf(draws))
  {
    ghost var table := TableOf(draws);
    pairs := [];
    for other := 1 to party
      invariant |pairs| == other - 1
      invariant forall k :: 0 <= k < |pairs| ==> pairs[k] == SeedPair(false, k + 1, table(party, k + 1))
    {
      assert TriangularRow(seeds[other - 1], other, n, draws);
      pairs := pairs + [SeedPair(false, other, seeds[other - 1][party - other - 1])];
    }
    for other := party + 1 to n + 1
      invariant |pairs| == other - 2
      invariant forall k :: 0 <= k < party - 1 ==> pairs[k] == SeedPair(false, k + 1, table(party, k + 1))
      invariant forall k :: party - 1 <= k < |pairs| ==> pairs[k] == SeedPair(true, k + 2, table(party, k + 2))
    {
      assert TriangularRow(seeds[party - 1], party, n, draws);
      pairs := pairs + [SeedPair(true, other, seeds[party - 1][other - party - 1])];
    }
    SkipOne(pairs, n, party, table);
  }

  lemma SkipOne(pairs: seq<SeedPair>, n: nat, party: nat, table: SeedTable)
    requires 0 < party <= n <= MAX_INDEX && |pairs| == n - 1
    requires forall k :: 0 <= k < party - 1 ==> pairs[k] == SeedPair(false, k + 1, table(party, k + 1))
    requires forall k :: party - 1 <= k < n - 1 ==> pairs[k] == SeedPair(true, k + 2, table(party, k + 2))
    ensures HoldsSeeds(pairs, party, Span(1, n), table)
  {
    SpanIndices(1, n);
    var js := Counterparties(pairs);
    forall j ensures j in js <==> 0 < j <= n && j != party {
      if 0 < j < party { assert js[j - 1] == j; }
      if party < j <= n { assert js[j - 2] == j; }
    }
  }

  // Multiplication

  /** What the dealer draws for a pair (receiver, sender). */
  datatype PairDeal = PairDeal(seeds0: seq<Digest>, seeds1: seq<Digest>, correlation: seq<bool>, gadget: seq<Scalar>)

  predicate DealSized(d: PairDeal) {
    |d.seeds0| == |d.seeds1| == |d.correlation| == KAPPA && |d.gadget| == BATCH_SIZE
  }

  type SizedDeal = d: PairDeal | DealSized(d)
    witness PairDeal(seq(KAPPA, _ => Zeros()), seq(KAPPA, _ => Zeros()), seq(KAPPA, _ => false), seq(BATCH_SIZE, _ => 0))

  type Deals = (nat, nat) -> SizedDeal

  /** The loop that gives the sender, in every column, the seed its bit selects. */
  method SelectSeeds(d: PairDeal) returns (seeds: seq<Digest>)
    requires DealSized(d)
    ensures SeedRelation(OteSender(d.correlation, seeds), OteReceiver(d.seeds0, d.seeds1))
  {
    seeds := [];
    for i := 0 to KAPPA
      invariant |seeds| == i
      invariant forall k :: 0 <= k < i ==> seeds[k] == if d.correlation[k] then d.seeds1[k] else d.seeds0[k]
    {
      if d.correlation[i] {
        seeds := seeds + [d.seeds1[i]];
      } else {
        seeds := seeds + [d.seeds0[i]];
      }
    }
  }

  predicate Done(receiver: nat, sender: nat, r: nat, s: nat) {
    r < receiver || (r == receiver && s < sender)
  }

  type SenderMaps = seq<map<nat, MulSender>>
  type ReceiverMaps = seq<map<nat, MulReceiver>>

  /** The pairs dealt before (receiver, sender) in the order of the loops are there and fit. */
  ghost predicate Dealt(n: nat, receiver: nat, sender: nat, senders: SenderMaps, receivers: ReceiverMaps)
    requires |senders| == |receivers| == n
  {
    && (forall k, s :: 0 <= k < n ==>
          (s in receivers[k] <==> 0 < s <= n && s != k + 1 && Done(receiver, sender, k + 1, s)))
    && (forall k, r :: 0 <= k < n ==>
          (r in senders[k] <==> 0 < r <= n && r != k + 1 && Done(receiver, sender, r, k + 1)))
    && (forall k, l :: 0 <= k < n && 0 <= l < n && k + 1 in senders[l] && l + 1 in receivers[k] ==>
          MulPair(senders[l][k + 1], receivers[k][l + 1]))
  }

  method DealPair(n: nat, receiver: nat, sender: nat, deals: Deals, senders: SenderMaps, receivers: ReceiverMaps)
    returns (senders': SenderMaps, receivers': ReceiverMaps)
    requires |senders| == |receivers| == n && 0 < receiver <= n && 0 < sender <= n && receiver != sender
    requires Dealt(n, receiver, sender, senders, receivers)
    ensures |senders'| == |receivers'| == n
    ensures Dealt(n, receiver, sender + 1, senders', receivers')
  {
    hide SeedRelation;
    var d := deals(receiver, sender);
    var seeds := SelectSeeds(d);
    var mulReceiver := MulReceiver(d.gadget, OteReceiver(d.seeds0, d.seeds1));
    var mulSender := MulSender(d.gadget, OteSender(d.correlation, seeds));
    assert MulPair(mulSender, mulReceiver);
    hide MulPair;
    var receiverMap: map<nat, MulReceiver> := receivers[receiver - 1][sender := mulReceiver];
    var senderMap: map<nat, MulSender> := senders[sender - 1][receiver := mulSender];
    receivers' := receivers[receiver - 1 := receiverMap];
    senders' := senders[sender - 1 := senderMap];
  }

  lemma SkipSelf(n: nat, receiver: nat, senders: SenderMaps, receivers: ReceiverMaps)
    requires |senders| == |receivers| == n && Dealt(n, receiver, receiver, senders, receivers)
    ensures Dealt(n, receiver, receiver + 1, senders, receivers)
  {
    hide MulPair;
  }

  lemma NextReceiver(n: nat, receiver: nat, senders: SenderMaps, receivers: ReceiverMaps)
    requires |senders| == |receivers| == n && Dealt(n, receiver, n + 1, senders, receivers)
    ensures Dealt(n, receiver + 1, 1, senders, receivers)
  {
    hide MulPair;
  }

  method DealPairs(n: nat, deals: Deals) returns (senders: SenderMaps, receivers: ReceiverMaps)
    ensures |senders| == |receivers| == n && Dealt(n, n + 1, 1, senders, receivers)
  {
    senders, receivers := seq(n, _ => map[]), seq(n, _ => map[]);
    hide MulPair;
    assert Dealt(n, 1, 1, senders, receivers);
    for receiver := 1 to n + 1
      invariant |senders| == |receivers| == n
      invariant Dealt(n, receiver, 1, senders, receivers)
    {
      hide Dealt;
      for sender := 1 to n + 1
        invariant |senders| == |receivers| == n
        invariant Dealt(n, receiver, sender, senders, receivers)
      {
        if sender == receiver {
          SkipSelf(n, receiver, senders, receivers);
          continue;
        }
        senders, receivers := DealPair(n, receiver, sender, deals, senders, receivers);
      }
      NextReceiver(n, receiver, senders, receivers);
    }
  }

  // Key shares

  lemma PowerStep(acc: Scalar, power: Scalar, c: Scalar, x: Scalar, rest: Scalar)
    ensures Add(acc, Mul(power, Add(c, Mul(x, rest)))) == Add(Add(acc, Mul(c, power)), Mul(Mul(power, x), rest))
  {
    hide Mul;
    MulAdd(power, c, Mul(x, rest));
    MulComm(power, c);
    MulAssoc(power, x, rest);
  }

  /** The sum of coefficients times powers of the index. */
  method EvaluateByPowers(polynomial: Poly, x: Scalar) returns (polyPoint: Scalar)
    ensures polyPoint == Eval(polynomial, x)
  {
    hide Mul, Add;
    polyPoint := 0;
    var power: Scalar := 1;
    PowersStart(Eval(polynomial, x));
    assert polynomial[0..] == polynomial;
    for i := 0 to |polynomial|
      invariant Add(polyPoint, Mul(power, Eval(polynomial[i..], x))) == Eval(polynomial, x)
    {
      assert polynomial[i..][1..] == polynomial[i + 1..];
      PowerStep(polyPoint, power, polynomial[i], x, Eval(polynomial[i + 1..], x));
      polyPoint := Add(polyPoint, Mul(polynomial[i], power));
      power := Mul(power, x);
    }
    PowersEnd(polyPoint, power);
  }

  lemma PowersStart(v: Scalar)
    ensures Add(0, Mul(1, v)) == v
  {
    MulOne(v);
  }

  lemma PowersEnd(acc: Scalar, power: Scalar)
    ensures Add(acc, Mul(power, 0)) == acc
  {
    MulZero(power);
  }

  /** The group a dealer sets up. */
  ghost function GroupOf(params: Parameters, sid: Bytes, secretKey: Scalar, coefficients: seq<Scalar>,
                         chainCode: Digest, seeds: SeedDraws): Group {
    Group(params, [secretKey] + coefficients, TableOf(seeds), sid, 0, 0, ToBe(0, FINGERPRINT_BYTES), chainCode)
  }

  ghost function ByIndex(parties: seq<Party>): map<nat, Party> {
    if |parties| == 0 then map[] else ByIndex(parties[..|parties| - 1])[|parties| := parties[|parties| - 1]]
  }

  lemma {:induction false} ByIndexSpec(parties: seq<Party>)
    ensures forall i :: i in ByIndex(parties) <==> 0 < i <= |parties|
    ensures forall i <- ByIndex(parties) :: ByIndex(parties)[i] == parties[i - 1]
  {
    if |parties| > 0 { ByIndexSpec(parties[..|parties| - 1]); }
  }

  function SharePoints(parties: seq<Party>): map<nat, Point> {
    if |parties| == 0 then map[]
    else SharePoints(parties[..|parties| - 1])[|parties| := GTimes(parties[|parties| - 1].polyPoint)]
  }

  /** `re_key`: for every secret key and all draws, the parties that are dealt fit together around
      that key. The coefficients, seeds, multiplication data and, when none is given, the chain code
      are drawn by the caller. */
  method Deal(params: Parameters, sid: Bytes, secretKey: Scalar, coefficients: seq<Scalar>, chainCode: Digest,
              seeds: SeedDraws, deals: Deals) returns (parties: seq<Party>, package: PublicKeyPackage)
    requires ValidParameters(params) && |coefficients| == params.threshold - 1
    ensures |parties| == params.shareCount
    ensures Compatible(ByIndex(parties), GroupOf(params, sid, secretKey, coefficients, chainCode, seeds))
    ensures Secret(GroupOf(params, sid, secretKey, coefficients, chainCode, seeds)) == secretKey
    ensures package == PublicKeyPackage(GTimes(secretKey), SharePoints(parties), params)
  {
    var n := params.shareCount;
    var pk := GTimes(secretKey);
    var polynomial := [secretKey] + coefficients;
    EvalAtZero(polynomial);
    ghost var g := GroupOf(params, sid, secretKey, coefficients, chainCode, seeds);
    hide Eval, Triangular, HoldsSeeds, Dealt, Reduce, Others, MulPair, Span;
    var commonSeeds := DrawSeeds(n, seeds);
    var senders, receivers := DealPairs(n, deals);
    DealtKeys(n, senders, receivers);
    parties := [];
    var shares: map<nat, Point> := map[];
    for k := 0 to n
      invariant |parties| == k
      invariant forall l :: 0 <= l < k ==> PartyDealt(parties[l], l, g, senders, receivers)
      invariant shares == SharePoints(parties)
    {
      var zeroShare := PartySeeds(commonSeeds, n, k + 1, seeds);
      var polyPoint := EvaluateByPowers(polynomial, Reduce(k + 1));
      var derivation := DerivData(0, 0, ToBe(0, FINGERPRINT_BYTES), polyPoint, pk, chainCode);
      var party := Party(params, k + 1, sid, polyPoint, pk, zeroShare, senders[k], receivers[k], derivation);
      assert PartyDealt(party, k, g, senders, receivers);
      hide PartyDealt;
      parties, shares := parties + [party], shares[k + 1 := GTimes(polyPoint)];
    }
    package := PublicKeyPackage(pk, shares, params);
    AllFit(parties, g, senders, receivers);
  }

  ghost predicate PartyDealt(party: Party, k: nat, g: Group, senders: SenderMaps, receivers: ReceiverMaps)
    requires k < |senders| == |receivers|
  {
    PartyFits(party, k + 1, g) && party.mulSenders == senders[k] && party.mulReceivers == receivers[k]
  }

  lemma DealtKeys(n: nat, senders: SenderMaps, receivers: ReceiverMaps)
    requires |senders| == |receivers| == n && Dealt(n, n + 1, 1, senders, receivers)
    ensures forall k :: 0 <= k < n ==> senders[k].Keys == receivers[k].Keys == Others(k + 1, n)
  {
    hide MulPair;
    forall k | 0 <= k < n ensures senders[k].Keys == receivers[k].Keys == Others(k + 1, n) {
      forall s ensures s in receivers[k] <==> s in Others(k + 1, n) {}
      forall r ensures r in senders[k] <==> r in Others(k + 1, n) {}
    }
  }

  lemma AllFit(parties: seq<Party>, g: Group, senders: SenderMaps, receivers: ReceiverMaps)
    requires ValidParameters(g.parameters) && |g.poly| == g.parameters.threshold && Symmetric(g.seeds)
    requires |parties| == |senders| == |receivers| == g.parameters.shareCount
    requires Dealt(|parties|, |parties| + 1, 1, senders, receivers)
    requires forall k :: 0 <= k < |parties| ==> PartyDealt(parties[k], k, g, senders, receivers)
    ensures Compatible(ByIndex(parties), g)
  {
    hide PartyFits, MulPair, Symmetric, ByIndex;
    var m := ByIndex(parties);
    ByIndexSpec(parties);
    forall i, j | i in m && j in m && i != j
      ensures j in m[i].mulSenders && i in m[j].mulReceivers && MulPair(m[i].mulSenders[j], m[j].mulReceivers[i])
    {
      assert PartyDealt(parties[i - 1], i - 1, g, senders, receivers);
      assert PartyDealt(parties[j - 1], j - 1, g, senders, receivers);
      assert j in senders[i - 1] && i in receivers[j - 1];
    }
    forall i | i in m ensures PartyFits(m[i], i, g) {
      assert PartyDealt(parties[i - 1], i - 1, g, senders, receivers);
    }
  }
}
