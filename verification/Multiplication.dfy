/** Two-party multiplication (Protocol 1 of DKLs19) on top of the OT extension. */
module Multiplication {
  import opened Scalars
  import opened Results
  import opened MulErrors
  import opened OtConstants
  import opened Hashes
  import opened Oracles
  import opened OtExtension
  import OtErrors
  import OtLoops

  const L := 2
  const OT_WIDTH := 2 * L

  datatype MulSender = MulSender(gadget: seq<Scalar>, ote: OteSender)

  datatype MulReceiver = MulReceiver(gadget: seq<Scalar>, ote: OteReceiver)

  datatype MulData = MulData(taus: Matrix, verifyR: Digest, verifyU: seq<Scalar>, gamma: seq<Scalar>)

  datatype MulKept = MulKept(b: Scalar, choice: seq<bool>, rows: seq<PrgOutput>, chiTilde: seq<Scalar>, chiHat: seq<Scalar>)

  // The public gadget

  function GadgetEntry(sid: Bytes, counter: Scalar): Scalar {
    TaggedScalar(TAG_MUL_GADGET, [sid, ScalarBytes(counter)])
  }

  function Gadget(sid: Bytes, nonce: Scalar, len: nat): (g: seq<Scalar>)
    ensures |g| == len
  {
    seq(len, j requires 0 <= j < len => GadgetEntry(sid, Add(nonce, Reduce(j + 1))))
  }

  lemma CounterStep(nonce: Scalar, j: nat)
    ensures Add(Add(nonce, Reduce(j)), 1) == Add(nonce, Reduce(j + 1))
  {
    ModAdd(j, 1);
    Small(1);
  }

  method ComputeGadget(sid: Bytes, nonce: Scalar) returns (g: seq<Scalar>)
    ensures g == Gadget(sid, nonce, BATCH_SIZE)
  {
    hide Add, Reduce, TaggedHash, ReduceBytes, ScalarBytes;
    g := [];
    var counter := nonce;
    CounterStart(nonce);
    for j := 0 to BATCH_SIZE
      invariant counter == Add(nonce, Reduce(j))
      invariant g == Gadget(sid, nonce, j)
    {
      CounterStep(nonce, j);
      counter := Add(counter, 1);
      var h := HashComponents(TAG_MUL_GADGET, [sid, ScalarBytes(counter)]);
      g := g + [ReduceBytes(h)];
    }
  }

  lemma CounterStart(nonce: Scalar)
    ensures Add(nonce, Reduce(0)) == nonce
  {
    Small(0);
  }

  // Inner products

  function Dot(g: seq<Scalar>, z: seq<Scalar>): Scalar
    requires |g| == |z|
  {
    if |g| == 0 then 0 else Add(Dot(g[..|g| - 1], z[..|g| - 1]), Mul(g[|g| - 1], z[|g| - 1]))
  }

  /** The sum of the selected entries. */
  function Selected(g: seq<Scalar>, choice: seq<bool>): Scalar
    requires |g| == |choice|
  {
    if |g| == 0 then 0
    else
      var b := Selected(g[..|g| - 1], choice[..|g| - 1]);
      if choice[|g| - 1] then Add(b, g[|g| - 1]) else b
  }

  /** Shares of `choice[j] * a` weighted by the gadget are shares of `b * a`. */
  lemma {:induction false} DotShares(g: seq<Scalar>, x: seq<Scalar>, y: seq<Scalar>, choice: seq<bool>, a: Scalar)
    requires |g| == |x| == |y| == |choice|
    requires forall j :: 0 <= j < |g| ==> Add(x[j], y[j]) == if choice[j] then a else 0
    ensures Add(Dot(g, x), Dot(g, y)) == Mul(a, Selected(g, choice))
  {
    hide Mul;
    if |g| == 0 {
      MulZero(a);
    } else {
      var n := |g| - 1;
      DotShares(g[..n], x[..n], y[..n], choice[..n], a);
      ShareStep(Dot(g[..n], x[..n]), Dot(g[..n], y[..n]), Selected(g[..n], choice[..n]), g[n], x[n], y[n], choice[n], a);
    }
  }

  lemma ShareStep(u: Scalar, v: Scalar, b: Scalar, g: Scalar, x: Scalar, y: Scalar, bit: bool, a: Scalar)
    requires Add(u, v) == Mul(a, b)
    requires Add(x, y) == if bit then a else 0
    ensures Add(Add(u, Mul(g, x)), Add(v, Mul(g, y))) == Mul(a, if bit then Add(b, g) else b)
  {
    hide Mul;
    MulAdd(g, x, y);
    MulComm(g, a);
    MulZero(g);
    MulAdd(a, b, g);
  }

  function Differences(g: seq<Scalar>, h: seq<Scalar>): (d: seq<Scalar>)
    requires |g| == |h|
    ensures |d| == |g|
  {
    seq(|g|, j requires 0 <= j < |g| => Sub(g[j], h[j]))
  }

  lemma {:induction false} DotDifference(g: seq<Scalar>, h: seq<Scalar>, z: seq<Scalar>)
    requires |g| == |h| == |z|
    ensures Dot(g, z) == Add(Dot(h, z), Dot(Differences(g, h), z))
    decreases |g|
  {
    hide Mul, Sub, Add, Differences;
    if |g| > 0 {
      var n := |g| - 1;
      DotDifference(g[..n], h[..n], z[..n]);
      DifferencesPrefix(g, h, n);
      DifferenceStep(g[n], h[n], z[n]);
      AddSwap(Dot(h[..n], z[..n]), Dot(Differences(g, h)[..n], z[..n]), Mul(h[n], z[n]), Mul(Sub(g[n], h[n]), z[n]));
    } else {
      AddZero();
    }
  }

  lemma AddZero()
    ensures Add(0, 0) == 0
  {}

  lemma DifferencesPrefix(g: seq<Scalar>, h: seq<Scalar>, n: nat)
    requires |g| == |h| && n < |g|
    ensures Differences(g, h)[..n] == Differences(g[..n], h[..n])
    ensures Differences(g, h)[n] == Sub(g[n], h[n])
  {
    hide Sub;
  }

  lemma DifferenceStep(g: Scalar, h: Scalar, z: Scalar)
    ensures Mul(g, z) == Add(Mul(h, z), Mul(Sub(g, h), z))
  {
    hide Mul;
    MulComm(g, z);
    MulComm(h, z);
    MulComm(Sub(g, h), z);
    MulSub(z, g, h);
  }

  lemma {:induction false} DotZero(g: seq<Scalar>, z: seq<Scalar>)
    requires |g| == |z| && forall j :: 0 <= j < |g| ==> g[j] == 0
    ensures Dot(g, z) == 0
  {
    if |g| > 0 {
      var n := |g| - 1;
      DotZero(g[..n], z[..n]);
      MulZero(z[n]);
    }
  }

  // The values both parties hash

  function OteSid(sid: Bytes): Bytes {
    Ascii("OT Extension protocol") + sid
  }

  function Transcript(data: OteData): Bytes {
    Concat(data.u) + data.verifyX + Concat(data.verifyT)
  }

  function ChiEntry(tag: Bytes, sid: Bytes, data: OteData, i: nat): Scalar {
    TaggedScalar(tag, [sid, ToBe(i, 1), Transcript(data)])
  }

  function ChiTilde(sid: Bytes, data: OteData): (chi: seq<Scalar>)
    ensures |chi| == L
  {
    seq(L, i requires 0 <= i < L => ChiEntry(TAG_MUL_CHI_TILDE, sid, data, i))
  }

  function ChiHat(sid: Bytes, data: OteData): (chi: seq<Scalar>)
    ensures |chi| == L
  {
    seq(L, i requires 0 <= i < L => ChiEntry(TAG_MUL_CHI_HAT, sid, data, i))
  }

  function EntryBytes(row: seq<Scalar>): Bytes {
    if |row| == 0 then [] else EntryBytes(row[..|row| - 1]) + ScalarBytes(row[|row| - 1])
  }

  function MatrixBytes(rows: Matrix): Bytes {
    if |rows| == 0 then [] else MatrixBytes(rows[..|rows| - 1]) + EntryBytes(rows[|rows| - 1])
  }

  function VerifyR(sid: Bytes, rows: Matrix): Digest {
    TaggedHash(TAG_MUL_VERIFY, [sid, MatrixBytes(rows)])
  }

  // The sender

  function Mix(chiTilde: Scalar, chiHat: Scalar, x: Scalar, y: Scalar): Scalar {
    Add(Mul(chiTilde, x), Mul(chiHat, y))
  }

  function MixRow(chiTilde: Scalar, chiHat: Scalar, x: seq<Scalar>, y: seq<Scalar>): (r: seq<Scalar>)
    requires |x| == |y|
    ensures |r| == |x|
  {
    seq(|x|, j requires 0 <= j < |x| => Mix(chiTilde, chiHat, x[j], y[j]))
  }

  /** One constant correlation vector for every pad, then one for every check value. */
  function Correlations(aTilde: seq<Scalar>, aHat: seq<Scalar>): (m: Matrix)
    requires |aTilde| == |aHat| == L
    ensures MatrixSized(m, OT_WIDTH)
  {
    CopyAll(aTilde) + CopyAll(aHat)
  }

  function CopyAll(a: seq<Scalar>): (m: Matrix)
    ensures MatrixSized(m, |a|)
  {
    seq(|a|, i requires 0 <= i < |a| => Copies(a[i]))
  }

  function Copies(a: Scalar): (r: seq<Scalar>)
    ensures |r| == BATCH_SIZE
  {
    seq(BATCH_SIZE, _ => a)
  }

  function SenderRows(chiTilde: seq<Scalar>, chiHat: seq<Scalar>, z: Matrix): (rows: Matrix)
    requires |chiTilde| == |chiHat| == L && MatrixSized(z, OT_WIDTH)
    ensures MatrixSized(rows, L)
  {
    seq(L, i requires 0 <= i < L => MixRow(chiTilde[i], chiHat[i], z[i], z[L + i]))
  }

  function Outputs(g: seq<Scalar>, z: Matrix): (out: seq<Scalar>)
    requires |g| == BATCH_SIZE && MatrixSized(z, OT_WIDTH)
    ensures |out| == L
  {
    seq(L, i requires 0 <= i < L => Dot(g, z[i]))
  }

  function SenderMessage(sid: Bytes, input: seq<Scalar>, aTilde: seq<Scalar>, aHat: seq<Scalar>,
                         data: OteData, z: Matrix, taus: Matrix): MulData
    requires |input| >= L && |aTilde| == |aHat| == L && MatrixSized(z, OT_WIDTH)
  {
    var chiTilde, chiHat := ChiTilde(sid, data), ChiHat(sid, data);
    MulData(taus,
            VerifyR(sid, SenderRows(chiTilde, chiHat, z)),
            seq(L, i requires 0 <= i < L => Mix(chiTilde[i], chiHat[i], aTilde[i], aHat[i])),
            Gammas(input, aTilde))
  }

  /** The differences between inputs and pads. */
  function Gammas(input: seq<Scalar>, aTilde: seq<Scalar>): (gamma: seq<Scalar>)
    requires |input| >= L && |aTilde| == L
    ensures |gamma| == L
  {
    seq(L, i requires 0 <= i < L => Sub(input[i], aTilde[i]))
  }

  function Run(s: MulSender, sid: Bytes, input: seq<Scalar>, aTilde: seq<Scalar>, aHat: seq<Scalar>, data: OteData)
    : (r: Result<(seq<Scalar>, MulData), ErrorMul>)
    requires |s.gadget| == BATCH_SIZE && |input| >= L && |aTilde| == |aHat| == L
    ensures r.Ok? ==> |r.value.0| == L
  {
    match SenderRun(s.ote, OteSid(sid), OT_WIDTH, Correlations(aTilde, aHat), data)
    case Err(e) => Err(FromOt(e))
    case Ok((z, taus)) => Ok((Outputs(s.gadget, z), SenderMessage(sid, input, aTilde, aHat, data, z, taus)))
  }

  // The receiver

  function RunPhase1(r: MulReceiver, sid: Bytes, choice: seq<bool>, noise: seq<bool>)
    : (result: Result<(Scalar, MulKept, OteData), ErrorMul>)
    requires |r.gadget| == |choice| == BATCH_SIZE
    ensures result.Ok? ==> KeptSized(result.value.1)
  {
    match ReceiverPhase1(r.ote, OteSid(sid), choice, noise)
    case Err(e) => Err(FromOt(e))
    case Ok((rows, data)) =>
      var b := Selected(r.gadget, choice);
      Ok((b, MulKept(b, choice, rows, ChiTilde(sid, data), ChiHat(sid, data)), data))
  }

  predicate KeptSized(kept: MulKept) {
    |kept.chiTilde| == |kept.chiHat| == L
  }

  function ExpectedEntry(chiTilde: Scalar, chiHat: Scalar, x: Scalar, y: Scalar, bit: bool, u: Scalar): Scalar {
    var entry := Sub(Neg(Mul(chiTilde, x)), Mul(chiHat, y));
    if bit then Add(entry, u) else entry
  }

  function ExpectedRow(chiTilde: Scalar, chiHat: Scalar, x: seq<Scalar>, y: seq<Scalar>, choice: seq<bool>, u: Scalar)
    : (r: seq<Scalar>)
    requires |x| == |y| == |choice|
    ensures |r| == |x|
  {
    seq(|x|, j requires 0 <= j < |x| => ExpectedEntry(chiTilde, chiHat, x[j], y[j], choice[j], u))
  }

  function ExpectedRows(kept: MulKept, z: Matrix, verifyU: seq<Scalar>): (rows: Matrix)
    requires KeptSized(kept) && |kept.choice| == BATCH_SIZE && MatrixSized(z, OT_WIDTH) && |verifyU| == L
    ensures MatrixSized(rows, L)
  {
    seq(L, i requires 0 <= i < L =>
      ExpectedRow(kept.chiTilde[i], kept.chiHat[i], z[i], z[L + i], kept.choice, verifyU[i]))
  }

  function Adjusted(b: Scalar, gamma: seq<Scalar>, out: seq<Scalar>): (r: seq<Scalar>)
    requires |gamma| == |out| == L
    ensures |r| == L
  {
    seq(L, i requires 0 <= i < L => Add(Mul(b, gamma[i]), out[i]))
  }

  function RunPhase2(r: MulReceiver, sid: Bytes, kept: MulKept, received: MulData): (result: Result<seq<Scalar>, ErrorMul>)
    requires |r.gadget| == BATCH_SIZE && KeptSized(kept)
    ensures result.Ok? ==> |result.value| == L
  {
    if |received.verifyU| != L || |received.gamma| != L then Err(ErrorMul.MalformedMessage)
    else
      match ReceiverPhase2(OteSid(sid), OT_WIDTH, kept.choice, kept.rows, received.taus)
      case Err(e) => Err(FromOt(e))
      case Ok(z) =>
        if received.verifyR != VerifyR(sid, ExpectedRows(kept, z, received.verifyU)) then Err(ErrorMul.ConsistencyFailure)
        else Ok(Adjusted(kept.b, received.gamma, Outputs(r.gadget, z)))
  }

  // Correctness of an honest run

  /** The check entry of the sender is the one the receiver expects. */
  lemma EntryMatches(ct: Scalar, ch: Scalar, x: Scalar, y: Scalar, x': Scalar, y': Scalar, bit: bool, a: Scalar, c: Scalar)
    requires Add(x, x') == if bit then a else 0
    requires Add(y, y') == if bit then c else 0
    ensures Mix(ct, ch, x, y) == ExpectedEntry(ct, ch, x', y', bit, Mix(ct, ch, a, c))
  {
    hide Mul;
    MulAdd(ct, x, x');
    MulAdd(ch, y, y');
    MulZero(ct);
    MulZero(ch);
  }

  lemma RowsMatch(ct: seq<Scalar>, ch: seq<Scalar>, z: Matrix, kept: MulKept, z': Matrix,
                  aTilde: seq<Scalar>, aHat: seq<Scalar>, verifyU: seq<Scalar>)
    requires |ct| == |ch| == |aTilde| == |aHat| == |verifyU| == L
    requires kept.chiTilde == ct && kept.chiHat == ch
    requires AddsUp(z, z', Correlations(aTilde, aHat), kept.choice)
    requires forall i :: 0 <= i < L ==> verifyU[i] == Mix(ct[i], ch[i], aTilde[i], aHat[i])
    ensures SenderRows(ct, ch, z) == ExpectedRows(kept, z', verifyU)
  {
    hide Mix, ExpectedEntry, Mul, Add;
    forall i, j | 0 <= i < L && 0 <= j < BATCH_SIZE
      ensures SenderRows(ct, ch, z)[i][j] == ExpectedRows(kept, z', verifyU)[i][j]
    {
      EntryMatches(ct[i], ch[i], z[i][j], z[L + i][j], z'[i][j], z'[L + i][j], kept.choice[j], aTilde[i], aHat[i]);
    }
    forall i | 0 <= i < L ensures SenderRows(ct, ch, z)[i] == ExpectedRows(kept, z', verifyU)[i] {}
  }

  /** b * (input - pad) plus shares of pad * b are shares of b * input. */
  lemma OutputMatches(b: Scalar, input: Scalar, a: Scalar, x: Scalar, y: Scalar)
    requires Add(x, y) == Mul(a, b)
    ensures Add(x, Add(Mul(b, Sub(input, a)), y)) == Mul(b, input)
  {
    hide Mul;
    MulSub(b, input, a);
    MulComm(a, b);
  }

  /** The three messages of a multiplication between honest parties; the receiver's factor, and
      the outputs of sender and receiver. */
  function HonestMul(s: MulSender, r: MulReceiver, sid: Bytes, input: seq<Scalar>, aTilde: seq<Scalar>, aHat: seq<Scalar>,
                     choice: seq<bool>, noise: seq<bool>): Result<(Scalar, seq<Scalar>, seq<Scalar>), ErrorMul>
    requires |s.gadget| == |r.gadget| == |choice| == BATCH_SIZE
    requires |input| >= L && |aTilde| == |aHat| == L
  {
    match RunPhase1(r, sid, choice, noise)
    case Err(e) => Err(e)
    case Ok((b, kept, data)) =>
      match Run(s, sid, input, aTilde, aHat, data)
      case Err(e) => Err(e)
      case Ok((sent, message)) =>
        match RunPhase2(r, sid, kept, message)
        case Err(e) => Err(e)
        case Ok(got) => Ok((b, sent, got))
  }

  /** What an honest run computes: nobody rejects it, and its outputs come from OT outputs that
      add up to the correlations. */
  lemma HonestOutputs(s: MulSender, r: MulReceiver, sid: Bytes, input: seq<Scalar>, aTilde: seq<Scalar>, aHat: seq<Scalar>,
                      choice: seq<bool>, noise: seq<bool>) returns (z: Matrix, z': Matrix)
    requires SeedRelation(s.ote, r.ote)
    requires |s.gadget| == |r.gadget| == |choice| == BATCH_SIZE && |noise| == OT_SECURITY
    requires |input| >= L && |aTilde| == |aHat| == L
    ensures AddsUp(z, z', Correlations(aTilde, aHat), choice)
    ensures HonestMul(s, r, sid, input, aTilde, aHat, choice, noise)
         == Ok((Selected(r.gadget, choice), Outputs(s.gadget, z),
                Adjusted(Selected(r.gadget, choice), Gammas(input, aTilde), Outputs(r.gadget, z'))))
    ensures RunPhase1(r, sid, choice, noise).Ok?
    ensures var sent := SenderRun(s.ote, OteSid(sid), OT_WIDTH, Correlations(aTilde, aHat), RunPhase1(r, sid, choice, noise).value.2);
            sent.Ok? && sent.value.0 == z
  {
    hide SenderRun, ReceiverPhase1, ReceiverPhase2, SenderRows, ExpectedRows, VerifyR, ChiTilde, ChiHat,
         Outputs, Selected, Correlations, AddsUp, SeedRelation, OteSid, Gammas, Mix, Adjusted;
    var rows, data, taus;
    rows, data, z, taus, z' :=
      HonestExchange(s.ote, r.ote, OteSid(sid), OT_WIDTH, Correlations(aTilde, aHat), choice, noise);
    var message := SenderMessage(sid, input, aTilde, aHat, data, z, taus);
    var b := Selected(r.gadget, choice);
    var kept := MulKept(b, choice, rows, ChiTilde(sid, data), ChiHat(sid, data));
    RowsMatch(kept.chiTilde, kept.chiHat, z, kept, z', aTilde, aHat, message.verifyU);
  }

  lemma OutputRow(gs: seq<Scalar>, gr: seq<Scalar>, z: Matrix, z': Matrix, input: seq<Scalar>,
                  aTilde: seq<Scalar>, aHat: seq<Scalar>, choice: seq<bool>, i: nat)
    requires |gs| == |gr| == |choice| == BATCH_SIZE && |input| >= L && |aTilde| == |aHat| == L && i < L
    requires AddsUp(z, z', Correlations(aTilde, aHat), choice)
    ensures Add(Outputs(gs, z)[i], Adjusted(Selected(gr, choice), Gammas(input, aTilde), Outputs(gr, z'))[i])
         == Add(Mul(Selected(gr, choice), input[i]), Dot(Differences(gs, gr), z[i]))
  {
    hide Mul, Dot, Selected, Differences;
    var b := Selected(gr, choice);
    DotShares(gr, z[i], z'[i], choice, aTilde[i]);
    OutputMatches(b, input[i], aTilde[i], Dot(gr, z[i]), Dot(gr, z'[i]));
    DotDifference(gs, gr, z[i]);
  }

  /** The run does not check that the two gadgets agree: with any two gadgets both parties accept,
      and the outputs are off by the difference of the gadgets applied to the sender's OT output. */
  lemma MulWithAnyGadgets(s: MulSender, r: MulReceiver, sid: Bytes, input: seq<Scalar>,
                          aTilde: seq<Scalar>, aHat: seq<Scalar>, choice: seq<bool>, noise: seq<bool>)
    returns (sent: seq<Scalar>, got: seq<Scalar>, z: Matrix)
    requires SeedRelation(s.ote, r.ote)
    requires |s.gadget| == |r.gadget| == |choice| == BATCH_SIZE && |noise| == OT_SECURITY
    requires |input| >= L && |aTilde| == |aHat| == L
    ensures |sent| == |got| == L && MatrixSized(z, OT_WIDTH)
    ensures HonestMul(s, r, sid, input, aTilde, aHat, choice, noise) == Ok((Selected(r.gadget, choice), sent, got))
    ensures RunPhase1(r, sid, choice, noise).Ok?
    ensures var ot := SenderRun(s.ote, OteSid(sid), OT_WIDTH, Correlations(aTilde, aHat), RunPhase1(r, sid, choice, noise).value.2);
            ot.Ok? && ot.value.0 == z
    ensures forall i :: 0 <= i < L ==>
      Add(sent[i], got[i]) == Add(Mul(Selected(r.gadget, choice), input[i]), Dot(Differences(s.gadget, r.gadget), z[i]))
  {
    hide SenderRun, RunPhase1;
    var z';
    z, z' := HonestOutputs(s, r, sid, input, aTilde, aHat, choice, noise);
    var b := Selected(r.gadget, choice);
    sent, got := Outputs(s.gadget, z), Adjusted(b, Gammas(input, aTilde), Outputs(r.gadget, z'));
    hide HonestMul, Mul, Dot, Selected, Differences, Outputs, Adjusted, Gammas, Correlations;
    forall i | 0 <= i < L
      ensures Add(sent[i], got[i]) == Add(Mul(b, input[i]), Dot(Differences(s.gadget, r.gadget), z[i]))
    {
      OutputRow(s.gadget, r.gadget, z, z', input, aTilde, aHat, choice, i);
    }
  }

  /** Correctness: with a common gadget the outputs are shares of input times b. */
  lemma MulCorrect(s: MulSender, r: MulReceiver, sid: Bytes, input: seq<Scalar>, aTilde: seq<Scalar>, aHat: seq<Scalar>,
                   choice: seq<bool>, noise: seq<bool>) returns (sent: seq<Scalar>, got: seq<Scalar>)
    requires SeedRelation(s.ote, r.ote) && s.gadget == r.gadget
    requires |s.gadget| == |choice| == BATCH_SIZE && |noise| == OT_SECURITY
    requires |input| >= L && |aTilde| == |aHat| == L
    ensures |sent| == |got| == L
    ensures HonestMul(s, r, sid, input, aTilde, aHat, choice, noise) == Ok((Selected(r.gadget, choice), sent, got))
    ensures forall i :: 0 <= i < L ==> Add(sent[i], got[i]) == Mul(Selected(r.gadget, choice), input[i])
  {
    hide HonestMul, Mul, Selected, SeedRelation;
    var z;
    sent, got, z := MulWithAnyGadgets(s, r, sid, input, aTilde, aHat, choice, noise);
    forall i | 0 <= i < L ensures Dot(Differences(s.gadget, r.gadget), z[i]) == 0 {
      DotZero(Differences(s.gadget, r.gadget), z[i]);
    }
  }

  /** The run with any two gadgets, message by message. */
  lemma MulExchangeAny(s: MulSender, r: MulReceiver, sid: Bytes, input: seq<Scalar>, aTilde: seq<Scalar>, aHat: seq<Scalar>,
                       choice: seq<bool>, noise: seq<bool>)
    returns (kept: MulKept, data: OteData, sent: seq<Scalar>, message: MulData, got: seq<Scalar>, z: Matrix)
    requires SeedRelation(s.ote, r.ote)
    requires |s.gadget| == |r.gadget| == |choice| == BATCH_SIZE && |noise| == OT_SECURITY
    requires |input| >= L && |aTilde| == |aHat| == L
    ensures RunPhase1(r, sid, choice, noise) == Ok((Selected(r.gadget, choice), kept, data)) && KeptSized(kept)
    ensures Run(s, sid, input, aTilde, aHat, data) == Ok((sent, message)) && |sent| == L
    ensures RunPhase2(r, sid, kept, message) == Ok(got) && |got| == L
    ensures MatrixSized(z, OT_WIDTH)
    ensures SenderRun(s.ote, OteSid(sid), OT_WIDTH, Correlations(aTilde, aHat), data) == Ok((z, message.taus))
    ensures forall i :: 0 <= i < L ==>
      Add(sent[i], got[i]) == Add(Mul(Selected(r.gadget, choice), input[i]), Dot(Differences(s.gadget, r.gadget), z[i]))
  {
    hide Run, RunPhase1, RunPhase2, Mul, Selected, SeedRelation, SenderRun, OteSid, Correlations, Dot, Differences;
    sent, got, z := MulWithAnyGadgets(s, r, sid, input, aTilde, aHat, choice, noise);
    kept, data := RunPhase1(r, sid, choice, noise).value.1, RunPhase1(r, sid, choice, noise).value.2;
    message := Run(s, sid, input, aTilde, aHat, data).value.1;
    RunTaus(s, sid, input, aTilde, aHat, data);
  }

  /** The message of the sender carries what its OT extension sends. */
  lemma RunTaus(s: MulSender, sid: Bytes, input: seq<Scalar>, aTilde: seq<Scalar>, aHat: seq<Scalar>, data: OteData)
    requires |s.gadget| == BATCH_SIZE && |input| >= L && |aTilde| == |aHat| == L
    requires Run(s, sid, input, aTilde, aHat, data).Ok?
    ensures var ot := SenderRun(s.ote, OteSid(sid), OT_WIDTH, Correlations(aTilde, aHat), data);
            ot.Ok? && ot.value.1 == Run(s, sid, input, aTilde, aHat, data).value.1.taus
  {
    hide SenderRun, OteSid, Correlations, VerifyR, ChiTilde, ChiHat, SenderRows;
  }

  /** The same with a common gadget. */
  lemma MulExchange(s: MulSender, r: MulReceiver, sid: Bytes, input: seq<Scalar>, aTilde: seq<Scalar>, aHat: seq<Scalar>,
                    choice: seq<bool>, noise: seq<bool>)
    returns (kept: MulKept, data: OteData, sent: seq<Scalar>, message: MulData, got: seq<Scalar>)
    requires SeedRelation(s.ote, r.ote) && s.gadget == r.gadget
    requires |s.gadget| == |choice| == BATCH_SIZE && |noise| == OT_SECURITY
    requires |input| >= L && |aTilde| == |aHat| == L
    ensures RunPhase1(r, sid, choice, noise) == Ok((Selected(r.gadget, choice), kept, data)) && KeptSized(kept)
    ensures Run(s, sid, input, aTilde, aHat, data) == Ok((sent, message)) && |sent| == L
    ensures RunPhase2(r, sid, kept, message) == Ok(got) && |got| == L
    ensures forall i :: 0 <= i < L ==> Add(sent[i], got[i]) == Mul(Selected(r.gadget, choice), input[i])
  {
    hide Run, RunPhase1, RunPhase2, Mul, Selected, SeedRelation;
    sent, got := MulCorrect(s, r, sid, input, aTilde, aHat, choice, noise);
    kept, data := RunPhase1(r, sid, choice, noise).value.1, RunPhase1(r, sid, choice, noise).value.2;
    message := Run(s, sid, input, aTilde, aHat, data).value.1;
  }

  // What a rejection means

  /** The sender reports a cheater exactly for a failed OT consistency check on well-formed data. */
  lemma SenderBans(s: MulSender, sid: Bytes, input: seq<Scalar>, aTilde: seq<Scalar>, aHat: seq<Scalar>, data: OteData)
    requires |s.gadget| == BATCH_SIZE && |input| >= L && |aTilde| == |aHat| == L
    ensures Run(s, sid, input, aTilde, aHat, data) == Err(ErrorMul.ConsistencyFailure)
        <==> SenderSized(s.ote) && DataSized(data) && !Consistent(s.ote, OteSid(sid), data)
    ensures Run(s, sid, input, aTilde, aHat, data) == Err(ErrorMul.MalformedMessage)
        <==> !SenderSized(s.ote) || !DataSized(data)
  {
    hide Consistent, OteSid, Correlations;
  }

  predicate MessageSized(m: MulData) {
    |m.verifyU| == |m.gamma| == L && MatrixSized(m.taus, OT_WIDTH)
  }

  /** The receiver reports a cheater exactly for a wrong `verifyR` in a well-formed message. */
  lemma ReceiverBans(r: MulReceiver, sid: Bytes, kept: MulKept, m: MulData)
    requires |r.gadget| == BATCH_SIZE && KeptSized(kept)
    requires |kept.choice| == BATCH_SIZE && |kept.rows| == KAPPA
    ensures RunPhase2(r, sid, kept, m) == Err(ErrorMul.MalformedMessage) <==> !MessageSized(m)
    ensures RunPhase2(r, sid, kept, m) == Err(ErrorMul.ConsistencyFailure)
        <==> MessageSized(m) && m.verifyR != VerifyR(sid,
               ExpectedRows(kept, ReceiverOutput(OteSid(sid), kept.rows, kept.choice, m.taus), m.verifyU))
  {
    hide ReceiverOutput, ExpectedRows, VerifyR, OteSid, Outputs;
  }

  lemma {:induction false} EntryBytesInjective(row: seq<Scalar>, row': seq<Scalar>)
    requires |row| == |row'|
    ensures |EntryBytes(row)| == |EntryBytes(row')| == SECURITY * |row|
    ensures EntryBytes(row) == EntryBytes(row') ==> row == row'
    decreases |row|
  {
    if |row| > 0 {
      var n := |row| - 1;
      EntryBytesInjective(row[..n], row'[..n]);
      SplitEnd(EntryBytes(row[..n]), ScalarBytes(row[n]), EntryBytes(row'[..n]), ScalarBytes(row'[n]));
      ScalarRoundTrip(row[n]);
      ScalarRoundTrip(row'[n]);
      hide ScalarBytes, ParseScalar;
      RejoinEnd(row, row', n);
    }
  }

  lemma RejoinEnd<T>(s: seq<T>, t: seq<T>, n: nat)
    requires |s| == |t| == n + 1
    ensures s[..n] == t[..n] && s[n] == t[n] ==> s == t
  {
    assert s == s[..n] + [s[n]] && t == t[..n] + [t[n]];
  }

  lemma SplitEnd(a: Bytes, b: Bytes, a': Bytes, b': Bytes)
    requires |a| == |a'|
    ensures a + b == a' + b' ==> a == a' && b == b'
  {
    if a + b == a' + b' {
      assert a == (a + b)[..|a|] && b == (a + b)[|a|..];
      assert a' == (a' + b')[..|a|] && b' == (a' + b')[|a|..];
    }
  }

  lemma {:induction false} MatrixBytesInjective(rows: Matrix, rows': Matrix)
    requires MatrixSized(rows, |rows|) && MatrixSized(rows', |rows|)
    ensures |MatrixBytes(rows)| == |MatrixBytes(rows')| == SECURITY * BATCH_SIZE * |rows|
    ensures MatrixBytes(rows) == MatrixBytes(rows') ==> rows == rows'
    decreases |rows|
  {
    if |rows| > 0 {
      var n := |rows| - 1;
      MatrixBytesInjective(rows[..n], rows'[..n]);
      EntryBytesInjective(rows[n], rows'[n]);
      hide EntryBytes;
      SplitEnd(MatrixBytes(rows[..n]), EntryBytes(rows[n]), MatrixBytes(rows'[..n]), EntryBytes(rows'[n]));
      RejoinEnd(rows, rows', n);
    }
  }

  /** The check value determines the matrix, unless the hash collides on these two inputs. */
  lemma VerifyRBinds(sid: Bytes, rows: Matrix, rows': Matrix)
    requires MatrixSized(rows, L) && MatrixSized(rows', L) && |sid| < 0x1_0000_0000_0000_0000
    requires var e := Encode(TAG_MUL_VERIFY, [sid, MatrixBytes(rows)]);
             var e' := Encode(TAG_MUL_VERIFY, [sid, MatrixBytes(rows')]);
             Sha256(e) == Sha256(e') ==> e == e'
    ensures VerifyR(sid, rows) == VerifyR(sid, rows') <==> rows == rows'
  {
    MatrixBytesInjective(rows, rows');
    hide MatrixBytes, Encode;
    var cs, cs' := [sid, MatrixBytes(rows)], [sid, MatrixBytes(rows')];
    TranscriptInjective(TAG_MUL_VERIFY, cs, TAG_MUL_VERIFY, cs');
    assert cs[1] == MatrixBytes(rows) && cs'[1] == MatrixBytes(rows');
  }

  // The loops

  method Choose(gadget: seq<Scalar>, choice: seq<bool>) returns (b: Scalar)
    requires |gadget| == |choice|
    ensures b == Selected(gadget, choice)
  {
    hide Add;
    b := 0;
    for i := 0 to |gadget|
      invariant b == Selected(gadget[..i], choice[..i])
    {
      assert gadget[..i + 1][..i] == gadget[..i] && choice[..i + 1][..i] == choice[..i];
      b := if choice[i] then Add(b, gadget[i]) else b;
    }
    assert gadget[..|gadget|] == gadget && choice[..|choice|] == choice;
  }

  method InnerProduct(g: seq<Scalar>, z: seq<Scalar>) returns (summation: Scalar)
    requires |g| == |z|
    ensures summation == Dot(g, z)
  {
    hide Add, Mul;
    summation := 0;
    for j := 0 to |g|
      invariant summation == Dot(g[..j], z[..j])
    {
      assert g[..j + 1][..j] == g[..j] && z[..j + 1][..j] == z[..j];
      summation := Add(summation, Mul(g[j], z[j]));
    }
    assert g[..|g|] == g && z[..|z|] == z;
  }

  method ComputeOutputs(g: seq<Scalar>, z: Matrix) returns (out: seq<Scalar>)
    requires |g| == BATCH_SIZE && MatrixSized(z, OT_WIDTH)
    ensures out == Outputs(g, z)
  {
    hide Dot;
    out := [];
    for i := 0 to L
      invariant |out| == i && forall k :: 0 <= k < i ==> out[k] == Dot(g, z[k])
    {
      var summation := InnerProduct(g, z[i]);
      out := out + [summation];
    }
  }

  method ComputeChi(sid: Bytes, data: OteData) returns (chiTilde: seq<Scalar>, chiHat: seq<Scalar>)
    ensures chiTilde == ChiTilde(sid, data) && chiHat == ChiHat(sid, data)
  {
    hide TaggedHash, ReduceBytes, ToBe, Transcript;
    var transcript := Transcript(data);
    chiTilde, chiHat := [], [];
    for i := 0 to L
      invariant |chiTilde| == |chiHat| == i
      invariant forall k :: 0 <= k < i ==> chiTilde[k] == ChiEntry(TAG_MUL_CHI_TILDE, sid, data, k)
      invariant forall k :: 0 <= k < i ==> chiHat[k] == ChiEntry(TAG_MUL_CHI_HAT, sid, data, k)
    {
      var h := HashComponents(TAG_MUL_CHI_TILDE, [sid, ToBe(i, 1), transcript]);
      var h' := HashComponents(TAG_MUL_CHI_HAT, [sid, ToBe(i, 1), transcript]);
      chiTilde, chiHat := chiTilde + [ReduceBytes(h)], chiHat + [ReduceBytes(h')];
    }
  }

  /** One row of the sender's check matrix, in bytes. */
  method MixRowBytes(chiTilde: Scalar, chiHat: Scalar, x: seq<Scalar>, y: seq<Scalar>) returns (bytes: Bytes)
    requires |x| == |y|
    ensures bytes == EntryBytes(MixRow(chiTilde, chiHat, x, y))
  {
    hide Mix, ScalarBytes;
    ghost var row := MixRow(chiTilde, chiHat, x, y);
    bytes := [];
    for j := 0 to |x|
      invariant bytes == EntryBytes(row[..j])
    {
      assert row[..j + 1][..j] == row[..j];
      bytes := bytes + ScalarBytes(Mix(chiTilde, chiHat, x[j], y[j]));
    }
    assert row[..|x|] == row;
  }

  /** One row of the matrix the receiver expects, in bytes. */
  method ExpectedRowBytes(chiTilde: Scalar, chiHat: Scalar, x: seq<Scalar>, y: seq<Scalar>, choice: seq<bool>, u: Scalar)
    returns (bytes: Bytes)
    requires |x| == |y| == |choice|
    ensures bytes == EntryBytes(ExpectedRow(chiTilde, chiHat, x, y, choice, u))
  {
    hide ScalarBytes, Mul;
    ghost var row := ExpectedRow(chiTilde, chiHat, x, y, choice, u);
    bytes := [];
    for j := 0 to |x|
      invariant bytes == EntryBytes(row[..j])
    {
      assert row[..j + 1][..j] == row[..j];
      var entry := Sub(Neg(Mul(chiTilde, x[j])), Mul(chiHat, y[j]));
      entry := if choice[j] then Add(entry, u) else entry;
      assert entry == row[j];
      bytes := bytes + ScalarBytes(entry);
    }
    assert row[..|x|] == row;
  }

  method ComputeVerifyR(sid: Bytes, chiTilde: seq<Scalar>, chiHat: seq<Scalar>, z: Matrix) returns (h: Digest)
    requires |chiTilde| == |chiHat| == L && MatrixSized(z, OT_WIDTH)
    ensures h == VerifyR(sid, SenderRows(chiTilde, chiHat, z))
  {
    hide MixRow, EntryBytes, TaggedHash;
    ghost var rows := SenderRows(chiTilde, chiHat, z);
    var bytes: Bytes := [];
    for i := 0 to L
      invariant bytes == MatrixBytes(rows[..i])
    {
      assert rows[..i + 1][..i] == rows[..i];
      var row := MixRowBytes(chiTilde[i], chiHat[i], z[i], z[L + i]);
      bytes := bytes + row;
    }
    assert rows[..L] == rows;
    h := HashComponents(TAG_MUL_VERIFY, [sid, bytes]);
  }

  method ComputeExpectedR(sid: Bytes, kept: MulKept, z: Matrix, verifyU: seq<Scalar>) returns (h: Digest)
    requires KeptSized(kept) && |kept.choice| == BATCH_SIZE && MatrixSized(z, OT_WIDTH) && |verifyU| == L
    ensures h == VerifyR(sid, ExpectedRows(kept, z, verifyU))
  {
    hide ExpectedRow, EntryBytes, TaggedHash;
    ghost var rows := ExpectedRows(kept, z, verifyU);
    var bytes: Bytes := [];
    for i := 0 to L
      invariant bytes == MatrixBytes(rows[..i])
    {
      assert rows[..i + 1][..i] == rows[..i];
      var row := ExpectedRowBytes(kept.chiTilde[i], kept.chiHat[i], z[i], z[L + i], kept.choice, verifyU[i]);
      bytes := bytes + row;
    }
    assert rows[..L] == rows;
    h := HashComponents(TAG_MUL_VERIFY, [sid, bytes]);
  }

  method BuildCorrelations(aTilde: seq<Scalar>, aHat: seq<Scalar>) returns (m: Matrix)
    requires |aTilde| == |aHat| == L
    ensures m == Correlations(aTilde, aHat)
  {
    hide Copies;
    var tilde: Matrix, hat: Matrix := [], [];
    for i := 0 to L
      invariant |tilde| == |hat| == i
      invariant forall k :: 0 <= k < i ==> tilde[k] == Copies(aTilde[k]) && hat[k] == Copies(aHat[k])
    {
      tilde, hat := tilde + [Copies(aTilde[i])], hat + [Copies(aHat[i])];
    }
    m := tilde + hat;
  }

  /** The check vector and the differences between inputs and pads. */
  method CheckVectors(chiTilde: seq<Scalar>, chiHat: seq<Scalar>, input: seq<Scalar>, aTilde: seq<Scalar>, aHat: seq<Scalar>)
    returns (verifyU: seq<Scalar>, gamma: seq<Scalar>)
    requires |chiTilde| == |chiHat| == |aTilde| == |aHat| == L && |input| >= L
    ensures verifyU == seq(L, i requires 0 <= i < L => Mix(chiTilde[i], chiHat[i], aTilde[i], aHat[i]))
    ensures gamma == Gammas(input, aTilde)
  {
    hide Mix, Sub;
    verifyU, gamma := [], [];
    for i := 0 to L
      invariant |verifyU| == |gamma| == i
      invariant forall k :: 0 <= k < i ==> verifyU[k] == Mix(chiTilde[k], chiHat[k], aTilde[k], aHat[k])
      invariant forall k :: 0 <= k < i ==> gamma[k] == Sub(input[k], aTilde[k])
    {
      verifyU := verifyU + [Mix(chiTilde[i], chiHat[i], aTilde[i], aHat[i])];
      gamma := gamma + [Sub(input[i], aTilde[i])];
    }
  }

  /** `MulSender::run`; the pads and check values are drawn by the caller. */
  method RunMulSender(s: MulSender, sid: Bytes, input: seq<Scalar>, aTilde: seq<Scalar>, aHat: seq<Scalar>, data: OteData)
    returns (r: Result<(seq<Scalar>, MulData), ErrorMul>)
    requires |s.gadget| == BATCH_SIZE && |input| >= L && |aTilde| == |aHat| == L
    ensures r == Run(s, sid, input, aTilde, aHat, data)
  {
    hide SenderRun, Correlations, VerifyR, SenderRows, Outputs, ChiTilde, ChiHat, Mix, Gammas, OteSid;
    var correlations := BuildCorrelations(aTilde, aHat);
    var result := OtLoops.RunSender(s.ote, OteSid(sid), OT_WIDTH, correlations, data);
    match result {
      case Err(e) =>
        r := Err(FromOt(e));
      case Ok((z, taus)) =>
        var chiTilde, chiHat := ComputeChi(sid, data);
        var verifyR := ComputeVerifyR(sid, chiTilde, chiHat, z);
        var verifyU, gamma := CheckVectors(chiTilde, chiHat, input, aTilde, aHat);
        var output := ComputeOutputs(s.gadget, z);
        r := Ok((output, MulData(taus, verifyR, verifyU, gamma)));
    }
  }

  /** `MulReceiver::run_phase1`; the choice bits and the noise are drawn by the caller. */
  method RunMulReceiverPhase1(r: MulReceiver, sid: Bytes, choice: seq<bool>, noise: seq<bool>)
    returns (result: Result<(Scalar, MulKept, OteData), ErrorMul>)
    requires |r.gadget| == |choice| == BATCH_SIZE && |noise| == OT_SECURITY
    ensures result == RunPhase1(r, sid, choice, noise)
  {
    hide ReceiverPhase1, Selected, ChiTilde, ChiHat, OteSid;
    var b := Choose(r.gadget, choice);
    var ot := OtLoops.RunReceiverPhase1(r.ote, OteSid(sid), choice, noise);
    match ot {
      case Err(e) =>
        result := Err(FromOt(e));
      case Ok((rows, data)) =>
        var chiTilde, chiHat := ComputeChi(sid, data);
        result := Ok((b, MulKept(b, choice, rows, chiTilde, chiHat), data));
    }
  }

  /** `MulReceiver::run_phase2`. */
  method RunMulReceiverPhase2(r: MulReceiver, sid: Bytes, kept: MulKept, received: MulData)
    returns (result: Result<seq<Scalar>, ErrorMul>)
    requires |r.gadget| == BATCH_SIZE && KeptSized(kept)
    ensures result == RunPhase2(r, sid, kept, received)
  {
    hide ReceiverPhase2, VerifyR, ExpectedRows, Dot, Mul, Add, OteSid;
    if |received.verifyU| != L || |received.gamma| != L {
      return Err(ErrorMul.MalformedMessage);
    }
    var ot := OtLoops.RunReceiverPhase2(OteSid(sid), OT_WIDTH, kept.choice, kept.rows, received.taus);
    match ot {
      case Err(e) =>
        result := Err(FromOt(e));
      case Ok(z) =>
        var expected := ComputeExpectedR(sid, kept, z, received.verifyU);
        if received.verifyR != expected {
          return Err(ErrorMul.ConsistencyFailure);
        }
        var output: seq<Scalar> := [];
        for i := 0 to L
          invariant |output| == i
          invariant forall k :: 0 <= k < i ==> output[k] == Add(Mul(kept.b, received.gamma[k]), Dot(r.gadget, z[k]))
        {
          var summation := InnerProduct(r.gadget, z[i]);
          output := output + [Add(Mul(kept.b, received.gamma[i]), summation)];
        }
        assert output == Adjusted(kept.b, received.gamma, Outputs(r.gadget, z));
        result := Ok(output);
    }
  }
}
