/** The loops of the OT extension, proved to compute the functions of `OtExtension`. */
module OtLoops {
  import opened Scalars
  import opened Results
  import opened OtErrors
  import opened OtConstants
  import opened Bits
  import opened BinaryField
  import opened Hashes
  import opened Oracles
  import opened Transpose
  import opened OtExtension
  import FieldMul

  /** The generator is run in 32-byte chunks until there are enough bytes. */
  method ExpandSeed(sid: Bytes, i: nat, seed: Digest) returns (row: PrgOutput)
    ensures row == Prg(sid, i, seed)
  {
    hide ToBe, TaggedHash;
    var prg: Bytes := [];
    var count := 0;
    while |prg| < EXTENDED_BYTES
      invariant count <= CHUNKS && prg == PrgChunks(sid, i, seed, count)
      decreases EXTENDED_BYTES - |prg|
    {
      var chunk := HashComponents(TAG_OTE_PRG, [sid, ToBe(i, 2), ToBe(count, 2), seed]);
      prg := prg + chunk;
      count := count + 1;
    }
    row := prg[..EXTENDED_BYTES];
  }

  method ExpandSeeds(sid: Bytes, seeds: seq<Digest>) returns (rows: seq<PrgOutput>)
    ensures rows == ExtendSeeds(sid, seeds)
  {
    hide Prg;
    rows := [];
    for i := 0 to |seeds|
      invariant |rows| == i
      invariant forall k :: 0 <= k < i ==> rows[k] == Prg(sid, k, seeds[k])
    {
      var row := ExpandSeed(sid, i, seeds[i]);
      rows := rows + [row];
    }
  }

  /** Multiplication of a byte by a bit selects it. */
  function Times(bit: bool, b: bv8): bv8 {
    FromBool(bit) * b
  }

  lemma TimesBit(bit: bool, b: bv8, e: bv8)
    ensures Times(bit, b) == if bit then b else 0
    ensures Times(bit, b) ^ e == if bit then b ^ e else e
  {}

  method SelectRows(correlation: seq<bool>, u: seq<PrgOutput>, e: seq<PrgOutput>) returns (q: seq<PrgOutput>)
    requires |correlation| == |u| == |e| == KAPPA
    ensures |q| == KAPPA
    ensures forall i :: 0 <= i < KAPPA ==> q[i] == SelectRow(correlation[i], u[i], e[i])
  {
    q := [];
    for i := 0 to KAPPA
      invariant |q| == i
      invariant forall k :: 0 <= k < i ==> q[k] == SelectRow(correlation[k], u[k], e[k])
    {
      var row := SelectOne(correlation[i], u[i], e[i]);
      q := q + [row];
    }
  }

  method SelectOne(bit: bool, u: PrgOutput, e: PrgOutput) returns (row: PrgOutput)
    ensures row == SelectRow(bit, u, e)
  {
    hide Times, SelectRow;
    var bytes: Bytes := [];
    for j := 0 to EXTENDED_BYTES
      invariant |bytes| == j
      invariant forall k :: 0 <= k < j ==> bytes[k] == SelectRow(bit, u, e)[k]
    {
      SelectByte(bit, u, e, j);
      bytes := bytes + [Times(bit, u[j]) ^ e[j]];
    }
    row := bytes;
  }

  lemma SelectByte(bit: bool, u: PrgOutput, e: PrgOutput, j: nat)
    requires j < EXTENDED_BYTES
    ensures Times(bit, u[j]) ^ e[j] == SelectRow(bit, u, e)[j]
  {
    TimesBit(bit, u[j], e[j]);
  }

  method Challenges(sid: Bytes, u: seq<PrgOutput>) returns (chi1: FieldElement, chi2: FieldElement)
    ensures chi1 == Chi(sid, "chi1", u) && chi2 == Chi(sid, "chi2", u)
  {
    hide TaggedHash;
    var msg := Concat(u);
    var h1 := HashComponents(TAG_OTE_CHI, [sid, Ascii("chi1"), msg]);
    var h2 := HashComponents(TAG_OTE_CHI, [sid, Ascii("chi2"), msg]);
    chi1, chi2 := h1[..OT_SECURITY_BYTES], h2[..OT_SECURITY_BYTES];
  }

  /** The weighted sum of the three blocks of one row; the field multiplication never fails on it. */
  method CombineRow(row: PrgOutput, chi1: FieldElement, chi2: FieldElement) returns (r: FieldElement)
    ensures r == Combine(row, chi1, chi2)
  {
    hide FieldProduct;
    var prod1 := FieldMul.Multiply(row[..26], chi1);
    var prod2 := FieldMul.Multiply(row[26..52], chi2);
    var bytes: Bytes := [];
    for k := 0 to OT_SECURITY_BYTES
      invariant |bytes| == k
      invariant forall j :: 0 <= j < k ==> bytes[j] == (prod1.value[j] ^ prod2.value[j]) ^ row[52 + j]
    {
      bytes := bytes + [(prod1.value[k] ^ prod2.value[k]) ^ row[52 + k]];
    }
    r := bytes;
  }

  method CombineAll(rows: seq<PrgOutput>, chi1: FieldElement, chi2: FieldElement) returns (r: seq<FieldElement>)
    ensures r == CombineRows(rows, chi1, chi2)
  {
    hide Combine;
    r := [];
    for i := 0 to |rows|
      invariant |r| == i
      invariant forall k :: 0 <= k < i ==> r[k] == Combine(rows[k], chi1, chi2)
    {
      var c := CombineRow(rows[i], chi1, chi2);
      r := r + [c];
    }
  }

  /** What the receiver's values say the sender should have got for one row. */
  method ExpectedOne(bit: bool, t: FieldElement, x: FieldElement) returns (v: FieldElement)
    ensures v == Xor(t, SelectElement(bit, x))
  {
    hide Times;
    var bytes: Bytes := [];
    for k := 0 to OT_SECURITY_BYTES
      invariant |bytes| == k
      invariant forall j :: 0 <= j < k ==> bytes[j] == t[j] ^ SelectElement(bit, x)[j]
    {
      TimesBit(bit, x[k], 0);
      bytes := bytes + [t[k] ^ Times(bit, x[k])];
    }
    v := bytes;
  }

  method CheckConsistency(s: OteSender, sid: Bytes, q: seq<PrgOutput>, data: OteData) returns (ok: bool)
    requires SenderSized(s) && DataSized(data) && q == SenderMatrix(s, sid, data.u)
    ensures ok == Consistent(s, sid, data)
  {
    hide Combine, Chi, SelectElement, Xor, SenderMatrix;
    var chi1, chi2 := Challenges(sid, data.u);
    var verifyQ := CombineAll(q, chi1, chi2);
    var verifySender: seq<FieldElement> := [];
    for i := 0 to KAPPA
      invariant |verifySender| == i
      invariant forall k :: 0 <= k < i ==>
        verifySender[k] == Xor(data.verifyT[k], SelectElement(s.correlation[k], data.verifyX))
    {
      var v := ExpectedOne(s.correlation[i], data.verifyT[i], data.verifyX);
      verifySender := verifySender + [v];
    }
    ok := true;
    for i := 0 to KAPPA
      invariant ok == forall k :: 0 <= k < i ==>
        RowConsistent(q[k], s.correlation[k], data.verifyT[k], data.verifyX, chi1, chi2)
    {
      ok := ok && verifyQ[i] == verifySender[i];
      assert (verifyQ[i] == verifySender[i])
          == RowConsistent(q[i], s.correlation[i], data.verifyT[i], data.verifyX, chi1, chi2);
    }
  }

  method RandomizeRows(sid: Bytes, iteration: nat, rows: seq<KappaRow>) returns (v: seq<Scalar>)
    ensures v == RandomRow(sid, iteration, rows)
  {
    hide Randomize;
    v := [];
    for j := 0 to |rows|
      invariant |v| == j
      invariant forall k :: 0 <= k < j ==> v[k] == Randomize(sid, k, iteration, rows[k])
    {
      var x := RandomizeOne(sid, j, iteration, rows[j]);
      v := v + [x];
    }
  }

  method RandomizeOne(sid: Bytes, j: nat, iteration: nat, row: KappaRow) returns (x: Scalar)
    ensures x == Randomize(sid, j, iteration, row)
  {
    hide TaggedHash, ReduceBytes, ToBe;
    var h := HashComponents(TAG_OTE_RANDOMIZE, [sid, ToBe(j, 2), ToBe(iteration, 1), row]);
    x := ReduceBytes(h);
  }

  method AddDelta(row: KappaRow, delta: KappaRow) returns (r: KappaRow)
    ensures r == Xor(row, delta)
  {
    var bytes: Bytes := [];
    for i := 0 to KAPPA_BYTES
      invariant |bytes| == i
      invariant forall k :: 0 <= k < i ==> bytes[k] == row[k] ^ delta[k]
    {
      bytes := bytes + [row[i] ^ delta[i]];
    }
    r := bytes;
  }

  /** One iteration of the sender's hashing loop: both pads of every index. */
  method RandomizeBoth(sid: Bytes, iteration: nat, rows: seq<KappaRow>, delta: KappaRow)
    returns (v0: seq<Scalar>, v1: seq<Scalar>)
    ensures v0 == RandomRow(sid, iteration, rows)
    ensures v1 == RandomRow(sid, iteration, Shifted(rows, delta))
  {
    hide Randomize, Xor;
    v0, v1 := [], [];
    for j := 0 to |rows|
      invariant |v0| == |v1| == j
      invariant forall k :: 0 <= k < j ==> v0[k] == Randomize(sid, k, iteration, rows[k])
      invariant forall k :: 0 <= k < j ==> v1[k] == Randomize(sid, k, iteration, Xor(rows[k], delta))
    {
      var shifted := AddDelta(rows[j], delta);
      var x0 := RandomizeOne(sid, j, iteration, rows[j]);
      var x1 := RandomizeOne(sid, j, iteration, shifted);
      v0, v1 := v0 + [x0], v1 + [x1];
    }
  }

  method ComputeTau(v0: seq<Scalar>, v1: seq<Scalar>, correlation: seq<Scalar>) returns (tau: seq<Scalar>)
    requires |v0| == |v1| == |correlation|
    ensures tau == TauRow(v0, v1, correlation)
  {
    hide Add, Sub;
    tau := [];
    for j := 0 to |v0|
      invariant |tau| == j
      invariant forall k :: 0 <= k < j ==> tau[k] == Add(Sub(v1[k], v0[k]), correlation[k])
    {
      tau := tau + [Add(Sub(v1[j], v0[j]), correlation[j])];
    }
  }

  /** The randomise and transfer loops of the sender. */
  method SenderOutputs(sid: Bytes, q: seq<PrgOutput>, rows: seq<KappaRow>, delta: KappaRow, correlations: Matrix)
    returns (sent: Matrix, taus: Matrix)
    requires rows == Transposed(q) && MatrixSized(correlations, |correlations|)
    ensures sent == SenderOutput(sid, q, |correlations|)
    ensures taus == SenderTau(sid, q, delta, correlations)
  {
    hide Transposed, RandomRow, Shifted, TauRow;
    var width := |correlations|;
    sent, taus := [], [];
    var v1s: Matrix := [];
    for k := 0 to width
      invariant |sent| == |v1s| == k
      invariant forall i :: 0 <= i < k ==> sent[i] == RandomRow(sid, i, rows)
      invariant forall i :: 0 <= i < k ==> v1s[i] == RandomRow(sid, i, Shifted(rows, delta))
    {
      var v0, v1 := RandomizeBoth(sid, k, rows, delta);
      sent, v1s := sent + [v0], v1s + [v1];
    }
    for k := 0 to width
      invariant |taus| == k
      invariant forall i :: 0 <= i < k ==>
        taus[i] == TauRow(RandomRow(sid, i, rows), RandomRow(sid, i, Shifted(rows, delta)), correlations[i])
    {
      var tau := ComputeTau(sent[k], v1s[k], correlations[k]);
      taus := taus + [tau];
    }
  }

  /** The dimension check of a list of vectors. */
  method CheckMatrix(m: Matrix, width: nat) returns (ok: bool)
    ensures ok == MatrixSized(m, width)
  {
    if |m| != width { return false; }
    for i := 0 to width
      invariant forall k :: 0 <= k < i ==> |m[k]| == BATCH_SIZE
    {
      if |m[i]| != BATCH_SIZE { return false; }
    }
    ok := true;
  }

  /** `OTESender::run`. */
  method RunSender(s: OteSender, sid: Bytes, width: nat, correlations: Matrix, data: OteData)
    returns (r: Result<(Matrix, Matrix), ErrorOt>)
    ensures r == SenderRun(s, sid, width, correlations, data)
  {
    hide Consistent, SenderMatrix, SenderOutput, SenderTau, Transposed, PackBits, MatrixSized, ExtendSeeds;
    var sized := CheckMatrix(correlations, width);
    MatrixWidth(correlations, width);
    if !sized || |s.correlation| != KAPPA || |s.seeds| != KAPPA || |data.u| != KAPPA || |data.verifyT| != KAPPA {
      return Err(MalformedMessage);
    }
    var extended := ExpandSeeds(sid, s.seeds);
    var q := SelectRows(s.correlation, data.u, extended);
    SelectedRows(s, sid, data.u, q);
    var consistent := CheckConsistency(s, sid, q, data);
    if !consistent {
      return Err(ConsistencyFailure);
    }
    var transposed := CutAndTranspose(q);
    var delta := Compress(s.correlation, KAPPA_BYTES);
    var sent, taus := SenderOutputs(sid, q, transposed.value, delta, correlations);
    r := Ok((sent, taus));
  }

  lemma MatrixWidth(m: Matrix, width: nat)
    ensures MatrixSized(m, width) ==> |m| == width && MatrixSized(m, |m|)
  {}

  lemma SelectedRows(s: OteSender, sid: Bytes, u: seq<PrgOutput>, q: seq<PrgOutput>)
    requires SenderSized(s) && |u| == KAPPA && |q| == KAPPA
    requires forall i :: 0 <= i < KAPPA ==> q[i] == SelectRow(s.correlation[i], u[i], ExtendSeeds(sid, s.seeds)[i])
    ensures q == SenderMatrix(s, sid, u)
  {
    hide SelectRow, ExtendSeeds;
  }

  method ComputeU(t0: seq<PrgOutput>, t1: seq<PrgOutput>, x: PrgOutput) returns (u: seq<PrgOutput>)
    requires |t0| == |t1|
    ensures u == MatrixU(t0, t1, x)
  {
    u := [];
    for i := 0 to |t0|
      invariant |u| == i
      invariant forall k :: 0 <= k < i ==> u[k] == Xor(Xor(t0[k], t1[k]), x)
    {
      var bytes: Bytes := [];
      for j := 0 to EXTENDED_BYTES
        invariant |bytes| == j
        invariant forall k :: 0 <= k < j ==> bytes[k] == (t0[i][k] ^ t1[i][k]) ^ x[k]
      {
        bytes := bytes + [(t0[i][j] ^ t1[i][j]) ^ x[j]];
      }
      assert bytes == Xor(Xor(t0[i], t1[i]), x);
      u := u + [bytes];
    }
  }

  /** `OTEReceiver::run_phase1`; the noise bits are drawn by the caller. */
  method RunReceiverPhase1(r: OteReceiver, sid: Bytes, choice: seq<bool>, noise: seq<bool>)
    returns (result: Result<(seq<PrgOutput>, OteData), ErrorOt>)
    requires |noise| == OT_SECURITY
    ensures result == ReceiverPhase1(r, sid, choice, noise)
  {
    hide PackBits, ExtendSeeds, MatrixU, Chi, Combine, CombineRows;
    if |choice| != BATCH_SIZE {
      return Err(MalformedMessage);
    }
    if |r.seeds0| != KAPPA || |r.seeds1| != KAPPA {
      return Err(MalformedMessage);
    }
    var x: PrgOutput := Compress(choice + noise, EXTENDED_BYTES);
    var t0 := ExpandSeeds(sid, r.seeds0);
    var t1 := ExpandSeeds(sid, r.seeds1);
    var u := ComputeU(t0, t1, x);
    var chi1, chi2 := Challenges(sid, u);
    var verifyX := CombineRow(x, chi1, chi2);
    var verifyT := CombineAll(t0, chi1, chi2);
    result := Ok((t0, OteData(u, verifyX, verifyT)));
  }

  method ChooseOutputs(v: seq<Scalar>, tau: seq<Scalar>, choice: seq<bool>) returns (t: seq<Scalar>)
    requires |v| == |tau| == |choice|
    ensures t == ChooseRow(v, tau, choice)
  {
    hide Add, Neg;
    t := [];
    for j := 0 to |v|
      invariant |t| == j
      invariant forall k :: 0 <= k < j ==> t[k] == if choice[k] then Add(tau[k], Neg(v[k])) else Neg(v[k])
    {
      var x := Neg(v[j]);
      t := t + [if choice[j] then Add(tau[j], x) else x];
    }
  }

  /** The randomise and transfer loops of the receiver. */
  method ReceiverOutputs(sid: Bytes, choice: seq<bool>, ghost t: seq<PrgOutput>, rows: seq<KappaRow>, taus: Matrix)
    returns (out: Matrix)
    requires rows == Transposed(t) && |choice| == BATCH_SIZE && MatrixSized(taus, |taus|)
    ensures out == ReceiverOutput(sid, t, choice, taus)
  {
    hide Transposed, RandomRow, ChooseRow;
    var width := |taus|;
    var vs: Matrix := [];
    for k := 0 to width
      invariant |vs| == k
      invariant forall i :: 0 <= i < k ==> vs[i] == RandomRow(sid, i, rows)
    {
      var v := RandomizeRows(sid, k, rows);
      vs := vs + [v];
    }
    out := [];
    for k := 0 to width
      invariant |out| == k
      invariant forall i :: 0 <= i < k ==> out[i] == ChooseRow(RandomRow(sid, i, rows), taus[i], choice)
    {
      var x := ChooseOutputs(vs[k], taus[k], choice);
      out := out + [x];
    }
  }

  /** `OTEReceiver::run_phase2`. */
  method RunReceiverPhase2(sid: Bytes, width: nat, choice: seq<bool>, rows: seq<PrgOutput>, taus: Matrix)
    returns (r: Result<Matrix, ErrorOt>)
    ensures r == ReceiverPhase2(sid, width, choice, rows, taus)
  {
    if |choice| != BATCH_SIZE || |rows| != KAPPA {
      return Err(MalformedMessage);
    }
    var sized := CheckMatrix(taus, width);
    if !sized {
      return Err(MalformedMessage);
    }
    hide Transposed, ReceiverOutput;
    var transposed := CutAndTranspose(rows);
    var out := ReceiverOutputs(sid, choice, rows, transposed.value, taus);
    r := Ok(out);
  }
}
