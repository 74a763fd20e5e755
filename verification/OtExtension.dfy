/** The OT extension: extend, check, transpose and randomise, transfer
    (Fig. 10 of KOS, with the transfer phase of Protocol 9 of DKLs18).

    The functions below say what each party computes from its messages, and the lemmas that an
    honest run is correct; the loops that compute these functions are in `OtLoops`. */
module OtExtension {
  import opened Scalars
  import opened Results
  import opened OtErrors
  import opened OtConstants
  import opened Bits
  import opened BinaryField
  import opened Hashes
  import opened Oracles
  import opened Transpose
  import FieldMul

  datatype OteSender = OteSender(correlation: seq<bool>, seeds: seq<Digest>)

  datatype OteReceiver = OteReceiver(seeds0: seq<Digest>, seeds1: seq<Digest>)

  datatype OteData = OteData(u: seq<PrgOutput>, verifyX: FieldElement, verifyT: seq<FieldElement>)

  type Matrix = seq<seq<Scalar>>

  predicate SenderSized(s: OteSender) {
    |s.correlation| == KAPPA && |s.seeds| == KAPPA
  }

  predicate ReceiverSized(r: OteReceiver) {
    |r.seeds0| == KAPPA && |r.seeds1| == KAPPA
  }

  predicate DataSized(data: OteData) {
    |data.u| == KAPPA && |data.verifyT| == KAPPA
  }

  predicate MatrixSized(m: Matrix, width: nat) {
    |m| == width && forall k :: 0 <= k < width ==> |m[k]| == BATCH_SIZE
  }

  /** The relation that base OT establishes and refreshes keep: the sender holds, in every
      column, the one of the receiver's two seeds that its correlation bit selects. */
  predicate SeedRelation(s: OteSender, r: OteReceiver) {
    && SenderSized(s)
    && ReceiverSized(r)
    && forall i :: 0 <= i < KAPPA ==> s.seeds[i] == if s.correlation[i] then r.seeds1[i] else r.seeds0[i]
  }

  // Seed expansion

  const CHUNKS := 3

  function PrgChunks(sid: Bytes, i: nat, seed: Digest, count: nat): (s: Bytes)
    ensures |s| == SECURITY * count
  {
    if count == 0 then []
    else PrgChunks(sid, i, seed, count - 1)
         + TaggedHash(TAG_OTE_PRG, [sid, ToBe(i, 2), ToBe(count - 1, 2), seed])
  }

  function Prg(sid: Bytes, i: nat, seed: Digest): PrgOutput {
    PrgChunks(sid, i, seed, CHUNKS)[..EXTENDED_BYTES]
  }

  function ExtendSeeds(sid: Bytes, seeds: seq<Digest>): (rows: seq<PrgOutput>)
    ensures |rows| == |seeds|
  {
    seq(|seeds|, i requires 0 <= i < |seeds| => Prg(sid, i, seeds[i]))
  }

  // The consistency check

  function Chi(sid: Bytes, name: string, u: seq<PrgOutput>): FieldElement {
    TaggedHash(TAG_OTE_CHI, [sid, Ascii(name), Concat(u)])[..OT_SECURITY_BYTES]
  }

  /** The combination of the three blocks of a row with weights chi1, chi2 and 1. */
  function Combine(row: PrgOutput, chi1: FieldElement, chi2: FieldElement): FieldElement {
    Xor(Xor(FieldProduct(row[..26], chi1), FieldProduct(row[26..52], chi2)), row[52..])
  }

  lemma CombineXor(s: PrgOutput, t: PrgOutput, chi1: FieldElement, chi2: FieldElement)
    ensures Combine(Xor(s, t), chi1, chi2) == Xor(Combine(s, chi1, chi2), Combine(t, chi1, chi2))
  {
    var r := Xor(s, t);
    assert r[..26] == Xor(s[..26], t[..26]);
    assert r[26..52] == Xor(s[26..52], t[26..52]);
    assert r[52..] == Xor(s[52..], t[52..]);
    FieldProductXor(s[..26], t[..26], chi1);
    FieldProductXor(s[26..52], t[26..52], chi2);
    hide FieldProduct;
    XorSwap(FieldProduct(s[..26], chi1), FieldProduct(t[..26], chi1),
            FieldProduct(s[26..52], chi2), FieldProduct(t[26..52], chi2), s[52..], t[52..]);
  }

  lemma XorSwap(a: FieldElement, a': FieldElement, b: FieldElement, b': FieldElement, c: FieldElement, c': FieldElement)
    ensures Xor(Xor(Xor(a, a'), Xor(b, b')), Xor(c, c')) == Xor(Xor(Xor(a, b), c), Xor(Xor(a', b'), c'))
  {
    forall k | 0 <= k < OT_SECURITY_BYTES
      ensures ((a[k] ^ a'[k]) ^ (b[k] ^ b'[k])) ^ (c[k] ^ c'[k]) == ((a[k] ^ b[k]) ^ c[k]) ^ ((a'[k] ^ b'[k]) ^ c'[k]) {
      XorSwapByte(a[k], a'[k], b[k], b'[k], c[k], c'[k]);
    }
  }

  lemma XorSwapByte(a: bv8, a': bv8, b: bv8, b': bv8, c: bv8, c': bv8)
    ensures ((a ^ a') ^ (b ^ b')) ^ (c ^ c') == ((a ^ b) ^ c) ^ ((a' ^ b') ^ c')
  {}

  // The receiver's first phase

  function ChoiceRow(choice: seq<bool>, noise: seq<bool>): PrgOutput {
    PackBits(choice + noise, EXTENDED_BYTES)
  }

  function MatrixU(t0: seq<PrgOutput>, t1: seq<PrgOutput>, x: PrgOutput): (u: seq<PrgOutput>)
    requires |t0| == |t1|
    ensures |u| == |t0|
  {
    seq(|t0|, i requires 0 <= i < |t0| => Xor(Xor(t0[i], t1[i]), x))
  }

  function CombineRows(rows: seq<PrgOutput>, chi1: FieldElement, chi2: FieldElement): (r: seq<FieldElement>)
    ensures |r| == |rows|
  {
    seq(|rows|, i requires 0 <= i < |rows| => Combine(rows[i], chi1, chi2))
  }

  function ReceiverData(r: OteReceiver, sid: Bytes, choice: seq<bool>, noise: seq<bool>): OteData
    requires ReceiverSized(r)
  {
    var x := ChoiceRow(choice, noise);
    var t0 := ExtendSeeds(sid, r.seeds0);
    var u := MatrixU(t0, ExtendSeeds(sid, r.seeds1), x);
    var chi1, chi2 := Chi(sid, "chi1", u), Chi(sid, "chi2", u);
    OteData(u, Combine(x, chi1, chi2), CombineRows(t0, chi1, chi2))
  }

  function ReceiverPhase1(r: OteReceiver, sid: Bytes, choice: seq<bool>, noise: seq<bool>)
    : Result<(seq<PrgOutput>, OteData), ErrorOt>
  {
    if |choice| != BATCH_SIZE || !ReceiverSized(r) then Err(MalformedMessage)
    else Ok((ExtendSeeds(sid, r.seeds0), ReceiverData(r, sid, choice, noise)))
  }

  // The sender

  function SelectRow(bit: bool, u: PrgOutput, e: PrgOutput): PrgOutput {
    if bit then Xor(u, e) else e
  }

  function SenderMatrix(s: OteSender, sid: Bytes, u: seq<PrgOutput>): (q: seq<PrgOutput>)
    requires SenderSized(s) && |u| == KAPPA
    ensures |q| == KAPPA
  {
    var e := ExtendSeeds(sid, s.seeds);
    seq(KAPPA, i requires 0 <= i < KAPPA => SelectRow(s.correlation[i], u[i], e[i]))
  }

  function SelectElement(bit: bool, x: FieldElement): FieldElement {
    if bit then x else seq(OT_SECURITY_BYTES, _ => 0)
  }

  /** The sender's check of one row. */
  predicate RowConsistent(q: PrgOutput, bit: bool, t: FieldElement, x: FieldElement, chi1: FieldElement, chi2: FieldElement) {
    Combine(q, chi1, chi2) == Xor(t, SelectElement(bit, x))
  }

  predicate Consistent(s: OteSender, sid: Bytes, data: OteData)
    requires SenderSized(s) && DataSized(data)
  {
    var q := SenderMatrix(s, sid, data.u);
    var chi1, chi2 := Chi(sid, "chi1", data.u), Chi(sid, "chi2", data.u);
    forall i :: 0 <= i < KAPPA ==>
      RowConsistent(q[i], s.correlation[i], data.verifyT[i], data.verifyX, chi1, chi2)
  }

  /** The scalar that randomises output row `row` with index `j` in iteration `iteration`. */
  function Randomize(sid: Bytes, j: nat, iteration: nat, row: KappaRow): Scalar {
    TaggedScalar(TAG_OTE_RANDOMIZE, [sid, ToBe(j, 2), ToBe(iteration, 1), row])
  }

  function RandomRow(sid: Bytes, iteration: nat, rows: seq<KappaRow>): (v: seq<Scalar>)
    ensures |v| == |rows|
  {
    seq(|rows|, j requires 0 <= j < |rows| => Randomize(sid, j, iteration, rows[j]))
  }

  /** Every row with the packed correlation added. */
  function Shifted(rows: seq<KappaRow>, delta: KappaRow): (r: seq<KappaRow>)
    ensures |r| == |rows|
  {
    seq(|rows|, j requires 0 <= j < |rows| => Xor(rows[j], delta))
  }

  function TauRow(v0: seq<Scalar>, v1: seq<Scalar>, correlation: seq<Scalar>): (t: seq<Scalar>)
    requires |v0| == |v1| == |correlation|
    ensures |t| == |v0|
  {
    seq(|v0|, j requires 0 <= j < |v0| => Add(Sub(v1[j], v0[j]), correlation[j]))
  }

  function SenderOutput(sid: Bytes, q: seq<PrgOutput>, width: nat): (m: Matrix)
    ensures MatrixSized(m, width)
  {
    seq(width, k requires 0 <= k < width => RandomRow(sid, k, Transposed(q)))
  }

  function SenderTau(sid: Bytes, q: seq<PrgOutput>, delta: KappaRow, correlations: Matrix): (m: Matrix)
    requires MatrixSized(correlations, |correlations|)
    ensures MatrixSized(m, |correlations|)
  {
    seq(|correlations|, k requires 0 <= k < |correlations| =>
      TauRow(RandomRow(sid, k, Transposed(q)), RandomRow(sid, k, Shifted(Transposed(q), delta)), correlations[k]))
  }

  function SenderRun(s: OteSender, sid: Bytes, width: nat, correlations: Matrix, data: OteData)
    : (r: Result<(Matrix, Matrix), ErrorOt>)
    ensures r.Ok? ==> MatrixSized(r.value.0, width) && MatrixSized(r.value.1, width)
  {
    if !MatrixSized(correlations, width) || !SenderSized(s) || !DataSized(data) then Err(MalformedMessage)
    else if !Consistent(s, sid, data) then Err(ConsistencyFailure)
    else
      var q := SenderMatrix(s, sid, data.u);
      Ok((SenderOutput(sid, q, width), SenderTau(sid, q, PackBits(s.correlation, KAPPA_BYTES), correlations)))
  }

  // The receiver's second phase

  function ChooseRow(v: seq<Scalar>, tau: seq<Scalar>, choice: seq<bool>): (t: seq<Scalar>)
    requires |v| == |tau| == |choice|
    ensures |t| == |v|
  {
    seq(|v|, j requires 0 <= j < |v| => if choice[j] then Add(tau[j], Neg(v[j])) else Neg(v[j]))
  }

  function ReceiverOutput(sid: Bytes, rows: seq<PrgOutput>, choice: seq<bool>, taus: Matrix): (m: Matrix)
    requires |choice| == BATCH_SIZE && MatrixSized(taus, |taus|)
    ensures MatrixSized(m, |taus|)
  {
    seq(|taus|, k requires 0 <= k < |taus| => ChooseRow(RandomRow(sid, k, Transposed(rows)), taus[k], choice))
  }

  function ReceiverPhase2(sid: Bytes, width: nat, choice: seq<bool>, rows: seq<PrgOutput>, taus: Matrix)
    : (r: Result<Matrix, ErrorOt>)
    ensures r.Ok? ==> |choice| == BATCH_SIZE && MatrixSized(r.value, width)
  {
    if |choice| != BATCH_SIZE || |rows| != KAPPA || !MatrixSized(taus, width) then Err(MalformedMessage)
    else Ok(ReceiverOutput(sid, rows, choice, taus))
  }

  // Correctness of an honest run

  lemma RowRelation(t0: PrgOutput, t1: PrgOutput, x: PrgOutput)
    ensures Xor(Xor(Xor(t0, t1), x), t1) == Xor(t0, x)
  {
    forall k | 0 <= k < EXTENDED_BYTES ensures ((t0[k] ^ t1[k]) ^ x[k]) ^ t1[k] == t0[k] ^ x[k] {
      XorRelationByte(t0[k], t1[k], x[k]);
    }
  }

  lemma XorRelationByte(a: bv8, b: bv8, x: bv8)
    ensures ((a ^ b) ^ x) ^ b == a ^ x
  {}

  /** The sender's matrix is the receiver's with the choice row added in the selected rows. */
  lemma MatrixRelation(s: OteSender, r: OteReceiver, sid: Bytes, choice: seq<bool>, noise: seq<bool>, i: nat)
    requires SeedRelation(s, r) && i < KAPPA
    ensures SenderMatrix(s, sid, ReceiverData(r, sid, choice, noise).u)[i]
         == if s.correlation[i] then Xor(ExtendSeeds(sid, r.seeds0)[i], ChoiceRow(choice, noise))
            else ExtendSeeds(sid, r.seeds0)[i]
  {
    hide Prg, Xor, ChoiceRow, Chi, Combine;
    RowRelation(Prg(sid, i, r.seeds0[i]), Prg(sid, i, r.seeds1[i]), ChoiceRow(choice, noise));
  }

  lemma XorZero(t: FieldElement, x: FieldElement)
    ensures Xor(t, SelectElement(false, x)) == t
  {
    forall k | 0 <= k < OT_SECURITY_BYTES ensures t[k] ^ 0 == t[k] { XorZeroByte(t[k]); }
  }

  lemma XorZeroByte(b: bv8)
    ensures b ^ 0 == b
  {}

  /** The honest receiver's data passes the sender's consistency check. */
  lemma HonestConsistent(s: OteSender, r: OteReceiver, sid: Bytes, choice: seq<bool>, noise: seq<bool>)
    requires SeedRelation(s, r)
    ensures Consistent(s, sid, ReceiverData(r, sid, choice, noise))
  {
    hide Prg, Xor, ChoiceRow, Chi, Combine, SelectElement;
    var data := ReceiverData(r, sid, choice, noise);
    var x := ChoiceRow(choice, noise);
    var t0 := ExtendSeeds(sid, r.seeds0);
    var q := SenderMatrix(s, sid, data.u);
    var chi1, chi2 := Chi(sid, "chi1", data.u), Chi(sid, "chi2", data.u);
    forall i | 0 <= i < KAPPA
      ensures RowConsistent(q[i], s.correlation[i], data.verifyT[i], data.verifyX, chi1, chi2)
    {
      MatrixRelation(s, r, sid, choice, noise, i);
      CombineXor(t0[i], x, chi1, chi2);
      XorZero(data.verifyT[i], data.verifyX);
      SelectTrue(data.verifyX);
    }
  }

  lemma SelectTrue(x: FieldElement)
    ensures SelectElement(true, x) == x
  {}

  /** The two parties' transposed rows agree when the choice bit is off, and differ by the
      packed correlation when it is on. */
  lemma TransposedRelation(s: OteSender, r: OteReceiver, sid: Bytes, choice: seq<bool>, noise: seq<bool>, j: nat)
    requires SeedRelation(s, r) && |choice| == BATCH_SIZE && |noise| == OT_SECURITY && j < BATCH_SIZE
    ensures Transposed(SenderMatrix(s, sid, ReceiverData(r, sid, choice, noise).u))[j]
         == if choice[j] then Xor(Transposed(ExtendSeeds(sid, r.seeds0))[j], PackBits(s.correlation, KAPPA_BYTES))
            else Transposed(ExtendSeeds(sid, r.seeds0))[j]
  {
    hide Prg, Xor, PackBits, Chi, Combine, Column, SenderMatrix, ReceiverData, ExtendSeeds;
    ReceiverDataSized(r, sid, choice, noise);
    var q := SenderMatrix(s, sid, ReceiverData(r, sid, choice, noise).u);
    var t := ExtendSeeds(sid, r.seeds0);
    var x := ChoiceRow(choice, noise);
    forall i | 0 <= i < KAPPA ensures q[i] == if s.correlation[i] then Xor(t[i], x) else t[i] {
      MatrixRelation(s, r, sid, choice, noise, i);
    }
    ColumnXor(t, q, s.correlation, x, j);
    PackBitsCoef(choice + noise, EXTENDED_BYTES, j);
  }

  /** The two outputs add up to the correlation where the choice bit is on, and to zero elsewhere. */
  predicate AddsUp(sent: Matrix, got: Matrix, correlations: Matrix, choice: seq<bool>) {
    && |choice| == BATCH_SIZE
    && MatrixSized(sent, |correlations|)
    && MatrixSized(got, |correlations|)
    && MatrixSized(correlations, |correlations|)
    && forall k, j :: 0 <= k < |correlations| && 0 <= j < BATCH_SIZE ==>
         Add(sent[k][j], got[k][j]) == if choice[j] then correlations[k][j] else 0
  }

  /** One entry of the outputs: x and y are the two parties' transposed rows. */
  lemma OutputEntry(sid: Bytes, j: nat, k: nat, x: KappaRow, y: KappaRow, delta: KappaRow, bit: bool, a: Scalar)
    requires x == if bit then Xor(y, delta) else y
    ensures var v := Randomize(sid, j, k, x);
            var tau := Add(Sub(Randomize(sid, j, k, Xor(x, delta)), v), a);
            var w := Neg(Randomize(sid, j, k, y));
            Add(v, if bit then Add(tau, w) else w) == if bit then a else 0
  {
    hide Xor, Randomize;
    XorCancel(y, delta);
  }

  lemma OutputsAddUp(sid: Bytes, q: seq<PrgOutput>, t: seq<PrgOutput>, delta: KappaRow, correlations: Matrix,
                     choice: seq<bool>)
    requires |choice| == BATCH_SIZE && MatrixSized(correlations, |correlations|)
    requires forall j :: 0 <= j < BATCH_SIZE ==>
      Transposed(q)[j] == if choice[j] then Xor(Transposed(t)[j], delta) else Transposed(t)[j]
    ensures AddsUp(SenderOutput(sid, q, |correlations|),
                   ReceiverOutput(sid, t, choice, SenderTau(sid, q, delta, correlations)), correlations, choice)
  {
    hide Xor, Randomize, Transposed;
    forall k, j | 0 <= k < |correlations| && 0 <= j < BATCH_SIZE
      ensures Add(SenderOutput(sid, q, |correlations|)[k][j],
                  ReceiverOutput(sid, t, choice, SenderTau(sid, q, delta, correlations))[k][j])
           == if choice[j] then correlations[k][j] else 0
    {
      OutputEntry(sid, j, k, Transposed(q)[j], Transposed(t)[j], delta, choice[j], correlations[k][j]);
    }
  }

  lemma ReceiverDataSized(r: OteReceiver, sid: Bytes, choice: seq<bool>, noise: seq<bool>)
    requires ReceiverSized(r)
    ensures DataSized(ReceiverData(r, sid, choice, noise))
  {}

  /** The three messages of a run between two honest parties. */
  function HonestRun(s: OteSender, r: OteReceiver, sid: Bytes, width: nat, correlations: Matrix,
                     choice: seq<bool>, noise: seq<bool>): Result<(Matrix, Matrix), ErrorOt>
  {
    match ReceiverPhase1(r, sid, choice, noise)
    case Err(e) => Err(e)
    case Ok((rows, data)) =>
      match SenderRun(s, sid, width, correlations, data)
      case Err(e) => Err(e)
      case Ok((sent, taus)) =>
        match ReceiverPhase2(sid, width, choice, rows, taus)
        case Err(e) => Err(e)
        case Ok(got) => Ok((sent, got))
  }

  /** The messages of an honest run: nobody rejects. */
  lemma HonestMessages(s: OteSender, r: OteReceiver, sid: Bytes, width: nat, correlations: Matrix,
                       choice: seq<bool>, noise: seq<bool>)
    requires SeedRelation(s, r) && MatrixSized(correlations, width)
    requires |choice| == BATCH_SIZE && |noise| == OT_SECURITY
    ensures var data := ReceiverData(r, sid, choice, noise);
            var q, t := SenderMatrix(s, sid, data.u), ExtendSeeds(sid, r.seeds0);
            var taus := SenderTau(sid, q, PackBits(s.correlation, KAPPA_BYTES), correlations);
            && ReceiverPhase1(r, sid, choice, noise) == Ok((t, data))
            && SenderRun(s, sid, width, correlations, data) == Ok((SenderOutput(sid, q, width), taus))
            && ReceiverPhase2(sid, width, choice, t, taus) == Ok(ReceiverOutput(sid, t, choice, taus))
  {
    hide Prg, Xor, PackBits, Chi, Combine, SenderMatrix, ReceiverData, ExtendSeeds, Randomize, Consistent,
         SenderOutput, SenderTau, ReceiverOutput;
    HonestConsistent(s, r, sid, choice, noise);
    ReceiverDataSized(r, sid, choice, noise);
  }

  /** Correctness of the extension, message by message: an honest run is accepted on both sides,
      and the two outputs add up to the correlation exactly where the choice bit is on, for every
      width. */
  lemma HonestExchange(s: OteSender, r: OteReceiver, sid: Bytes, width: nat, correlations: Matrix,
                       choice: seq<bool>, noise: seq<bool>)
    returns (rows: seq<PrgOutput>, data: OteData, sent: Matrix, taus: Matrix, got: Matrix)
    requires SeedRelation(s, r) && MatrixSized(correlations, width)
    requires |choice| == BATCH_SIZE && |noise| == OT_SECURITY
    ensures ReceiverPhase1(r, sid, choice, noise) == Ok((rows, data))
    ensures SenderRun(s, sid, width, correlations, data) == Ok((sent, taus))
    ensures ReceiverPhase2(sid, width, choice, rows, taus) == Ok(got)
    ensures AddsUp(sent, got, correlations, choice)
  {
    hide Prg, Xor, PackBits, Chi, Combine, SenderMatrix, ReceiverData, ExtendSeeds, Randomize, Transposed,
         SenderOutput, SenderTau, ReceiverOutput, ReceiverPhase1, ReceiverPhase2, SenderRun, Consistent;
    HonestMessages(s, r, sid, width, correlations, choice, noise);
    ReceiverDataSized(r, sid, choice, noise);
    data := ReceiverData(r, sid, choice, noise);
    rows := ExtendSeeds(sid, r.seeds0);
    var q, delta := SenderMatrix(s, sid, data.u), PackBits(s.correlation, KAPPA_BYTES);
    sent, taus := SenderOutput(sid, q, width), SenderTau(sid, q, delta, correlations);
    got := ReceiverOutput(sid, rows, choice, taus);
    forall j | 0 <= j < BATCH_SIZE
      ensures Transposed(q)[j] == if choice[j] then Xor(Transposed(rows)[j], delta) else Transposed(rows)[j]
    {
      TransposedRelation(s, r, sid, choice, noise, j);
    }
    OutputsAddUp(sid, q, rows, delta, correlations, choice);
  }

  /** The same for the run as a whole. */
  lemma OteCorrect(s: OteSender, r: OteReceiver, sid: Bytes, width: nat, correlations: Matrix,
                   choice: seq<bool>, noise: seq<bool>)
    requires SeedRelation(s, r) && MatrixSized(correlations, width)
    requires |choice| == BATCH_SIZE && |noise| == OT_SECURITY
    ensures HonestRun(s, r, sid, width, correlations, choice, noise).Ok?
    ensures var (sent, got) := HonestRun(s, r, sid, width, correlations, choice, noise).value;
            AddsUp(sent, got, correlations, choice)
  {
    hide ReceiverPhase1, ReceiverPhase2, SenderRun, AddsUp;
    var rows, data, sent, taus, got := HonestExchange(s, r, sid, width, correlations, choice, noise);
  }
}
