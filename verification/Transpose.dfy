/** The bit-matrix transpose of the OT extension. */
module Transpose {
  import opened Bits
  import opened Results
  import opened OtErrors
  import opened OtConstants

  /** Column `c` of the matrix, as a packed row. */
  function Column(input: seq<PrgOutput>, c: int): (r: seq<bv8>)
    ensures |r| == KAPPA_BYTES
  {
    Pack(n => 0 <= n < |input| && Coef(input[n], c), KAPPA_BYTES)
  }

  /** The transpose of the first BATCH_SIZE columns. */
  function Transposed(input: seq<PrgOutput>): (r: seq<KappaRow>)
    ensures |r| == BATCH_SIZE
  {
    seq(BATCH_SIZE, c => Column(input, c))
  }

  /** Bit r of output row c is bit c of input row r. */
  lemma TransposedBit(input: seq<PrgOutput>, r: int, c: nat)
    requires |input| == KAPPA && c < BATCH_SIZE
    ensures Coef(Transposed(input)[c], r) == (0 <= r < KAPPA && Coef(input[r], c))
  {
    PackCoef(n => 0 <= n < |input| && Coef(input[n], c), KAPPA_BYTES, r);
  }

  /** The entries written before row `row`, column `col` in the order of the loops. */
  predicate Written(row: int, col: int, r: int, c: int) {
    r < row || (r == row && c < col)
  }

  ghost predicate PartlyTransposed(input: seq<PrgOutput>, output: array2<bv8>, row: int, col: int)
    requires |input| == KAPPA && output.Length0 == BATCH_SIZE && output.Length1 == KAPPA_BYTES
    reads output
  {
    forall c, r :: 0 <= c < BATCH_SIZE && 0 <= r < KAPPA ==>
      Bit8(output[c, r / 8], r % 8) == (Written(row, col, r, c) && Coef(input[r], c))
  }

  method CutAndTranspose(input: seq<PrgOutput>) returns (result: Result<seq<KappaRow>, ErrorOt>)
    ensures |input| != KAPPA ==> result == Err(MalformedMessage)
    ensures |input| == KAPPA ==> result == Ok(Transposed(input))
  {
    if |input| != KAPPA {
      return Err(MalformedMessage);
    }
    hide Ix, Bit8, GetBit, PutBit;
    var output := new bv8[BATCH_SIZE, KAPPA_BYTES]((_, _) => 0);
    forall c, r | 0 <= c < BATCH_SIZE && 0 <= r < KAPPA ensures !Bit8(output[c, r / 8], r % 8) { BitZero(r % 8); }
    for rowByte := 0 to KAPPA_BYTES
      invariant PartlyTransposed(input, output, 8 * rowByte, 0)
    {
      for rowBit := 0 to 8
        invariant PartlyTransposed(input, output, 8 * rowByte + rowBit, 0)
      {
        var row := 8 * rowByte + rowBit;
        for columnByte := 0 to BATCH_SIZE / 8
          invariant PartlyTransposed(input, output, row, 8 * columnByte)
        {
          for columnBit := 0 to 8
            invariant PartlyTransposed(input, output, row, 8 * columnByte + columnBit)
          {
            TransposeEntry(input, output, rowByte, rowBit, columnByte, columnBit);
          }
        }
      }
    }
    var rows := CollectRows(input, output);
    result := Ok(rows);
  }

  method CollectRows(ghost input: seq<PrgOutput>, output: array2<bv8>) returns (rows: seq<KappaRow>)
    requires |input| == KAPPA && output.Length0 == BATCH_SIZE && output.Length1 == KAPPA_BYTES
    requires PartlyTransposed(input, output, KAPPA, 0)
    ensures rows == Transposed(input)
  {
    hide Bit8, Column;
    rows := [];
    for c := 0 to BATCH_SIZE
      invariant |rows| == c
      invariant forall k :: 0 <= k < c ==> rows[k] == Column(input, k)
    {
      var row := seq(KAPPA_BYTES, k requires 0 <= k < KAPPA_BYTES reads output => output[c, k]);
      forall n | 0 <= n < 8 * KAPPA_BYTES ensures Coef(row, n) == Coef(Column(input, c), n) {
        ColumnCoef(input, n, c);
        assert Bit8(output[c, n / 8], n % 8) == (Written(KAPPA, 0, n, c) && Coef(input[n], c));
      }
      hide Coef;
      CoefExt(row, Column(input, c));
      rows := rows + [row];
    }
  }

  /** The body of the innermost loop. */
  method TransposeEntry(input: seq<PrgOutput>, output: array2<bv8>,
                        rowByte: nat, rowBit: nat, columnByte: nat, columnBit: nat)
    requires |input| == KAPPA && output.Length0 == BATCH_SIZE && output.Length1 == KAPPA_BYTES
    requires rowByte < KAPPA_BYTES && rowBit < 8 && columnByte < BATCH_SIZE / 8 && columnBit < 8
    requires PartlyTransposed(input, output, 8 * rowByte + rowBit, 8 * columnByte + columnBit)
    modifies output
    ensures PartlyTransposed(input, output, 8 * rowByte + rowBit, 8 * columnByte + columnBit + 1)
  {
    hide Ix, Bit8, GetBit, PutBit;
    var row, column := 8 * rowByte + rowBit, 8 * columnByte + columnBit;
    IxSmall(rowBit);
    IxSmall(columnBit);
    var x, y := output[column, rowByte], input[row][columnByte];
    output[column, rowByte] := PutBit(x, GetBit(y, Ix(columnBit)), Ix(rowBit));
    forall c, r | 0 <= c < BATCH_SIZE && 0 <= r < KAPPA
      ensures Bit8(output[c, r / 8], r % 8) == (Written(row, column + 1, r, c) && Coef(input[r], c))
    {
      if c == column && r / 8 == rowByte {
        BitPut(x, y, columnBit, rowBit, r % 8);
        assert Bit8(x, r % 8) == (Written(row, column, r, c) && Coef(input[r], c));
      }
    }
  }

  // Linearity

  /** Adding the row x to exactly the input rows selected by the booleans `delta` adds the packed
      `delta` to exactly the output rows selected by the coefficients of x. */
  lemma ColumnXor(t: seq<PrgOutput>, q: seq<PrgOutput>, delta: seq<bool>, x: PrgOutput, c: nat)
    requires |t| == |q| == |delta| == KAPPA && c < BATCH_SIZE
    requires forall i :: 0 <= i < KAPPA ==> q[i] == if delta[i] then Xor(t[i], x) else t[i]
    ensures Column(q, c) == if Coef(x, c) then Xor(Column(t, c), PackBits(delta, KAPPA_BYTES)) else Column(t, c)
  {
    hide Coef, PackBits, Column, Xor;
    var d := PackBits(delta, KAPPA_BYTES);
    var s := if Coef(x, c) then Xor(Column(t, c), d) else Column(t, c);
    forall r | 0 <= r < KAPPA ensures Coef(Column(q, c), r) == Coef(s, r) {
      ColumnCoef(t, r, c);
      ColumnCoef(q, r, c);
      PackBitsCoef(delta, KAPPA_BYTES, r);
      CoefXor(t[r], x, c);
      CoefXor(Column(t, c), d, r);
    }
    CoefExt(Column(q, c), s);
  }

  lemma ColumnCoef(input: seq<PrgOutput>, r: nat, c: int)
    requires |input| == KAPPA && r < KAPPA
    ensures Coef(Column(input, c), r) == Coef(input[r], c)
  {
    PackCoef(n => 0 <= n < |input| && Coef(input[n], c), KAPPA_BYTES, r);
  }
}
