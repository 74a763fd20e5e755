/** Multiplication of field elements on 64-bit words: the right-to-left comb method
    (Algorithm 2.34 of Hankerson, Menezes and Vanstone) and a word-by-word reduction. */
module FieldMul {
  import opened Bits
  import opened BinaryField
  import opened Results
  import opened OtErrors

  const W := 64
  const T := 4

  // Single words

  lemma SetWord(c: seq<bv64>, w: nat, v: bv64, n: int)
    requires w < |c|
    ensures WordCoef(c[w := v], n) == if 64 * w <= n < 64 * w + 64 then Bit(v, n - 64 * w) else WordCoef(c, n)
    ensures 64 * w <= n < 64 * w + 64 ==> WordCoef(c, n) == Bit(c[w], n - 64 * w)
  {
    hide Bit;
  }

  lemma XorWord(c: seq<bv64>, w: nat, v: bv64, n: int)
    requires w < |c|
    ensures WordCoef(c[w := Xor64(c[w], v)], n)
         == (WordCoef(c, n) != (64 * w <= n < 64 * w + 64 && Bit(v, n - 64 * w)))
  {
    hide WordCoef, Bit, Xor64;
    SetWord(c, w, Xor64(c[w], v), n);
    if 64 * w <= n < 64 * w + 64 { BitXor(c[w], v, n - 64 * w); }
  }

  lemma ZeroWords(c: seq<bv64>, n: int)
    requires forall k :: 0 <= k < |c| ==> c[k] == 0
    ensures !WordCoef(c, n)
  {
    if 0 <= n < 64 * |c| { BitZero(n % 64); }
  }

  /** Words as a polynomial. */
  function Words(c: seq<bv64>): Coefs {
    n => WordCoef(c, n)
  }

  // Loading and storing

  lemma OrByte(c: seq<bv64>, i: nat, b: bv8, shift: bv8, n: int)
    requires i / 8 < |c| && shift == Ix(8 * (i % 8))
    requires !WordCoef(c, n) || n < 8 * i
    ensures shift < 64
    ensures WordCoef(c[i / 8 := Or64(c[i / 8], Shl64(Widen(b), shift))], n)
         == if 8 * i <= n < 8 * i + 8 then Bit8(b, n - 8 * i) else WordCoef(c, n)
  {
    hide Ix, Bit, Bit8, WordCoef, Widen, Shl64, Or64;
    var w, s := i / 8, 8 * (i % 8);
    assert ShiftAmount(s);
    BitShl(Widen(b), s, shift, 0);
    var v := Shl64(Widen(b), shift);
    SetWord(c, w, Or64(c[w], v), n);
    if 64 * w <= n < 64 * w + 64 {
      var m := n - 64 * w;
      BitOr(c[w], v, m);
      BitShl(Widen(b), s, shift, m);
      if m >= s { BitByte(b, m - s); }
    }
  }

  /** The first loop of the source: 26 little-endian bytes to words. */
  method Load(bytes: seq<bv8>, len: nat) returns (a: array<bv64>)
    requires |bytes| == FIELD_BYTES && len >= T
    ensures fresh(a) && a.Length == len
    ensures forall n :: WordCoef(a[..], n) == Coef(bytes, n)
  {
    hide Ix, Bit, Bit8, Widen, Shl64, Or64;
    a := new bv64[len](_ => 0);
    forall n ensures !WordCoef(a[..], n) { ZeroWords(a[..], n); }
    for i := 0 to FIELD_BYTES
      invariant forall n :: WordCoef(a[..], n) == (n < 8 * i && Coef(bytes, n))
    {
      var shift := Ix(8 * (i % 8));
      ghost var c := a[..];
      IxSmall(8 * (i % 8));
      a[i / 8] := Or64(a[i / 8], Shl64(Widen(bytes[i]), shift));
      assert a[..] == c[i / 8 := Or64(c[i / 8], Shl64(Widen(bytes[i]), shift))];
      forall n ensures WordCoef(a[..], n) == (n < 8 * (i + 1) && Coef(bytes, n)) {
        OrByte(c, i, bytes[i], shift, n);
      }
    }
  }

  /** The last loop of the source: words back to 26 little-endian bytes. */
  method Store(c: array<bv64>) returns (r: seq<bv8>)
    requires c.Length == 2 * T
    ensures |r| == FIELD_BYTES
    ensures forall n :: Coef(r, n) == (n < 8 * FIELD_BYTES && WordCoef(c[..], n))
  {
    hide Ix, Bit, Bit8, LowByte, Shr64;
    r := [];
    for i := 0 to FIELD_BYTES
      invariant |r| == i
      invariant forall n :: Coef(r, n) == (n < 8 * i && WordCoef(c[..], n))
    {
      var shift := Ix(8 * (i % 8));
      IxSmall(8 * (i % 8));
      var b := LowByte(Shr64(c[i / 8], shift));
      ghost var r0 := r;
      r := r + [b];
      forall n ensures Coef(r, n) == (n < 8 * (i + 1) && WordCoef(c[..], n)) {
        StoreByte(c[..], i, shift, r0, n);
      }
    }
  }

  lemma StoreByte(c: seq<bv64>, i: nat, shift: bv8, r: seq<bv8>, n: int)
    requires i / 8 < |c| && shift == Ix(8 * (i % 8)) && |r| == i
    requires Coef(r, n) == (n < 8 * i && WordCoef(c, n))
    ensures shift < 64
    ensures Coef(r + [LowByte(Shr64(c[i / 8], shift))], n) == (n < 8 * (i + 1) && WordCoef(c, n))
  {
    hide Ix, Bit, Bit8, LowByte, Shr64;
    var s := 8 * (i % 8);
    assert ShiftAmount(s);
    BitShr(c[i / 8], s, shift, 0);
    if 8 * i <= n < 8 * i + 8 {
      BitShr(c[i / 8], s, shift, n - 8 * i);
      BitLow(Shr64(c[i / 8], shift), n - 8 * i);
    }
  }

  // The comb

  /** One row of the comb: adds `b`, moved up by `j` words, to `c` when bit 0 of `x` is set. */
  method AddRow(c: array<bv64>, b: array<bv64>, j: nat, x: bv64)
    requires c.Length == 2 * T && b.Length == T + 1 && j < T && c != b
    modifies c
    ensures forall n :: WordCoef(c[..], n)
                     == (old(WordCoef(c[..], n)) != (At(x, 0) && WordCoef(b[..], n - 64 * j)))
  {
    hide At, Bit, And64, Xor64, Mask;
    var mask := Mask(x);
    ghost var c0 := c[..];
    for i := 0 to T + 1
      invariant forall n :: WordCoef(c[..], n)
                         == (WordCoef(c0, n) != (At(x, 0) && n - 64 * j < 64 * i && WordCoef(b[..], n - 64 * j)))
    {
      ghost var c1 := c[..];
      ghost var v := And64(b[i], mask);
      c[j + i] := Xor64(c[j + i], And64(b[i], mask));
      assert c[..] == c1[j + i := Xor64(c1[j + i], v)];
      MaskSelect(b[i], x);
      forall n ensures WordCoef(c[..], n)
                    == (WordCoef(c0, n) != (At(x, 0) && n - 64 * j < 64 * (i + 1) && WordCoef(b[..], n - 64 * j))) {
        XorWord(c1, j + i, v, n);
        var m := n - 64 * (j + i);
        if 0 <= m < 64 {
          BitZero(m);
          SetWord(b[..], i, b[i], n - 64 * j);
        }
      }
    }
  }

  /** Moves `b` up by one coefficient.  In the last round of the comb only its lowest word
      is shifted, since `b` is not read again. */
  method ShiftLeft(b: array<bv64>, last: bool)
    requires b.Length == T + 1
    modifies b
    ensures !last ==> forall n :: 0 <= n < 64 * (T + 1) ==> WordCoef(b[..], n) == old(WordCoef(b[..], n - 1))
  {
    hide Bit, Shl64, Shr64, Or64;
    ghost var b0 := b[..];
    if !last {
      for i := T downto 0
        invariant b[..i + 1] == b0[..i + 1]
        invariant forall k :: i < k <= T ==> b[k] == Or64(Shl64(b0[k], 1), Shr64(b0[k - 1], 63))
      {
        b[i + 1] := Or64(Shl64(b[i + 1], 1), Shr64(b[i], 63));
      }
    }
    b[0] := Shl64(b[0], 1);
    if !last {
      forall n | 0 <= n < 64 * (T + 1) ensures WordCoef(b[..], n) == WordCoef(b0, n - 1) {
        ShiftedWord(b0, b[..], n);
      }
    }
  }

  lemma ShiftedWord(b0: seq<bv64>, b: seq<bv64>, n: nat)
    requires |b0| == |b| == T + 1 && n < 64 * (T + 1)
    requires b[0] == Shl64(b0[0], 1)
    requires forall k :: 0 < k <= T ==> b[k] == Or64(Shl64(b0[k], 1), Shr64(b0[k - 1], 63))
    ensures WordCoef(b, n) == WordCoef(b0, n - 1)
  {
    hide Bit, Shl64, Shr64, Or64;
    var w, m := n / 64, n % 64;
    IxConsts();
    BitShl(b0[w], 1, 1, m);
    if w > 0 {
      BitOr(Shl64(b0[w], 1), Shr64(b0[w - 1], 63), m);
      BitShr(b0[w - 1], 63, 63, m);
    }
  }

  /** The terms of the product with left index k, 64 + k, .., below 64 * j. */
  predicate Row(f: Coefs, g: Coefs, k: int, j: nat, n: int) {
    Par(i => f(64 * i + k) && g(n - (64 * i + k)), j)
  }

  function BlockSums(h: Coefs): Coefs {
    j => Par(FromIndex(h, 64 * j), W)
  }

  lemma {:induction false} Blocks(h: Coefs, m: nat)
    ensures Par(BlockSums(h), m) == Par(h, 64 * m)
  {
    hide Par;
    ParLast(BlockSums(h), 0);
    ParLast(h, 0);
    if m > 0 {
      Blocks(h, m - 1);
      ParLast(BlockSums(h), m - 1);
      ParSplit(h, 64 * (m - 1), 64);
    }
  }

  /** The terms whose left index has its bit position below `k`. */
  predicate Rows(f: Coefs, g: Coefs, k: nat, n: int) {
    Par(i => Row(f, g, i, T, n), k)
  }

  lemma RowStep(f: Coefs, g: Coefs, k: nat, j: nat, n: int)
    ensures Row(f, g, k, j + 1, n) == (Row(f, g, k, j, n) != (f(64 * j + k) && g(n - (64 * j + k))))
    ensures !Row(f, g, k, 0, n)
  {}

  lemma RowsStep(f: Coefs, g: Coefs, k: nat, n: int)
    ensures Rows(f, g, k + 1, n) == (Rows(f, g, k, n) != Row(f, g, k, T, n))
    ensures !Rows(f, g, 0, n)
  {
    hide Row;
  }

  /** Visiting the left coefficients bit position by bit position sums all the terms. */
  lemma CombOrder(f: Coefs, g: Coefs, n: int)
    requires Supported(f, DEGREE)
    ensures Rows(f, g, W, n) == Product(f, g, DEGREE, n)
  {
    hide Par;
    var h := Terms(f, g, n);
    var h2 := (k: int, j: int) => h(64 * j + k);
    forall k ensures Row(f, g, k, T, n) == Par(j => h2(k, j), T) {
      ParExt(i => f(64 * i + k) && g(n - (64 * i + k)), j => h2(k, j), T);
    }
    ParExt(k => Row(f, g, k, T, n), k => Par(j => h2(k, j), T), W);
    ParExchange(h2, W, T);
    forall j ensures Par(k => h2(k, j), W) == BlockSums(h)(j) {
      ParExt(k => h2(k, j), FromIndex(h, 64 * j), W);
    }
    ParExt(j => Par(k => h2(k, j), W), BlockSums(h), T);
    Blocks(h, T);
    ParWiden(h, 64 * T, DEGREE);
  }

  /** The words `b` hold the polynomial `g` multiplied by X^k. */
  ghost predicate Moved(b: seq<bv64>, g: Coefs, k: int) {
    forall n :: WordCoef(b, n) == g(n - k)
  }

  lemma MovedOnce(b0: seq<bv64>, b: seq<bv64>, g: Coefs, k: nat)
    requires |b0| == |b| == T + 1 && Supported(g, DEGREE) && k < W - 1
    requires Moved(b0, g, k)
    requires forall n :: 0 <= n < 64 * (T + 1) ==> WordCoef(b, n) == WordCoef(b0, n - 1)
    ensures Moved(b, g, k + 1)
  {
    hide Bit;
    forall n ensures WordCoef(b, n) == g(n - (k + 1)) {
      if 0 <= n < 64 * (T + 1) { assert WordCoef(b0, n - 1) == g(n - 1 - k); }
    }
  }

  /** The inner loop of the comb: all the terms whose left index has bit position `k`. */
  method CombRound(a: array<bv64>, b: array<bv64>, c: array<bv64>, k: nat, ghost f: Coefs, ghost g: Coefs)
    requires a.Length == T && b.Length == T + 1 && c.Length == 2 * T && c != b && c != a && k < W
    requires Moved(a[..], f, 0) && Moved(b[..], g, k)
    modifies c
    ensures forall n :: WordCoef(c[..], n) == (old(WordCoef(c[..], n)) != Row(f, g, k, T, n))
  {
    hide Ix, Bit, At, Shr64, Row, WordCoef;
    ghost var c0 := c[..];
    forall n ensures !Row(f, g, k, 0, n) { RowStep(f, g, k, 0, n); }
    IxSmall(k);
    for j := 0 to T
      invariant forall n :: WordCoef(c[..], n) == (WordCoef(c0, n) != Row(f, g, k, j, n))
    {
      ShiftedLow(a[..], j, k);
      AddRow(c, b, j, Shr64(a[j], Ix(k)));
      forall n ensures WordCoef(c[..], n) == (WordCoef(c0, n) != Row(f, g, k, j + 1, n)) {
        RowStep(f, g, k, j, n);
      }
    }
  }

  method Comb(a: array<bv64>, b: array<bv64>, ghost f: Coefs, ghost g: Coefs) returns (c: array<bv64>)
    requires a.Length == T && b.Length == T + 1 && a != b
    requires Supported(f, DEGREE) && Supported(g, DEGREE)
    requires Moved(a[..], f, 0) && Moved(b[..], g, 0)
    modifies b
    ensures fresh(c) && c.Length == 2 * T
    ensures forall n :: WordCoef(c[..], n) == Product(f, g, DEGREE, n)
  {
    hide Bit, Product, Row, Rows, WordCoef, Moved;
    c := new bv64[2 * T](_ => 0);
    forall n ensures WordCoef(c[..], n) == Rows(f, g, 0, n) {
      ZeroWords(c[..], n);
      RowsStep(f, g, 0, n);
    }
    ghost var a0 := a[..];
    for k := 0 to W
      invariant a[..] == a0
      invariant k < W ==> Moved(b[..], g, k)
      invariant forall n :: WordCoef(c[..], n) == Rows(f, g, k, n)
    {
      CombRound(a, b, c, k, f, g);
      forall n ensures WordCoef(c[..], n) == Rows(f, g, k + 1, n) { RowsStep(f, g, k, n); }
      ghost var b0 := b[..];
      ShiftLeft(b, k == W - 1);
      if k < W - 1 { MovedOnce(b0, b[..], g, k); }
    }
    forall n ensures WordCoef(c[..], n) == Product(f, g, DEGREE, n) { CombOrder(f, g, n); }
  }

  lemma ShrLow(x: bv64, k: bv8)
    requires k < 64
    ensures At(Shr64(x, k), 0) == At(x, k)
  {}

  lemma ShiftedLow(a: seq<bv64>, j: nat, k: nat)
    requires j < |a| && k < 64
    ensures Ix(k) < 64 && At(Shr64(a[j], Ix(k)), 0) == WordCoef(a, 64 * j + k)
  {
    hide Ix, At, Shr64;
    IxSmall(k);
    ShrLow(a[j], Ix(k));
  }

  // The reduction

  /** Coefficient `n` of the word `t` moved up by `s`. */
  predicate Placed(t: bv64, s: int, n: int) {
    0 <= n - s < 64 && Bit(t, n - s)
  }

  /** What a word folds into four words below: X^256 is X^57 + X^51 + X^49 + X^48. */
  function FoldLow(t: bv64): bv64 {
    Xor64(Xor64(Xor64(Shl64(t, 57), Shl64(t, 51)), Shl64(t, 49)), Shl64(t, 48))
  }

  /** The part of the same fold that crosses into the next word. */
  function FoldHigh(t: bv64): bv64 {
    Xor64(Xor64(Xor64(Shr64(t, 7), Shr64(t, 13)), Shr64(t, 15)), Shr64(t, 16))
  }

  /** The final fold of the coefficients from 208 on. */
  function FoldLast(t: bv64): bv64 {
    Xor64(Xor64(Xor64(Shl64(t, 9), Shl64(t, 3)), Shl64(t, 1)), t)
  }

  lemma Xor4(a: bv64, b: bv64, c: bv64, d: bv64, m: nat)
    requires m < 64
    ensures Bit(Xor64(Xor64(Xor64(a, b), c), d), m) == (((Bit(a, m) != Bit(b, m)) != Bit(c, m)) != Bit(d, m))
  {
    hide Bit, Xor64;
    BitXor(a, b, m);
    BitXor(Xor64(a, b), c, m);
    BitXor(Xor64(Xor64(a, b), c), d, m);
  }

  lemma FoldLowBits(t: bv64, m: nat)
    requires m < 64
    ensures Bit(FoldLow(t), m)
         == (((Placed(t, 57, m) != Placed(t, 51, m)) != Placed(t, 49, m)) != Placed(t, 48, m))
  {
    hide Bit, Xor64, Shl64;
    IxConsts();
    Xor4(Shl64(t, 57), Shl64(t, 51), Shl64(t, 49), Shl64(t, 48), m);
    BitShl(t, 57, 57, m);
    BitShl(t, 51, 51, m);
    BitShl(t, 49, 49, m);
    BitShl(t, 48, 48, m);
  }

  lemma FoldHighBits(t: bv64, m: nat)
    requires m < 64
    ensures Bit(FoldHigh(t), m)
         == (((Placed(t, -7, m) != Placed(t, -13, m)) != Placed(t, -15, m)) != Placed(t, -16, m))
  {
    hide Bit, Xor64, Shr64;
    IxConsts();
    Xor4(Shr64(t, 7), Shr64(t, 13), Shr64(t, 15), Shr64(t, 16), m);
    BitShr(t, 7, 7, m);
    BitShr(t, 13, 13, m);
    BitShr(t, 15, 15, m);
    BitShr(t, 16, 16, m);
  }

  lemma FoldLastBits(t: bv64, m: nat)
    requires m < 64
    ensures Bit(FoldLast(t), m)
         == (((Placed(t, 9, m) != Placed(t, 3, m)) != Placed(t, 1, m)) != Placed(t, 0, m))
  {
    hide Bit, Xor64, Shl64;
    IxConsts();
    Xor4(Shl64(t, 9), Shl64(t, 3), Shl64(t, 1), t, m);
    BitShl(t, 9, 9, m);
    BitShl(t, 3, 3, m);
    BitShl(t, 1, 1, m);
  }

  function FoldWord(c: seq<bv64>, i: nat): seq<bv64>
    requires T <= i < |c|
  {
    var c1 := c[i - 4 := Xor64(c[i - 4], FoldLow(c[i]))];
    var c2 := c1[i - 3 := Xor64(c1[i - 3], FoldHigh(c[i]))];
    c2[i := 0]
  }

  /** Folding word `i` subtracts a multiple of the modulus. */
  lemma FoldWordDiffers(c: seq<bv64>, i: nat, n: int)
    requires T <= i < |c|
    ensures WordCoef(c, n)
         == (WordCoef(FoldWord(c, i), n) != TimesModulus(k => Placed(c[i], 64 * (i - 4) + 48, k), n))
  {
    hide Bit, Xor64, FoldLow, FoldHigh, WordCoef;
    var t := c[i];
    var c1 := c[i - 4 := Xor64(c[i - 4], FoldLow(t))];
    var c2 := c1[i - 3 := Xor64(c1[i - 3], FoldHigh(t))];
    XorWord(c, i - 4, FoldLow(t), n);
    XorWord(c1, i - 3, FoldHigh(t), n);
    SetWord(c2, i, 0, n);
    SetWord(c, i, 0, n);
    var lo, hi := n - 64 * (i - 4), n - 64 * (i - 3);
    if 0 <= lo < 64 { FoldLowBits(t, lo); }
    if 0 <= hi < 64 { FoldHighBits(t, hi); }
    if 0 <= n - 64 * i < 64 { BitZero(n - 64 * i); }
  }

  function FoldTop(c: seq<bv64>): seq<bv64>
    requires |c| >= T
  {
    c[0 := Xor64(c[0], FoldLast(Shr64(c[3], 16)))][3 := And64(c[3], 0xFFFF)]
  }

  /** The last fold subtracts a multiple of the modulus and leaves degree below 208. */
  lemma FoldTopDiffers(c: seq<bv64>, n: int)
    requires |c| == 2 * T && forall k :: T <= k < 2 * T ==> c[k] == 0
    ensures WordCoef(c, n)
         == (WordCoef(FoldTop(c), n) != TimesModulus(k => Placed(Shr64(c[3], 16), 0, k), n))
    ensures WordCoef(FoldTop(c), n) ==> n < DEGREE
  {
    hide Bit, Xor64, And64, Shr64, FoldLast, WordCoef, Placed;
    var t := Shr64(c[3], 16);
    var c1 := c[0 := Xor64(c[0], FoldLast(t))];
    XorWord(c, 0, FoldLast(t), n);
    SetWord(c1, 3, And64(c[3], 0xFFFF), n);
    SetWord(c, 3, 0, n);
    PlacedTop(c[3], n);
    if 0 <= n < 64 { FoldLastBits(t, n); }
    if 192 <= n < 256 { BitAnd16(c[3], n - 192); }
    if n >= 256 { HighZero(c, n); }
  }

  lemma TopBits(w: bv64, s: int, n: int)
    ensures Placed(Shr64(w, 16), s, n) == (0 <= n - s < 48 && Bit(w, n - s + 16))
  {
    hide Bit, Shr64;
    IxConsts();
    if 0 <= n - s < 64 { BitShr(w, 16, 16, n - s); }
  }

  /** Where the top 48 bits of a word land, moved to the terms of the modulus. */
  lemma PlacedTop(w: bv64, n: int)
    ensures TimesModulus(k => Placed(Shr64(w, 16), 0, k), n)
         == ((((Placed(Shr64(w, 16), 0, n) != Placed(Shr64(w, 16), 1, n)) != Placed(Shr64(w, 16), 3, n))
              != Placed(Shr64(w, 16), 9, n)) != (DEGREE <= n < 256 && Bit(w, n - 192)))
    ensures n < 0 || n >= 64 ==> forall s :: 0 <= s < 10 ==> !Placed(Shr64(w, 16), s, n)
  {
    hide Bit, Shr64;
    TopBits(w, DEGREE, n);
    forall s | 0 <= s < 10 ensures Placed(Shr64(w, 16), s, n) ==> 0 <= n < 64 { TopBits(w, s, n); }
  }

  lemma HighZero(c: seq<bv64>, n: int)
    requires |c| == 2 * T && (forall k :: T <= k < 2 * T ==> c[k] == 0) && n >= 256
    ensures !WordCoef(c, n)
  {
    if n < 512 { BitZero(n % 64); }
  }

  const QUOTIENT_BOUND := 304

  lemma Subtract(p: Coefs, r: Coefs, r': Coefs, h: Coefs, d: Coefs)
    requires Supported(h, QUOTIENT_BOUND) && Differ(p, r, h) && Supported(d, QUOTIENT_BOUND)
    requires forall n :: r(n) == (r'(n) != TimesModulus(d, n))
    ensures var h' := (n: int) => h(n) != d(n); Supported(h', QUOTIENT_BOUND) && Differ(p, r', h')
  {
    var h' := (n: int) => h(n) != d(n);
    forall n ensures p(n) == (r'(n) != TimesModulus(h', n)) {}
  }

  lemma FoldStep(p: Coefs, c: seq<bv64>, i: nat, h: Coefs) returns (h': Coefs)
    requires T <= i < |c| && i < 2 * T && Supported(h, QUOTIENT_BOUND) && Differ(p, Words(c), h)
    ensures Supported(h', QUOTIENT_BOUND) && Differ(p, Words(FoldWord(c, i)), h')
  {
    hide Bit, WordCoef, FoldWord, TimesModulus, Differ;
    forall n { FoldWordDiffers(c, i, n); }
    var d: Coefs := k => Placed(c[i], 64 * (i - 4) + 48, k);
    Subtract(p, Words(c), Words(FoldWord(c, i)), h, d);
    h' := n => h(n) != d(n);
  }

  lemma TopStep(p: Coefs, c: seq<bv64>, h: Coefs) returns (h': Coefs)
    requires |c| == 2 * T && forall k :: T <= k < 2 * T ==> c[k] == 0
    requires Supported(h, QUOTIENT_BOUND) && Differ(p, Words(c), h)
    ensures Supported(h', QUOTIENT_BOUND) && Differ(p, Words(FoldTop(c)), h')
  {
    hide Bit, WordCoef, FoldTop, Shr64, TimesModulus, Differ;
    forall n { FoldTopDiffers(c, n); }
    var d: Coefs := k => Placed(Shr64(c[3], 16), 0, k);
    Subtract(p, Words(c), Words(FoldTop(c)), h, d);
    h' := n => h(n) != d(n);
  }

  /** The source's reduction of the eight product words. */
  method Reduce(c: array<bv64>, ghost p: Coefs)
    requires c.Length == 2 * T && forall n :: WordCoef(c[..], n) == p(n)
    modifies c
    ensures Congruent(p, Words(c[..]), QUOTIENT_BOUND)
    ensures forall n :: WordCoef(c[..], n) ==> n < DEGREE
  {
    hide Bit, WordCoef, Xor64, Shl64, Shr64, And64, FoldLow, FoldHigh, FoldLast, TimesModulus, Differ;
    ghost var h: Coefs := _ => false;
    ZeroMultiple(p, Words(c[..]));
    for i := 2 * T downto T
      invariant forall k :: i <= k < 2 * T ==> c[k] == 0
      invariant Supported(h, QUOTIENT_BOUND) && Differ(p, Words(c[..]), h)
    {
      ghost var c0 := c[..];
      var t := c[i];
      c[i - 4] := Xor64(c[i - 4], FoldLow(t));
      c[i - 3] := Xor64(c[i - 3], FoldHigh(t));
      c[i] := 0;
      assert c[..] == FoldWord(c0, i);
      h := FoldStep(p, c0, i, h);
    }
    ghost var c0 := c[..];
    var t := Shr64(c[T - 1], 16);
    c[0] := Xor64(c[0], FoldLast(t));
    c[T - 1] := And64(c[T - 1], 0xFFFF);
    assert c[..] == FoldTop(c0);
    h := TopStep(p, c0, h);
    forall n ensures WordCoef(c[..], n) ==> n < DEGREE { FoldTopDiffers(c0, n); }
  }

  lemma ZeroMultiple(p: Coefs, r: Coefs)
    requires forall n :: p(n) == r(n)
    ensures Differ(p, r, _ => false)
  {}

  /** Multiplication of two field elements given as bytes; anything but 26 bytes is refused. */
  method Multiply(left: seq<bv8>, right: seq<bv8>) returns (r: Result<seq<bv8>, ErrorOt>)
    ensures |left| == |right| == FIELD_BYTES ==> r == Ok(FieldProduct(left, right))
    ensures |left| != FIELD_BYTES || |right| != FIELD_BYTES ==> r == Err(MalformedMessage)
  {
    if |left| != FIELD_BYTES || |right| != FIELD_BYTES {
      return Err(MalformedMessage);
    }
    hide WordCoef, Product, Coef;
    ghost var f, g := AsPoly(left), AsPoly(right);
    forall n ensures (f(n) || g(n)) ==> 0 <= n < DEGREE {
      if n < 0 || n >= DEGREE { NoCoef(left, n); NoCoef(right, n); }
    }
    var a := Load(left, T);
    var b := Load(right, T + 1);
    var c := Comb(a, b, f, g);
    Reduce(c, ProductOf(left, right));
    ghost var reduced := Words(c[..]);
    var bytes := Store(c);
    r := Ok(bytes);
    ghost var h: Coefs :| Supported(h, QUOTIENT_BOUND) && Differ(ProductOf(left, right), reduced, h);
    assert Differ(ProductOf(left, right), AsPoly(bytes), h);
    FieldProductCongruent(left, right);
    RaiseBound(ProductOf(left, right), AsPoly(FieldProduct(left, right)));
    RemainderUnique(ProductOf(left, right), bytes, FieldProduct(left, right), QUOTIENT_BOUND);
  }

  lemma RaiseBound(p: Coefs, r: Coefs)
    requires Congruent(p, r, DEGREE)
    ensures Congruent(p, r, QUOTIENT_BOUND)
  {
    var h: Coefs :| Supported(h, DEGREE) && Differ(p, r, h);
    assert Supported(h, QUOTIENT_BOUND);
  }
}
