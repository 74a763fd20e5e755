/** Bits of bytes and of 64-bit words, addressed by natural numbers.

    `Ix` turns an index into the u8 shift amount that the source uses. */
module Bits {

  function Ix(i: nat): bv8 {
    if i == 0 then 0 else Ix(i - 1) + 1
  }

  lemma {:induction false} IxAdd(i: nat, j: nat)
    ensures Ix(i + j) == Ix(i) + Ix(j)
  {
    if j > 0 {
      IxAdd(i, j - 1);
      AddAssoc(Ix(i), Ix(j - 1));
    }
  }

  lemma AddAssoc(x: bv8, y: bv8)
    ensures (x + y) + 1 == x + (y + 1)
  {}

  lemma IxDigit(r: nat)
    requires r < 8
    ensures Ix(r) == [0, 1, 2, 3, 4, 5, 6, 7][r]
  {
    if r == 0 {} else if r == 1 {} else if r == 2 {} else if r == 3 {}
    else if r == 4 {} else if r == 5 {} else if r == 6 {} else {}
  }

  lemma {:induction false} IxByte(q: nat)
    requires q < 8
    ensures Ix(8 * q) == [0, 8, 16, 24, 32, 40, 48, 56][q]
  {
    if q > 0 {
      IxByte(q - 1);
      IxAdd(8 * q - 8, 8);
      assert Ix(8) == 8 by { IxAdd(4, 4); }
    }
  }

  lemma IxSmall(i: nat)
    requires i < 64
    ensures Ix(i) < 64 && (i < 8 ==> Ix(i) < 8) && (Ix(i) == 0 ==> i == 0)
  {
    var q, r := i / 8, i % 8;
    IxByte(q);
    IxDigit(r);
    IxAdd(8 * q, r);
  }

  lemma IxMono(i: nat, j: nat)
    requires i < j < 64
    ensures Ix(i) < Ix(j)
  {
    IxSmall(i);
    IxSmall(j - i);
    IxSmall(j);
    IxAdd(i, j - i);
  }

  predicate At(w: bv64, k: bv8) {
    k < 64 && (w >> k) & 1 == 1
  }

  /** Bit `i` of a word, the coefficient of X^i. */
  predicate Bit(w: bv64, i: nat)
    requires i < 64
  {
    At(w, Ix(i))
  }

  /** Bit `i` of a byte, counted from the least significant one. */
  predicate Bit8(b: bv8, i: nat)
    requires i < 8
  {
    IxSmall(i); (b >> Ix(i)) & 1 == 1
  }

  // Word operations, named so that a proof can hide them

  function Xor64(x: bv64, y: bv64): bv64 { x ^ y }
  function Or64(x: bv64, y: bv64): bv64 { x | y }
  function And64(x: bv64, y: bv64): bv64 { x & y }
  function Shl64(x: bv64, s: bv8): bv64 requires s <= 64 { x << s }
  function Shr64(x: bv64, s: bv8): bv64 requires s <= 64 { x >> s }
  function Widen(b: bv8): bv64 { b as bv64 }
  function LowByte(x: bv64): bv8 { (x & 0xFF) as bv8 }

  // Bits of the word operations

  lemma ShiftedXor(x: bv64, y: bv64, k: bv8)
    requires k < 64
    ensures ((x ^ y) >> k) & 1 == 1 <==> ((x >> k) & 1 == 1) != ((y >> k) & 1 == 1)
  {}

  lemma ShiftedOr(x: bv64, y: bv64, k: bv8)
    requires k < 64
    ensures ((x | y) >> k) & 1 == 1 <==> (x >> k) & 1 == 1 || (y >> k) & 1 == 1
  {}

  lemma AtXor(x: bv64, y: bv64, k: bv8)
    ensures At(x ^ y, k) == (At(x, k) != At(y, k))
  {
    if k < 64 { ShiftedXor(x, y, k); }
  }

  lemma AtOr(x: bv64, y: bv64, k: bv8)
    ensures At(x | y, k) == (At(x, k) || At(y, k))
  {
    if k < 64 { ShiftedOr(x, y, k); }
  }

  lemma BitXor(x: bv64, y: bv64, i: nat)
    requires i < 64
    ensures Bit(Xor64(x, y), i) == (Bit(x, i) != Bit(y, i))
  {
    AtXor(x, y, Ix(i));
  }

  lemma BitOr(x: bv64, y: bv64, i: nat)
    requires i < 64
    ensures Bit(Or64(x, y), i) == (Bit(x, i) || Bit(y, i))
  {
    AtOr(x, y, Ix(i));
  }

  lemma Bit8Xor(x: bv8, y: bv8, i: nat)
    requires i < 8
    ensures Bit8(x ^ y, i) == (Bit8(x, i) != Bit8(y, i))
  {
    IxSmall(i);
    var k := Ix(i);
    assert ((x ^ y) >> k) & 1 == ((x >> k) & 1) ^ ((y >> k) & 1);
  }

  lemma BitZero(i: nat)
    requires i < 64
    ensures !Bit(0, i) && (i < 8 ==> !Bit8(0, i))
  {
    IxSmall(i);
    var k := Ix(i);
    assert (0 as bv64 >> k) & 1 == 0;
  }

  /** The shift amounts that occur in the source. */
  predicate ShiftAmount(s: nat) {
    s == 0 || s == 1 || s == 3 || s == 7 || s == 8 || s == 9 || s == 13 || s == 15 || s == 16
    || s == 24 || s == 32 || s == 40 || s == 48 || s == 49 || s == 51 || s == 56 || s == 57 || s == 63
  }

  predicate ShiftAmount8(s: bv8) {
    s == 0 || s == 1 || s == 3 || s == 7 || s == 8 || s == 9 || s == 13 || s == 15 || s == 16
    || s == 24 || s == 32 || s == 40 || s == 48 || s == 49 || s == 51 || s == 56 || s == 57 || s == 63
  }

  lemma IxConsts()
    ensures Ix(0) == 0 && Ix(1) == 1 && Ix(3) == 3 && Ix(7) == 7 && Ix(8) == 8 && Ix(9) == 9
    ensures Ix(13) == 13 && Ix(15) == 15 && Ix(16) == 16 && Ix(24) == 24 && Ix(32) == 32 && Ix(40) == 40
    ensures Ix(48) == 48 && Ix(49) == 49 && Ix(51) == 51 && Ix(56) == 56 && Ix(57) == 57 && Ix(63) == 63
  {
    IxDigit(5);
    IxDigit(7);
    IxByte(1);
    IxByte(2);
    IxByte(3);
    IxByte(4);
    IxByte(5);
    IxByte(6);
    IxByte(7);
    IxAdd(8, 1);
    IxAdd(8, 5);
    IxAdd(8, 7);
    IxAdd(48, 1);
    IxAdd(48, 3);
    IxAdd(56, 1);
    IxAdd(56, 7);
  }

  lemma ShlBits(x: bv64, s: bv8, k: bv8, d: bv8)
    requires ShiftAmount8(s) && k < 64
    ensures k < s ==> !At(x << s, k)
    ensures d < 64 && k == d + s ==> At(x << s, k) == At(x, d)
  {
    if s == 0 {} else if s == 1 {} else if s == 3 {} else if s == 7 {} else if s == 8 {} 
    else if s == 9 {} else if s == 13 {} else if s == 15 {} else if s == 16 {} else if s == 24 {} else if s == 32 {} 
    else if s == 40 {} else if s == 48 {} else if s == 49 {} else if s == 51 {} else if s == 56 {} else if s == 57 {} else {}
  }

  lemma ShrBits(x: bv64, s: bv8, k: bv8)
    requires ShiftAmount8(s) && k < 64
    ensures s + k >= 64 ==> !At(x >> s, k)
    ensures s + k < 64 ==> At(x >> s, k) == At(x, s + k)
  {
    if s == 0 {} else if s == 1 {} else if s == 3 {} else if s == 7 {} else if s == 8 {} 
    else if s == 9 {} else if s == 13 {} else if s == 15 {} else if s == 16 {} else if s == 24 {} else if s == 32 {} 
    else if s == 40 {} else if s == 48 {} else if s == 49 {} else if s == 51 {} else if s == 56 {} else if s == 57 {} else {}
  }

  lemma ShlAt(x: bv64, s: bv8, k: bv8, d: bv8)
    requires ShiftAmount8(s) && s < 64 && k < 64
    ensures k < s ==> !At(Shl64(x, s), k)
    ensures d < 64 && k == d + s ==> At(Shl64(x, s), k) == At(x, d)
  {
    hide At, ShiftAmount8;
    ShlBits(x, s, k, d);
  }

  lemma ShrAt(x: bv64, s: bv8, k: bv8)
    requires ShiftAmount8(s) && s < 64 && k < 64
    ensures s + k >= 64 ==> !At(Shr64(x, s), k)
    ensures s + k < 64 ==> At(Shr64(x, s), k) == At(x, s + k)
  {
    hide At, ShiftAmount8;
    ShrBits(x, s, k);
  }

  lemma BitShl(x: bv64, s: nat, sh: bv8, i: nat)
    requires i < 64 && ShiftAmount(s) && sh == Ix(s)
    ensures sh < 64 && Bit(Shl64(x, sh), i) == (s <= i && Bit(x, i - s))
  {
    hide Ix, At, Shl64, Shr64;
    IxConsts();
    IxSmall(i);
    var k := Ix(i);
    assert s < 64 && sh < 64 && ShiftAmount8(sh);
    hide ShiftAmount, ShiftAmount8;
    if i < s {
      IxMono(i, s);
      ShlAt(x, sh, k, 0);
    } else {
      IxSmall(i - s);
      IxAdd(i - s, s);
      ShlAt(x, sh, k, Ix(i - s));
    }
  }

  lemma BitShr(x: bv64, s: nat, sh: bv8, i: nat)
    requires i < 64 && ShiftAmount(s) && sh == Ix(s)
    ensures sh < 64 && Bit(Shr64(x, sh), i) == (i + s < 64 && Bit(x, i + s))
  {
    hide Ix, At, Shl64, Shr64;
    IxConsts();
    IxSmall(i);
    var k := Ix(i);
    assert s < 64 && sh < 64 && ShiftAmount8(sh);
    hide ShiftAmount, ShiftAmount8;
    ShrAt(x, sh, k);
    IxAdd(s, i);
    if i + s < 64 { IxSmall(s + i); } else { IxTop(s, i); }
  }

  lemma IxTop(i: nat, s: nat)
    requires i < 64 && s < 64 && i + s >= 64
    ensures Ix(i) + Ix(s) >= 64
  {
    hide Ix;
    var d := i + s - 64;
    IxAdd(i - d, d);
    IxAdd(i - d, s);
    IxConsts();
    IxAdd(56, 8);
    IxSmall(d);
    IxSmall(i - d);
    IxSmall(s);
    TopSum(Ix(i - d), Ix(d), Ix(s));
  }

  lemma TopSum(a: bv8, d: bv8, s: bv8)
    requires a < 64 && d < 64 && s < 64 && a + s == 64
    ensures (a + d) + s >= 64
  {}

  /** The source's constant-time selection: with `bit` the lowest bit of a shifted word,
      `b & (0 - bit)` is b or zero. */
  function Mask(x: bv64): bv64 {
    0 - (x & 1)
  }

  lemma MaskSelect(b: bv64, x: bv64)
    ensures And64(b, Mask(x)) == if At(x, 0) then b else 0
  {}

  lemma AtByte(b: bv8, k: bv8)
    ensures At(b as bv64, k) == (k < 8 && (b >> (if k < 8 then k else 0)) & 1 == 1)
  {}

  lemma BitByte(b: bv8, i: nat)
    requires i < 64
    ensures Bit(Widen(b), i) == (i < 8 && Bit8(b, i))
  {
    AtByte(b, Ix(i));
    IxSmall(i);
    if i >= 8 {
      IxConsts();
      if i > 8 { IxMono(8, i); }
    }
  }

  lemma AtLow(w: bv64, k: bv8)
    requires k < 8
    ensures (((w & 0xFF) as bv8) >> k) & 1 == 1 <==> At(w, k)
  {}

  lemma BitLow(w: bv64, i: nat)
    requires i < 8
    ensures Bit8(LowByte(w), i) == Bit(w, i)
  {
    IxSmall(i);
    AtLow(w, Ix(i));
  }

  lemma AtAnd16(x: bv64, k: bv8)
    ensures At(And64(x, 0xFFFF), k) == (k < 16 && At(x, k))
  {}

  lemma BitAnd16(x: bv64, i: nat)
    requires i < 64
    ensures Bit(And64(x, 0xFFFF), i) == (i < 16 && Bit(x, i))
  {
    hide And64, At;
    AtAnd16(x, Ix(i));
    IxConsts();
    if i < 16 { IxMono(i, 16); } else if i > 16 { IxMono(16, i); }
  }

  // Bit strings

  /** Coefficient `n` of a byte string read as a little-endian number, and false outside it. */
  predicate Coef(s: seq<bv8>, n: int) {
    0 <= n < 8 * |s| && Bit8(s[n / 8], n % 8)
  }

  predicate WordCoef(s: seq<bv64>, n: int) {
    0 <= n < 64 * |s| && Bit(s[n / 64], n % 64)
  }

  function FromBool(b: bool): bv8 {
    if b then 1 else 0
  }

  /** Eight booleans as a byte, the first one least significant. */
  function PackByte(b0: bool, b1: bool, b2: bool, b3: bool, b4: bool, b5: bool, b6: bool, b7: bool): bv8 {
    FromBool(b0) | (FromBool(b1) << 1) | (FromBool(b2) << 2) | (FromBool(b3) << 3)
    | (FromBool(b4) << 4) | (FromBool(b5) << 5) | (FromBool(b6) << 6) | (FromBool(b7) << 7)
  }

  lemma BitPackByte(b: seq<bool>, i: nat)
    requires |b| == 8 && i < 8
    ensures Bit8(PackByte(b[0], b[1], b[2], b[3], b[4], b[5], b[6], b[7]), i) == b[i]
  {
    IxDigit(i);
    if i == 0 {} else if i == 1 {} else if i == 2 {} else if i == 3 {}
    else if i == 4 {} else if i == 5 {} else if i == 6 {} else {}
  }

  function Pack8(f: int -> bool, n: int): bv8 {
    PackByte(f(n), f(n + 1), f(n + 2), f(n + 3), f(n + 4), f(n + 5), f(n + 6), f(n + 7))
  }

  /** The byte string of length `len` whose coefficients are `f`. */
  function Pack(f: int -> bool, len: nat): (s: seq<bv8>)
    ensures |s| == len
  {
    seq(len, k => Pack8(f, 8 * k))
  }

  lemma PackCoef(f: int -> bool, len: nat, n: int)
    ensures Coef(Pack(f, len), n) == (0 <= n < 8 * len && f(n))
  {
    hide Bit8, Pack8;
    if 0 <= n < 8 * len { PackedBit(f, 8 * (n / 8), n % 8); }
  }

  lemma PackedBit(f: int -> bool, k: int, i: nat)
    requires i < 8
    ensures Bit8(Pack8(f, k), i) == f(k + i)
  {
    hide Bit8, PackByte;
    BitPackByte([f(k), f(k + 1), f(k + 2), f(k + 3), f(k + 4), f(k + 5), f(k + 6), f(k + 7)], i);
  }

  lemma ByteExt(x: bv8, y: bv8)
    requires forall i: nat :: i < 8 ==> Bit8(x, i) == Bit8(y, i)
    ensures x == y
  {
    forall i: nat | i < 8 ensures Ix(i) == [0, 1, 2, 3, 4, 5, 6, 7][i] { IxDigit(i); }
    assert Bit8(x, 0) == Bit8(y, 0) && Bit8(x, 1) == Bit8(y, 1) && Bit8(x, 2) == Bit8(y, 2);
    assert Bit8(x, 3) == Bit8(y, 3) && Bit8(x, 4) == Bit8(y, 4) && Bit8(x, 5) == Bit8(y, 5);
    assert Bit8(x, 6) == Bit8(y, 6) && Bit8(x, 7) == Bit8(y, 7);
  }

  /** Byte strings of equal length with the same coefficients are equal. */
  lemma CoefExt(s: seq<bv8>, t: seq<bv8>)
    requires |s| == |t|
    requires forall n :: 0 <= n < 8 * |s| ==> Coef(s, n) == Coef(t, n)
    ensures s == t
  {
    forall k | 0 <= k < |s| ensures s[k] == t[k] {
      forall i: nat | i < 8 ensures Bit8(s[k], i) == Bit8(t[k], i) {
        assert Coef(s, 8 * k + i) == Coef(t, 8 * k + i);
      }
      ByteExt(s[k], t[k]);
    }
  }

  // Exclusive or

  function Xor(s: seq<bv8>, t: seq<bv8>): (r: seq<bv8>)
    requires |s| == |t|
    ensures |r| == |s|
  {
    seq(|s|, i requires 0 <= i < |s| => s[i] ^ t[i])
  }

  lemma CoefXor(s: seq<bv8>, t: seq<bv8>, n: int)
    requires |s| == |t|
    ensures Coef(Xor(s, t), n) == (Coef(s, n) != Coef(t, n))
  {
    if 0 <= n < 8 * |s| { Bit8Xor(s[n / 8], t[n / 8], n % 8); }
  }

  lemma XorCancel(s: seq<bv8>, t: seq<bv8>)
    requires |s| == |t|
    ensures Xor(Xor(s, t), t) == s && Xor(t, Xor(s, t)) == s && Xor(s, t) == Xor(t, s)
  {}

  /** A list of booleans as coefficients. */
  function AsBits(bits: seq<bool>): int -> bool {
    n => 0 <= n < |bits| && bits[n]
  }

  /** Booleans in compressed form: eight to a byte, little-endian. */
  function PackBits(bits: seq<bool>, len: nat): (s: seq<bv8>)
    ensures |s| == len
  {
    Pack(AsBits(bits), len)
  }

  lemma PackBitsCoef(bits: seq<bool>, len: nat, n: int)
    requires |bits| <= 8 * len
    ensures Coef(PackBits(bits, len), n) == (0 <= n < |bits| && bits[n])
  {
    PackCoef(AsBits(bits), len, n);
  }

  /** The loops of the source that compress a list of booleans. */
  method Compress(bits: seq<bool>, len: nat) returns (s: seq<bv8>)
    requires |bits| == 8 * len
    ensures s == PackBits(bits, len)
  {
    hide PackByte;
    s := [];
    for i := 0 to len
      invariant |s| == i
      invariant forall k :: 0 <= k < i ==> s[k] == Pack8(AsBits(bits), 8 * k)
    {
      s := s + [PackByte(bits[8 * i], bits[8 * i + 1], bits[8 * i + 2], bits[8 * i + 3],
                         bits[8 * i + 4], bits[8 * i + 5], bits[8 * i + 6], bits[8 * i + 7])];
    }
  }

  // Single bits of bytes

  function GetBit(x: bv8, k: bv8): bv8
    requires k < 8
  {
    (x >> k) & 1
  }

  function PutBit(x: bv8, e: bv8, k: bv8): bv8
    requires k < 8
  {
    x | (e << k)
  }

  lemma PutBitAt(x: bv8, e: bv8, k: bv8, m: bv8)
    requires k < 8 && m < 8 && (e == 0 || e == 1)
    ensures (PutBit(x, e, k) >> m) & 1 == 1 <==> (x >> m) & 1 == 1 || (m == k && e == 1)
  {}

  lemma BitPut(x: bv8, y: bv8, k: nat, j: nat, i: nat)
    requires i < 8 && j < 8 && k < 8
    ensures Ix(k) < 8 && Ix(j) < 8
    ensures Bit8(PutBit(x, GetBit(y, Ix(k)), Ix(j)), i) == (Bit8(x, i) || (i == j && Bit8(y, k)))
  {
    hide Ix;
    IxSmall(i);
    IxSmall(j);
    IxSmall(k);
    if i < j { IxMono(i, j); } else if j < i { IxMono(j, i); }
    GetBinary(y, Ix(k));
    PutBitAt(x, GetBit(y, Ix(k)), Ix(j), Ix(i));
    hide PutBit;
  }

  lemma GetBinary(y: bv8, k: bv8)
    requires k < 8
    ensures GetBit(y, k) == 0 || GetBit(y, k) == 1
  {}
}
