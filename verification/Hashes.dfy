/** Byte conversions and the random oracles.

    SHA-256 is an arbitrary function from byte strings to 32 bytes: everything proved here
    holds whatever it is. */
module Hashes {
  import opened Scalars
  import opened Results
  import opened Octets

  type Bytes = seq<bv8>

  const SECURITY := 32

  type Digest = s: Bytes | |s| == SECURITY witness Zeros()

  function Zeros(): Bytes {
    seq(SECURITY, _ => 0)
  }

  const Sha256: Bytes -> Digest

  // Big-endian numbers

  function Pow256(len: nat): nat {
    if len == 0 then 1 else 256 * Pow256(len - 1)
  }

  /** The `len` lowest base-256 digits of `n`, most significant first (`to_be_bytes`). */
  function ToBe(n: nat, len: nat): (s: Bytes)
    ensures |s| == len
  {
    if len == 0 then [] else ToBe(n / 256, len - 1) + [(n % 256) as bv8]
  }

  function FromBe(s: Bytes): nat {
    if |s| == 0 then 0 else 256 * FromBe(s[..|s| - 1]) + s[|s| - 1] as nat
  }

  /** A number below 256^len is recovered from its digits. */
  lemma {:induction false} BeRoundTrip(n: nat, len: nat)
    requires n < Pow256(len)
    ensures FromBe(ToBe(n, len)) == n
  {
    if len > 0 {
      ByteValue(n % 256);
      var s := ToBe(n / 256, len - 1);
      assert ToBe(n, len)[..len - 1] == s;
      BeRoundTrip(n / 256, len - 1);
    }
  }

  lemma {:induction false} BeBound(s: Bytes)
    ensures FromBe(s) < Pow256(|s|)
  {
    if |s| > 0 {
      BeBound(s[..|s| - 1]);
      ValueByte(s[|s| - 1]);
    }
  }

  lemma LastDigit(m: nat, b: bv8)
    ensures (256 * m + b as nat) / 256 == m
    ensures ((256 * m + b as nat) % 256) as bv8 == b
  {
    ValueByte(b);
  }

  /** A byte string is recovered from its number. */
  lemma {:induction false} BytesRoundTrip(s: Bytes)
    ensures ToBe(FromBe(s), |s|) == s
  {
    if |s| > 0 {
      var t, b := s[..|s| - 1], s[|s| - 1];
      BytesRoundTrip(t);
      LastDigit(FromBe(t), b);
      assert s == t + [b];
    }
  }

  lemma BeInjective(m: nat, n: nat, len: nat)
    requires m < Pow256(len) && n < Pow256(len) && ToBe(m, len) == ToBe(n, len)
    ensures m == n
  {
    BeRoundTrip(m, len);
    BeRoundTrip(n, len);
  }

  lemma PowAdd(m: nat, n: nat)
    ensures Pow256(m + n) == Pow256(m) * Pow256(n)
  {
    if m > 0 {
      PowAdd(m - 1, n);
      Associate(256, Pow256(m - 1), Pow256(n));
    }
  }

  lemma Pow256Values()
    ensures Pow256(1) == 0x100 && Pow256(2) == 0x1_0000 && Pow256(4) == 0x1_0000_0000
    ensures Pow256(8) == 0x1_0000_0000_0000_0000 && Pow256(32) == TWO_256
  {
    PowAdd(2, 2);
    PowAdd(4, 4);
    PowAdd(8, 8);
    PowAdd(16, 16);
  }

  /** The 32-byte representation of a scalar. */
  function ScalarBytes(s: Scalar): (r: Digest) {
    ToBe(s, SECURITY)
  }

  /** A 32-byte string reduced into the field. */
  function ReduceBytes(s: Digest): Scalar {
    Reduce(FromBe(s))
  }

  /** The canonical reading of a 32-byte string: none when it is the order or more. */
  function ParseScalar(s: Digest): Option<Scalar> {
    if FromBe(s) < Q then Some(FromBe(s)) else None
  }

  lemma ScalarRoundTrip(s: Scalar)
    ensures ParseScalar(ScalarBytes(s)) == Some(s) && ReduceBytes(ScalarBytes(s)) == s
  {
    Pow256Values();
    BeRoundTrip(s, SECURITY);
    DivMod(s, 0, s);
  }

  // Length-delimited encoding

  const LENGTH_BYTES := 8

  /** One component with its length in front; lengths are u64. */
  function Prefixed(c: Bytes): Bytes {
    ToBe(|c|, LENGTH_BYTES) + c
  }

  function EncodeComponents(cs: seq<Bytes>): Bytes {
    if |cs| == 0 then [] else EncodeComponents(cs[..|cs| - 1]) + Prefixed(cs[|cs| - 1])
  }

  /** What a tagged oracle hashes. */
  function Encode(tag: Bytes, cs: seq<Bytes>): Bytes {
    EncodeComponents([tag] + cs)
  }

  function TaggedHash(tag: Bytes, cs: seq<Bytes>): Digest {
    Sha256(Encode(tag, cs))
  }

  function TaggedScalar(tag: Bytes, cs: seq<Bytes>): Scalar {
    ReduceBytes(TaggedHash(tag, cs))
  }

  /** The loop of the source builds this encoding in one buffer. */
  method HashComponents(tag: Bytes, components: seq<Bytes>) returns (h: Digest)
    ensures h == TaggedHash(tag, components)
  {
    var encoded := ToBe(|tag|, LENGTH_BYTES) + tag;
    assert ([tag] + components)[..1] == [tag];
    assert encoded == EncodeComponents([tag]);
    for i := 0 to |components|
      invariant encoded == EncodeComponents(([tag] + components)[..i + 1])
    {
      encoded := encoded + ToBe(|components[i]|, LENGTH_BYTES);
      encoded := encoded + components[i];
      assert ([tag] + components)[..i + 2][..i + 1] == ([tag] + components)[..i + 1];
    }
    assert ([tag] + components)[..|components| + 1] == [tag] + components;
    h := Sha256(encoded);
  }

  /** Every component fits the u64 length field. */
  predicate Encodable(cs: seq<Bytes>) {
    forall c <- cs :: |c| < 0x1_0000_0000_0000_0000
  }

  lemma {:induction false} EncodeHead(cs: seq<Bytes>)
    requires |cs| > 0
    ensures EncodeComponents(cs) == Prefixed(cs[0]) + EncodeComponents(cs[1..])
  {
    if |cs| > 1 {
      var init := cs[..|cs| - 1];
      EncodeHead(init);
      assert init[1..] == cs[1..][..|cs| - 2];
    } else {
      assert cs[..0] == [] && cs[1..] == [];
    }
  }

  lemma SplitPrefixed(c: Bytes, rest: Bytes, d: Bytes, rest': Bytes)
    requires |c| < 0x1_0000_0000_0000_0000 && |d| < 0x1_0000_0000_0000_0000
    requires Prefixed(c) + rest == Prefixed(d) + rest'
    ensures c == d && rest == rest'
  {
    var e := Prefixed(c) + rest;
    assert e[..LENGTH_BYTES] == ToBe(|c|, LENGTH_BYTES);
    assert e[..LENGTH_BYTES] == ToBe(|d|, LENGTH_BYTES);
    Pow256Values();
    BeInjective(|c|, |d|, LENGTH_BYTES);
    assert e[LENGTH_BYTES..][..|c|] == c;
    assert e[LENGTH_BYTES..][..|c|] == d;
    assert e[LENGTH_BYTES..][|c|..] == rest;
    assert e[LENGTH_BYTES..][|c|..] == rest';
  }

  lemma {:induction false} EncodeInjective(cs: seq<Bytes>, ds: seq<Bytes>)
    requires Encodable(cs) && Encodable(ds)
    requires EncodeComponents(cs) == EncodeComponents(ds)
    ensures cs == ds
    decreases |cs|
  {
    if |cs| > 0 { EncodeHead(cs); }
    if |ds| > 0 { EncodeHead(ds); }
    if |cs| > 0 && |ds| > 0 {
      hide EncodeComponents, Prefixed;
      SplitPrefixed(cs[0], EncodeComponents(cs[1..]), ds[0], EncodeComponents(ds[1..]));
      EncodeInjective(cs[1..], ds[1..]);
      assert cs == [cs[0]] + cs[1..] && ds == [ds[0]] + ds[1..];
    }
  }

  /** Distinct tags or component lists, of equal length or not, are never encoded alike. */
  lemma TranscriptInjective(tag: Bytes, cs: seq<Bytes>, tag': Bytes, cs': seq<Bytes>)
    requires Encodable([tag] + cs) && Encodable([tag'] + cs')
    ensures Encode(tag, cs) == Encode(tag', cs') <==> tag == tag' && cs == cs'
  {
    if Encode(tag, cs) == Encode(tag', cs') {
      EncodeInjective([tag] + cs, [tag'] + cs');
      assert ([tag] + cs)[0] == tag && ([tag] + cs)[1..] == cs;
      assert ([tag'] + cs')[0] == tag' && ([tag'] + cs')[1..] == cs';
    }
  }
}
