/** Non-hardened BIP-32 derivation of a shared key. HMAC-SHA512 and the key fingerprint are
    arbitrary functions. */
module Derivation {
  import opened Scalars
  import opened Sums
  import opened Shamir
  import opened Results
  import opened Hashes
  import opened Curve
  import opened ZeroShares
  import opened MulInit
  import opened Parties
  import opened KeyInit
  import opened Dkg
  import opened Compatibility

  datatype ErrorDeriv = MaxDepth | ChildOutOfRange | TweakTooBig | InvalidKey | InvalidPath

  const MAX_DEPTH := 255
  const MAX_CHILD_NUMBER := 0x7FFF_FFFF

  /** The two halves of HMAC-SHA512, from key and message. */
  const Hmac: (Bytes, Bytes) -> (Digest, Digest)

  const Fingerprint: Bytes -> Bytes

  /** BIP-32 wants the left half below the order: it is reduced, and must not have changed. */
  function ParseTweak(left: Digest): Result<Scalar, ErrorDeriv> {
    var tweak := ReduceBytes(left);
    if ScalarBytes(tweak) != left then Err(TweakTooBig) else Ok(tweak)
  }

  lemma ParseTweakSpec(left: Digest)
    ensures ParseTweak(left) == if FromBe(left) < Q then Ok(FromBe(left)) else Err(TweakTooBig)
  {
    BytesRoundTrip(left);
    if FromBe(left) < Q {
      DivMod(FromBe(left), 0, FromBe(left));
    } else {
      ScalarRoundTrip(ReduceBytes(left));
      assert FromBe(ScalarBytes(ReduceBytes(left))) < Q;
    }
  }

  function ChildTweak(pk: Point, chainCode: Digest, child: nat): Result<(Scalar, Digest, Bytes), ErrorDeriv> {
    var (left, right) := Hmac(chainCode, PointBytes(pk) + ToBe(child, 4));
    match ParseTweak(left)
    case Err(e) => Err(e)
    case Ok(tweak) => Ok((tweak, right, Fingerprint(PointBytes(pk))))
  }

  function DeriveChild(d: DerivData, child: nat): Result<DerivData, ErrorDeriv> {
    if d.depth == MAX_DEPTH then Err(MaxDepth)
    else if child > MAX_CHILD_NUMBER then Err(ChildOutOfRange)
    else
      match ChildTweak(d.pk, d.chainCode, child)
      case Err(e) => Err(e)
      case Ok((tweak, code, fingerprint)) =>
        var pk := Plus(GTimes(tweak), d.pk);
        if pk == IDENTITY then Err(InvalidKey)
        else Ok(DerivData(d.depth + 1, child, fingerprint, Add(d.polyPoint, tweak), pk, code))
  }

  function DeriveChildren(d: DerivData, path: seq<nat>): Result<DerivData, ErrorDeriv> {
    if |path| == 0 then Ok(d)
    else
      match DeriveChildren(d, path[..|path| - 1])
      case Err(e) => Err(e)
      case Ok(parent) => DeriveChild(parent, path[|path| - 1])
  }

  lemma {:induction false} DeriveErr(d: DerivData, path: seq<nat>, n: nat)
    requires n <= |path| && DeriveChildren(d, path[..n]).Err?
    ensures DeriveChildren(d, path) == DeriveChildren(d, path[..n])
    decreases |path| - n
  {
    if n == |path| {
      assert path[..n] == path;
    } else {
      assert path[..n + 1][..n] == path[..n];
      DeriveErr(d, path, n + 1);
    }
  }

  function DeriveAlong(d: DerivData, path: string): Result<DerivData, ErrorDeriv> {
    match ParsePath(path)
    case Err(e) => Err(e)
    case Ok(children) => DeriveChildren(d, children)
  }

  method DeriveFromPath(d: DerivData, path: string) returns (r: Result<DerivData, ErrorDeriv>)
    ensures r == DeriveAlong(d, path)
  {
    hide DeriveChild, ParsePath;
    var parsed := ParsePathLoop(path);
    if parsed.Err? {
      return Err(parsed.error);
    }
    var children := parsed.value;
    var finalData := d;
    for i := 0 to |children|
      invariant DeriveChildren(d, children[..i]) == Ok(finalData)
    {
      assert children[..i + 1][..i] == children[..i];
      var next := DeriveChild(finalData, children[i]);
      if next.Err? {
        DeriveErr(d, children, i + 1);
        return Err(next.error);
      }
      finalData := next.value;
    }
    assert children[..|children|] == children;
    r := Ok(finalData);
  }

  // Paths

  /** The parts between the slashes; at least one. */
  function Split(s: string): (parts: seq<string>)
    ensures |parts| > 0
  {
    if |s| == 0 then [""]
    else
      var rest := Split(s[1..]);
      if s[0] == '/' then [""] + rest else [[s[0]] + rest[0]] + rest[1..]
  }

  const MAX_U32 := 0xFFFF_FFFF

  predicate IsDigit(c: char) {
    '0' <= c <= '9'
  }

  predicate AllDigits(s: string) {
    forall i :: 0 <= i < |s| ==> IsDigit(s[i])
  }

  function Digits(s: string): nat
    requires AllDigits(s)
  {
    if |s| == 0 then 0 else 10 * Digits(s[..|s| - 1]) + (s[|s| - 1] - '0') as nat
  }

  /** Decimal u32 numbers, with an optional plus sign. */
  function ParseU32(s: string): Option<nat> {
    var digits := if |s| > 1 && s[0] == '+' then s[1..] else s;
    if |digits| == 0 || !AllDigits(digits) then None
    else if Digits(digits) > MAX_U32 then None
    else Some(Digits(digits))
  }

  function ParseChild(part: string): Option<nat> {
    match ParseU32(part)
    case None => None
    case Some(n) => if n <= MAX_CHILD_NUMBER then Some(n) else None
  }

  function ParseChildren(parts: seq<string>): Option<seq<nat>> {
    if |parts| == 0 then Some([])
    else
      match ParseChildren(parts[..|parts| - 1])
      case None => None
      case Some(ns) =>
        match ParseChild(parts[|parts| - 1])
        case None => None
        case Some(n) => Some(ns + [n])
  }

  function ParsePath(path: string): Result<seq<nat>, ErrorDeriv> {
    var parts := Split(path);
    if parts[0] != "m" then Err(InvalidPath)
    else
      match ParseChildren(parts[1..])
      case None => Err(InvalidPath)
      case Some(ns) => if |ns| > MAX_DEPTH then Err(InvalidPath) else Ok(ns)
  }

  lemma {:induction false} ParseNone(parts: seq<string>, n: nat)
    requires n <= |parts| && ParseChildren(parts[..n]).None?
    ensures ParseChildren(parts).None?
    decreases |parts| - n
  {
    if n == |parts| {
      assert parts[..n] == parts;
    } else {
      assert parts[..n + 1][..n] == parts[..n];
      ParseNone(parts, n + 1);
    }
  }

  method ParsePathLoop(path: string) returns (r: Result<seq<nat>, ErrorDeriv>)
    ensures r == ParsePath(path)
  {
    hide ParseChild;
    var parts := Split(path);
    if parts[0] != "m" {
      return Err(InvalidPath);
    }
    var children := parts[1..];
    var parsed: seq<nat> := [];
    for i := 0 to |children|
      invariant ParseChildren(children[..i]) == Some(parsed)
    {
      assert children[..i + 1][..i] == children[..i];
      match ParseChild(children[i]) {
        case None =>
          ParseNone(children, i + 1);
          return Err(InvalidPath);
        case Some(n) =>
          parsed := parsed + [n];
      }
    }
    assert children[..|children|] == children;
    if |parsed| > MAX_DEPTH {
      return Err(InvalidPath);
    }
    r := Ok(parsed);
  }

  /** The decimal form of a number. */
  function Decimal(n: nat): string {
    (if n < 10 then "" else Decimal(n / 10)) + [Digit(n % 10)]
  }

  function Digit(d: nat): char
    requires d < 10
  {
    '0' + d as char
  }

  function FormatPath(path: seq<nat>): string {
    if |path| == 0 then "m" else FormatPath(path[..|path| - 1]) + "/" + Decimal(path[|path| - 1])
  }

  lemma {:induction false} DecimalDigits(n: nat)
    ensures |Decimal(n)| > 0 && AllDigits(Decimal(n)) && Digits(Decimal(n)) == n
  {
    var s := if n < 10 then "" else Decimal(n / 10);
    if n >= 10 { DecimalDigits(n / 10); }
    assert Decimal(n)[..|Decimal(n)| - 1] == s;
  }

  lemma {:induction false} SplitAppend(s: string, t: string)
    requires '/' !in t
    ensures Split(s + "/" + t) == Split(s) + [t]
    decreases |s|
  {
    if |s| == 0 {
      assert s + "/" + t == "/" + t;
      SplitPlain(t);
    } else {
      assert (s + "/" + t)[1..] == s[1..] + "/" + t;
      SplitAppend(s[1..], t);
    }
  }

  lemma {:induction false} SplitPlain(t: string)
    requires '/' !in t
    ensures Split(t) == [t]
  {
    if |t| > 0 {
      SplitPlain(t[1..]);
      assert [t[0]] + t[1..] == t;
    }
  }

  predicate ChildNumbers(path: seq<nat>) {
    forall i :: 0 <= i < |path| ==> path[i] <= MAX_CHILD_NUMBER
  }

  lemma {:induction false} SplitFormat(path: seq<nat>) returns (parts: seq<string>)
    ensures Split(FormatPath(path)) == ["m"] + parts && |parts| == |path|
    ensures forall i :: 0 <= i < |path| ==> parts[i] == Decimal(path[i])
    decreases |path|
  {
    hide Decimal, Split;
    if |path| == 0 {
      parts := [];
      SplitPlain("m");
    } else {
      var n := |path| - 1;
      var rest := SplitFormat(path[..n]);
      DecimalPlain(path[n]);
      SplitAppend(FormatPath(path[..n]), Decimal(path[n]));
      parts := rest + [Decimal(path[n])];
      assert ["m"] + rest + [Decimal(path[n])] == ["m"] + parts;
    }
  }

  lemma DecimalPlain(n: nat)
    ensures '/' !in Decimal(n)
  {
    DecimalDigits(n);
    hide Decimal;
    assert !IsDigit('/');
  }

  lemma ParseDecimal(n: nat)
    ensures ParseChild(Decimal(n)) == (if n <= MAX_CHILD_NUMBER then Some(n) else None)
  {
    DecimalDigits(n);
    ParseDigits(Decimal(n), n);
  }

  lemma ParseDigits(s: string, n: nat)
    requires |s| > 0 && AllDigits(s) && Digits(s) == n
    ensures ParseChild(s) == if n <= MAX_CHILD_NUMBER then Some(n) else None
  {
    assert IsDigit(s[0]);
  }

  lemma {:induction false} ParseDecimals(path: seq<nat>, parts: seq<string>)
    requires |parts| == |path|
    requires forall i :: 0 <= i < |path| ==> ParseChild(parts[i]) == if path[i] <= MAX_CHILD_NUMBER then Some(path[i]) else None
    ensures ParseChildren(parts) == if ChildNumbers(path) then Some(path) else None
    decreases |path|
  {
    hide ParseChild;
    if |path| > 0 {
      var n := |path| - 1;
      ParseDecimals(path[..n], parts[..n]);
      assert path == path[..n] + [path[n]];
    }
  }

  /** A written path is read back, exactly when its numbers and its length are in range. */
  lemma PathRoundTrip(path: seq<nat>)
    ensures ParsePath(FormatPath(path)) == if ChildNumbers(path) && |path| <= MAX_DEPTH then Ok(path) else Err(InvalidPath)
  {
    var parts := SplitFormat(path);
    forall i | 0 <= i < |path|
      ensures ParseChild(parts[i]) == if path[i] <= MAX_CHILD_NUMBER then Some(path[i]) else None
    {
      ParseDecimal(path[i]);
    }
    hide ParseChildren, ParseChild;
    ParseDecimals(path, parts);
    assert (["m"] + parts)[1..] == parts;
  }

  // Derivation of a shared key

  /** The tweak at the end of a path from public data. */
  function TweakOf(d: DerivData, child: nat): Scalar
    requires DeriveChild(d, child).Ok?
  {
    ChildTweak(d.pk, d.chainCode, child).value.0
  }

  predicate SamePublic(d: DerivData, e: DerivData) {
    d.depth == e.depth && d.childNumber == e.childNumber && d.parentFingerprint == e.parentFingerprint
    && d.pk == e.pk && d.chainCode == e.chainCode
  }

  /** Parties with the same public data derive the same public data, with the same tweak. */
  lemma DeriveAlike(d: DerivData, e: DerivData, child: nat)
    requires SamePublic(d, e)
    ensures DeriveChild(d, child).Ok? <==> DeriveChild(e, child).Ok?
    ensures DeriveChild(d, child).Err? ==> DeriveChild(d, child) == DeriveChild(e, child)
    ensures DeriveChild(d, child).Ok? ==>
      && SamePublic(DeriveChild(d, child).value, DeriveChild(e, child).value)
      && TweakOf(d, child) == TweakOf(e, child)
      && DeriveChild(d, child).value.polyPoint == Add(d.polyPoint, TweakOf(d, child))
      && DeriveChild(d, child).value.pk == Point(Add(d.pk.log, TweakOf(d, child)))
  {
    hide ChildTweak;
  }

  function DeriveParty(party: Party, child: nat): Result<Party, ErrorDeriv> {
    match DeriveChild(party.derivation, child)
    case Err(e) => Err(e)
    case Ok(d) => Ok(party.(polyPoint := d.polyPoint, pk := d.pk, derivation := d))
  }

  /** The public data every party of a group derives from. */
  function PublicOf(g: Group, pk: Point): DerivData {
    DerivData(g.depth, g.childNumber, g.parentFingerprint, 0, pk, g.chainCode)
  }

  ghost function Derived(g: Group, child: nat): Result<Group, ErrorDeriv> {
    var d := PublicOf(g, GTimes(Secret(g)));
    match DeriveChild(d, child)
    case Err(e) => Err(e)
    case Ok(c) => Ok(g.(poly := PolyAdd(g.poly, [TweakOf(d, child)]), depth := c.depth, childNumber := c.childNumber,
                        parentFingerprint := c.parentFingerprint, chainCode := c.chainCode))
  }

  lemma EvalShift(p: Poly, c: Scalar, x: Scalar)
    ensures Eval(PolyAdd(p, [c]), x) == Add(Eval(p, x), c)
  {
    EvalAdd(p, [c], x);
    MulZero(x);
  }

  lemma PartyDerives(party: Party, i: nat, g: Group, child: nat)
    requires PartyFits(party, i, g)
    ensures DeriveParty(party, child).Ok? <==> Derived(g, child).Ok?
    ensures DeriveParty(party, child).Err? ==> DeriveParty(party, child).error == Derived(g, child).error
    ensures DeriveParty(party, child).Ok? ==>
      && PartyFits(DeriveParty(party, child).value, i, Derived(g, child).value)
      && DeriveParty(party, child).value.mulSenders == party.mulSenders
      && DeriveParty(party, child).value.mulReceivers == party.mulReceivers
  {
    hide DeriveChild, ChildTweak, Eval, Reduce, HoldsSeeds;
    var d := PublicOf(g, GTimes(Secret(g)));
    DeriveAlike(party.derivation, d, child);
    DeriveAlike(d, party.derivation, child);
    if DeriveChild(d, child).Ok? {
      EvalShift(g.poly, TweakOf(d, child), 0);
      EvalShift(g.poly, TweakOf(d, child), Reduce(i));
    }
  }

  lemma SamePairs(parties: map<nat, Party>, derived: map<nat, Party>)
    requires PairsFit(parties) && derived.Keys == parties.Keys
    requires forall i <- parties :: derived[i].mulSenders == parties[i].mulSenders
    requires forall i <- parties :: derived[i].mulReceivers == parties[i].mulReceivers
    ensures PairsFit(derived)
  {
    hide MulPair;
  }

  /** Derivation commutes with sharing: either every party derives the child or all fail with the
      same error; the derived parties fit together again, around the secret key plus the tweak. */
  lemma DeriveCommutes(parties: map<nat, Party>, g: Group, child: nat) returns (derived: map<nat, Party>)
    requires Compatible(parties, g)
    ensures Derived(g, child).Err? ==> forall i <- parties :: DeriveParty(parties[i], child) == Err(Derived(g, child).error)
    ensures Derived(g, child).Ok? ==>
      && derived.Keys == parties.Keys
      && (forall i <- parties :: DeriveParty(parties[i], child) == Ok(derived[i]))
      && Compatible(derived, Derived(g, child).value)
      && Secret(Derived(g, child).value) == Add(Secret(g), TweakOf(PublicOf(g, GTimes(Secret(g))), child))
  {
    hide DeriveParty, PartyFits, DeriveChild, Eval, PairsFit, Symmetric;
    forall i | i in parties
      ensures DeriveParty(parties[i], child).Ok? <==> Derived(g, child).Ok?
      ensures DeriveParty(parties[i], child).Err? ==> DeriveParty(parties[i], child).error == Derived(g, child).error
      ensures DeriveParty(parties[i], child).Ok? ==>
        && PartyFits(DeriveParty(parties[i], child).value, i, Derived(g, child).value)
        && DeriveParty(parties[i], child).value.mulSenders == parties[i].mulSenders
        && DeriveParty(parties[i], child).value.mulReceivers == parties[i].mulReceivers
    {
      PartyDerives(parties[i], i, g, child);
    }
    derived := map[];
    if Derived(g, child).Ok? {
      derived := map i | i in parties :: DeriveParty(parties[i], child).value;
      SamePairs(parties, derived);
      EvalShift(g.poly, TweakOf(PublicOf(g, GTimes(Secret(g))), child), 0);
    }
  }

  // Public key packages

  function DerivePackage(p: PublicKeyPackage, chainCode: Digest, child: nat): Result<PublicKeyPackage, ErrorDeriv> {
    if child > MAX_CHILD_NUMBER then Err(ChildOutOfRange)
    else
      match ChildTweak(p.verifyingKey, chainCode, child)
      case Err(e) => Err(e)
      case Ok((tweak, _, _)) =>
        var point := GTimes(tweak);
        var key := Plus(point, p.verifyingKey);
        if key == IDENTITY then Err(InvalidKey)
        else Ok(PublicKeyPackage(key, map i | i in p.verifyingShares :: Plus(point, p.verifyingShares[i]), p.parameters))
  }

  /** Deriving the package with the chain code of the group gives the package of the derived group;
      only the depth limit, which a package does not know, can tell the two apart. */
  lemma PackageDerives(p: PublicKeyPackage, g: Group, child: nat)
    requires PackageFits(p, g)
    ensures Derived(g, child).Ok? <==> DerivePackage(p, g.chainCode, child).Ok? && g.depth != MAX_DEPTH
    ensures Derived(g, child).Ok? ==> PackageFits(DerivePackage(p, g.chainCode, child).value, Derived(g, child).value)
  {
    hide ChildTweak, Eval, Reduce;
    var d := PublicOf(g, GTimes(Secret(g)));
    if Derived(g, child).Ok? {
      var tweak := TweakOf(d, child);
      EvalShift(g.poly, tweak, 0);
      forall i: nat ensures Eval(PolyAdd(g.poly, [tweak]), Reduce(i)) == Add(Eval(g.poly, Reduce(i)), tweak) {
        EvalShift(g.poly, tweak, Reduce(i));
      }
    }
  }

  // Whole paths

  ghost function DerivedPath(g: Group, path: seq<nat>): Result<Group, ErrorDeriv> {
    if |path| == 0 then Ok(g)
    else
      match DerivedPath(g, path[..|path| - 1])
      case Err(e) => Err(e)
      case Ok(parent) => Derived(parent, path[|path| - 1])
  }

  /** `Party::derive_from_path` replaces the share, the key and the derivation data at once. */
  function DerivePartyPath(party: Party, path: seq<nat>): Result<Party, ErrorDeriv> {
    match DeriveChildren(party.derivation, path)
    case Err(e) => Err(e)
    case Ok(d) => Ok(party.(polyPoint := d.polyPoint, pk := d.pk, derivation := d))
  }

  lemma {:induction false} PartyPath(party: Party, i: nat, g: Group, path: seq<nat>)
    requires PartyFits(party, i, g)
    ensures DerivePartyPath(party, path).Ok? <==> DerivedPath(g, path).Ok?
    ensures DerivePartyPath(party, path).Err? ==> DerivePartyPath(party, path).error == DerivedPath(g, path).error
    ensures DerivePartyPath(party, path).Ok? ==>
      && PartyFits(DerivePartyPath(party, path).value, i, DerivedPath(g, path).value)
      && DerivePartyPath(party, path).value.mulSenders == party.mulSenders
      && DerivePartyPath(party, path).value.mulReceivers == party.mulReceivers
    decreases |path|
  {
    hide DeriveChild, Derived, Secret, HoldsSeeds, Eval;
    if |path| > 0 {
      var n := |path| - 1;
      PartyPath(party, i, g, path[..n]);
      var parent := DerivePartyPath(party, path[..n]);
      if parent.Ok? { PartyDerives(parent.value, i, DerivedPath(g, path[..n]).value, path[n]); }
    }
  }

  lemma {:induction false} DerivedKeeps(g: Group, path: seq<nat>)
    requires DerivedPath(g, path).Ok?
    ensures DerivedPath(g, path).value.parameters == g.parameters && DerivedPath(g, path).value.seeds == g.seeds
    ensures |DerivedPath(g, path).value.poly| <= |g.poly| || |DerivedPath(g, path).value.poly| == 1
    decreases |path|
  {
    hide DeriveChild, Secret;
    if |path| > 0 { DerivedKeeps(g, path[..|path| - 1]); }
  }

  /** The sum of the tweaks along a path. */
  ghost function Tweaks(g: Group, path: seq<nat>): Scalar
    requires DerivedPath(g, path).Ok?
  {
    if |path| == 0 then 0
    else
      var parent := DerivedPath(g, path[..|path| - 1]).value;
      Add(Tweaks(g, path[..|path| - 1]), TweakOf(PublicOf(parent, GTimes(Secret(parent))), path[|path| - 1]))
  }

  lemma {:induction false} SecretShifts(g: Group, path: seq<nat>)
    requires DerivedPath(g, path).Ok?
    ensures Secret(DerivedPath(g, path).value) == Add(Secret(g), Tweaks(g, path))
    decreases |path|
  {
    hide DeriveChild, Eval;
    if |path| > 0 {
      var n := |path| - 1;
      SecretShifts(g, path[..n]);
      var parent := DerivedPath(g, path[..n]).value;
      EvalShift(parent.poly, TweakOf(PublicOf(parent, GTimes(Secret(parent))), path[n]), 0);
    }
  }

  /** Every path: either every party derives along it or all fail with the same error; the derived
      parties fit together around the secret key plus all tweaks. */
  lemma PathCommutes(parties: map<nat, Party>, g: Group, path: seq<nat>) returns (derived: map<nat, Party>)
    requires Compatible(parties, g)
    ensures DerivedPath(g, path).Err? ==>
      forall i <- parties :: DerivePartyPath(parties[i], path) == Err(DerivedPath(g, path).error)
    ensures DerivedPath(g, path).Ok? ==>
      && derived.Keys == parties.Keys
      && (forall i <- parties :: DerivePartyPath(parties[i], path) == Ok(derived[i]))
      && Compatible(derived, DerivedPath(g, path).value)
      && Secret(DerivedPath(g, path).value) == Add(Secret(g), Tweaks(g, path))
  {
    hide DerivePartyPath, PartyFits, Secret, PairsFit, Symmetric, Tweaks, DerivedPath;
    forall i | i in parties
      ensures DerivePartyPath(parties[i], path).Ok? <==> DerivedPath(g, path).Ok?
      ensures DerivePartyPath(parties[i], path).Err? ==> DerivePartyPath(parties[i], path).error == DerivedPath(g, path).error
      ensures DerivePartyPath(parties[i], path).Ok? ==>
        && PartyFits(DerivePartyPath(parties[i], path).value, i, DerivedPath(g, path).value)
        && DerivePartyPath(parties[i], path).value.mulSenders == parties[i].mulSenders
        && DerivePartyPath(parties[i], path).value.mulReceivers == parties[i].mulReceivers
    {
      PartyPath(parties[i], i, g, path);
    }
    derived := map[];
    if DerivedPath(g, path).Ok? {
      derived := map i | i in parties :: DerivePartyPath(parties[i], path).value;
      SamePairs(parties, derived);
      DerivedKeeps(g, path);
      SecretShifts(g, path);
    }
  }

  ghost function PackagePath(p: PublicKeyPackage, g: Group, path: seq<nat>): Result<PublicKeyPackage, ErrorDeriv> {
    if |path| == 0 then Ok(p)
    else
      match PackagePath(p, g, path[..|path| - 1])
      case Err(e) => Err(e)
      case Ok(parent) =>
        match DerivedPath(g, path[..|path| - 1])
        case Err(e) => Err(e)
        case Ok(parentGroup) => DerivePackage(parent, parentGroup.chainCode, path[|path| - 1])
  }

  /** Iterating the package derivation with the threaded chain code keeps it the package of the group. */
  lemma {:induction false} PackagePathFits(p: PublicKeyPackage, g: Group, path: seq<nat>)
    requires PackageFits(p, g) && DerivedPath(g, path).Ok?
    ensures PackagePath(p, g, path).Ok?
    ensures PackageFits(PackagePath(p, g, path).value, DerivedPath(g, path).value)
    decreases |path|
  {
    hide DerivePackage, Derived, PackageFits;
    if |path| > 0 {
      var n := |path| - 1;
      PackagePathFits(p, g, path[..n]);
      PackageDerives(PackagePath(p, g, path[..n]).value, DerivedPath(g, path[..n]).value, path[n]);
    }
  }
}
