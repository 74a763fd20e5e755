/** Distributed key generation: the sharing steps and the check that all committed points lie on
    one polynomial (Protocol 9.1 of eprint 2023/602). */
module Dkg {
  import opened Scalars
  import opened Sums
  import opened Shamir
  import opened Results
  import opened Hashes
  import opened Curve
  import opened Proofs
  import opened Parties

  datatype ProofCommitment = ProofCommitment(index: nat, proof: DLogProof, commitment: Digest)

  // Steps 2 and 3

  /** The values at the indices 1 to n. */
  function Evaluations(p: Poly, n: nat): (points: seq<Scalar>)
    ensures |points| == n
  {
    seq(n, k requires 0 <= k < n => Eval(p, Reduce(k + 1)))
  }

  /** Horner's rule, from the highest coefficient down. */
  method Horner(polynomial: Poly, x: Scalar) returns (v: Scalar)
    requires |polynomial| > 0
    ensures v == Eval(polynomial, x)
  {
    hide Mul, Add;
    var last := |polynomial| - 1;
    v := polynomial[last];
    EvalLast(polynomial[last..], x);
    for i := last downto 0
      invariant v == Eval(polynomial[i..], x)
    {
      assert polynomial[i..][1..] == polynomial[i + 1..];
      MulComm(v, x);
      HornerStep(v, x, polynomial[i]);
      v := Add(Mul(v, x), polynomial[i]);
    }
    assert polynomial[0..] == polynomial;
  }

  lemma EvalLast(p: Poly, x: Scalar)
    requires |p| == 1
    ensures Eval(p, x) == p[0]
  {
    MulZero(x);
  }

  lemma HornerStep(v: Scalar, x: Scalar, c: Scalar)
    ensures Add(Mul(v, x), c) == Add(c, Mul(x, v))
  {
    MulComm(v, x);
  }

  method Step2(params: Parameters, polynomial: Poly) returns (points: seq<Scalar>)
    requires ValidParameters(params) && |polynomial| >= params.threshold
    ensures points == Evaluations(polynomial[..params.threshold], params.shareCount)
  {
    hide Eval, Reduce;
    var coefficients := polynomial[..params.threshold];
    points := [];
    for j := 1 to params.shareCount + 1
      invariant |points| == j - 1
      invariant forall k :: 0 <= k < j - 1 ==> points[k] == Eval(coefficients, Reduce(k + 1))
    {
      var v := Horner(coefficients, Reduce(j));
      points := points + [v];
    }
  }

  function SumSeq(xs: seq<Scalar>): Scalar {
    if |xs| == 0 then 0 else Add(SumSeq(xs[..|xs| - 1]), xs[|xs| - 1])
  }

  /** The share, and the proof that the search found for it with its commitment. */
  method Step3(party: nat, sid: Bytes, fragments: seq<Scalar>, proof: DLogProof)
    returns (polyPoint: Scalar, pc: ProofCommitment)
    ensures polyPoint == SumSeq(fragments)
    ensures pc == ProofCommitment(party, proof, DLogCommitment(proof, sid))
  {
    hide Add;
    polyPoint := 0;
    for i := 0 to |fragments|
      invariant polyPoint == SumSeq(fragments[..i])
    {
      assert fragments[..i + 1][..i] == fragments[..i];
      polyPoint := Add(polyPoint, fragments[i]);
    }
    assert fragments[..|fragments|] == fragments;
    pc := ProofCommitment(party, proof, DLogCommitment(proof, sid));
  }

  /** The sum of the polynomials of all dealers. */
  function SumPoly(ps: seq<Poly>): Poly {
    if |ps| == 0 then [] else PolyAdd(SumPoly(ps[..|ps| - 1]), ps[|ps| - 1])
  }

  function ValuesAt(ps: seq<Poly>, x: Scalar): (vs: seq<Scalar>)
    ensures |vs| == |ps|
  {
    seq(|ps|, i requires 0 <= i < |ps| => Eval(ps[i], x))
  }

  /** The fragments a party receives add up to the value of the summed polynomial at its index. */
  lemma {:induction false} FragmentsSum(ps: seq<Poly>, x: Scalar)
    ensures SumSeq(ValuesAt(ps, x)) == Eval(SumPoly(ps), x)
    decreases |ps|
  {
    hide Eval;
    if |ps| == 0 {
      EvalEmpty(x);
    } else {
      var n := |ps| - 1;
      FragmentsSum(ps[..n], x);
      assert ValuesAt(ps, x)[..n] == ValuesAt(ps[..n], x);
      EvalAdd(SumPoly(ps[..n]), ps[n], x);
    }
  }

  lemma EvalEmpty(x: Scalar)
    ensures Eval([], x) == 0
  {}

  lemma {:induction false} SumPolySize(ps: seq<Poly>, t: nat)
    requires forall p <- ps :: |p| == t
    ensures |SumPoly(ps)| == if |ps| == 0 then 0 else t
  {
    if |ps| > 0 { SumPolySize(ps[..|ps| - 1], t); }
  }

  // Step 5

  predicate Accepted(party: nat, sid: Bytes, pc: ProofCommitment) {
    pc.index == party || DecommitVerify(pc.proof, pc.commitment, sid)
  }

  /** The committed points by index; of two with one index the later counts. */
  function PointsOf(pcs: seq<ProofCommitment>): map<nat, Point> {
    if |pcs| == 0 then map[]
    else PointsOf(pcs[..|pcs| - 1])[pcs[|pcs| - 1].index := pcs[|pcs| - 1].proof.point]
  }

  /** The first proof that is not accepted. */
  function FirstRejected(party: nat, sid: Bytes, pcs: seq<ProofCommitment>): Option<nat> {
    if |pcs| == 0 then None
    else
      match FirstRejected(party, sid, pcs[..|pcs| - 1])
      case Some(j) => Some(j)
      case None =>
        var last := pcs[|pcs| - 1];
        if Accepted(party, sid, last) then None else Some(last.index)
  }

  const BYTE := 256

  /** The indices from `i` up to `i + t`, where the end is computed on u8. */
  function Window(i: nat, t: nat): seq<nat> {
    var end := (i + t) % BYTE;
    Span(i, if end < i then 0 else end - i)
  }

  /** Shamir reconstruction in the exponent over the first n members of a window. */
  function WindowSum(points: map<nat, Point>, window: seq<nat>, n: nat): Result<Point, AbortReason>
    requires n <= |window|
  {
    if n == 0 then Ok(IDENTITY)
    else
      match WindowSum(points, window, n - 1)
      case Err(e) => Err(e)
      case Ok(current) =>
        var j := window[n - 1];
        if j !in points then Err(MissingCommittedPoint(j))
        else Ok(Plus(Times(points[j], Lagrange(j, Without(window, j))), current))
  }

  /** The common value of the first `count` windows. */
  function CheckWindows(points: map<nat, Point>, t: nat, count: nat): Result<Point, AbortReason> {
    if count == 0 then Ok(IDENTITY)
    else
      match CheckWindows(points, t, count - 1)
      case Err(e) => Err(e)
      case Ok(pk) =>
        match WindowSum(points, Window(count, t), |Window(count, t)|)
        case Err(e) => Err(e)
        case Ok(current) =>
          if count == 1 then Ok(current)
          else if pk != current then Err(PolynomialInconsistency)
          else Ok(pk)
  }

  function Step5Result(params: Parameters, party: nat, sid: Bytes, pcs: seq<ProofCommitment>)
    : Result<(Point, map<nat, Point>), AbortReason>
    requires ValidParameters(params)
  {
    match FirstRejected(party, sid, pcs)
    case Some(j) => Err(ProofVerificationFailed(j))
    case None =>
      match CheckWindows(PointsOf(pcs), params.threshold, params.shareCount - params.threshold + 1)
      case Err(e) => Err(e)
      case Ok(pk) => Ok((pk, PointsOf(pcs)))
  }

  // The loops of step 5

  method GatherPoints(party: nat, sid: Bytes, pcs: seq<ProofCommitment>) returns (r: Result<map<nat, Point>, AbortReason>)
    ensures r == match FirstRejected(party, sid, pcs)
                 case Some(j) => Err(ProofVerificationFailed(j))
                 case None => Ok(PointsOf(pcs))
  {
    hide DecommitVerify;
    var points: map<nat, Point> := map[];
    for i := 0 to |pcs|
      invariant FirstRejected(party, sid, pcs[..i]) == None
      invariant points == PointsOf(pcs[..i])
    {
      var pc := pcs[i];
      assert pcs[..i + 1][..i] == pcs[..i];
      if pc.index != party {
        var verification := VerifyDecommitment(pc.proof, pc.commitment, sid);
        if !verification {
          RejectedEarly(party, sid, pcs, i + 1);
          return Err(ProofVerificationFailed(pc.index));
        }
      }
      points := points[pc.index := pc.proof.point];
    }
    assert pcs[..|pcs|] == pcs;
    r := Ok(points);
  }

  method VerifyDecommitment(proof: DLogProof, commitment: Digest, sid: Bytes) returns (ok: bool)
    ensures ok == DecommitVerify(proof, commitment, sid)
  {
    hide DLogVerify, DLogCommitment;
    var verified := VerifyDLog(proof, sid);
    ok := commitment == DLogCommitment(proof, sid) && verified;
  }

  lemma {:induction false} RejectedEarly(party: nat, sid: Bytes, pcs: seq<ProofCommitment>, n: nat)
    requires n <= |pcs| && FirstRejected(party, sid, pcs[..n]).Some?
    ensures FirstRejected(party, sid, pcs) == FirstRejected(party, sid, pcs[..n])
    decreases |pcs| - n
  {
    if n == |pcs| {
      assert pcs[..n] == pcs;
    } else {
      assert pcs[..n + 1][..n] == pcs[..n];
      RejectedEarly(party, sid, pcs, n + 1);
    }
  }

  function Numerator(others: seq<nat>): Scalar {
    ProdOver(others, (k: nat) => Reduce(k))
  }

  lemma LagrangeFraction(j: nat, others: seq<nat>)
    ensures Lagrange(j, others) == Mul(Numerator(others), Inv(Denominator(j, others)))
  {}

  lemma FractionStep(j: nat, others: seq<nat>, k: nat)
    ensures Numerator(others + [k]) == Mul(Numerator(others), Reduce(k))
    ensures Denominator(j, others + [k]) == Mul(Denominator(j, others), Sub(Reduce(k), Reduce(j)))
  {
    assert (others + [k])[..|others|] == others;
  }

  lemma FractionStart(j: nat)
    ensures Numerator([]) == 1 && Denominator(j, []) == 1
  {}

  /** The loop over k: numerator and denominator of one Lagrange coefficient. */
  method LagrangeCoefficient(j: nat, window: seq<nat>) returns (lj: Scalar)
    ensures lj == Lagrange(j, Without(window, j))
  {
    hide Mul, Numerator, Denominator, Lagrange, Reduce, Inv;
    var numerator: Scalar, denominator: Scalar := 1, 1;
    FractionStart(j);
    for m := 0 to |window|
      invariant numerator == Numerator(Without(window[..m], j))
      invariant denominator == Denominator(j, Without(window[..m], j))
    {
      var k := window[m];
      assert window[..m + 1][..m] == window[..m];
      FractionStep(j, Without(window[..m], j), k);
      if k != j {
        numerator := Mul(numerator, Reduce(k));
        denominator := Mul(denominator, Sub(Reduce(k), Reduce(j)));
      } else {
        assert Without(window[..m + 1], j) == Without(window[..m], j);
      }
    }
    assert window[..|window|] == window;
    LagrangeFraction(j, Without(window, j));
    lj := Mul(numerator, Inv(denominator));
  }

  method ReconstructWindow(points: map<nat, Point>, window: seq<nat>) returns (r: Result<Point, AbortReason>)
    ensures r == WindowSum(points, window, |window|)
  {
    hide Lagrange, Times, Plus, Without;
    var current := IDENTITY;
    for n := 0 to |window|
      invariant WindowSum(points, window, n) == Ok(current)
    {
      var j := window[n];
      var lj := LagrangeCoefficient(j, window);
      if j !in points {
        WindowErr(points, window, n + 1);
        return Err(MissingCommittedPoint(j));
      }
      current := Plus(Times(points[j], lj), current);
    }
    r := Ok(current);
  }

  lemma {:induction false} WindowErr(points: map<nat, Point>, window: seq<nat>, n: nat)
    requires n <= |window| && WindowSum(points, window, n).Err?
    ensures WindowSum(points, window, |window|) == WindowSum(points, window, n)
    decreases |window| - n
  {
    hide Lagrange, Times, Plus, Without;
    if n < |window| { WindowErr(points, window, n + 1); }
  }

  lemma {:induction false} WindowsErr(points: map<nat, Point>, t: nat, n: nat, count: nat)
    requires n <= count && CheckWindows(points, t, n).Err?
    ensures CheckWindows(points, t, count) == CheckWindows(points, t, n)
    decreases count
  {
    if n < count { WindowsErr(points, t, n, count - 1); }
  }

  /** Step 5: proofs, then the windows, the first giving the public key. */
  method Step5(params: Parameters, party: nat, sid: Bytes, pcs: seq<ProofCommitment>)
    returns (r: Result<(Point, map<nat, Point>), AbortReason>)
    requires ValidParameters(params)
    ensures r == Step5Result(params, party, sid, pcs)
  {
    hide FirstRejected, PointsOf, WindowSum, Window;
    var gathered := GatherPoints(party, sid, pcs);
    if gathered.Err? {
      return Err(gathered.error);
    }
    var points := gathered.value;
    var pk := IDENTITY;
    var count := params.shareCount - params.threshold + 1;
    for i := 1 to count + 1
      invariant CheckWindows(points, params.threshold, i - 1) == Ok(pk)
    {
      var current := ReconstructWindow(points, Window(i, params.threshold));
      match current {
        case Err(e) =>
          WindowsErr(points, params.threshold, i, count);
          return Err(e);
        case Ok(p) =>
          if i == 1 {
            pk := p;
          } else if pk != p {
            WindowsErr(points, params.threshold, i, count);
            return Err(PolynomialInconsistency);
          }
      }
    }
    r := Ok((pk, points));
  }

  // One polynomial

  function Logs(points: map<nat, Point>): nat -> Scalar {
    (j: nat) => if j in points then points[j].log else 0
  }

  function Weighted(f: nat -> Scalar, xs: seq<nat>): nat -> Scalar {
    (x: nat) => Mul(f(x), Lagrange(x, Without(xs, x)))
  }

  /** Shamir reconstruction from the values at `xs`. */
  function Interpolated(f: nat -> Scalar, xs: seq<nat>): Scalar {
    SumOver(xs, Weighted(f, xs))
  }

  lemma {:induction false} WindowDefined(points: map<nat, Point>, window: seq<nat>, n: nat)
    requires n <= |window|
    ensures WindowSum(points, window, n).Ok? <==> forall k :: 0 <= k < n ==> window[k] in points
    decreases n
  {
    hide Lagrange, Times, Plus, Without;
    if n > 0 { WindowDefined(points, window, n - 1); }
  }

  lemma {:induction false} WindowIsSum(points: map<nat, Point>, window: seq<nat>, n: nat)
    requires n <= |window| && WindowSum(points, window, n).Ok?
    ensures WindowSum(points, window, n) == Ok(Point(SumOver(window[..n], Weighted(Logs(points), window))))
    decreases n
  {
    hide Lagrange, Mul, Without;
    if n > 0 {
      WindowIsSum(points, window, n - 1);
      assert window[..n][..n - 1] == window[..n - 1];
    }
  }

  /** The points at 1..n are on p. */
  ghost predicate OnPolynomial(points: map<nat, Point>, p: Poly, n: nat) {
    forall j :: 0 < j <= n ==> j in points && points[j] == GTimes(Eval(p, Reduce(j)))
  }

  lemma SpanIndices(i: nat, t: nat)
    requires 0 < i && i + t <= BYTE
    ensures Indices(Span(i, t)) && forall x :: x in Span(i, t) <==> i <= x < i + t
  {
    forall x | i <= x < i + t ensures x in Span(i, t) { assert Span(i, t)[x - i] == x; }
  }

  /** Reconstruction from the values of a polynomial of low degree gives its value at zero. */
  lemma InterpolatedPolynomial(f: nat -> Scalar, xs: seq<nat>, p: Poly)
    requires Indices(xs) && |p| <= |xs|
    requires forall x <- xs :: f(x) == Eval(p, Reduce(x))
    ensures Interpolated(f, xs) == Eval(p, 0)
  {
    hide Lagrange, Mul, Eval, Reduce;
    Reconstruction(xs, p);
    SumExt(xs, Weighted(f, xs), (x: nat) => Mul(Eval(p, Reduce(x)), Lagrange(x, Without(xs, x))));
  }

  lemma WindowOnPolynomial(points: map<nat, Point>, p: Poly, t: nat, i: nat, n: nat)
    requires OnPolynomial(points, p, n) && |p| <= t && 0 < i && i + t <= n + 1 && n < MAX_INDEX
    ensures WindowSum(points, Window(i, t), |Window(i, t)|) == Ok(GTimes(Eval(p, 0)))
  {
    hide Eval, Reduce, Lagrange, Mul, WindowSum;
    var w := Window(i, t);
    SpanIndices(i, t);
    assert w == Span(i, t);
    WindowDefined(points, w, |w|);
    WindowIsSum(points, w, |w|);
    assert w[..|w|] == w;
    InterpolatedPolynomial(Logs(points), w, p);
  }

  lemma {:induction false} AcceptsPolynomial(points: map<nat, Point>, p: Poly, t: nat, n: nat, count: nat)
    requires OnPolynomial(points, p, n) && |p| <= t && 0 < count && count + t <= n + 1 && n < MAX_INDEX
    ensures CheckWindows(points, t, count) == Ok(GTimes(Eval(p, 0)))
    decreases count
  {
    hide Eval, OnPolynomial, WindowSum, Window;
    WindowOnPolynomial(points, p, t, count, n);
    if count > 1 { AcceptsPolynomial(points, p, t, n, count - 1); }
  }

  lemma {:induction false} WindowsAgree(points: map<nat, Point>, t: nat, count: nat, i: nat)
    requires CheckWindows(points, t, count).Ok? && 0 < i <= count
    ensures WindowSum(points, Window(i, t), |Window(i, t)|) == CheckWindows(points, t, count)
    ensures CheckWindows(points, t, i).Ok?
    decreases count
  {
    if i < count { WindowsAgree(points, t, count - 1, i); }
  }

  /** A polynomial through the members of a window, with the window's value at zero. */
  lemma WindowPolynomial(points: map<nat, Point>, t: nat, i: nat, pk: Point) returns (p: Poly)
    requires 0 < i && i + t < BYTE && WindowSum(points, Window(i, t), |Window(i, t)|) == Ok(pk)
    ensures |p| == t && pk == GTimes(Eval(p, 0))
    ensures forall j :: i <= j < i + t ==> j in points && points[j] == GTimes(Eval(p, Reduce(j)))
  {
    hide Eval, Reduce, Lagrange, Mul, WindowSum;
    var w := Window(i, t);
    SpanIndices(i, t);
    assert w == Span(i, t);
    WindowDefined(points, w, |w|);
    WindowIsSum(points, w, |w|);
    assert w[..|w|] == w;
    p := Interpolation(w, Logs(points));
    InterpolatedPolynomial(Logs(points), w, p);
    forall j | i <= j < i + t ensures j in points && points[j] == GTimes(Eval(p, Reduce(j))) {
      assert j == w[j - i];
      assert j in w;
    }
  }

  /** Two neighbouring windows share t - 1 points and the value at zero, so they have the same
      interpolant. */
  lemma Neighbours(p: Poly, p': Poly, t: nat, i: nat, x: Scalar)
    requires 0 < i && 0 < t && i + t < BYTE && |p| == |p'| == t && Eval(p, 0) == Eval(p', 0)
    requires forall j :: i <= j < i + t - 1 ==> Eval(p, Reduce(j)) == Eval(p', Reduce(j))
    ensures Eval(p, x) == Eval(p', x)
  {
    hide Eval, Reduce;
    var xs := [0] + Span(i, t - 1);
    var ys := AsScalars(xs);
    forall y | y in ys ensures Eval(p, y) == Eval(p', y) {
      if y != 0 {
        var k :| 0 <= k < |ys| && ys[k] == y;
        assert y == i + (k - 1);
        IndexScalar(y);
      }
    }
    forall a, b | 0 <= a < b < |ys| ensures ys[a] != ys[b] {}
    Unique(p, p', ys, x);
  }

  lemma {:induction false} PolynomialThrough(points: map<nat, Point>, t: nat, count: nat) returns (p: Poly)
    requires 0 < count && 0 < t && count + t < BYTE && CheckWindows(points, t, count).Ok?
    ensures |p| == t && CheckWindows(points, t, count) == Ok(GTimes(Eval(p, 0)))
    ensures OnPolynomial(points, p, count + t - 1)
    decreases count
  {
    hide Eval, Reduce, WindowSum, Window;
    var pk := CheckWindows(points, t, count).value;
    WindowsAgree(points, t, count, count);
    var p' := WindowPolynomial(points, t, count, pk);
    if count == 1 {
      p := p';
    } else {
      WindowsAgree(points, t, count, count - 1);
      p := PolynomialThrough(points, t, count - 1);
      forall j | count <= j < count + t - 1 ensures Eval(p, Reduce(j)) == Eval(p', Reduce(j)) {
        assert points[j] == GTimes(Eval(p, Reduce(j)));
      }
      forall j | 0 < j <= count + t - 1 ensures j in points && points[j] == GTimes(Eval(p, Reduce(j))) {
        if j == count + t - 1 { Neighbours(p, p', t, count, Reduce(j)); }
      }
    }
  }

  /** Step 5 is exactly a one-polynomial check: for n up to 254 it accepts if and only if no proof is
      rejected and the points 1..n are multiples of the generator by the values of one polynomial
      of degree below t; its result is then that polynomial at zero. */
  lemma OnePolynomial(params: Parameters, party: nat, sid: Bytes, pcs: seq<ProofCommitment>, pk: Point)
    requires ValidParameters(params) && params.shareCount < MAX_INDEX
    ensures Step5Result(params, party, sid, pcs) == Ok((pk, PointsOf(pcs)))
       <==> && FirstRejected(party, sid, pcs) == None
            && exists p: Poly :: |p| == params.threshold && OnPolynomial(PointsOf(pcs), p, params.shareCount)
                                 && pk == GTimes(Eval(p, 0))
  {
    hide OnPolynomial, FirstRejected, PointsOf, Eval, CheckWindows;
    var points, t, n := PointsOf(pcs), params.threshold, params.shareCount;
    if Step5Result(params, party, sid, pcs) == Ok((pk, points)) {
      var p := PolynomialThrough(points, t, n - t + 1);
    }
    forall p: Poly | |p| == t && OnPolynomial(points, p, n)
      ensures CheckWindows(points, t, n - t + 1) == Ok(GTimes(Eval(p, 0)))
    {
      AcceptsPolynomial(points, p, t, n, n - t + 1);
    }
  }

  lemma {:induction false} NothingRejected(party: nat, sid: Bytes, pcs: seq<ProofCommitment>)
    ensures FirstRejected(party, sid, pcs) == None <==> forall i :: 0 <= i < |pcs| ==> Accepted(party, sid, pcs[i])
    decreases |pcs|
  {
    hide Accepted;
    if |pcs| > 0 { NothingRejected(party, sid, pcs[..|pcs| - 1]); }
  }

  lemma Step5Errors(params: Parameters, party: nat, sid: Bytes, pcs: seq<ProofCommitment>)
    requires ValidParameters(params)
    ensures FirstRejected(party, sid, pcs).Some? ==> Step5Result(params, party, sid, pcs).Err?
  {}

  /** After acceptance any t of the n points, contiguous or not, reconstruct the same public key. */
  lemma AnySubsetReconstructs(params: Parameters, party: nat, sid: Bytes, pcs: seq<ProofCommitment>, xs: seq<nat>)
    requires ValidParameters(params) && params.shareCount < MAX_INDEX
    requires Step5Result(params, party, sid, pcs).Ok?
    requires Distinct(xs) && |xs| == params.threshold && forall x <- xs :: 0 < x <= params.shareCount
    ensures Step5Result(params, party, sid, pcs).value.0 == GTimes(Interpolated(Logs(PointsOf(pcs)), xs))
  {
    hide FirstRejected, PointsOf, Eval, CheckWindows, Reduce, Lagrange;
    var points, t, n := PointsOf(pcs), params.threshold, params.shareCount;
    var p := PolynomialThrough(points, t, n - t + 1);
    InterpolatedPolynomial(Logs(points), xs, p);
  }

  /** With 255 parties the end of the last window wraps around to zero, so that window is empty and
      sums to the identity. Step 5 then accepts exactly the points that share zero on 1..254, and
      the point of party 255 is not checked. */
  lemma LastWindowWraps(params: Parameters, party: nat, sid: Bytes, pcs: seq<ProofCommitment>)
    requires ValidParameters(params) && params.shareCount == MAX_INDEX && params.threshold < MAX_INDEX
    ensures Step5Result(params, party, sid, pcs).Ok?
       <==> && FirstRejected(party, sid, pcs) == None
            && exists p: Poly :: |p| == params.threshold && OnPolynomial(PointsOf(pcs), p, MAX_INDEX - 1) && Eval(p, 0) == 0
    ensures Step5Result(params, party, sid, pcs).Ok? ==>
      Step5Result(params, party, sid, pcs) == Ok((IDENTITY, PointsOf(pcs)))
  {
    hide OnPolynomial, FirstRejected, PointsOf, Eval;
    var points, t := PointsOf(pcs), params.threshold;
    var count := params.shareCount - t + 1;
    assert Window(count, t) == [];
    if CheckWindows(points, t, count).Ok? {
      WindowsAgree(points, t, count, count);
      WindowsAgree(points, t, count, count - 1);
      var p := PolynomialThrough(points, t, count - 1);
    }
    forall p: Poly | |p| == t && OnPolynomial(points, p, MAX_INDEX - 1) && Eval(p, 0) == 0
      ensures CheckWindows(points, t, count).Ok?
    {
      AcceptsPolynomial(points, p, t, MAX_INDEX - 1, count - 1);
    }
  }

  /** So with 255 parties the points of an honest run, on one polynomial that shares a nonzero value,
      are refused. */
  lemma HonestRunRefused(params: Parameters, party: nat, sid: Bytes, pcs: seq<ProofCommitment>, p: Poly)
    requires ValidParameters(params) && params.shareCount == MAX_INDEX && params.threshold < MAX_INDEX
    requires |p| == params.threshold && OnPolynomial(PointsOf(pcs), p, MAX_INDEX) && Eval(p, 0) != 0
    requires FirstRejected(party, sid, pcs) == None
    ensures Step5Result(params, party, sid, pcs) == Err(PolynomialInconsistency)
  {
    hide FirstRejected, PointsOf, Eval;
    var points, t := PointsOf(pcs), params.threshold;
    var count := params.shareCount - t + 1;
    assert Window(count, t) == [];
    assert OnPolynomial(points, p, MAX_INDEX - 1);
    AcceptsPolynomial(points, p, t, MAX_INDEX - 1, count - 1);
  }

  /** And when all 255 are needed the only window wraps: whatever the points, none is looked at. */
  lemma FullThresholdUnchecked(params: Parameters, party: nat, sid: Bytes, pcs: seq<ProofCommitment>)
    requires ValidParameters(params) && params.threshold == params.shareCount == MAX_INDEX
    ensures Step5Result(params, party, sid, pcs) == Ok((IDENTITY, PointsOf(pcs))) <==> FirstRejected(party, sid, pcs) == None
  {
    hide FirstRejected, PointsOf;
    var points := PointsOf(pcs);
    assert Window(1, MAX_INDEX) == [] && CheckWindows(points, MAX_INDEX, 0) == Ok(IDENTITY);
    assert WindowSum(points, Window(1, MAX_INDEX), 0) == Ok(IDENTITY);
    assert CheckWindows(points, MAX_INDEX, 1) == Ok(IDENTITY);
  }
}
