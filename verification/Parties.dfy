/** Data shared by the protocols: parameters, aborts, parties and public key packages. */
module Parties {
  import opened Scalars
  import opened Results
  import opened Hashes
  import opened Curve
  import opened ZeroShares
  import opened Multiplication

  const MAX_INDEX := 255

  datatype Parameters = Parameters(threshold: nat, shareCount: nat)

  predicate ValidParameters(p: Parameters) {
    2 <= p.threshold <= p.shareCount <= MAX_INDEX
  }

  datatype InvalidParameters = InvalidParameters

  /** `Parameters::new` on two u8 values. */
  function NewParameters(threshold: nat, shareCount: nat): (r: Result<Parameters, InvalidParameters>)
    requires threshold <= MAX_INDEX && shareCount <= MAX_INDEX
    ensures r.Ok? <==> ValidParameters(Parameters(threshold, shareCount))
    ensures r.Ok? ==> r.value.threshold == threshold && r.value.shareCount == shareCount
  {
    if threshold < 2 || threshold > shareCount then Err(InvalidParameters)
    else Ok(Parameters(threshold, shareCount))
  }

  datatype AbortKind = Recoverable | BanCounterparty(party: nat)

  datatype AbortReason =
    | InvalidPartyIndex(index: nat)
    | WrongCounterpartyCount(expected: nat, got: nat)
    | DuplicateCounterparty(index: nat)
    | SelfInCounterparties
    | MalformedSessionId
    | MissingMulState(counterparty: nat)
    | MisroutedMessage(expectedReceiver: nat, actualReceiver: nat)
    | UnexpectedSender(sender: nat)
    | DuplicateSender(sender: nat)
    | WrongMessageCount(expected: nat, got: nat)
    | MissingMessageFromParty(party: nat)
    | ProofVerificationFailed(counterparty: nat)
    | CommitmentMismatch(counterparty: nat)
    | PolynomialInconsistency
    | TrivialInstancePoint(counterparty: nat)
    | TrivialPublicKey
    | TrivialKeyShare
    | MissingCommittedPoint(party: nat)
    | OtConsistencyCheckFailed(counterparty: nat)
    | MultiplicationVerificationFailed(counterparty: nat)
    | GammaUInconsistency(counterparty: nat)
    | SignatureVerificationFailed
    | ZeroDenominator
    | LagrangeCoefficientFailed
    | InvalidXCoordinateHex
    | ZeroShareDecommitFailed(counterparty: nat)
    | ChainCodeCommitmentFailed(party: nat)
    | RootAgreementMismatch(counterparty: nat)
    | ProtocolVersionMismatch(counterparty: nat, expected: nat, got: nat)
    | PhaseCalledOutOfOrder
    | InvalidHex

  datatype Abort = Abort(index: nat, kind: AbortKind, reason: AbortReason)

  function AbortRecoverable(index: nat, reason: AbortReason): Abort {
    Abort(index, Recoverable, reason)
  }

  function Ban(index: nat, counterparty: nat, reason: AbortReason): Abort {
    Abort(index, BanCounterparty(counterparty), reason)
  }

  const PROTOCOL_VERSION := 1

  const FINGERPRINT_BYTES := 4

  datatype DerivData = DerivData(depth: nat, childNumber: nat, parentFingerprint: Bytes,
                                 polyPoint: Scalar, pk: Point, chainCode: Digest)

  datatype Party = Party(parameters: Parameters, index: nat, sid: Bytes, polyPoint: Scalar, pk: Point,
                         zeroShare: seq<SeedPair>, mulSenders: map<nat, MulSender>, mulReceivers: map<nat, MulReceiver>,
                         derivation: DerivData)

  datatype PublicKeyPackage = PublicKeyPackage(verifyingKey: Point, verifyingShares: map<nat, Point>, parameters: Parameters)

  // Lists of indices

  /** The indices first, first + 1, ... (len of them). */
  function Span(first: nat, len: nat): (xs: seq<nat>)
    ensures |xs| == len
  {
    seq(len, k requires 0 <= k < len => first + k)
  }

  /** The members of a set of indices in increasing order, as ordered maps are iterated. */
  function Ascending(keys: set<nat>, bound: nat): (xs: seq<nat>)
    ensures forall k <- xs :: k in keys
  {
    if bound == 0 then []
    else Ascending(keys, bound - 1) + (if bound in keys then [bound] else [])
  }

  lemma {:induction false} AscendingMembers(keys: set<nat>, bound: nat)
    ensures forall k :: k in Ascending(keys, bound) <==> k in keys && 0 < k <= bound
    ensures forall i, j :: 0 <= i < j < |Ascending(keys, bound)| ==> Ascending(keys, bound)[i] < Ascending(keys, bound)[j]
  {
    if bound > 0 {
      AscendingMembers(keys, bound - 1);
      var xs := Ascending(keys, bound - 1);
      forall i | 0 <= i < |xs| ensures xs[i] < bound { assert xs[i] in xs; }
    }
  }
}
