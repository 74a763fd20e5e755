# Threshold ECDSA: a verified model of dkls23-core

A model in Dafny 4.11 of the protocol logic of `dkls23-core`, a t-of-n threshold ECDSA library
(DKLs23, eprint 2023/765), with proofs from single machine words up to whole key histories and
signatures. `dafny verify dfyconfig.toml` checks everything.

The main results, all for arbitrary t, n, signer sets, randomness and hash functions:

* **Signing** (`SignFinish.PhasesSucceed`, `SignFinish.SigningCorrect`): for any t parties that fit
  together with nonzero instance keys k_i and nonzero k = Σk_i, whatever order the messages arrive in,
  phases 1 to 3 succeed for everybody. The broadcast sums are kφ and φ(H(m) + sk·r), and phase 4
  succeeds *if and only if* φ is not zero, the x-coordinate of R is below the group order and nonzero,
  and H(m) + sk·r is not zero; its signature then passes ECDSA verification under the group's public
  key. `SignFinish.Phase3Exact` says what happens for the other keys.
* **Whole key histories** (`Lifecycle.KeyLifecycle`, `History.HistoryKeeps`): key generation, then any
  sequence of fast refreshes, complete refreshes and BIP-32 derivations never aborts, keeps one
  invariant (`Compatibility.Compatible`) and ends with shares of the original key plus the tweaks,
  from which signing works.
* **Key generation** (`Dkg.OnePolynomial`, `DkgOutcomes.HonestRunExact`): the window-by-window check of
  step 5 accepts exactly when all n points lie on one polynomial of degree below t (n up to 254), with
  the exact behaviour at n = 255; and the exact condition under which phase 4 succeeds on honest messages.
* **OT extension and multiplication** (`FieldMul.Multiply`, `OtExtension.OteCorrect`,
  `Multiplication.MulCorrect`): the word-level field multiplication and the packed bit transpose agree
  with polynomials and matrices; an honest run passes both consistency checks; the outputs are additive
  shares of the product.
* **Discipline**: who can be banned and for what, which branches are unreachable, single use of session
  objects, framing and transcript encodings.

## How the system is represented

* Scalars are the integers modulo an arbitrary prime above 255 and of at most 256 bits; inverses come
  from Euclid's algorithm and the primality of the order (`Scalars`).
* A point is its discrete logarithm. The x-coordinate and the parity of y are arbitrary functions of the
  point with x(P) = x(R) exactly for R = ±P, and opposite parities for P and −P (`Curve`).
* SHA-256 is an arbitrary function to 32 bytes, and so are HMAC-SHA512 and the fingerprint hash of
  derivation. Theorems that need collisions to be absent say so about the two inputs concerned.
* Every random draw is a parameter. A theorem about a run quantifies over all draws and states which
  degenerate ones it excludes.
* The hypotheses of the theorems about groups can be met: `ReKey.Deal` constructs, for all parameters,
  keys and draws, parties that satisfy the invariant, and `SignFinish.SessionOfGroup` leads from it to
  the signing theorem.
* Party indices, counters and lengths are naturals; widths are modelled where they matter: the 64-bit
  words of the field multiplication, bytes, the u8 sum in step 5, the u64 and u32 length fields.
* Code that works by loops is a method with loop invariants, proved equal to a specification function;
  the lemmas are about those functions. The field multiplication, the transpose and the refresh of OT
  data work on arrays in place; `SignSession`, `DkgSession`, `PhaseOutput` and the refreshed party are
  classes.

| modules | source file |
|---|---|
| Bits, BinaryField, FieldMul, Transpose, OtExtension, OtLoops | `utilities/ot/extension.rs` |
| BaseOt, MulInit | `utilities/ot/base.rs`, initialisations in `extension.rs` and `multiplication.rs` |
| MulErrors, Multiplication | `utilities/multiplication.rs` |
| Proofs | `utilities/proofs.rs` |
| ZeroShares | `utilities/zero_shares.rs`, `utilities/commits.rs` |
| Octets, Hashes, Oracles | `utilities/hashes.rs`, `utilities/oracle_tags.rs` |
| Scalars, Sums, Shamir, Curve | arithmetic used throughout |
| Parties, Routing, Dkg, KeyInit, DkgPhases, DkgRun, DkgOutcomes, Compatibility | `protocols.rs`, `protocols/dkg.rs` |
| ReKey, Refresh, RefreshRun, Derivation, History, Lifecycle | `protocols/re_key.rs`, `refresh.rs`, `derivation.rs` |
| Hex, Ecdsa, Signing, SignLoops, SignAlgebra, SignRun, SignFinish, SignDiscipline | `protocols/signing.rs` |
| SignSession, DkgSession, Messages | `protocols/sign_session.rs`, `dkg_session.rs`, `messages.rs` |

## Where the code decides against its documentation

* **Gadget mismatch.** A comment (`multiplication.rs:218-221` and `:477-480`) says that different public
  gadgets make the `verify_r` check fail. They do not: the check does not involve the gadget.
  `Multiplication.MulWithAnyGadgets` proves that such a run is accepted and says by exactly how much the
  outputs miss the product; `SignDiscipline.GadgetMismatchBans` says when the equations of phase 3 of
  signing catch it.
* **255 parties.** `Parameters::new` accepts 255 shares, but step 5 computes `i + threshold` in u8
  (`dkg.rs:423`, `:430`), which wraps for the last window. The model follows a release build; a debug build
  panics. `Dkg.LastWindowWraps` characterises the acceptance, `Dkg.HonestRunRefused` shows that an honest
  run is refused, `Dkg.FullThresholdUnchecked` covers threshold 255, and `DkgOutcomes.NeverAt255` concludes
  that phase 4 of key generation never succeeds. Re-keying does build groups of 255, and an honest refresh
  of them works; but the correction of party 255, and with threshold 255 every correction, is unchecked
  (`RefreshRun.CorrectionsAt255`, `RefreshRun.LastCorrectionUnchecked`).
* **Recovery bit 1.** Phase 4 computes a bit for x-coordinates that were reduced, but refuses every
  x-coordinate not below the order before, so the bit is never set (`SignFinish.Phase4Verifies`).
* **A failed send leaves a trace.** `add_p2p` creates the receiver's entry before the encoding can fail
  (`messages.rs:119-129`); `Messages.PhaseOutput.AddP2p` keeps the empty entry.
* **Identifiers.** `mul_sid` and `zero_sid` are raw concatenations. They are injective under the length
  guard of phase 1 (`SignDiscipline.SidsInjective`) and collide without it (`SignDiscipline.SidsAmbiguous`).

## Model

| member | source | states |
|---|---|---|
| FieldMul.Multiply | dkls23-core/src/utilities/ot/extension.rs:905-991 | For all pairs of 26-byte inputs the word algorithm returns the product modulo X^208 + X^9 + X^3 + X + 1; other lengths are refused as malformed |
| FieldMul.Load | dkls23-core/src/utilities/ot/extension.rs:916-924 | The little-endian load keeps every coefficient and fills the rest of the words with zeros |
| FieldMul.Comb | dkls23-core/src/utilities/ot/extension.rs:926-948 | After the 64 rounds with shifted `b` every coefficient of `c` is that of the GF(2)[X] product |
| FieldMul.CombRound | dkls23-core/src/utilities/ot/extension.rs:928-940 | One round adds exactly the terms whose left index has bit position k |
| FieldMul.AddRow | dkls23-core/src/utilities/ot/extension.rs:929-939 | The masked XOR adds `b`, moved by j words, exactly when the selected bit is set |
| FieldMul.ShiftLeft | dkls23-core/src/utilities/ot/extension.rs:941-947 | The carry chain over the five words is a shift by one coefficient |
| FieldMul.CombOrder | dkls23-core/src/utilities/ot/extension.rs:926-948 | Visiting the terms bit position by bit position sums the same terms as the definition of the product |
| FieldMul.Reduce | dkls23-core/src/utilities/ot/extension.rs:950-979 | The four word folds and the last partial fold leave a polynomial of degree below 208 congruent to the product |
| FieldMul.FoldWordDiffers | dkls23-core/src/utilities/ot/extension.rs:956-971 | Folding word i changes the polynomial by a multiple of the modulus |
| FieldMul.FoldTopDiffers | dkls23-core/src/utilities/ot/extension.rs:973-979 | The last fold changes it by a multiple of the modulus and leaves no coefficient from 208 on |
| FieldMul.Store | dkls23-core/src/utilities/ot/extension.rs:981-990 | The 26 stored bytes carry the coefficients 0 to 207 |
| BinaryField.FieldProductCongruent | dkls23-core/src/utilities/ot/extension.rs:905-991 | The reference product (Horner's rule) is congruent to the full polynomial product |
| BinaryField.RemainderUnique | dkls23-core/src/utilities/ot/extension.rs:950-991 | Two 26-byte strings congruent to one polynomial are equal, so the reduction has only one correct result |
| BinaryField.FieldProductXor | dkls23-core/src/utilities/ot/extension.rs:905-991 | The product distributes over XOR |
| BinaryField.FieldProductComm | dkls23-core/src/utilities/ot/extension.rs:905-991 | The product is commutative |
| Transpose.CutAndTranspose | dkls23-core/src/utilities/ot/extension.rs:850-890 | The four nested loops on byte arrays return the transposed matrix; a wrong row count is malformed |
| Transpose.TransposedBit | dkls23-core/src/utilities/ot/extension.rs:856-890 | Bit r of output row c is bit c of input row r, under little-endian packing |
| Transpose.ColumnXor | dkls23-core/src/utilities/ot/extension.rs:379-421 | If row i of q is row i of t plus delta_i times x, then column j of q is column j of t plus x_j times the packed delta |
| Bits.Compress | dkls23-core/src/utilities/ot/extension.rs:397-411 | The compression loops pack eight booleans to a byte, little-endian |
| OtLoops.RunSender | dkls23-core/src/utilities/ot/extension.rs:223-480 | The loops of the sender compute `SenderRun`, with every dimension check in its place |
| OtLoops.RunReceiverPhase1 | dkls23-core/src/utilities/ot/extension.rs:544-717 | The loops of the receiver's first phase compute `ReceiverPhase1` |
| OtLoops.RunReceiverPhase2 | dkls23-core/src/utilities/ot/extension.rs:733-831 | The loops of the receiver's second phase compute `ReceiverPhase2` |
| OtLoops.CheckConsistency | dkls23-core/src/utilities/ot/extension.rs:326-375 | The sender's loops compare all 256 rows: they compute `Consistent` |
| OtExtension.HonestConsistent | dkls23-core/src/utilities/ot/extension.rs:299-375 | With seeds related by the correlation, data of an honest receiver pass the sender's check, whatever the choice and noise bits |
| OtExtension.TransposedRelation | dkls23-core/src/utilities/ot/extension.rs:379-411 | Row j of the sender's transposed matrix is the receiver's, plus the packed correlation when choice bit j is 1 |
| OtExtension.HonestExchange | dkls23-core/src/utilities/ot/extension.rs:223-480 | All three phases succeed on each other's messages, and the outputs add up to the correlation where the choice bit is 1 and to zero elsewhere |
| OtExtension.OteCorrect | dkls23-core/src/utilities/ot/extension.rs:377-480 | The whole honest run succeeds for every width and its outputs add up as chosen |
| MulErrors.FromOt | dkls23-core/src/utilities/multiplication.rs:165-174 | An OT error becomes a consistency failure exactly when it was one |
| Multiplication.ComputeGadget | dkls23-core/src/utilities/multiplication.rs:222-232 | The counter loop, wrapping modulo the order, computes the gadget vector of the session and nonce |
| Multiplication.RunMulSender | dkls23-core/src/utilities/multiplication.rs:259-428 | The sender's loops compute `Run`: pads, correlations, transcript challenges, check rows, gammas and outputs |
| Multiplication.RunMulReceiverPhase1 | dkls23-core/src/utilities/multiplication.rs:520-604 | The receiver's first phase computes `RunPhase1`: the gadget-weighted sum of its choice bits and the same challenges |
| Multiplication.RunMulReceiverPhase2 | dkls23-core/src/utilities/multiplication.rs:616-719 | The receiver's second phase computes `RunPhase2`, with its length checks and its comparison of the check value |
| Multiplication.MulCorrect | dkls23-core/src/utilities/multiplication.rs:259-428 | An honest run passes `verify_r`, and for each of the L inputs the two outputs add up to input times the receiver's factor |
| Multiplication.MulExchange | dkls23-core/src/utilities/multiplication.rs:616-719 | The same phase by phase: each party's step succeeds on the other's message |
| Multiplication.MulWithAnyGadgets | dkls23-core/src/utilities/multiplication.rs:216-231 | With unequal gadgets the run is still accepted; the outputs miss the product by the gadget difference weighted with the OT outputs |
| Multiplication.MulExchangeAny | dkls23-core/src/utilities/multiplication.rs:616-719 | The same phase by phase: every step succeeds, and the gap is the gadget difference times what the sender's OT extension returned |
| Multiplication.SenderBans | dkls23-core/src/utilities/multiplication.rs:316-332 | The sender reports a consistency failure exactly when sizes are right and the OT check fails, and malformed exactly when a size is wrong |
| Multiplication.ReceiverBans | dkls23-core/src/utilities/multiplication.rs:616-698 | The receiver reports a consistency failure exactly when sizes are right and the check values differ, and malformed exactly when a size is wrong |
| Multiplication.VerifyRBinds | dkls23-core/src/utilities/multiplication.rs:362-392 | Unless the hash collides on the two encodings, equal check values mean equal matrices of check entries |
| Proofs.InteractiveComplete | dkls23-core/src/utilities/proofs.rs:134-183 | A Schnorr response for any scalar, nonce and challenge of at most 32 bytes verifies exactly when the challenge has 1 to 4 bytes |
| Proofs.InteractiveSound | dkls23-core/src/utilities/proofs.rs:164-183 | Two accepted responses to different challenges give the discrete logarithm |
| Proofs.SampleNonzero | dkls23-core/src/utilities/proofs.rs:116-127 | Resampling returns the first nonzero draw |
| Proofs.VerifyDLog | dkls23-core/src/utilities/proofs.rs:374-461 | The verification loops compute the predicate `DLogVerify`: counts, identity points, distinct commitments, colliding hashes, both Schnorr equations |
| Proofs.DLogComplete | dkls23-core/src/utilities/proofs.rs:374-461 | A proof assembled from nonces and challenges verifies exactly when the scalar and nonces are nonzero, the nonces distinct, and all 32 hash pairs collide |
| Proofs.DLogSound | dkls23-core/src/utilities/proofs.rs:374-461 | Two accepted proofs with the same commitments and different challenges at one place give the discrete logarithm |
| Proofs.CPComplete | dkls23-core/src/utilities/proofs.rs:607-681 | An honest Chaum-Pedersen transcript verifies exactly when bases and scalar are nonzero |
| Proofs.CPSound | dkls23-core/src/utilities/proofs.rs:663-681 | Two accepted transcripts with the same commitments and different challenges determine one witness for both equations |
| Proofs.SimulateComplete | dkls23-core/src/utilities/proofs.rs:688-720 | A simulated transcript verifies exactly when no point involved is the identity |
| Proofs.EncComplete | dkls23-core/src/utilities/proofs.rs:753-907 | For either bit and all draws the OR-proof verifies exactly when h, the scalar, v and v - h are not degenerate |
| Proofs.EncSound | dkls23-core/src/utilities/proofs.rs:913-963 | Two accepted OR-proofs of one statement with different total challenges give a bit and a scalar that the statement encrypts |
| BaseOt.RunSenderBatch | dkls23-core/src/utilities/ot/base.rs:163-185 | The batch loop computes `SenderBatch`: indexed session ids, proof and h checked for every instance |
| BaseOt.RunReceiverPhase1Batch | dkls23-core/src/utilities/ot/base.rs:233-254 | The batch loop returns the secret scalars and one OR-proof per bit |
| BaseOt.RunReceiverBatch | dkls23-core/src/utilities/ot/base.rs:316-340 | The sender's proof is checked once, then one pad is computed per instance |
| BaseOt.InstanceAgrees | dkls23-core/src/utilities/ot/base.rs:118-154 | The sender accepts an honest receiver exactly when its statement is not degenerate, and the receiver's pad is then the message of its bit |
| BaseOt.BatchAgrees | dkls23-core/src/utilities/ot/base.rs:316-340 | The same for every index of a batch; the receiver accepts exactly when the sender's proof verifies |
| MulInit.InitEstablishes | dkls23-core/src/utilities/ot/extension.rs:517-527 | Base OT with roles reversed: one side fails exactly on a degenerate statement, the other exactly on a proof that does not verify; otherwise the seed relation holds for all 256 columns, with equal gadgets on both sides |
| ZeroShares.GenerateSeedPair | dkls23-core/src/utilities/zero_shares.rs:65-86 | The pair holds the XOR of both seeds and whether the party has the lower index |
| ZeroShares.ComputeShare | dkls23-core/src/utilities/zero_shares.rs:105-130 | The loop over the seed list computes `Compute` |
| ZeroShares.SharesOfZero | dkls23-core/src/utilities/zero_shares.rs:105-130 | For every subset of parties of any size and every session id, the shares they compute add up to zero |
| Hashes.HashComponents | dkls23-core/src/utilities/hashes.rs:22-42 | The loop hashes tag and components, each behind its 8-byte length |
| Hashes.TranscriptInjective | dkls23-core/src/utilities/hashes.rs:22-42 | Two encodings are equal exactly when tag and component list are, for lists of any lengths |
| Parties.NewParameters | dkls23-core/src/protocols.rs:128-145 | Parameters are accepted exactly when 2 <= threshold <= share count, and then hold these two values |
| Routing.CollectBySender | dkls23-core/src/protocols/dkg.rs:835-866 | The loop of receiver, membership and duplicate checks computes `Collect` |
| Routing.CollectSpec | dkls23-core/src/protocols/dkg.rs:835-866 | The checks pass exactly when every message is addressed to us, comes from an expected party, and no sender repeats; the map then holds exactly these messages |
| Routing.SendersExact | dkls23-core/src/protocols/dkg.rs:898-917 | With the checks passed, the right count means that the senders are exactly the expected parties |
| Routing.CollectDelivered | dkls23-core/src/protocols/dkg.rs:835-866 | In whatever order the expected messages arrive, exactly they are collected |
| KeyInit.InitZeroShares | dkls23-core/src/protocols/dkg.rs:833-966 | The zero-share block of phase 4 computes `ZeroBlock` |
| KeyInit.SeedPairsSpec | dkls23-core/src/protocols/dkg.rs:919-963 | The block succeeds exactly when every opening matches its commitment, with the XOR of both seeds for every counterparty; its only error is a failed decommitment |
| KeyInit.ZeroBlockNeverMissing | dkls23-core/src/protocols/dkg.rs:919-939 | The missing-message branches of the zero-share block cannot be reached |
| KeyInit.InitMultiplication | dkls23-core/src/protocols/dkg.rs:968-1099 | The multiplication block of phase 4 computes `MulBlock` |
| KeyInit.MulPairsSpec | dkls23-core/src/protocols/dkg.rs:1013-1099 | The block succeeds exactly when both initialisations do for every counterparty; there is then one entry for each on both sides, the outcome of its own initialisation |
| KeyInit.MulBlockNeverMissing | dkls23-core/src/protocols/dkg.rs:1013-1021 | The missing-message branch of the multiplication block cannot be reached |
| KeyInit.CommitSeeds | dkls23-core/src/protocols/dkg.rs:533-551 | Every other party is sent the commitment to its own seed, in order, and the openings are kept |
| KeyInit.RevealSeeds | dkls23-core/src/protocols/dkg.rs:615-633 | Every kept opening is sent to its party and the seeds are kept |
| KeyInit.StartPairs | dkls23-core/src/protocols/dkg.rs:642-708 | Every other party is sent the first messages of both multiplications, with the indices of the session ids in the right order |
| KeyInit.AddressSpec | dkls23-core/src/protocols/dkg.rs:533-551 | One message for every other party, in ascending order and to nobody else |
| Dkg.Horner | dkls23-core/src/protocols/dkg.rs:316-323 | The accumulator loop evaluates the polynomial |
| Dkg.Step2 | dkls23-core/src/protocols/dkg.rs:306-333 | The points are the values of the polynomial at 1, 2, .., n |
| Dkg.Step3 | dkls23-core/src/protocols/dkg.rs:346-366 | The fragments are summed, and the proof for the share is committed to |
| Dkg.FragmentsSum | dkls23-core/src/protocols/dkg.rs:346-366 | The sum of the fragments is the value of the sum of the polynomials |
| Dkg.LagrangeCoefficient | dkls23-core/src/protocols/dkg.rs:427-443 | Numerator and denominator loops compute the Lagrange coefficient at zero |
| Dkg.ReconstructWindow | dkls23-core/src/protocols/dkg.rs:422-452 | The inner loop is Shamir reconstruction in the exponent over one window, or reports the first missing point |
| Dkg.Step5 | dkls23-core/src/protocols/dkg.rs:389-465 | The loops compute `Step5Result`: proofs in order, duplicates overwriting, windows compared with the first |
| Dkg.OnePolynomial | dkls23-core/src/protocols/dkg.rs:389-465 | For n <= 254 step 5 returns a key exactly when no proof is rejected and the points 1..n lie on one polynomial of degree below t with the key as its value at zero |
| Dkg.AnySubsetReconstructs | dkls23-core/src/protocols/dkg.rs:418-465 | After acceptance any t of the n points, contiguous or not, reconstruct the same public key |
| Dkg.LastWindowWraps | dkls23-core/src/protocols/dkg.rs:421-430 | With n = 255 and t < 255, acceptance means that the points 1..254 share zero; the result is then the identity and point 255 is unchecked |
| Dkg.HonestRunRefused | dkls23-core/src/protocols/dkg.rs:421-463 | With n = 255, points on one polynomial of a nonzero secret are refused as inconsistent |
| Dkg.FullThresholdUnchecked | dkls23-core/src/protocols/dkg.rs:421-430 | With t = n = 255 the identity is returned whatever the points |
| DkgPhases.Phase2 | dkls23-core/src/protocols/dkg.rs:512-577 | Phase 2 sums the fragments, proves the share and commits to seeds and chain code, with the protocol version |
| DkgPhases.AssembleChainCode | dkls23-core/src/protocols/dkg.rs:1101-1137 | The loop checks each commitment in party order and XORs the parts |
| DkgPhases.WrongVersionSpec | dkls23-core/src/protocols/dkg.rs:787-800 | The version check reports the first party, by index, with another version, all before it having ours, and none exactly when all agree |
| DkgPhases.Phase4 | dkls23-core/src/protocols/dkg.rs:767-1171 | Phase 4 returns `Phase4Reason`: its checks in the order of the code, every abort recoverable and ours |
| DkgRun.HonestPhase4 | dkls23-core/src/protocols/dkg.rs:767-1171 | With honest messages in any order and no degenerate draw, phase 4 of any party succeeds with its value of the joint polynomial |
| DkgRun.DkgEstablishes | dkls23-core/src/protocols/dkg.rs:767-1171 | All n parties finish and fit together: shares of one polynomial, one key, one chain code, symmetric seeds, the seed relation for every ordered pair |
| DkgRun.PackageOfRun | dkls23-core/src/protocols/dkg.rs:1139-1171 | The public key package lists the key and the points of all shares |
| DkgOutcomes.PhasesDeliver | dkls23-core/src/protocols/dkg.rs:512-733 | What phases 2 and 3 address to a party, received in any order, is what the honest run is about, and so is what they keep |
| DkgOutcomes.FragmentsDealt | dkls23-core/src/protocols/dkg.rs:306-366 | The values that the dealers compute for a party in step 2 sum to its share in step 3 |
| DkgOutcomes.HonestRunExact | dkls23-core/src/protocols/dkg.rs:767-1171 | On honest messages phase 4 succeeds for a party exactly when the key and its share are not trivial, the proofs it received verify, no statement it received is degenerate, and n < 255 |
| DkgOutcomes.NeverAt255 | dkls23-core/src/protocols/dkg.rs:802-821 | With 255 parties phase 4 fails whatever it is given |
| Compatibility.CompatibleReconstructs | dkls23-core/src/protocols/dkg.rs:389-465 | Any set of at least t parties that fit together interpolates the secret of their public key |
| ReKey.DrawSeeds | dkls23-core/src/protocols/re_key.rs:87-99 | The nested loops fill the triangular table of pair seeds |
| ReKey.PartySeeds | dkls23-core/src/protocols/re_key.rs:101-129 | The index arithmetic finds, for every party, the seed of each pair, with the right sign |
| ReKey.DealPairs | dkls23-core/src/protocols/re_key.rs:131-199 | The dealer's loops establish the seed relation and a common gadget for every ordered pair |
| ReKey.EvaluateByPowers | dkls23-core/src/protocols/re_key.rs:211-217 | The accumulator of powers evaluates the polynomial |
| ReKey.Deal | dkls23-core/src/protocols/re_key.rs:54-258 | The dealt parties fit together around exactly the given secret key |
| Refresh.RelationKept | dkls23-core/src/protocols/refresh.rs:1071-1156 | One fast refresh keeps the seed relation although each side updates its own half, with the roles swapped |
| Refresh.RefreshedPair | dkls23-core/src/protocols/refresh.rs:1048-1175 | So does any number of fast refreshes |
| Refresh.RefreshOt | dkls23-core/src/protocols/refresh.rs:1071-1156 | The loop over the columns updates correlation and seeds in place as specified |
| Refresh.RefreshMul | dkls23-core/src/protocols/refresh.rs:1034-1175 | The loop over the counterparties computes `FastMul` |
| Refresh.PartyCell.CheckStep5 | dkls23-core/src/protocols/refresh.rs:887-902 | The corrections are accepted exactly when step 5 yields the identity |
| Refresh.PartyCell.RefreshPhase4 | dkls23-core/src/protocols/refresh.rs:873-1229 | The result is `FastReason`; the old party is wiped on success and untouched on failure |
| Refresh.PartyCell.RefreshCompletePhase4 | dkls23-core/src/protocols/refresh.rs:386-738 | The result is `CompleteReason`; the old party is wiped on success and untouched on failure |
| RefreshRun.CorrectionsShareZero | dkls23-core/src/protocols/refresh.rs:403-417 | If the check passes and the committed points are those of the corrections, those of the parties up to 254 lie on a polynomial of degree below t that is zero at zero (t < 255) |
| RefreshRun.RefreshKeepsSecret | dkls23-core/src/protocols/refresh.rs:691-702 | Then any t corrected shares of parties up to 254 interpolate to the secret of the old ones |
| RefreshRun.CorrectionsAt255 | dkls23-core/src/protocols/refresh.rs:403-417 | With 255 parties the corrections are accepted exactly when no proof is rejected and, for t < 255, the first 254 points share zero |
| RefreshRun.LastCorrectionUnchecked | dkls23-core/src/protocols/refresh.rs:403-417 | With 255 parties and t < 255, shares including that of party 255 interpolate to the old secret exactly when its correction lies on the polynomial of the others |
| RefreshRun.FastPreserves | dkls23-core/src/protocols/refresh.rs:873-1229 | The fast refresh of honest parties succeeds for all, keeps the invariant and the secret, for every n up to 255 |
| RefreshRun.CompletePreserves | dkls23-core/src/protocols/refresh.rs:386-738 | So does the complete refresh |
| Derivation.ParseTweakSpec | dkls23-core/src/protocols/derivation.rs:119-137 | The left half is the tweak exactly when it is below the order |
| Derivation.DeriveFromPath | dkls23-core/src/protocols/derivation.rs:203-212 | The loop derives along the parsed path, stopping at the first error |
| Derivation.ParsePathLoop | dkls23-core/src/protocols/derivation.rs:369-394 | The loop computes `ParsePath` |
| Derivation.PathRoundTrip | dkls23-core/src/protocols/derivation.rs:369-394 | The written form of a path is read back exactly when every child number is below 2^31 and there are at most 255; otherwise it is invalid |
| Derivation.DeriveCommutes | dkls23-core/src/protocols/derivation.rs:226-252 | Either all parties derive a child or all fail alike; the derived parties fit together around the secret plus the tweak |
| Derivation.PathCommutes | dkls23-core/src/protocols/derivation.rs:266-291 | Either all parties derive along a path or all fail alike; the derived parties fit together around the secret plus the sum of the tweaks |
| Derivation.PackageDerives | dkls23-core/src/protocols/derivation.rs:305-360 | The package derives to the package of the derived group, exactly when the group derives, up to the depth limit |
| Derivation.PackagePathFits | dkls23-core/src/protocols/derivation.rs:305-360 | Iterated with the threaded chain code, it lists the generator times each derived share |
| History.HistoryKeeps | dkls23-core/src/protocols/refresh.rs:703-738 | After any sequence of refreshes and derivations no step has aborted, the parties fit together, and the secret is the old one plus all tweaks |
| History.RefreshesKeepKey | dkls23-core/src/protocols/refresh.rs:1193-1229 | After any refreshes every t shares interpolate to the original secret and the public key is unchanged |
| Lifecycle.KeyLifecycle | dkls23-core/src/protocols/dkg.rs:767-1171 | From key generation through any history to signing: t parties of the result meet the hypotheses of the signing theorems |
| Hex.HexRoundTrip | dkls23-core/src/protocols/signing.rs:1105-1130 | Hexadecimal strings are read back as the bytes written |
| Ecdsa.SigningEquation | dkls23-core/src/protocols/signing.rs:1138-1181 | If s·k = m + sk·r for r = x(kG) below the order, verification accepts exactly when r and s are nonzero |
| Ecdsa.NegatedEquation | dkls23-core/src/protocols/signing.rs:1026-1037 | Negating s is signing with -k |
| Ecdsa.LowSIsLow | dkls23-core/src/protocols/signing.rs:1026-1037 | The normalised s is low, and zero only if s was |
| Ecdsa.RecoverPublicKey | dkls23-core/src/protocols/signing.rs:1044-1079 | Public-key recovery from the point kG yields the public key |
| SignLoops.SignPhase1 | dkls23-core/src/protocols/signing.rs:260-457 | The loops of phase 1 compute `Phase1`, every abort recoverable |
| SignLoops.OwnLagrange | dkls23-core/src/protocols/signing.rs:498-516 | The loop computes the party's Lagrange coefficient over the signers, or reports a zero denominator |
| SignLoops.CheckRouting | dkls23-core/src/protocols/signing.rs:546-573 | The routing loop reports the first misrouted, unknown or repeated sender |
| SignLoops.SignPhase2 | dkls23-core/src/protocols/signing.rs:480-727 | The loops of phase 2 compute `Phase2`: count, routing, versions, roots, then the messages |
| SignLoops.SignPhase3 | dkls23-core/src/protocols/signing.rs:752-962 | The loops of phase 3 compute `Phase3`: per message the checks, the decommitment, the multiplication and both equations, then the sums |
| SignLoops.SignPhase4 | dkls23-core/src/protocols/signing.rs:985-1083 | Phase 4 computes `Phase4`: sums, inversion, hex check, low-S, verification, recovery id |
| SignAlgebra.ContributionsSum | dkls23-core/src/protocols/signing.rs:683-715 | With all pairs multiplied, the parties' sums add up to the product of the two totals: the double sum over ordered pairs cancels |
| SignRun.HonestPhase1 | dkls23-core/src/protocols/signing.rs:260-457 | Phase 1 of any signer succeeds and prepares its multiplications |
| SignRun.HonestPhase2 | dkls23-core/src/protocols/signing.rs:480-727 | Phase 2 of any signer succeeds on the others' messages in any order |
| SignFinish.HonestPhase3 | dkls23-core/src/protocols/signing.rs:752-962 | Phase 3 of any signer on honest messages, exactly: it aborts for the first zero instance key, then for a zero total key, and otherwise outputs the common x-coordinate and its broadcast |
| SignFinish.SharesAddUp | dkls23-core/src/protocols/signing.rs:498-524 | The signers' key shares, Lagrange-weighted and masked, add up to the secret key |
| SignFinish.BroadcastTotals | dkls23-core/src/protocols/signing.rs:946-956 | The sum of u is k·phi and the sum of w is phi·(H(m) + sk·r) |
| SignFinish.PhasesSucceed | dkls23-core/src/protocols/signing.rs:260-962 | From the invariant alone, with nonzero instance keys and total key: phase 1 of every signer succeeds, phase 2 on every arrival of the messages of phase 1, and phase 3 on every arrival of those of phase 2, with one x-coordinate |
| SignFinish.InboxesExist | dkls23-core/src/protocols/signing.rs:407-457 | Every signer sends each of the others its message in phases 1 and 2, so every order of arrival is possible |
| SignFinish.Phase3Exact | dkls23-core/src/protocols/signing.rs:780-943 | Phase 3 succeeds exactly when no other signer's instance key and not their total is zero; it names one with a zero key, or reports the inconsistency |
| SignFinish.SigningCorrect | dkls23-core/src/protocols/signing.rs:985-1083 | The end-to-end theorem: every signer completes phase 3 with a broadcast, the sums are k·phi and phi·(H(m) + sk·r), and phase 4 succeeds exactly when phi is not zero, R.x is a nonzero scalar below the order and H(m) + sk·r is nonzero; the signature is (H(m) + sk·r)/k up to low-S and verifies |
| SignFinish.Phase4Verifies | dkls23-core/src/protocols/signing.rs:1039-1083 | Whatever the broadcasts, what phase 4 returns verifies, is low when normalised, and has recovery bit 1 clear |
| SignFinish.RecoveryCorrect | dkls23-core/src/protocols/signing.rs:1044-1079 | The point with the x-coordinate and the parity of the recovery id is R, or -R exactly when s was negated, and recovers the public key |
| SignFinish.SessionOfGroup | dkls23-core/src/protocols/signing.rs:480-524 | Any t distinct parties that fit together meet the hypotheses of the signing theorem |
| SignDiscipline.Phase1Guard | dkls23-core/src/protocols/signing.rs:271-339 | Phase 1 starts exactly when both identifiers have 32 bytes, the count is t - 1, and the counterparties are in range, known, distinct and not ourselves |
| SignDiscipline.Phase2Guard | dkls23-core/src/protocols/signing.rs:529-615 | When the checks of phase 2 pass the senders are exactly the counterparties, and each has our version and root |
| SignDiscipline.Phase2Bans | dkls23-core/src/protocols/signing.rs:646-681 | A ban in phase 2 comes after all checks passed, names a counterparty, and is for a failed OT check of well-formed data that no honest receiver can have sent |
| SignDiscipline.HonestNotBanned3 | dkls23-core/src/protocols/signing.rs:853-912 | A sender that answers honestly is never banned in phase 3 |
| SignDiscipline.GadgetMismatchBans | dkls23-core/src/protocols/signing.rs:853-912 | An honest answer made with another gadget is banned exactly when the gadget difference does not vanish on the OT outputs of one of the two inputs |
| SignDiscipline.Phase3Bans | dkls23-core/src/protocols/signing.rs:853-912 | A ban in phase 3 names a routed counterparty whose answer is not that of any honest sender; it is for a failed check value of a well-formed message or for one of the two equations, never for a dimension fault |
| SignDiscipline.SidsInjective | dkls23-core/src/protocols/signing.rs:375-383 | With identifiers of 32 bytes, the multiplication ids are equal exactly when indices, session, sign id and chain code are, and the zero-share ids exactly when the last three are |
| SignDiscipline.SidsAmbiguous | dkls23-core/src/protocols/signing.rs:271-283 | Without the guard two different sessions share their ids |
| SignSession.NewSession | dkls23-core/src/protocols/sign_session.rs:20-33 | A new session holds the data of phase 1 and nothing else |
| SignSession.SignSession.Phase2 | dkls23-core/src/protocols/sign_session.rs:35-52 | The data of phase 1 are consumed, also when phase 2 fails |
| SignSession.SignSession.Phase3 | dkls23-core/src/protocols/sign_session.rs:54-72 | The data of phase 2 are consumed, also when phase 3 fails |
| SignSession.SignSession.Phase4 | dkls23-core/src/protocols/sign_session.rs:74-107 | The signature is finished from the stored x-coordinate, with low S; the session cannot be called again |
| SignSession.SingleUse | dkls23-core/src/protocols/sign_session.rs:35-107 | Over every sequence of calls, failing ones included: at most one batch, at most one broadcast, in that order |
| SignSession.BatchInstance | dkls23-core/src/protocols/sign_session.rs:35-52 | Every message of a batch opens the instance key of phase 1 |
| SignSession.FinishedSignature | dkls23-core/src/protocols/sign_session.rs:84-107 | When phase 4 succeeds, r and s of the returned signature are below the order, s is low, the recovery id is 0 or 1, and the pair verifies |
| DkgSession.DkgSession.Phase1 | dkls23-core/src/protocols/dkg_session.rs:44-46 | The points of the polynomial |
| DkgSession.DkgSession.Phase2 | dkls23-core/src/protocols/dkg_session.rs:48-77 | Phase 2 runs once: share, proof and commitments are stored, later calls are refused |
| DkgSession.DkgSession.Phase3 | dkls23-core/src/protocols/dkg_session.rs:79-127 | Phase 3 reveals the stored seeds and chain code, starts all pairs, and consumes the openings; out of order without them |
| DkgSession.DkgSession.Phase4 | dkls23-core/src/protocols/dkg_session.rs:129-177 | Phase 4 is out of order unless phases 2 and 3 have run, and otherwise uses the stored data; the session is consumed and wiped |
| DkgSession.SingleUse | dkls23-core/src/protocols/dkg_session.rs:48-177 | Over every sequence of calls: one share at most, seeds revealed at most once and only after it, and phase 4 has its data exactly when both happened |
| DkgSession.ShareFixed | dkls23-core/src/protocols/dkg_session.rs:48-127 | Once fixed, share and proof never change, and the seeds of phase 4 are the committed ones |
| Messages.EncodeFrame | dkls23-core/src/protocols/messages.rs:51-61 | Tag, 4-byte length and payload; refused when the payload does not fit |
| Messages.FindInStream | dkls23-core/src/protocols/messages.rs:63-97 | The scan stays in bounds, terminates and computes `Search` |
| Messages.StreamRoundTrip | dkls23-core/src/protocols/messages.rs:63-97 | In a concatenation of frames the search finds the payload of the first frame with the tag, or nothing when none has it |
| Messages.TruncationExact | dkls23-core/src/protocols/messages.rs:65-79 | On arbitrary bytes truncation is reported exactly when, after whole frames with other tags, an incomplete frame follows |
| Messages.PhaseOutput.AddBroadcast | dkls23-core/src/protocols/messages.rs:114-117 | A frame is appended, or nothing changes |
| Messages.PhaseOutput.AddP2p | dkls23-core/src/protocols/messages.rs:119-129 | The frame is appended to the receiver's entry only; a failed encoding still leaves the entry |
| Messages.EntryIsStream | dkls23-core/src/protocols/messages.rs:119-129 | Whatever is added, in any mixture, each receiver's entry is the stream of its own frames |
| Messages.Get | dkls23-core/src/protocols/messages.rs:133-154 | Lookup by sender, with the sender put into a not-found error |
| Messages.Delivery | dkls23-core/src/protocols/messages.rs:119-154 | What a sender adds, the receiver finds under the sender: the first message of the type, or not found |

## Left out

- Curve arithmetic, SHA-256, HMAC, RIPEMD-160 and the encodings of the crates that provide them: abstract groups and arbitrary functions stand for them; bincode is an arbitrary partial parser.
- Cryptographic hardness, soundness errors of the checks, simulation security, constant-time behaviour and the wiping of temporaries: none is a functional property. The wiping of a refreshed party and of session state is modelled.
- OtExtension.HonestConsistent: completeness of the consistency check; that a dishonest receiver is caught holds only with high probability and is not stated.
- Proofs.DLogComplete: the search for colliding challenges is not modelled; whether it succeeds depends on the hash. The lemma says when its result verifies.
- Proofs.EncSound: extraction from two transcripts; the commitments inside the proofs are compared as the verifier recomputes them.
- Dkg.OnePolynomial: stated for at most 254 parties; `Dkg.LastWindowWraps` and `Dkg.FullThresholdUnchecked` give the exact behaviour at 255.
- DkgRun.DkgEstablishes: for honest parties whose draws are not degenerate, with valid proofs of discrete logarithm; `DkgOutcomes.HonestRunExact` covers the other draws of honest parties, and dishonest key generation is covered by `Dkg.OnePolynomial` and the routing lemmas only.
- SignFinish.SigningCorrect: for honest signers with nonzero instance keys and a nonzero total key (`SignFinish.Phase3Exact` covers the others); what a dishonest counterparty can cause is covered by `SignDiscipline` and `SignFinish.Phase4Verifies`.
- SignLoops.SignPhase1: the stored OT and gadget vectors of a party have the lengths that every constructor gives them (`PartySized`); the source would index out of bounds on others.
- BTreeMap and BTreeSet are maps and sets, iterated in ascending order where the code's order can be observed.
- Random generators and resampling loops other than `Proofs.SampleNonzero`: draws are parameters.
- Address derivation in the curve crates, error texts, `Display`, serde attributes, feature flags, `EcdsaSignature::to_bytes`, the benchmarks and the documentation tools.
- Networking, transport authentication and orchestration, which the library leaves to its users.
