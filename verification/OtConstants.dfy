/** Dimensions of the OT extension. */
module OtConstants {
  const KAPPA := 256
  const KAPPA_BYTES := 32
  const OT_SECURITY := 208
  const OT_SECURITY_BYTES := 26
  const BATCH_SIZE := 416
  const EXTENDED_BATCH_SIZE := 624
  const EXTENDED_BYTES := 78

  type PrgOutput = s: seq<bv8> | |s| == EXTENDED_BYTES witness seq(EXTENDED_BYTES, _ => 0)
  type FieldElement = s: seq<bv8> | |s| == OT_SECURITY_BYTES witness seq(OT_SECURITY_BYTES, _ => 0)
  type KappaRow = s: seq<bv8> | |s| == KAPPA_BYTES witness seq(KAPPA_BYTES, _ => 0)
}
