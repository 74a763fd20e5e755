/** Domain-separation tags of the oracles. */
module Oracles {
  import opened Hashes

  function Ascii(s: string): Bytes {
    seq(|s|, i requires 0 <= i < |s| => (s[i] as nat % 256) as bv8)
  }

  const TAG_COMMITMENT: Bytes := Ascii("dkls23/commitment/v1")
  const TAG_DLOG_PROOF_FISCHLIN: Bytes := Ascii("dkls23/proofs/dlog/fischlin/v1")
  const TAG_DLOG_PROOF_COMMITMENT: Bytes := Ascii("dkls23/proofs/dlog/commitment/v1")
  const TAG_ENCPROOF_FS: Bytes := Ascii("dkls23/proofs/enc/fs/v1")
  const TAG_ZERO_SHARE_FRAGMENT: Bytes := Ascii("dkls23/zero-share/fragment/v1")
  const TAG_ROOT_AGREEMENT: Bytes := Ascii("dkls23/sign/root-agreement/v1")
  const TAG_OT_BASE_H: Bytes := Ascii("dkls23/ot/base/h/v1")
  const TAG_OT_BASE_MSG: Bytes := Ascii("dkls23/ot/base/msg/v1")
  const TAG_OTE_PRG: Bytes := Ascii("dkls23/ot/extension/prg/v1")
  const TAG_OTE_CHI: Bytes := Ascii("dkls23/ot/extension/chi/v1")
  const TAG_OTE_RANDOMIZE: Bytes := Ascii("dkls23/ot/extension/randomize/v1")
  const TAG_MUL_GADGET: Bytes := Ascii("dkls23/mul/gadget/v1")
  const TAG_MUL_CHI_TILDE: Bytes := Ascii("dkls23/mul/chi-tilde/v1")
  const TAG_MUL_CHI_HAT: Bytes := Ascii("dkls23/mul/chi-hat/v1")
  const TAG_MUL_VERIFY: Bytes := Ascii("dkls23/mul/verify/v1")
  const TAG_REFRESH_FAST_R0: Bytes := Ascii("dkls23/refresh/fast/r0/v1")
  const TAG_REFRESH_FAST_R1: Bytes := Ascii("dkls23/refresh/fast/r1/v1")
  const TAG_REFRESH_FAST_B: Bytes := Ascii("dkls23/refresh/fast/b/v1")

  function Concat(rows: seq<Bytes>): Bytes {
    if |rows| == 0 then [] else Concat(rows[..|rows| - 1]) + rows[|rows| - 1]
  }
}
