// The PLL configuration word: packed by SetSysClock, taken apart by SystemCoreClockUpdate.
module PllWord {

  const PLLSRC_HSE: bv32 := 0x0040_0000
  const PLLSRC_HSI: bv32 := 0

  /** IS_RCC_PLLM_VALUE to IS_RCC_PLLQ_VALUE and IS_RCC_PLL_SOURCE. */
  predicate InRange(m: bv32, n: bv32, p: bv32, q: bv32, src: bv32) {
    && m <= 63
    && 192 <= n <= 432
    && (p == 2 || p == 4 || p == 6 || p == 8)
    && 4 <= q <= 15
    && (src == PLLSRC_HSE || src == PLLSRC_HSI)
  }

  function Packed(m: bv32, n: bv32, p: bv32, q: bv32, src: bv32): bv32 {
    m | (n << 6) | (((p >> 1) - 1) << 16) | src | (q << 24)
  }

  function FieldM(w: bv32): bv32 { w & 0x3F }

  function FieldN(w: bv32): bv32 { (w & 0x7FC0) >> 6 }

  function FieldP(w: bv32): bv32 { (((w & 0x3_0000) >> 16) + 1) * 2 }

  function FieldQ(w: bv32): bv32 { (w >> 24) & 0xF }

  function FieldSrc(w: bv32): bv32 { (w & 0x40_0000) >> 22 }

  lemma RecoversM(m: bv32, n: bv32, p: bv32, q: bv32, src: bv32)
    requires InRange(m, n, p, q, src)
    ensures FieldM(Packed(m, n, p, q, src)) == m
  {
  }

  lemma RecoversN(m: bv32, n: bv32, p: bv32, q: bv32, src: bv32)
    requires InRange(m, n, p, q, src)
    ensures FieldN(Packed(m, n, p, q, src)) == n
  {
  }

  lemma RecoversP(m: bv32, n: bv32, p: bv32, q: bv32, src: bv32)
    requires InRange(m, n, p, q, src)
    ensures FieldP(Packed(m, n, p, q, src)) == p
  {
  }

  lemma RecoversQ(m: bv32, n: bv32, p: bv32, q: bv32, src: bv32)
    requires InRange(m, n, p, q, src)
    ensures FieldQ(Packed(m, n, p, q, src)) == q
  {
  }

  lemma RecoversSrc(m: bv32, n: bv32, p: bv32, q: bv32, src: bv32)
    requires InRange(m, n, p, q, src)
    ensures FieldSrc(Packed(m, n, p, q, src)) != 0 <==> src == PLLSRC_HSE
  {
  }

  /** The five packed fields occupy different bits. */
  lemma FieldsDoNotOverlap(m: bv32, n: bv32, p: bv32, q: bv32, src: bv32)
    requires m <= 63 && 192 <= n <= 432 && (p == 2 || p == 4 || p == 6 || p == 8) && 4 <= q <= 15
    requires src == 0x0040_0000 || src == 0
    ensures m & (n << 6) == 0
    ensures (m | (n << 6)) & (((p >> 1) - 1) << 16) == 0
    ensures (m | (n << 6) | (((p >> 1) - 1) << 16)) & src == 0
    ensures (m | (n << 6) | (((p >> 1) - 1) << 16) | src) & (q << 24) == 0
  {
  }

  /** For every M, N, P, Q and source that the range macros admit, the decoder recovers all five from the word. */
  lemma RoundTrip(m: bv32, n: bv32, p: bv32, q: bv32, src: bv32)
    requires m <= 63 && 192 <= n <= 432 && (p == 2 || p == 4 || p == 6 || p == 8) && 4 <= q <= 15
    requires src == 0x0040_0000 || src == 0
    ensures var w := m | (n << 6) | (((p >> 1) - 1) << 16) | src | (q << 24);
            && w == Packed(m, n, p, q, src)
            && FieldM(w) == m && FieldN(w) == n && FieldP(w) == p && FieldQ(w) == q
            && (FieldSrc(w) != 0 <==> src == 0x0040_0000)
  {
    RecoversM(m, n, p, q, src);
    RecoversN(m, n, p, q, src);
    RecoversP(m, n, p, q, src);
    RecoversQ(m, n, p, q, src);
    RecoversSrc(m, n, p, q, src);
    hide FieldM, FieldN, FieldP, FieldQ, FieldSrc;
  }
}
