// The two clock decoders on the bits of the register words, code by code as the constants name them.
module ClockWords {
  import opened PllWord
  import opened ClockMath
  import opened ClockDecode

  // ----- The fields -----

  lemma AhbCode(cfgr: bv32)
    ensures cfgr & 0x80 == 0 <==> Hpre(cfgr) < 8
    ensures cfgr & 0xC0 == 0 <==> Hpre(cfgr) < 4
    ensures cfgr & 0xF0 == 0x40 ==> Hpre(cfgr) == 4
    ensures cfgr & 0xF0 == 0x50 ==> Hpre(cfgr) == 5
    ensures cfgr & 0xF0 == 0x60 ==> Hpre(cfgr) == 6
    ensures cfgr & 0xF0 == 0x70 ==> Hpre(cfgr) == 7
    ensures cfgr & 0xF0 == 0x80 ==> Hpre(cfgr) == 8
    ensures cfgr & 0xF0 == 0x90 ==> Hpre(cfgr) == 9
    ensures cfgr & 0xF0 == 0xA0 ==> Hpre(cfgr) == 10
    ensures cfgr & 0xF0 == 0xB0 ==> Hpre(cfgr) == 11
    ensures cfgr & 0xF0 == 0xC0 ==> Hpre(cfgr) == 12
    ensures cfgr & 0xF0 == 0xD0 ==> Hpre(cfgr) == 13
    ensures cfgr & 0xF0 == 0xE0 ==> Hpre(cfgr) == 14
    ensures cfgr & 0xF0 == 0xF0 ==> Hpre(cfgr) == 15
  {
  }

  lemma Apb1Code(cfgr: bv32)
    ensures cfgr & 0x1000 == 0 ==> Ppre1(cfgr) < 4
    ensures cfgr & 0x1C00 == 0x1000 ==> Ppre1(cfgr) == 4
    ensures cfgr & 0x1C00 == 0x1400 ==> Ppre1(cfgr) == 5
    ensures cfgr & 0x1C00 == 0x1800 ==> Ppre1(cfgr) == 6
    ensures cfgr & 0x1C00 == 0x1C00 ==> Ppre1(cfgr) == 7
  {
  }

  lemma Apb2Code(cfgr: bv32)
    ensures cfgr & 0x8000 == 0 ==> Ppre2(cfgr) < 4
    ensures cfgr & 0xE000 == 0x8000 ==> Ppre2(cfgr) == 4
    ensures cfgr & 0xE000 == 0xA000 ==> Ppre2(cfgr) == 5
    ensures cfgr & 0xE000 == 0xC000 ==> Ppre2(cfgr) == 6
    ensures cfgr & 0xE000 == 0xE000 ==> Ppre2(cfgr) == 7
  {
  }

  /** The PLL fields of every word, in range or not. */
  lemma PllFieldsOfWord(w: bv32)
    ensures FieldM(w) == w & 0x3F && FieldN(w) == (w >> 6) & 0x1FF
    ensures FieldP(w) == (((w >> 16) & 3) + 1) * 2 && FieldQ(w) == (w >> 24) & 0xF
    ensures FieldSrc(w) != 0 <==> w & 0x40_0000 != 0
  {
  }

  // ----- The PLL -----

  /** The frequency a PLL word yields from an input frequency: the truncated quotient by bits 5..0 times bits
      14..6, modulo 2^32, divided by 2, 4, 6 or 8 as bits 17..16 say. */
  function PllFrequency(input: nat, w: bv32): nat
    requires w & 0x3F != 0
  {
    PllFieldsOfWord(w);
    FieldPPositive(w);
    MNotZero(w);
    Computed(input, (w & 0x3F) as int, ((w >> 6) & 0x1FF) as int, ((((w >> 16) & 3) + 1) * 2) as int, 0)
  }

  lemma MNotZero(w: bv32)
    requires w & 0x3F != 0
    ensures (w & 0x3F) as int > 0
  {
  }

  lemma PllFrequencyIsOutput(input: nat, w: bv32)
    requires w & 0x3F != 0
    ensures FieldM(w) as int > 0 && PllFrequency(input, w) == PllOutput(input, w)
  {
    PllFieldsOfWord(w);
    MNotZero(w);
    hide FieldM, FieldN, FieldP, Computed;
  }

  // ----- SYSCLK -----

  /** The PLL input SystemCoreClockUpdate takes. */
  lemma UpdateInputOfWord(d: Device, osc: Oscillators, w: bv32)
    ensures var hse := w & 0x40_0000 != 0;
            UpdateInput(d, osc, w) == match d
                                      case F411 => if hse then 0 else osc.hsi
                                      case F411Bypass => if hse then 8_000_000 else 0
                                      case _ => if hse then osc.hse else osc.hsi
  {
    PllFieldsOfWord(w);
    hide FieldSrc;
  }

  lemma RccInputOfWord(osc: Oscillators, w: bv32)
    ensures RccInput(osc, w) == if w & 0x40_0000 != 0 then osc.hse else osc.hsi
  {
    PllFieldsOfWord(w);
    hide FieldSrc;
  }

  /** The clock that SWS says is in use; 0 and the unused code 3 stand for HSI. */
  function SysclkOfWord(osc: Oscillators, input: nat, cfgr: bv32, w: bv32): nat
    requires cfgr & 0xC == 0x8 ==> w & 0x3F != 0
  {
    if cfgr & 0xC == 0x4 then osc.hse else if cfgr & 0xC == 0x8 then PllFrequency(input, w) else osc.hsi
  }

  lemma SysclkIsOfWord(osc: Oscillators, input: nat, cfgr: bv32, w: bv32)
    requires cfgr & 0xC == 0x8 ==> w & 0x3F != 0
    ensures Decodable(cfgr, w) && Sysclk(osc, input, cfgr, w) == SysclkOfWord(osc, input, cfgr, w)
  {
    if cfgr & 0xC == 0x8 {
      PllFrequencyIsOutput(input, w);
    }
    hide PllOutput, PllFrequency, FieldM;
  }

  lemma SourceBits(osc: Oscillators, input: nat, cfgr: bv32, w: bv32)
    requires cfgr & 0xC == 0x8 ==> w & 0x3F != 0
    ensures cfgr & 0xC == 0x0 ==> SysclkOfWord(osc, input, cfgr, w) == osc.hsi
    ensures cfgr & 0xC == 0x4 ==> SysclkOfWord(osc, input, cfgr, w) == osc.hse
    ensures cfgr & 0xC == 0x8 ==> SysclkOfWord(osc, input, cfgr, w) == PllFrequency(input, w)
    ensures cfgr & 0xC == 0xC ==> SysclkOfWord(osc, input, cfgr, w) == osc.hsi
  {
    hide PllFrequency;
  }

  // ----- SystemCoreClockUpdate -----

  /** For every documented HPRE code the reported clock is the clock in use divided by the number the code is
      named after. */
  lemma UpdatedClockOfWord(d: Device, osc: Oscillators, cfgr: bv32, w: bv32)
    requires cfgr & 0xC == 0x8 ==> w & 0x3F != 0
    ensures Decodable(cfgr, w)
    ensures var clock := SysclkOfWord(osc, UpdateInput(d, osc, w), cfgr, w);
            var reported := UpdatedClock(d, osc, cfgr, w);
            && (cfgr & 0x80 == 0x00 ==> reported == clock)
            && (cfgr & 0xF0 == 0x80 ==> reported == clock / 2)
            && (cfgr & 0xF0 == 0x90 ==> reported == clock / 4)
            && (cfgr & 0xF0 == 0xA0 ==> reported == clock / 8)
            && (cfgr & 0xF0 == 0xB0 ==> reported == clock / 16)
            && (cfgr & 0xF0 == 0xC0 ==> reported == clock / 64)
            && (cfgr & 0xF0 == 0xD0 ==> reported == clock / 128)
            && (cfgr & 0xF0 == 0xE0 ==> reported == clock / 256)
            && (cfgr & 0xF0 == 0xF0 ==> reported == clock / 512)
  {
    var input := UpdateInput(d, osc, w);
    SysclkIsOfWord(osc, input, cfgr, w);
    AhbCode(cfgr);
    hide UpdateInput, Hpre, Decodable, SysclkOfWord, Sysclk;
    AhbTableDivides(Sysclk(osc, input, cfgr, w), Hpre(cfgr));
    hide ShiftRight;
  }

  // ----- RCC_GetClocksFreq -----

  /** SYSCLK, and HCLK for every HPRE code; the undocumented codes 4 to 7 divide too. */
  lemma RccHclkOfWord(osc: Oscillators, cfgr: bv32, w: bv32)
    requires cfgr & 0xC == 0x8 ==> w & 0x3F != 0
    ensures Decodable(cfgr, w)
    ensures var f := RccFrequencies(osc, cfgr, w);
            && f.sysclk == SysclkOfWord(osc, RccInput(osc, w), cfgr, w)
            && (cfgr & 0xC0 == 0x00 ==> f.hclk == f.sysclk)
            && (cfgr & 0xF0 == 0x40 ==> f.hclk == f.sysclk / 2)
            && (cfgr & 0xF0 == 0x50 ==> f.hclk == f.sysclk / 4)
            && (cfgr & 0xF0 == 0x60 ==> f.hclk == f.sysclk / 8)
            && (cfgr & 0xF0 == 0x70 ==> f.hclk == f.sysclk / 16)
            && (cfgr & 0xF0 == 0x80 ==> f.hclk == f.sysclk / 2)
            && (cfgr & 0xF0 == 0x90 ==> f.hclk == f.sysclk / 4)
            && (cfgr & 0xF0 == 0xA0 ==> f.hclk == f.sysclk / 8)
            && (cfgr & 0xF0 == 0xB0 ==> f.hclk == f.sysclk / 16)
            && (cfgr & 0xF0 == 0xC0 ==> f.hclk == f.sysclk / 64)
            && (cfgr & 0xF0 == 0xD0 ==> f.hclk == f.sysclk / 128)
            && (cfgr & 0xF0 == 0xE0 ==> f.hclk == f.sysclk / 256)
            && (cfgr & 0xF0 == 0xF0 ==> f.hclk == f.sysclk / 512)
  {
    SysclkIsOfWord(osc, RccInput(osc, w), cfgr, w);
    AhbCode(cfgr);
    RccClocksDivide(osc, cfgr, w);
    hide RccInput, Hpre, Ppre1, Ppre2, Decodable, SysclkOfWord, Sysclk, ShiftRight;
  }

  lemma RccPclkOfWord(osc: Oscillators, cfgr: bv32, w: bv32)
    requires cfgr & 0xC == 0x8 ==> w & 0x3F != 0
    ensures Decodable(cfgr, w)
    ensures var f := RccFrequencies(osc, cfgr, w);
            && (cfgr & 0x1000 == 0x0000 ==> f.pclk1 == f.hclk)
            && (cfgr & 0x1C00 == 0x1000 ==> f.pclk1 == f.hclk / 2)
            && (cfgr & 0x1C00 == 0x1400 ==> f.pclk1 == f.hclk / 4)
            && (cfgr & 0x1C00 == 0x1800 ==> f.pclk1 == f.hclk / 8)
            && (cfgr & 0x1C00 == 0x1C00 ==> f.pclk1 == f.hclk / 16)
            && (cfgr & 0x8000 == 0x0000 ==> f.pclk2 == f.hclk)
            && (cfgr & 0xE000 == 0x8000 ==> f.pclk2 == f.hclk / 2)
            && (cfgr & 0xE000 == 0xA000 ==> f.pclk2 == f.hclk / 4)
            && (cfgr & 0xE000 == 0xC000 ==> f.pclk2 == f.hclk / 8)
            && (cfgr & 0xE000 == 0xE000 ==> f.pclk2 == f.hclk / 16)
  {
    SysclkIsOfWord(osc, RccInput(osc, w), cfgr, w);
    Apb1Code(cfgr);
    Apb2Code(cfgr);
    RccClocksDivide(osc, cfgr, w);
    hide RccFrequencies, RccInput, Hpre, Ppre1, Ppre2, Decodable, SysclkOfWord, Sysclk, ShiftRight;
  }
}
