// Reading the clock back from the registers: SystemCoreClockUpdate and RCC_GetClocksFreq
// decode the same CFGR and PLLCFGR words.
module ClockDecode {
  import opened PllWord
  import opened ClockMath

  /** The device variants the source is compiled for. */
  datatype Device = F40_41 | F427_437 | F429_439 | F401 | F411 | F411Bypass

  /** HSE_VALUE and HSI_VALUE. */
  datatype Oscillators = Oscillators(hse: nat, hsi: nat)

  const HSE_BYPASS_INPUT_FREQUENCY := 8_000_000
  const AHB_PRESC_TABLE: seq<nat> := [0, 0, 0, 0, 0, 0, 0, 0, 1, 2, 3, 4, 6, 7, 8, 9]
  const APB_AHB_PRESC_TABLE: seq<nat> := [0, 0, 0, 0, 1, 2, 3, 4, 1, 2, 3, 4, 6, 7, 8, 9]

  datatype Frequencies = Frequencies(sysclk: nat, hclk: nat, pclk1: nat, pclk2: nat)

  datatype Source = FromHsi | FromHse | FromPll

  /** The SWS field; the unused value 3 counts as HSI. */
  function SourceOf(cfgr: bv32): Source {
    if cfgr & 0xC == 0x4 then FromHse else if cfgr & 0xC == 0x8 then FromPll else FromHsi
  }

  function Hpre(cfgr: bv32): (i: int)
    ensures 0 <= i < 16
  {
    (((cfgr & 0xF0) >> 4) as bv4) as int
  }

  function Ppre1(cfgr: bv32): (i: int)
    ensures 0 <= i < 8
  {
    (((cfgr & 0x1C00) >> 10) as bv3) as int
  }

  function Ppre2(cfgr: bv32): (i: int)
    ensures 0 <= i < 8
  {
    (((cfgr & 0xE000) >> 13) as bv3) as int
  }

  /** The PLL input SystemCoreClockUpdate assumes; on the F411 it knows only one source and computes 0 for the other. */
  function UpdateInput(d: Device, osc: Oscillators, pllcfgr: bv32): nat {
    match d
    case F411 => if FieldSrc(pllcfgr) == 0 then osc.hsi else 0
    case F411Bypass => if FieldSrc(pllcfgr) != 0 then HSE_BYPASS_INPUT_FREQUENCY else 0
    case _ => if FieldSrc(pllcfgr) != 0 then osc.hse else osc.hsi
  }

  /** The PLL input RCC_GetClocksFreq assumes, in every variant. */
  function RccInput(osc: Oscillators, pllcfgr: bv32): nat {
    if FieldSrc(pllcfgr) != 0 then osc.hse else osc.hsi
  }

  lemma FieldPPositive(pllcfgr: bv32)
    ensures FieldP(pllcfgr) as int > 0
  {
  }

  /** The PLL output for an input frequency, in wrapping 32-bit arithmetic. */
  function PllOutput(input: nat, pllcfgr: bv32): nat
    requires FieldM(pllcfgr) as int > 0
  {
    FieldPPositive(pllcfgr);
    Computed(input, FieldM(pllcfgr) as int, FieldN(pllcfgr) as int, FieldP(pllcfgr) as int, 0)
  }

  /** The divisor M is not zero when the PLL is the source; otherwise the division has no meaning in C. */
  predicate Decodable(cfgr: bv32, pllcfgr: bv32) {
    SourceOf(cfgr).FromPll? ==> FieldM(pllcfgr) as int > 0
  }

  /** SYSCLK for a PLL input. */
  function Sysclk(osc: Oscillators, input: nat, cfgr: bv32, pllcfgr: bv32): nat
    requires Decodable(cfgr, pllcfgr)
  {
    match SourceOf(cfgr)
    case FromHsi => osc.hsi
    case FromHse => osc.hse
    case FromPll => PllOutput(input, pllcfgr)
  }

  /** What SystemCoreClockUpdate assigns to SystemCoreClock. */
  function UpdatedClock(d: Device, osc: Oscillators, cfgr: bv32, pllcfgr: bv32): nat
    requires Decodable(cfgr, pllcfgr)
  {
    ShiftRight(Sysclk(osc, UpdateInput(d, osc, pllcfgr), cfgr, pllcfgr), AHB_PRESC_TABLE[Hpre(cfgr)])
  }

  /** What RCC_GetClocksFreq fills in. */
  function RccFrequencies(osc: Oscillators, cfgr: bv32, pllcfgr: bv32): Frequencies
    requires Decodable(cfgr, pllcfgr)
  {
    var sysclk := Sysclk(osc, RccInput(osc, pllcfgr), cfgr, pllcfgr);
    var hclk := ShiftRight(sysclk, APB_AHB_PRESC_TABLE[Hpre(cfgr)]);
    Frequencies(sysclk, hclk,
                ShiftRight(hclk, APB_AHB_PRESC_TABLE[Ppre1(cfgr)]),
                ShiftRight(hclk, APB_AHB_PRESC_TABLE[Ppre2(cfgr)]))
  }

  // ----- The computation -----

  /** The PLL branch: the product wraps at 32 bits before it is divided by P. */
  method PllProduct(input: nat, m: nat, n: nat, p: nat) returns (clock: nat)
    requires m > 0 && p > 0
    ensures clock == Computed(input, m, n, p, 0)
  {
    var pllvco := (input / m) * n % WORD;
    clock := pllvco / p;
    hide *;
    ShiftByZero(clock);
  }

  /** The PLL branch of SystemCoreClockUpdate with its conditional compilation: the F411 variants leave the
      product at 0 when the source bit is not the one they expect. */
  method PllClock(d: Device, osc: Oscillators, pllcfgr: bv32) returns (clock: nat)
    requires FieldM(pllcfgr) as int > 0
    ensures clock == PllOutput(UpdateInput(d, osc, pllcfgr), pllcfgr)
  {
    var fromHse := FieldSrc(pllcfgr) != 0;
    FieldPPositive(pllcfgr);
    hide FieldM, FieldN, FieldP, FieldSrc, Computed;
    var m, n, p := FieldM(pllcfgr) as int, FieldN(pllcfgr) as int, FieldP(pllcfgr) as int;
    if d.F411? {
      if fromHse {
        clock := 0;
      } else {
        clock := PllProduct(osc.hsi, m, n, p);
      }
    } else if d.F411Bypass? {
      if fromHse {
        clock := PllProduct(HSE_BYPASS_INPUT_FREQUENCY, m, n, p);
      } else {
        clock := 0;
      }
    } else if fromHse {
      clock := PllProduct(osc.hse, m, n, p);
    } else {
      clock := PllProduct(osc.hsi, m, n, p);
    }
    NoInputNoClock(pllcfgr);
  }

  /** The PLL branch of RCC_GetClocksFreq. */
  method RccPllClock(osc: Oscillators, pllcfgr: bv32) returns (clock: nat)
    requires FieldM(pllcfgr) as int > 0
    ensures clock == PllOutput(RccInput(osc, pllcfgr), pllcfgr)
  {
    FieldPPositive(pllcfgr);
    hide FieldM, FieldN, FieldP, FieldSrc, Computed;
    var m, n, p := FieldM(pllcfgr) as int, FieldN(pllcfgr) as int, FieldP(pllcfgr) as int;
    if FieldSrc(pllcfgr) != 0 {
      clock := PllProduct(osc.hse, m, n, p);
    } else {
      clock := PllProduct(osc.hsi, m, n, p);
    }
  }

  lemma NoInputNoClock(pllcfgr: bv32)
    requires FieldM(pllcfgr) as int > 0
    ensures PllOutput(0, pllcfgr) == 0
  {
    FieldPPositive(pllcfgr);
    hide FieldM, FieldN, FieldP;
    ZeroInput(FieldM(pllcfgr) as int, FieldN(pllcfgr) as int, FieldP(pllcfgr) as int);
  }

  // ----- When the two decoders agree -----

  lemma DivisionShrinks(x: nat, d: nat)
    requires d > 0
    ensures x / d <= x
    ensures d >= 2 && x > 0 ==> x / d < x
  {
    var r := x / d;
    DivBounds(x, d);
    if d >= 2 {
      Monotone(r, 2, d);
    } else {
      Monotone(r, 1, d);
    }
  }

  lemma ShiftShrinks(x: nat, h: nat)
    ensures ShiftRight(x, h) <= x
    ensures h > 0 && x > 0 ==> ShiftRight(x, h) < x
  {
    DivisionShrinks(x, Pow2(h));
  }

  lemma ShiftByZero(x: nat)
    ensures ShiftRight(x, 0) == x
  {
    assert Pow2(0) == 1;
  }

  /** Given the same SYSCLK, the two HCLK values agree unless CFGR holds one of the prescaler codes 4..7,
      for which only the table of RCC_GetClocksFreq divides. */
  lemma PrescalersAgree(sysclk: nat, hpre: int)
    requires 0 <= hpre < 16
    ensures ShiftRight(sysclk, AHB_PRESC_TABLE[hpre]) == ShiftRight(sysclk, APB_AHB_PRESC_TABLE[hpre])
       <==> !(4 <= hpre <= 7) || sysclk == 0
  {
    if 4 <= hpre <= 7 {
      ShiftByZero(sysclk);
      ShiftShrinks(sysclk, APB_AHB_PRESC_TABLE[hpre]);
    } else {
      assert AHB_PRESC_TABLE[hpre] == APB_AHB_PRESC_TABLE[hpre];
    }
  }

  /** From the same PLL input, or without the PLL, the two decoders give the same HCLK exactly when the prescaler
      code is a documented one (or the clock is 0). Outside the F411 the inputs are always the same. */
  lemma DecodersAgree(d: Device, osc: Oscillators, cfgr: bv32, pllcfgr: bv32)
    requires Decodable(cfgr, pllcfgr)
    requires SourceOf(cfgr).FromPll? ==> UpdateInput(d, osc, pllcfgr) == RccInput(osc, pllcfgr)
    ensures UpdatedClock(d, osc, cfgr, pllcfgr) == RccFrequencies(osc, cfgr, pllcfgr).hclk
       <==> !(4 <= Hpre(cfgr) <= 7) || RccFrequencies(osc, cfgr, pllcfgr).sysclk == 0
  {
    hide Hpre, PllOutput, SourceOf, FieldSrc, UpdateInput, RccInput;
    PrescalersAgree(RccFrequencies(osc, cfgr, pllcfgr).sysclk, Hpre(cfgr));
  }

  lemma InputsAgree(d: Device, osc: Oscillators, pllcfgr: bv32)
    requires !d.F411? && !d.F411Bypass?
    ensures UpdateInput(d, osc, pllcfgr) == RccInput(osc, pllcfgr)
  {
  }

  /** On the F411 without bypass: as above, except that with the PLL running from HSE SystemCoreClockUpdate
      reports 0, so that it is right only if HCLK is 0. */
  lemma F411Agrees(osc: Oscillators, cfgr: bv32, pllcfgr: bv32)
    requires Decodable(cfgr, pllcfgr)
    ensures UpdatedClock(F411, osc, cfgr, pllcfgr) == RccFrequencies(osc, cfgr, pllcfgr).hclk
       <==> if SourceOf(cfgr).FromPll? && FieldSrc(pllcfgr) != 0
            then RccFrequencies(osc, cfgr, pllcfgr).hclk == 0
            else !(4 <= Hpre(cfgr) <= 7) || RccFrequencies(osc, cfgr, pllcfgr).sysclk == 0
  {
    if SourceOf(cfgr).FromPll? && FieldSrc(pllcfgr) != 0 {
      WrongSourceReadsZero(F411, osc, cfgr, pllcfgr);
    } else {
      DecodersAgree(F411, osc, cfgr, pllcfgr);
    }
    hide UpdatedClock, RccFrequencies, SourceOf, FieldSrc, Hpre;
  }

  function Quotient(x: nat, d: nat): nat
    requires d > 0
  {
    QuotientIsNat(x, d);
    x / d
  }

  /** The PLL input after the division by M. */
  function Divided(input: nat, pllcfgr: bv32): nat
    requires FieldM(pllcfgr) as int > 0
  {
    Quotient(input, FieldM(pllcfgr) as int)
  }

  /** On the F411 with bypass: with the PLL running from HSI it reports 0; with the PLL running from HSE it
      assumes 8 MHz, which makes no difference if HSE_VALUE is the same after the division by M. */
  lemma BypassAgrees(osc: Oscillators, cfgr: bv32, pllcfgr: bv32)
    requires Decodable(cfgr, pllcfgr)
    ensures SourceOf(cfgr).FromPll? && FieldSrc(pllcfgr) == 0 ==>
              (UpdatedClock(F411Bypass, osc, cfgr, pllcfgr) == RccFrequencies(osc, cfgr, pllcfgr).hclk
               <==> RccFrequencies(osc, cfgr, pllcfgr).hclk == 0)
    ensures (SourceOf(cfgr).FromPll? ==>
               && FieldSrc(pllcfgr) != 0
               && Divided(osc.hse, pllcfgr) == Divided(HSE_BYPASS_INPUT_FREQUENCY, pllcfgr)) ==>
              (UpdatedClock(F411Bypass, osc, cfgr, pllcfgr) == RccFrequencies(osc, cfgr, pllcfgr).hclk
               <==> !(4 <= Hpre(cfgr) <= 7) || RccFrequencies(osc, cfgr, pllcfgr).sysclk == 0)
  {
    if !SourceOf(cfgr).FromPll? {
      DecodersAgree(F411Bypass, osc, cfgr, pllcfgr);
    } else if FieldSrc(pllcfgr) == 0 {
      WrongSourceReadsZero(F411Bypass, osc, cfgr, pllcfgr);
    } else if Divided(osc.hse, pllcfgr) == Divided(HSE_BYPASS_INPUT_FREQUENCY, pllcfgr) {
      BypassSysclk(osc, cfgr, pllcfgr);
      hide Hpre, PllOutput, SourceOf, FieldSrc, UpdateInput, RccInput, FieldM;
      PrescalersAgree(RccFrequencies(osc, cfgr, pllcfgr).sysclk, Hpre(cfgr));
    }
    hide UpdatedClock, RccFrequencies, SourceOf, FieldSrc, Hpre, FieldM;
  }

  lemma BypassSysclk(osc: Oscillators, cfgr: bv32, pllcfgr: bv32)
    requires Decodable(cfgr, pllcfgr) && SourceOf(cfgr).FromPll? && FieldSrc(pllcfgr) != 0
    requires Divided(osc.hse, pllcfgr) == Divided(HSE_BYPASS_INPUT_FREQUENCY, pllcfgr)
    ensures Sysclk(osc, UpdateInput(F411Bypass, osc, pllcfgr), cfgr, pllcfgr)
         == Sysclk(osc, RccInput(osc, pllcfgr), cfgr, pllcfgr)
  {
    hide SourceOf, FieldSrc, FieldM, FieldN, FieldP;
  }

  /** N is in range, and a step of the divided input is at least a step of the clock after the divider. */
  predicate Resolves(pllcfgr: bv32, divider: nat) {
    FieldP(pllcfgr) as int * divider <= FieldN(pllcfgr) as int <= 432
  }

  /** For the documented prescaler codes that is also necessary, as long as N is at least P times the HPRE
      divider (which N >= 192 always is for dividers up to 16) and nothing wraps. */
  lemma BypassAgreesExactly(osc: Oscillators, cfgr: bv32, pllcfgr: bv32)
    requires Decodable(cfgr, pllcfgr) && SourceOf(cfgr).FromPll? && FieldSrc(pllcfgr) != 0
    requires !(4 <= Hpre(cfgr) <= 7)
    requires Resolves(pllcfgr, AhbDivider(Hpre(cfgr)))
    requires Divided(osc.hse, pllcfgr) <= 9942053
    ensures UpdatedClock(F411Bypass, osc, cfgr, pllcfgr) == RccFrequencies(osc, cfgr, pllcfgr).hclk
       <==> Divided(osc.hse, pllcfgr) == Divided(HSE_BYPASS_INPUT_FREQUENCY, pllcfgr)
  {
    BypassOutputs(osc, cfgr, pllcfgr);
    BypassDivided(pllcfgr);
    TablesMatch(Hpre(cfgr));
    hide Hpre, FieldM, FieldN, FieldP, FieldSrc, SourceOf, AhbDivider, Computed, UpdatedClock, RccFrequencies;
    hide Pow2, Divided, Resolves;
    SameOutputOfWord(osc.hse, HSE_BYPASS_INPUT_FREQUENCY, pllcfgr, AHB_PRESC_TABLE[Hpre(cfgr)],
                     AhbDivider(Hpre(cfgr)));
  }

  lemma SameOutputOfWord(a: nat, b: nat, w: bv32, h: nat, divider: nat)
    requires FieldM(w) as int > 0 && FieldP(w) as int > 0
    requires divider == Pow2(h) && Resolves(w, divider)
    requires Divided(a, w) <= 9942053 && Divided(b, w) <= 9942053
    ensures Computed(a, FieldM(w) as int, FieldN(w) as int, FieldP(w) as int, h)
         == Computed(b, FieldM(w) as int, FieldN(w) as int, FieldP(w) as int, h)
       <==> Divided(a, w) == Divided(b, w)
  {
    hide FieldM, FieldN, FieldP, Computed, Pow2;
    SameOutput(a, b, FieldM(w) as int, FieldN(w) as int, FieldP(w) as int, h, divider);
  }

  lemma BypassDivided(pllcfgr: bv32)
    requires FieldM(pllcfgr) as int > 0
    ensures Divided(HSE_BYPASS_INPUT_FREQUENCY, pllcfgr) <= 9942053
  {
    hide FieldM;
    DivisionShrinks(HSE_BYPASS_INPUT_FREQUENCY, FieldM(pllcfgr) as int);
  }

  lemma BypassOutputs(osc: Oscillators, cfgr: bv32, pllcfgr: bv32)
    requires Decodable(cfgr, pllcfgr) && SourceOf(cfgr).FromPll? && FieldSrc(pllcfgr) != 0
    requires !(4 <= Hpre(cfgr) <= 7)
    ensures FieldP(pllcfgr) as int > 0
    ensures var m, n, p := FieldM(pllcfgr) as int, FieldN(pllcfgr) as int, FieldP(pllcfgr) as int;
            var h := AHB_PRESC_TABLE[Hpre(cfgr)];
            && UpdatedClock(F411Bypass, osc, cfgr, pllcfgr) == Computed(HSE_BYPASS_INPUT_FREQUENCY, m, n, p, h)
            && RccFrequencies(osc, cfgr, pllcfgr).hclk == Computed(osc.hse, m, n, p, h)
  {
    FieldPPositive(pllcfgr);
    TablesMatch(Hpre(cfgr));
    hide Hpre, FieldM, FieldN, FieldP, FieldSrc, SourceOf, AhbDivider, Computed, ShiftRight;
    var m, n, p := FieldM(pllcfgr) as int, FieldN(pllcfgr) as int, FieldP(pllcfgr) as int;
    ShiftOfOutput(HSE_BYPASS_INPUT_FREQUENCY, m, n, p, AHB_PRESC_TABLE[Hpre(cfgr)]);
    ShiftOfOutput(osc.hse, m, n, p, AHB_PRESC_TABLE[Hpre(cfgr)]);
  }

  lemma TablesMatch(code: int)
    requires 0 <= code < 16 && !(4 <= code <= 7)
    ensures AHB_PRESC_TABLE[code] == APB_AHB_PRESC_TABLE[code]
    ensures Pow2(AHB_PRESC_TABLE[code]) == AhbDivider(code)
  {
    PowersOfTwo();
  }

  lemma ShiftOfOutput(input: nat, m: nat, n: nat, p: nat, h: nat)
    requires m > 0 && p > 0
    ensures ShiftRight(Computed(input, m, n, p, 0), h) == Computed(input, m, n, p, h)
  {
    var x := (input / m) * n % WORD / p;
    hide ShiftRight;
    ShiftByZero(x);
  }

  lemma SameOutput(a: nat, b: nat, m: nat, n: nat, p: nat, h: nat, divider: nat)
    requires m > 0 && p > 0 && divider == Pow2(h) && p * divider <= n <= 432
    requires Quotient(a, m) <= 9942053 && Quotient(b, m) <= 9942053
    ensures Computed(a, m, n, p, h) == Computed(b, m, n, p, h) <==> Quotient(a, m) == Quotient(b, m)
  {
    hide Computed, Pow2, Quotient;
    ScaledOutput(a, m, n, p, h);
    ScaledOutput(b, m, n, p, h);
    SameQuotient(Quotient(a, m), Quotient(b, m), n, p * divider);
  }

  lemma ScaledOutput(a: nat, m: nat, n: nat, p: nat, h: nat)
    requires m > 0 && p > 0 && n <= 432 && Quotient(a, m) <= 9942053
    ensures p * Pow2(h) > 0 && Computed(a, m, n, p, h) == Quotient(Quotient(a, m) * n, p * Pow2(h))
  {
    InputBoundPreventsWrap(a, m, n);
    ComputedIsQuotient(a, m, n, p, h);
    hide Computed, Pow2;
  }

  lemma SameQuotient(k: nat, l: nat, n: nat, d: nat)
    requires 0 < d <= n
    ensures Quotient(k * n, d) == Quotient(l * n, d) <==> k == l
  {
    if k < l {
      ProductGrows(k, l, n, d);
    } else if l < k {
      ProductGrows(l, k, n, d);
    }
  }

  lemma ProductGrows(k: nat, l: nat, n: nat, p: nat)
    requires k < l && 0 < p <= n
    ensures k * n / p < l * n / p
  {
    var x, y := k * n, l * n;
    Monotone(n, k + 1, l);
    Distribute(n, k, 1);
    assert x + p <= y;
    DivBounds(x, p);
    DivBounds(y, p);
    if y / p <= x / p {
      Monotone(p, y / p, x / p);
    }
  }

  /** On the F411 with the PLL selected from the source it was not built for, SystemCoreClockUpdate reports 0. */
  lemma WrongSourceReadsZero(d: Device, osc: Oscillators, cfgr: bv32, pllcfgr: bv32)
    requires Decodable(cfgr, pllcfgr)
    requires SourceOf(cfgr).FromPll?
    requires (d.F411? && FieldSrc(pllcfgr) != 0) || (d.F411Bypass? && FieldSrc(pllcfgr) == 0)
    ensures UpdatedClock(d, osc, cfgr, pllcfgr) == 0
  {
    ShiftShrinks(0, AHB_PRESC_TABLE[Hpre(cfgr)]);
    FieldPPositive(pllcfgr);
    ZeroInput(FieldM(pllcfgr) as int, FieldN(pllcfgr) as int, FieldP(pllcfgr) as int);
    hide Hpre, FieldM, FieldN, FieldP, SourceOf, FieldSrc;
  }

  lemma ZeroInput(m: nat, n: nat, p: nat)
    requires m > 0 && p > 0
    ensures Computed(0, m, n, p, 0) == 0
  {
    assert 0 / m == 0;
    ShiftByZero(0);
  }

  // ----- The prescaler tables -----

  /** The division RCC_SYSCLK_Div1 to RCC_SYSCLK_Div512 name; codes 0 to 7 do not divide. */
  function AhbDivider(code: int): (d: int)
    requires 0 <= code < 16
    ensures d >= 1
  {
    if code < 8 then 1
    else if code == 8 then 2 else if code == 9 then 4 else if code == 10 then 8 else if code == 11 then 16
    else if code == 12 then 64 else if code == 13 then 128 else if code == 14 then 256 else 512
  }

  /** The division RCC_HCLK_Div1 to RCC_HCLK_Div16 name; codes 0 to 3 do not divide. */
  function ApbDivider(code: int): (d: int)
    requires 0 <= code < 8
    ensures d >= 1
  {
    if code < 4 then 1 else if code == 4 then 2 else if code == 5 then 4 else if code == 6 then 8 else 16
  }

  lemma PowersOfTwo()
    ensures Pow2(0) == 1 && Pow2(1) == 2 && Pow2(2) == 4 && Pow2(3) == 8 && Pow2(4) == 16
    ensures Pow2(6) == 64 && Pow2(7) == 128 && Pow2(8) == 256 && Pow2(9) == 512
  {
    assert Pow2(2) == 4;
    assert Pow2(4) == 16;
    assert Pow2(6) == 64;
    assert Pow2(8) == 256;
  }

  /** Shifting by the table entry divides as the constant's name says, for every clock and every code. */
  lemma AhbTableDivides(clock: nat, code: int)
    requires 0 <= code < 16
    ensures ShiftRight(clock, AHB_PRESC_TABLE[code]) == clock / AhbDivider(code)
  {
    PowersOfTwo();
    assert Pow2(AHB_PRESC_TABLE[code]) == AhbDivider(code);
  }

  lemma ApbTableDivides(clock: nat, code: int)
    requires 0 <= code < 8
    ensures ShiftRight(clock, APB_AHB_PRESC_TABLE[code]) == clock / ApbDivider(code)
  {
    PowersOfTwo();
    assert Pow2(APB_AHB_PRESC_TABLE[code]) == ApbDivider(code);
  }

  /** What HPRE divides by in RCC_GetClocksFreq: as documented, and for the undocumented codes 4 to 7 as the
      same APB code would. */
  function RccAhbDivider(code: int): (d: int)
    requires 0 <= code < 16
    ensures d >= 1
  {
    if 4 <= code <= 7 then ApbDivider(code) else AhbDivider(code)
  }

  /** For every pair of register words the three bus clocks are SYSCLK and HCLK divided by the numbers the
      prescaler codes are named after. */
  lemma RccClocksDivide(osc: Oscillators, cfgr: bv32, pllcfgr: bv32)
    requires Decodable(cfgr, pllcfgr)
    ensures var f := RccFrequencies(osc, cfgr, pllcfgr);
            && f.hclk == f.sysclk / RccAhbDivider(Hpre(cfgr))
            && f.pclk1 == f.hclk / ApbDivider(Ppre1(cfgr))
            && f.pclk2 == f.hclk / ApbDivider(Ppre2(cfgr))
  {
    var f := RccFrequencies(osc, cfgr, pllcfgr);
    var code := Hpre(cfgr);
    if 4 <= code <= 7 {
      ApbTableDivides(f.sysclk, code);
    } else {
      AhbTableDivides(f.sysclk, code);
      assert AHB_PRESC_TABLE[code] == APB_AHB_PRESC_TABLE[code];
    }
    ApbTableDivides(f.hclk, Ppre1(cfgr));
    ApbTableDivides(f.hclk, Ppre2(cfgr));
    hide Hpre, Ppre1, Ppre2, Sysclk, RccInput, Decodable, ShiftRight;
  }

  /** The range macros admit M = 1 and N = 432, for which the computation wraps from 3456 MHz with the 16 MHz
      oscillator. */
  lemma RangesDoNotPreventWrap(q: bv32)
    requires 4 <= q <= 15
    ensures InRange(1, 432, 2, q, PLLSRC_HSI)
    ensures var w := Packed(1, 432, 2, q, PLLSRC_HSI);
            FieldM(w) as int > 0 && PllOutput(16_000_000, w) == 1_308_516_352 < 16_000_000 * 432 / 2
  {
    RecoversM(1, 432, 2, q, PLLSRC_HSI);
    RecoversN(1, 432, 2, q, PLLSRC_HSI);
    RecoversP(1, 432, 2, q, PLLSRC_HSI);
    hide Packed, FieldM, FieldN, FieldP;
    assert Pow2(0) == 1;
  }
}
