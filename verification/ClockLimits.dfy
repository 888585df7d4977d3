// The exact frequencies the configured registers produce, as fractions, against the limits the driver documents.
module ClockLimits {
  import opened PllWord
  import opened ClockDecode
  import opened BringupTrace
  import opened ClockPlan
  import opened ClockOutcome

  /** A frequency of num/den Hz. */
  datatype Exact = Exact(num: nat, den: nat)

  predicate NotAbove(f: Exact, hz: nat) { f.num <= hz * f.den }

  predicate IsExactly(f: Exact, hz: nat) { f.num == hz * f.den }

  /** The frequency a PLL word makes of its input, divided once more: nothing is truncated. */
  function Divide(input: nat, pllcfgr: bv32, divider: nat): Exact {
    var m: nat, n: nat, p: nat := FieldM(pllcfgr) as int, FieldN(pllcfgr) as int, FieldP(pllcfgr) as int;
    Exact(input * n, m * p * divider)
  }

  function Hclk(input: nat, cfgr: bv32, pllcfgr: bv32): Exact {
    Divide(input, pllcfgr, AhbDivider(Hpre(cfgr)))
  }

  function Pclk1(input: nat, cfgr: bv32, pllcfgr: bv32): Exact {
    Divide(input, pllcfgr, AhbDivider(Hpre(cfgr)) * ApbDivider(Ppre1(cfgr)))
  }

  function Pclk2(input: nat, cfgr: bv32, pllcfgr: bv32): Exact {
    Divide(input, pllcfgr, AhbDivider(Hpre(cfgr)) * ApbDivider(Ppre2(cfgr)))
  }

  /** The clock of USB OTG FS, SDIO and RNG: PLL_VCO / PLLQ. */
  function UsbClock(input: nat, pllcfgr: bv32): Exact {
    var m: nat, n: nat, q: nat := FieldM(pllcfgr) as int, FieldN(pllcfgr) as int, FieldQ(pllcfgr) as int;
    Exact(input * n, m * q)
  }

  predicate IsSlow(d: Device) { d.F401? || d.F411? || d.F411Bypass? }

  /** The factors of each variant as numbers. */
  lemma Factors(d: Device)
    ensures PllM(d) as int == (if d.F411? then 16 else 8) && PllP(d) as int == (if IsSlow(d) then 4 else 2)
    ensures PllN(d) as int
         == if d.F40_41? || d.F401? then 336 else if HasOverdrive(d) then 360 else 400
  {
  }

  /** The exact clocks after SystemInit. */
  lemma ConfiguredClocks(d: Device, input: nat, r: Registers, reading: bv32)
    requires Shows(reading, PllInUse)
    ensures var a := Initialized(d, true, r);
            var cfgr := CfgrRead(a.cfgr, reading);
            var num, den := input * (PllN(d) as int), PllM(d) as int * PllP(d) as int;
            && Hclk(input, cfgr, a.pllcfgr) == Exact(num, den)
            && Pclk1(input, cfgr, a.pllcfgr) == Exact(num, den * if IsSlow(d) then 2 else 4)
            && Pclk2(input, cfgr, a.pllcfgr) == Exact(num, den * if IsSlow(d) then 1 else 2)
            && UsbClock(input, a.pllcfgr) == Exact(num, PllM(d) as int * 7)
  {
    PllFields(d);
    SwitchedWord(d, reading);
    BusPrescalers(d, reading);
    assert AhbDivider(0) == 1 && ApbDivider(4) == 2 && ApbDivider(5) == 4 && ApbDivider(0) == 1;
    hide CfgrRead, Hpre, Ppre1, Ppre2, Shows, ConfiguredCfgr, ConfiguredPll, FieldM, FieldN, FieldP, FieldQ;
    hide ClearedCr, SetBits, PoweredCr, PllM, PllN, PllP, AhbDivider, ApbDivider, ConfiguredAcr, HseBits;
  }

  /** The largest HCLK, PCLK2 and PCLK1 the driver documents for each variant. */
  function Limits(d: Device): (nat, nat, nat) {
    match d
    case F40_41 => (168_000_000, 84_000_000, 42_000_000)
    case F401 => (84_000_000, 84_000_000, 42_000_000)
    case F427_437 => (180_000_000, 90_000_000, 45_000_000)
    case F429_439 => (180_000_000, 90_000_000, 45_000_000)
    case _ => (100_000_000, 100_000_000, 50_000_000)
  }

  /** Each of the three bus clocks keeps its documented limit exactly when the oscillator gives at most M MHz. */
  lemma LimitsKept(d: Device, input: nat, r: Registers, reading: bv32)
    requires Shows(reading, PllInUse)
    ensures var a := Initialized(d, true, r);
            var cfgr := CfgrRead(a.cfgr, reading);
            && (NotAbove(Hclk(input, cfgr, a.pllcfgr), Limits(d).0) <==> input <= PllM(d) as int * 1_000_000)
            && (NotAbove(Pclk2(input, cfgr, a.pllcfgr), Limits(d).1) <==> input <= PllM(d) as int * 1_000_000)
            && (NotAbove(Pclk1(input, cfgr, a.pllcfgr), Limits(d).2) <==> input <= PllM(d) as int * 1_000_000)
  {
    ConfiguredClocks(d, input, r, reading);
    Factors(d);
    hide Hclk, Pclk1, Pclk2, UsbClock, Initialized, CfgrRead, Shows, PllM, PllN, PllP;
  }

  /** The 48 MHz that USB requires come out exactly for an oscillator of M MHz on the F40x and the F401, of
      0.84 M MHz on the F411, and for none on the F42x/43x. */
  lemma UsbClockIs48(d: Device, input: nat, r: Registers)
    ensures IsExactly(UsbClock(input, Initialized(d, true, r).pllcfgr), 48_000_000) <==>
            if d.F40_41? || d.F401? then input == PllM(d) as int * 1_000_000
            else (d.F411? || d.F411Bypass?) && input == PllM(d) as int * 840_000
  {
    ConfiguredClocks(d, input, r, 8);
    Factors(d);
    hide Hclk, Pclk1, Pclk2, UsbClock, Initialized, CfgrRead, Shows, PllM, PllN, PllP;
  }

  // ----- Flash wait states -----

  /** The highest HCLK the driver documents, at 2.7 V to 3.6 V, for the wait states each variant programs: 5 on
      the F40x and F42x/43x, 2 on the others. */
  function HighestHclk(d: Device): nat {
    match d
    case F40_41 => 168_000_000
    case F401 => 84_000_000
    case F427_437 => 180_000_000
    case F429_439 => 180_000_000
    case _ => 90_000_000
  }

  /** The programmed wait states cover HCLK exactly when the oscillator gives at most M MHz, or 0.9 M MHz on
      the F411. */
  lemma WaitStatesSuffice(d: Device, input: nat, r: Registers, reading: bv32)
    requires Shows(reading, PllInUse)
    ensures var a := Initialized(d, true, r);
            && a.acr & 0xF == (if d.F401? || d.F411? || d.F411Bypass? then 2 else 5)
            && (NotAbove(Hclk(input, CfgrRead(a.cfgr, reading), a.pllcfgr), HighestHclk(d))
                <==> input <= PllM(d) as int * if d.F411? || d.F411Bypass? then 900_000 else 1_000_000)
  {
    ConfiguredClocks(d, input, r, reading);
    Factors(d);
    ProgrammedWaitStates(d, r);
    assert WaitStates(Initialized(d, true, r).acr) == Initialized(d, true, r).acr & 0xF;
    hide Hclk, Pclk1, Pclk2, UsbClock, Initialized, CfgrRead, Shows, WaitStates, PllM, PllN, PllP;
  }

  lemma ProgrammedWaitStates(d: Device, r: Registers)
    ensures WaitStates(Initialized(d, true, r).acr) == if IsSlow(d) then 2 else 5
  {
    AcrWaitStates(d);
    hide WaitStates, ConfiguredAcr, ClearedCr, SetBits, HseBits, PoweredCr, ConfiguredPll, ConfiguredCfgr;
  }

  lemma AcrWaitStates(d: Device)
    ensures WaitStates(ConfiguredAcr(d)) == if IsSlow(d) then 2 else 5
  {
  }

  /** With its own 16 MHz HSI the F411 runs at exactly 100 MHz with 2 wait states, which are documented up to
      90 MHz only; 3, documented up to 100 MHz, would do. */
  lemma F411NeedsMore(r: Registers, reading: bv32)
    requires Shows(reading, PllInUse)
    ensures var a := Initialized(F411, true, r);
            var hclk := Hclk(16_000_000, CfgrRead(a.cfgr, reading), a.pllcfgr);
            && IsExactly(hclk, 100_000_000) && a.acr & 0xF == 2
            && !NotAbove(hclk, HighestHclk(F411)) && NotAbove(hclk, 100_000_000)
  {
    ConfiguredClocks(F411, 16_000_000, r, reading);
    Factors(F411);
    WaitStatesSuffice(F411, 16_000_000, r, reading);
    hide Hclk, Pclk1, Pclk2, UsbClock, Initialized, CfgrRead, Shows, WaitStates, PllM, PllN, PllP;
  }
}
