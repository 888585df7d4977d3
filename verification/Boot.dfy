// SystemInit followed by SystemCoreClockUpdate on one board: the writer and the decoder together.
module Boot {
  import opened PllWord
  import opened ClockMath
  import opened ClockDecode
  import opened BringupTrace
  import opened ClockPlan
  import opened ClockOutcome
  import opened ClockSetup

  /** Both PLL words SystemInit can leave have a divisor M other than 0. */
  lemma LeftDecodable(d: Device, pll: bool, r: Registers, cfgr: bv32)
    ensures Decodable(cfgr, Initialized(d, pll, r).pllcfgr)
  {
    PllFields(d);
    PllMPositive(d);
    ResetFieldM();
    hide FieldM, PllM, ConfiguredPll, ConfiguredCfgr, ConfiguredAcr, PoweredCr, ClearedCr, StartedCr, SetBits;
  }

  lemma ResetFieldM()
    ensures FieldM(PLLCFGR_RESET) as int > 0
  {
  }

  /** From any registers and any ready-flag behaviour: if SystemInit returns and the hardware then shows the
      source it was told to use, SystemCoreClock is the configured PLL frequency, or HSI when HSE failed. */
  method InitThenUpdate(b: Board, status: bv32) returns (outcome: Outcome)
    requires b.timeout < WORD
    modifies b
    ensures outcome == SetupOutcome(b.device, b.timeout, old(b.readings))
    ensures outcome.Returned? && outcome.pll && Shows(status, PllInUse) ==>
              b.systemCoreClock == ConfiguredClock(b.device, PllInput(b.device, b.osc))
    ensures outcome.Returned? && !outcome.pll && status & SWS == 0 ==> b.systemCoreClock == b.osc.hsi
    ensures outcome.Waiting? ==> b.systemCoreClock == old(b.systemCoreClock)
  {
    hide SetupOutcome, Initialized, UpdatedClock, Decodable, CfgrRead, Shows, ConfiguredClock, PllInput;
    ghost var entry := b.State();
    outcome := b.SystemInit();
    if outcome.Returned? {
      LeftDecodable(b.device, outcome.pll, entry, CfgrRead(b.cfgr, status));
      b.SystemCoreClockUpdate(status);
      if outcome.pll && Shows(status, PllInUse) {
        DecodesPll(b.device, b.osc, entry, status);
      } else if !outcome.pll && status & SWS == 0 {
        DecodesHsi(b.device, b.osc, entry, status);
      }
    }
  }

  /** SystemInit followed by RCC_GetClocksFreq: from any registers and any ready-flag behaviour, the four
      frequencies are those of the started PLL, with PCLK1 and PCLK2 divided as configured. */
  method InitThenGetClocksFreq(b: Board, status: bv32) returns (outcome: Outcome, f: Frequencies)
    requires b.timeout < WORD
    modifies b
    ensures outcome == SetupOutcome(b.device, b.timeout, old(b.readings))
    ensures outcome.Returned? && outcome.pll && Shows(status, PllInUse)
            && DividedInput(b.device, b.osc) <= 9942053 ==>
              f == BusClocks(b.device, Megahertz(b.device) * DividedInput(b.device, b.osc))
  {
    hide SetupOutcome, Initialized, RccFrequencies, Decodable, CfgrRead, Shows, DividedInput, BusClocks, Megahertz;
    ghost var entry := b.State();
    f := Frequencies(0, 0, 0, 0);
    outcome := b.SystemInit();
    if outcome.Returned? {
      LeftDecodable(b.device, outcome.pll, entry, CfgrRead(b.cfgr, status));
      hide Hpre, Ppre1, Ppre2, RccAhbDivider, ApbDivider;
      f := b.GetClocksFreq(status);
      if outcome.pll && Shows(status, PllInUse) && DividedInput(b.device, b.osc) <= 9942053 {
        ReadsBack(b.device, b.osc, entry, status);
      }
    }
  }
}
