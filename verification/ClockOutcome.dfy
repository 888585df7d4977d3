// What a finished bring-up means: when it finishes, that its result does not depend on what was there before,
// and which clocks the decoders read back from it.
module ClockOutcome {
  import opened PllWord
  import opened ClockMath
  import opened ClockDecode
  import opened BringupTrace
  import opened ClockPlan

  // ----- The waits -----

  ghost predicate NoneShows(readings: seq<bv32>, n: nat, flag: Flag)
    requires n <= |readings|
  {
    forall i :: 0 <= i < n ==> !Shows(readings[i], flag)
  }

  lemma NoneShowsInTail(readings: seq<bv32>, n: nat, flag: Flag)
    requires n < |readings| && !Shows(readings[0], flag)
    ensures NoneShows(readings, n + 1, flag) <==> NoneShows(readings[1..], n, flag)
  {
    hide Shows;
    var tail := readings[1..];
    assert forall i :: 0 <= i < |tail| ==> tail[i] == readings[i + 1];
    assert forall i :: 0 < i < |readings| ==> readings[i] == tail[i - 1];
  }

  /** An unbounded wait ends with the first reading that shows its flag, and only then. */
  lemma {:induction false} WaitEndsAtFirst(readings: seq<bv32>, flag: Flag) returns (n: nat)
    ensures After(readings, flag).None? <==> NoneShows(readings, |readings|, flag)
    ensures After(readings, flag).Some? ==>
              && n < |readings| && Shows(readings[n], flag) && NoneShows(readings, n, flag)
              && After(readings, flag).value == readings[n + 1..]
  {
    hide Shows;
    n := 0;
    if readings != [] {
      if Shows(readings[0], flag) {
        assert NoneShows(readings, 0, flag);
      } else {
        var tail := readings[1..];
        assert After(readings, flag) == After(tail, flag);
        hide After, NoneShows;
        n := WaitEndsAtFirst(tail, flag);
        NoneShowsInTail(readings, |tail|, flag);
        if After(tail, flag).Some? {
          NoneShowsInTail(readings, n, flag);
          TailSlice(readings, n + 1);
        }
        n := n + 1;
      }
    }
  }

  lemma TailSlice(readings: seq<bv32>, n: nat)
    requires n < |readings|
    ensures readings[1..][n..] == readings[n + 1..]
  {
  }

  /** The start-up loop ends after at most `bound` readings; it ends early only with a ready one, and it is still
      waiting only if it has had fewer readings than that. */
  lemma {:induction false} HseLoopEnds(readings: seq<bv32>, bound: nat) returns (n: nat)
    requires bound >= 1
    ensures AfterHseLoop(readings, bound).None? <==> |readings| < bound && NoneShows(readings, |readings|, HseReady)
    ensures AfterHseLoop(readings, bound).Some? ==>
              && 1 <= n <= bound && n <= |readings|
              && AfterHseLoop(readings, bound).value == readings[n..]
              && NoneShows(readings, n - 1, HseReady)
              && (n < bound ==> Shows(readings[n - 1], HseReady))
  {
    hide Shows;
    n := 1;
    if readings == [] || Shows(readings[0], HseReady) || bound == 1 {
      assert readings != [] ==> NoneShows(readings, 0, HseReady);
    } else {
      var tail := readings[1..];
      assert AfterHseLoop(readings, bound) == AfterHseLoop(tail, bound - 1);
      hide AfterHseLoop, NoneShows;
      n := HseLoopEnds(tail, bound - 1);
      NoneShowsInTail(readings, |tail|, HseReady);
      if AfterHseLoop(tail, bound - 1).Some? {
        NoneShowsInTail(readings, n - 1, HseReady);
        TailSlice(readings, n);
      }
      n := n + 1;
    }
  }

  /** The flags as bits of the status words: CR bits 17 and 25, PWR_CSR bits 16 and 17, the SWS field of CFGR. */
  lemma FlagBits()
    ensures forall v :: Shows(v, HseReady) <==> v & 0x2_0000 != 0
    ensures forall v :: Shows(v, PllLock) <==> v & 0x0200_0000 != 0
    ensures forall v :: Shows(v, OverdriveUp) <==> v & 0x1_0000 != 0
    ensures forall v :: Shows(v, OverdriveSwitched) <==> v & 0x2_0000 != 0
    ensures forall v :: Shows(v, PllInUse) <==> v & 0xC == 0x8
  {
  }

  /** Of CR the ready and calibration bits come from the reading and all others from the last write. */
  lemma CrStatusBits(word: bv32, reading: bv32)
    ensures CrRead(word, reading) & 0x2A02_FF02 == reading & 0x2A02_FF02
  {
  }

  lemma CrOtherBits(word: bv32, reading: bv32)
    ensures CrRead(word, reading) & 0xD5FD_00FD == word & 0xD5FD_00FD
  {
  }

  /** Of CFGR the SWS field comes from the reading. */
  lemma CfgrStatusBits(word: bv32, reading: bv32)
    ensures CfgrRead(word, reading) & 0xC == reading & 0xC
  {
  }

  lemma CfgrOtherBits(word: bv32, reading: bv32)
    ensures CfgrRead(word, reading) & 0xFFFF_FFF3 == word & 0xFFFF_FFF3
  {
  }

  /** For every sequence of readings: as long as the start-up loop has not ended, or the reading after it has
      not come, nothing is decided; that reading's HSERDY bit alone then decides, whatever the loop saw, whether
      the PLL branch is entered. */
  lemma RereadDecides(d: Device, timeout: nat, readings: seq<bv32>) returns (n: nat)
    requires timeout < WORD && !d.F411?
    ensures 1 <= n <= (if timeout == 0 then 0x1_0000_0000 else timeout)
    ensures n <= |readings| ==> forall k :: 0 <= k < n - 1 ==> readings[k] & 0x2_0000 == 0
    ensures n <= |readings| && (timeout >= 1 ==> n < timeout) && n < 0x1_0000_0000 ==>
              readings[n - 1] & 0x2_0000 != 0
    ensures EntersPll(d, timeout, readings) <==> n < |readings| && readings[n] & 0x2_0000 != 0
    ensures SetupOutcome(d, timeout, readings)
         == if n >= |readings| then Waiting
            else if readings[n] & 0x2_0000 != 0 then PllOutcome(d, readings[n + 1..])
            else Returned(false, readings[n + 1..])
  {
    FlagBits();
    hide Shows;
    n := HseLoopEnds(readings, PollBound(timeout));
    if AfterHseLoop(readings, PollBound(timeout)).None? {
      n := |readings| + 1;
    } else if n < |readings| {
      assert readings[n..][1..] == readings[n + 1..];
      assert Shows(readings[n], HseReady) <==> readings[n] & 0x2_0000 != 0;
    }
  }

  lemma SliceOfSlice(readings: seq<bv32>, k: nat, n: nat)
    requires k + n <= |readings|
    ensures readings[k..][n..] == readings[k + n..]
  {
  }

  /** The same for a wait that starts at position k. */
  lemma WaitFrom(readings: seq<bv32>, k: nat, flag: Flag) returns (n: nat)
    requires k <= |readings|
    ensures After(readings[k..], flag).None? ==> NoneShows(readings[k..], |readings| - k, flag)
    ensures After(readings[k..], flag).Some? ==>
              && k <= n < |readings| && Shows(readings[n], flag)
              && After(readings[k..], flag).value == readings[n + 1..]
  {
    n := WaitEndsAtFirst(readings[k..], flag);
    hide Shows, After, NoneShows;
    if After(readings[k..], flag).Some? {
      SliceOfSlice(readings, k, n + 1);
    }
    n := k + n;
  }

  lemma SwitchReturns(d: Device, readings: seq<bv32>, k: nat) returns (u: nat, s: nat, n: nat)
    requires k <= |readings| && SwitchOutcome(d, readings[k..]).Returned?
    ensures k <= n < |readings| && Shows(readings[n], PllInUse)
    ensures HasOverdrive(d) ==>
              k <= u < s < n && Shows(readings[u], OverdriveUp) && Shows(readings[s], OverdriveSwitched)
    ensures SwitchOutcome(d, readings[k..]) == Returned(true, readings[n + 1..])
  {
    hide Shows, After, NoneShows;
    u, s := k, k;
    if HasOverdrive(d) {
      u := WaitFrom(readings, k, OverdriveUp);
      s := WaitFrom(readings, u + 1, OverdriveSwitched);
      n := WaitFrom(readings, s + 1, PllInUse);
    } else {
      n := WaitFrom(readings, k, PllInUse);
    }
  }

  /** A finished PLL start saw PLLRDY, then on the F42x/43x ODRDY and ODSWRDY, then the PLL in use, at which
      reading it ended. */
  lemma PllReturns(d: Device, readings: seq<bv32>) returns (l: nat, u: nat, s: nat, n: nat)
    requires PllOutcome(d, readings).Returned?
    ensures l < n < |readings|
    ensures readings[l] & 0x0200_0000 != 0
    ensures d.F427_437? || d.F429_439? ==>
              l < u < s < n && readings[u] & 0x1_0000 != 0 && readings[s] & 0x2_0000 != 0
    ensures readings[n] & 0xC == 0x8
    ensures PllOutcome(d, readings) == Returned(true, readings[n + 1..])
  {
    FlagBits();
    hide Shows, After, NoneShows, SwitchOutcome;
    assert readings[0..] == readings;
    l := WaitFrom(readings, 0, PllLock);
    u, s, n := SwitchReturns(d, readings, l + 1);
    assert Shows(readings[l], PllLock) && Shows(readings[n], PllInUse);
    assert HasOverdrive(d) ==> Shows(readings[u], OverdriveUp) && Shows(readings[s], OverdriveSwitched);
  }

  /** The flag a PLL start waits for before this one. */
  function Before(d: Device, flag: Flag): Flag {
    match flag
    case OverdriveUp => PllLock
    case OverdriveSwitched => OverdriveUp
    case _ => if HasOverdrive(d) then OverdriveSwitched else PllLock
  }

  lemma SwitchWaits(d: Device, readings: seq<bv32>, start: nat) returns (k: nat, flag: Flag)
    requires 0 < start <= |readings| && Shows(readings[start - 1], PllLock)
    requires SwitchOutcome(d, readings[start..]).Waiting?
    ensures 0 < k <= |readings| && NoneShows(readings[k..], |readings| - k, flag)
    ensures flag.PllInUse? || (HasOverdrive(d) && (flag.OverdriveUp? || flag.OverdriveSwitched?))
    ensures Shows(readings[k - 1], Before(d, flag))
  {
    hide Shows, After, NoneShows;
    k, flag := start, if HasOverdrive(d) then OverdriveUp else PllInUse;
    var n := WaitFrom(readings, k, flag);
    if HasOverdrive(d) && After(readings[k..], flag).Some? {
      k, flag := n + 1, OverdriveSwitched;
      n := WaitFrom(readings, k, flag);
      if After(readings[k..], flag).Some? {
        k, flag := n + 1, PllInUse;
        n := WaitFrom(readings, k, flag);
      }
    }
  }

  /** An unfinished one waits for PLLRDY, or for a later flag that no reading since the flag before it shows. */
  lemma PllWaits(d: Device, readings: seq<bv32>) returns (k: nat, flag: Flag)
    requires PllOutcome(d, readings).Waiting?
    ensures k <= |readings| && NoneShows(readings[k..], |readings| - k, flag)
    ensures (flag.PllLock? && k == 0)
         || ((flag.PllInUse? || (HasOverdrive(d) && (flag.OverdriveUp? || flag.OverdriveSwitched?)))
             && 0 < k && Shows(readings[k - 1], Before(d, flag)))
  {
    hide Shows, After, NoneShows, SwitchOutcome;
    assert readings[0..] == readings;
    var l := WaitFrom(readings, 0, PllLock);
    if After(readings, PllLock).None? {
      k, flag := 0, PllLock;
    } else {
      k, flag := SwitchWaits(d, readings, l + 1);
    }
  }

  // ----- Independence of what was there before -----

  /** HSION, HSEON, HSEBYP, CSSON and PLLON. */
  function Control(cr: bv32): bv32 { cr & 0x010D_0001 }

  function Others(cr: bv32): bv32 { cr & 0xFEF2_FFFE }

  /** Together they are the whole word. */
  lemma ControlAndOthers(cr: bv32)
    ensures Control(cr) | Others(cr) == cr
  {
  }

  /** The control bits SystemInit leaves. */
  function ControlWord(d: Device, pll: bool): bv32 {
    if d.F411? then if pll then 0x0100_0001 else 0x1
    else if d.F411Bypass? then if pll then 0x0105_0001 else 0x5_0001
    else if pll then 0x0101_0001 else 0x1_0001
  }

  /** Whatever the registers held, the PLL and CFGR words, the flash wait states and the control bits of CR
      depend only on the variant and on whether the PLL was started. */
  lemma EntryDoesNotMatter(d: Device, pll: bool, r: Registers, s: Registers)
    ensures var a, b := Initialized(d, pll, r), Initialized(d, pll, s);
            && a.pllcfgr == b.pllcfgr && a.cfgr == b.cfgr && a.cir == b.cir && a.vtor == b.vtor
            && (pll ==> a.acr == b.acr)
            && Control(a.cr) == Control(b.cr)
  {
    ControlBits(d, pll, r);
    ControlBits(d, pll, s);
    hide Control, Others, ControlWord, ClearedCr, SetBits, HseBits;
    hide PoweredCr, ConfiguredPll, ConfiguredCfgr, ConfiguredAcr;
  }

  /** What SystemInit leaves in each register, as words: with the PLL started, or after HSE failed. */
  lemma RegistersLeft(d: Device, pll: bool, r: Registers)
    ensures var a := Initialized(d, pll, r);
            && a.cir == 0 && a.vtor == 0x0800_0000
            && (pll ==> a.cfgr == if d.F401? || d.F411? || d.F411Bypass? then 0x1002 else 0x9402)
            && (pll ==> a.acr == if d.F401? || d.F411? || d.F411Bypass? then 0x702 else 0x705)
            && (!pll ==> a.cfgr == 0 && a.pllcfgr == 0x2400_3010)
            && (!pll ==> a.acr == r.acr && a.apb1enr == r.apb1enr && a.pwrCr == r.pwrCr)
    ensures pll ==> Initialized(d, pll, r).pllcfgr == match d
                                                      case F40_41 => 0x0740_5408
                                                      case F401 => 0x0741_5408
                                                      case F427_437 => 0x0740_5A08
                                                      case F429_439 => 0x0740_5A08
                                                      case F411 => 0x0701_6410
                                                      case F411Bypass => 0x0741_6408
  {
    LeftPllWord(d);
    hide ClearedCr, StartedCr, SetBits, PoweredCr, ConfiguredPll;
  }

  lemma LeftPllWord(d: Device)
    ensures ConfiguredPll(d) == match d
                                case F40_41 => 0x0740_5408
                                case F401 => 0x0741_5408
                                case F427_437 => 0x0740_5A08
                                case F429_439 => 0x0740_5A08
                                case F411 => 0x0701_6410
                                case F411Bypass => 0x0741_6408
  {
  }

  /** VOS, ODEN and ODSWEN, and the other bits of PWR_CR. */
  function PowerBits(pwrCr: bv32): bv32 { pwrCr & 0x3_C000 }

  function OtherPowerBits(pwrCr: bv32): bv32 { pwrCr & 0xFFFC_3FFF }

  lemma PowerAndOthers(pwrCr: bv32)
    ensures PowerBits(pwrCr) | OtherPowerBits(pwrCr) == pwrCr
  {
  }

  /** With the PLL started the power interface is clocked, the regulator is at scale 1, and the over-drive
      requests of the F42x/43x are set; every other bit of PWR_CR is as it was. */
  lemma PowerLeft(d: Device, r: Registers)
    ensures Initialized(d, true, r).apb1enr == r.apb1enr | 0x1000_0000
    ensures PowerBits(Initialized(d, true, r).pwrCr)
         == if d.F427_437? || d.F429_439? then 0x3_C000 else PowerBits(r.pwrCr) | 0xC000
    ensures OtherPowerBits(Initialized(d, true, r).pwrCr) == OtherPowerBits(r.pwrCr)
  {
    PowerWordsLeft(d, r);
    PoweredBits(d, r.pwrCr);
    PoweredOthers(d, r.pwrCr);
    hide Initialized, PoweredCr, PowerBits, OtherPowerBits;
  }

  lemma PowerWordsLeft(d: Device, r: Registers)
    ensures Initialized(d, true, r).pwrCr == PoweredCr(d, r.pwrCr)
    ensures Initialized(d, true, r).apb1enr == r.apb1enr | 0x1000_0000
  {
    hide ClearedCr, StartedCr, PoweredCr, ConfiguredPll, ConfiguredCfgr, ConfiguredAcr;
  }

  lemma PoweredBits(d: Device, pwrCr: bv32)
    ensures PowerBits(PoweredCr(d, pwrCr))
         == if d.F427_437? || d.F429_439? then 0x3_C000 else PowerBits(pwrCr) | 0xC000
  {
  }

  lemma PoweredOthers(d: Device, pwrCr: bv32)
    ensures OtherPowerBits(PoweredCr(d, pwrCr)) == OtherPowerBits(pwrCr)
  {
    SetOutside(pwrCr, VOS);
    SetOutside(SetBits(pwrCr, VOS), ODEN);
    SetOutside(SetBits(SetBits(pwrCr, VOS), ODEN), ODSWEN);
    hide SetBits, OtherPowerBits;
  }

  lemma SetOutside(word: bv32, bits: bv32)
    requires bits & 0xFFFC_3FFF == 0
    ensures OtherPowerBits(SetBits(word, bits)) == OtherPowerBits(word)
  {
  }

  /** SystemInit decides the control bits of CR and leaves every other bit as it was. */
  lemma ControlBits(d: Device, pll: bool, r: Registers)
    ensures Control(Initialized(d, pll, r).cr) == ControlWord(d, pll)
    ensures Others(Initialized(d, pll, r).cr) == Others(r.cr)
  {
    StartedControl(d, r.cr);
    StartedOthers(d, r.cr);
    AddPll(d, StartedCr(d, r.cr));
    CrLeft(d, pll, r);
    hide Initialized, StartedCr, SetBits, Control, Others, ControlWord;
  }

  lemma CrLeft(d: Device, pll: bool, r: Registers)
    ensures Initialized(d, pll, r).cr
         == if pll then SetBits(StartedCr(d, r.cr), PLLON) else StartedCr(d, r.cr)
  {
    hide ClearedCr, StartedCr, SetBits, PoweredCr, ConfiguredPll, ConfiguredCfgr, ConfiguredAcr;
  }

  lemma StartedControl(d: Device, cr: bv32)
    ensures Control(StartedCr(d, cr)) == ControlWord(d, false)
  {
    ClearedControl(cr);
    AddHse(d, ClearedCr(cr));
    hide ClearedCr, SetBits, Control, HseBits;
  }

  lemma StartedOthers(d: Device, cr: bv32)
    ensures Others(StartedCr(d, cr)) == Others(cr)
  {
    ClearedOthers(cr);
    AddHse(d, ClearedCr(cr));
    hide ClearedCr, SetBits, Others, HseBits;
  }

  lemma ClearedControl(cr: bv32)
    ensures Control(ClearedCr(cr)) == 1
  {
  }

  lemma ClearedOthers(cr: bv32)
    ensures Others(ClearedCr(cr)) == Others(cr)
  {
  }

  lemma AddHse(d: Device, cr: bv32)
    ensures Others(SetBits(cr, HseBits(d))) == Others(cr)
    ensures !d.F411? && Control(cr) == 1 ==> Control(SetBits(cr, HseBits(d))) == ControlWord(d, false)
  {
  }

  lemma AddPll(d: Device, cr: bv32)
    ensures Others(SetBits(cr, PLLON)) == Others(cr)
    ensures Control(cr) == ControlWord(d, false) ==> Control(SetBits(cr, PLLON)) == ControlWord(d, true)
  {
  }

  // ----- Reading the clock back -----

  /** The oscillator that feeds the PLL of each variant. */
  function PllInput(d: Device, osc: Oscillators): nat {
    match d
    case F411 => osc.hsi
    case F411Bypass => HSE_BYPASS_INPUT_FREQUENCY
    case _ => osc.hse
  }

  lemma PllMPositive(d: Device)
    ensures PllM(d) as int > 0 && PllP(d) as int > 0
  {
  }

  /** The frequency computed for an input of the configured PLL: its quotient by M, times N modulo 2^32, by P. */
  function ConfiguredClock(d: Device, input: nat): nat {
    PllMPositive(d);
    Computed(input, PllM(d) as int, PllN(d) as int, PllP(d) as int, 0)
  }

  lemma PllFields(d: Device)
    ensures FieldM(ConfiguredPll(d)) == PllM(d) && FieldN(ConfiguredPll(d)) == PllN(d)
    ensures FieldP(ConfiguredPll(d)) == PllP(d) && FieldQ(ConfiguredPll(d)) == 7
    ensures FieldSrc(ConfiguredPll(d)) != 0 <==> !d.F411?
  {
    RecoversM(PllM(d), PllN(d), PllP(d), PLL_Q, PllSource(d));
    RecoversN(PllM(d), PllN(d), PllP(d), PLL_Q, PllSource(d));
    RecoversP(PllM(d), PllN(d), PllP(d), PLL_Q, PllSource(d));
    RecoversQ(PllM(d), PllN(d), PllP(d), PLL_Q, PllSource(d));
    RecoversSrc(PllM(d), PllN(d), PllP(d), PLL_Q, PllSource(d));
  }

  lemma SwitchedWord(d: Device, reading: bv32)
    requires Shows(reading, PllInUse)
    ensures SourceOf(CfgrRead(ConfiguredCfgr(d), reading)).FromPll?
    ensures Hpre(CfgrRead(ConfiguredCfgr(d), reading)) == 0
  {
  }

  lemma BusPrescalers(d: Device, reading: bv32)
    requires Shows(reading, PllInUse)
    ensures Ppre1(CfgrRead(ConfiguredCfgr(d), reading))
         == if d.F401? || d.F411? || d.F411Bypass? then 4 else 5
    ensures Ppre2(CfgrRead(ConfiguredCfgr(d), reading))
         == if d.F401? || d.F411? || d.F411Bypass? then 0 else 4
  {
  }

  /** Once the hardware shows the PLL in use, SystemCoreClockUpdate computes the configured PLL frequency, in
      every variant and for every oscillator. */
  lemma DecodesPll(d: Device, osc: Oscillators, r: Registers, reading: bv32)
    requires Shows(reading, PllInUse)
    ensures var a := Initialized(d, true, r);
            var cfgr := CfgrRead(a.cfgr, reading);
            && Decodable(cfgr, a.pllcfgr)
            && UpdatedClock(d, osc, cfgr, a.pllcfgr)
               == ConfiguredClock(d, PllInput(d, osc))
  {
    PllFields(d);
    SwitchedWord(d, reading);
    var word := CfgrRead(ConfiguredCfgr(d), reading);
    assert AHB_PRESC_TABLE[Hpre(word)] == 0;
    hide CfgrRead, Hpre, SourceOf, Shows, ConfiguredCfgr, ConfiguredPll, FieldM, FieldN, FieldP, FieldSrc;
    hide ClearedCr, SetBits, PoweredCr;
    ShiftByZero(PllOutput(PllInput(d, osc), ConfiguredPll(d)));
  }

  /** When HSE failed and the hardware shows HSI in use, it computes the HSI frequency. */
  lemma DecodesHsi(d: Device, osc: Oscillators, r: Registers, reading: bv32)
    requires reading & SWS == 0
    ensures var a := Initialized(d, false, r);
            var cfgr := CfgrRead(a.cfgr, reading);
            && Decodable(cfgr, a.pllcfgr)
            && UpdatedClock(d, osc, cfgr, a.pllcfgr) == osc.hsi
  {
    ResetWord(reading);
    var word := CfgrRead(0, reading);
    assert AHB_PRESC_TABLE[Hpre(word)] == 0;
    hide CfgrRead, Hpre, SourceOf, FieldM, FieldN, FieldP, FieldSrc, ClearedCr, SetBits, HseBits;
    ShiftByZero(osc.hsi);
  }

  lemma ResetWord(reading: bv32)
    requires reading & SWS == 0
    ensures SourceOf(CfgrRead(0, reading)).FromHsi?
    ensures Hpre(CfgrRead(0, reading)) == 0
  {
  }

  // ----- The configured frequencies -----

  /** N and P of every variant divide evenly: the clock is a fixed multiple of the truncated PLL input. */
  lemma ClockIsMultiple(d: Device, input: nat)
    requires input / PllM(d) as int <= 9942053
    ensures ConfiguredClock(d, input)
         == Megahertz(d) * (input / PllM(d) as int)
  {
    var m, n, p := PllM(d) as int, PllN(d) as int, PllP(d) as int;
    assert n == Megahertz(d) * p && p > 0 && n <= 432;
    hide PllM, PllN, PllP, Megahertz;
    var k := input / m;
    InputBoundPreventsWrap(input, m, n);
    ComputedIsQuotient(input, m, n, p, 0);
    assert Pow2(0) == 1;
    Evenly(k, Megahertz(d), p);
  }

  lemma Evenly(k: nat, f: nat, p: nat)
    requires p > 0
    ensures k * (f * p) / p == f * k
  {
    Assoc(k, f, p);
    QuotientIs(k * (f * p), p, f * k);
  }

  /** With the oscillators of the evaluation boards the decoded clock is the initial value of SystemCoreClock. */
  lemma InitialClockIsConfigured(d: Device, osc: Oscillators, r: Registers, reading: bv32)
    requires Shows(reading, PllInUse)
    requires osc.hse == 8_000_000 && osc.hsi == 16_000_000
    ensures var a := Initialized(d, true, r);
            && Decodable(CfgrRead(a.cfgr, reading), a.pllcfgr)
            && UpdatedClock(d, osc, CfgrRead(a.cfgr, reading), a.pllcfgr) == InitialClock(d)
  {
    DecodesPll(d, osc, r, reading);
    assert PllInput(d, osc) / PllM(d) as int == 1_000_000;
    hide Initialized, UpdatedClock, CfgrRead, PllM, PllN, PllP, Computed;
    ClockIsMultiple(d, PllInput(d, osc));
  }

  /** What RCC_GetClocksFreq reads back from a started PLL. */
  function ReadBack(d: Device, osc: Oscillators, r: Registers, reading: bv32): Frequencies
    requires Shows(reading, PllInUse)
  {
    DecodesPll(d, osc, r, reading);
    RccFrequencies(osc, CfgrRead(Initialized(d, true, r).cfgr, reading), Initialized(d, true, r).pllcfgr)
  }

  /** The oscillator that feeds the PLL, which RCC_GetClocksFreq knows in every variant. */
  function RccPllInput(d: Device, osc: Oscillators): nat { if d.F411? then osc.hsi else osc.hse }

  /** PCLK1 and PCLK2 are HCLK divided by 4 and 2, or by 2 and 1. */
  function BusClocks(d: Device, hclk: nat): Frequencies {
    if d.F401? || d.F411? || d.F411Bypass? then Frequencies(hclk, hclk, hclk / 2, hclk)
    else Frequencies(hclk, hclk, hclk / 4, hclk / 2)
  }

  /** The PLL input after the division by M. */
  function DividedInput(d: Device, osc: Oscillators): nat {
    PllMPositive(d);
    Quotient(RccPllInput(d, osc), PllM(d) as int)
  }

  lemma ReadsBack(d: Device, osc: Oscillators, r: Registers, reading: bv32)
    requires Shows(reading, PllInUse)
    requires DividedInput(d, osc) <= 9942053
    ensures ReadBack(d, osc, r, reading) == BusClocks(d, Megahertz(d) * DividedInput(d, osc))
  {
    PllFields(d);
    SwitchedWord(d, reading);
    BusPrescalers(d, reading);
    DecodesPll(d, osc, r, reading);
    ClockIsMultiple(d, RccPllInput(d, osc));
    var hclk := Megahertz(d) * DividedInput(d, osc);
    ShiftByZero(hclk);
    assert Pow2(1) == 2 && Pow2(2) == 4;
    hide CfgrRead, Hpre, Ppre1, Ppre2, SourceOf, Shows, ConfiguredCfgr, ConfiguredPll;
    hide FieldM, FieldN, FieldP, FieldSrc, ClearedCr, SetBits, PoweredCr, Megahertz;
  }

  /** On the F411 with bypass SystemCoreClockUpdate assumes 8 MHz: after SystemInit it agrees with
      RCC_GetClocksFreq exactly for an HSE_VALUE of 8 MHz up to 7 Hz more. */
  lemma BypassReadsHse(osc: Oscillators, r: Registers, reading: bv32)
    requires Shows(reading, PllInUse) && osc.hse / 8 <= 9942053
    ensures var a := Initialized(F411Bypass, true, r);
            var cfgr := CfgrRead(a.cfgr, reading);
            && Decodable(cfgr, a.pllcfgr)
            && (UpdatedClock(F411Bypass, osc, cfgr, a.pllcfgr) == RccFrequencies(osc, cfgr, a.pllcfgr).hclk
                <==> 8_000_000 <= osc.hse < 8_000_008)
  {
    PllFields(F411Bypass);
    SwitchedWord(F411Bypass, reading);
    var word, w := CfgrRead(ConfiguredCfgr(F411Bypass), reading), ConfiguredPll(F411Bypass);
    assert PllM(F411Bypass) as int == 8 && PllN(F411Bypass) as int == 400 && PllP(F411Bypass) as int == 4;
    assert AhbDivider(0) == 1;
    hide CfgrRead, Hpre, SourceOf, Shows, ConfiguredCfgr, ConfiguredPll, FieldM, FieldN, FieldP, FieldSrc;
    hide ClearedCr, SetBits, PoweredCr, UpdatedClock, RccFrequencies, AhbDivider;
    BypassAgreesExactly(osc, word, w);
  }

  /** With a 25 MHz HSE the one reports 100 MHz and the other 312.5 MHz. */
  lemma BypassWith25Megahertz(osc: Oscillators, r: Registers, reading: bv32)
    requires Shows(reading, PllInUse) && osc.hse == 25_000_000
    ensures var a := Initialized(F411Bypass, true, r);
            var cfgr := CfgrRead(a.cfgr, reading);
            && Decodable(cfgr, a.pllcfgr)
            && UpdatedClock(F411Bypass, osc, cfgr, a.pllcfgr) == 100_000_000
            && RccFrequencies(osc, cfgr, a.pllcfgr).hclk == 312_500_000
  {
    assert PllM(F411Bypass) as int == 8 && Megahertz(F411Bypass) == 100;
    DecodesPll(F411Bypass, osc, r, reading);
    ClockIsMultiple(F411Bypass, HSE_BYPASS_INPUT_FREQUENCY);
    ReadsBack(F411Bypass, osc, r, reading);
    hide Initialized, UpdatedClock, RccFrequencies, CfgrRead, Shows, PllM, PllN, PllP, Computed, Decodable;
  }
}
