// SystemInit and SetSysClock as they run on a board whose ready flags change at any time. Every poll of a
// status register consumes one reading; a run that uses up its readings is still waiting.
module ClockSetup {
  import opened PllWord
  import opened ClockMath
  import opened ClockDecode
  import opened BringupTrace
  import opened ClockPlan

  // ----- Words -----

  lemma OrSets(w: bv32, b: bv32)
    ensures (w | b) & b == b
  {
  }

  lemma OrKeeps(w: bv32, c: bv32, b: bv32)
    ensures w & b != 0 ==> (w | c) & b != 0
  {
  }

  lemma OrMisses(w: bv32, c: bv32, b: bv32)
    requires c & b == 0
    ensures (w | c) & b == w & b
  {
  }

  lemma MergedCr(cr: bv32, reading: bv32)
    ensures CrRead(cr, reading) & HSERDY != 0 <==> Shows(reading, HseReady)
    ensures PllReady(CrRead(cr, reading)) <==> Shows(reading, PllLock)
  {
  }

  lemma MergedCfgr(cfgr: bv32, reading: bv32)
    ensures CfgrRead(cfgr, reading) & SWS == 8 <==> Shows(reading, PllInUse)
  {
  }

  lemma ShowsOverdrive(reading: bv32)
    ensures OverdriveReady(reading) <==> Shows(reading, OverdriveUp)
    ensures SwitchingReady(reading) <==> Shows(reading, OverdriveSwitched)
  {
  }

  /** The wrapped counter equals the timeout exactly when no iteration is left. */
  lemma CounterHits(timeout: nat, left: nat)
    requires timeout < WORD && left < PollBound(timeout)
    ensures ((PollBound(timeout) - (left + 1)) % WORD + 1) % WORD == (PollBound(timeout) - left) % WORD
    ensures (PollBound(timeout) - left) % WORD == timeout <==> left == 0
  {
  }

  lemma SelectionOfReset()
    ensures SelectsHsi(0) && !SelectsPll(0)
  {
  }

  lemma HsiStartBits(cr: bv32)
    ensures HsiOn(SetBits(cr, HSION))
    ensures PllOn(SetBits(cr, HSION)) == PllOn(cr)
  {
  }

  /** Clearing keeps HSI on and turns the PLL off. */
  lemma PllStopBits(cr: bv32)
    requires HsiOn(cr)
    ensures HsiOn(KeepBits(cr, 0xFEF6_FFFF)) && !PllOn(KeepBits(cr, 0xFEF6_FFFF))
  {
  }

  lemma BypassStopBits(cr: bv32)
    requires HsiOn(cr) && !PllOn(cr)
    ensures HsiOn(KeepBits(cr, 0xFFFB_FFFF)) && !PllOn(KeepBits(cr, 0xFFFB_FFFF))
  {
  }

  /** Starting HSE touches neither HSION nor PLLON; starting the PLL keeps HSION. */
  lemma HseStartBits(d: Device, cr: bv32)
    requires HsiOn(cr) && !PllOn(cr)
    ensures HsiOn(SetBits(cr, HseBits(d))) && !PllOn(SetBits(cr, HseBits(d)))
  {
    OrKeeps(cr, HseBits(d), HSION);
    OrMisses(cr, HseBits(d), PLLON);
  }

  lemma PllStartBits(cr: bv32)
    requires HsiOn(cr)
    ensures HsiOn(SetBits(cr, PLLON)) && PllOn(SetBits(cr, PLLON))
  {
    OrKeeps(cr, PLLON, HSION);
    OrSets(cr, PLLON);
  }

  lemma PowerBits(apb1enr: bv32)
    ensures Powered(SetBits(apb1enr, PWREN))
  {
  }

  lemma ScaleBits(pwrCr: bv32)
    ensures ScaleOne(SetBits(pwrCr, VOS))
    ensures Scale(SetBits(pwrCr, ODEN)) == Scale(pwrCr)
    ensures Scale(SetBits(pwrCr, ODSWEN)) == Scale(pwrCr)
  {
  }

  lemma OverdriveBits(pwrCr: bv32)
    ensures OverdriveOn(SetBits(pwrCr, ODEN))
    ensures OverdriveOn(SetBits(SetBits(pwrCr, ODEN), ODSWEN))
    ensures SwitchingOn(SetBits(SetBits(pwrCr, ODEN), ODSWEN))
  {
  }

  lemma PrescalerWords(d: Device)
    ensures SetBits(0, 0) == 0 && SelectsHsi(0) && !SelectsPll(0)
    ensures var w := SetBits(0, Prescaler2(d)); !SelectsPll(w)
    ensures SetBits(SetBits(0, Prescaler2(d)), Prescaler1(d)) == ConfiguredPrescalers(d)
    ensures !SelectsPll(ConfiguredPrescalers(d)) && PrescalersSet(d, ConfiguredPrescalers(d))
  {
  }

  lemma SelectionWords(d: Device)
    ensures !SelectsPll(KeepBits(ConfiguredPrescalers(d), !SW))
    ensures var w := SetBits(KeepBits(ConfiguredPrescalers(d), !SW), SW_PLL);
            w == ConfiguredCfgr(d) && SelectsPll(w) && !SelectsHsi(w) && PrescalersSet(d, w)
  {
  }

  lemma AcrLatency(d: Device)
    ensures PRFTEN | ICEN | DCEN | Latency(d) == ConfiguredAcr(d)
    ensures WaitStates(ConfiguredAcr(d)) == Latency(d)
  {
  }

  lemma EmptyTrace(d: Device, entry: Registers)
    ensures Safe(d, entry, [])
    ensures Scan(entry, []) == Seen(entry, false, false, false, Off)
  {
  }

  // ----- The board -----

  class Board {
    const device: Device
    const timeout: nat
    const osc: Oscillators
    var cr: bv32
    var cfgr: bv32
    var pllcfgr: bv32
    var cir: bv32
    var apb1enr: bv32
    var pwrCr: bv32
    var acr: bv32
    var vtor: bv32
    var systemCoreClock: nat
    var readings: seq<bv32>
    ghost var entry: Registers
    ghost var trace: seq<Access>

    ghost function State(): Registers
      reads this
    {
      Registers(cr, cfgr, pllcfgr, cir, apb1enr, pwrCr, acr, vtor)
    }

    ghost function Known(): Seen
      reads `entry, `trace
    {
      Scan(entry, trace)
    }

    /** The trace accounts for every register, and every access in it was permitted. */
    ghost predicate Valid()
      reads this
    {
      timeout < WORD && Known().regs == State() && Safe(device, entry, trace)
    }

    constructor (device: Device, timeout: nat, osc: Oscillators, r: Registers, readings: seq<bv32>)
      requires timeout < WORD
      ensures this.device == device && this.timeout == timeout && this.osc == osc
      ensures State() == r && this.readings == readings
      ensures Valid() && trace == [] && systemCoreClock == InitialClock(device)
    {
      this.device, this.timeout, this.osc := device, timeout, osc;
      cr, cfgr, pllcfgr, cir := r.cr, r.cfgr, r.pllcfgr, r.cir;
      apb1enr, pwrCr, acr, vtor := r.apb1enr, r.pwrCr, r.acr, r.vtor;
      systemCoreClock := InitialClock(device);
      this.readings := readings;
      entry, trace := r, [];
      EmptyTrace(device, r);
      new;
      hide Scan, Permitted, Safe;
    }

    ghost method RecordWrite(port: Port, value: bv32)
      requires timeout < WORD && Safe(device, entry, trace)
      requires Permitted(device, Known(), Write(port, value))
      requires State() == Stored(Known().regs, port, value)
      modifies `trace
      ensures Valid()
      ensures trace == old(trace) + [Write(port, value)]
      ensures Known() == Next(old(Known()), Write(port, value))
    {
      var s := Known();
      assert Next(s, Write(port, value)).regs == Stored(s.regs, port, value);
      hide Next, Stored, Permitted;
      SafeExtends(device, entry, trace, Write(port, value));
      trace := trace + [Write(port, value)];
    }

    ghost method RecordRead(port: Port, value: bv32)
      requires Valid()
      modifies `trace
      ensures Valid()
      ensures trace == old(trace) + [Read(port, value)]
      ensures Known() == Next(old(Known()), Read(port, value))
    {
      var s := Known();
      assert Next(s, Read(port, value)).regs == s.regs;
      assert Permitted(device, s, Read(port, value));
      hide Next, Permitted;
      SafeExtends(device, entry, trace, Read(port, value));
      trace := trace + [Read(port, value)];
    }

    // ----- Register writes -----

    method SetCr(value: bv32)
      requires Valid()
      requires PllOn(cr) && !PllOn(value) ==> !SelectsPll(cfgr)
      requires !PllOn(cr) && PllOn(value) ==> ScaleOne(pwrCr) && PrescalersSet(device, cfgr)
      modifies `cr, `trace
      ensures Valid() && cr == value
      ensures Known() == old(Known()).(
        regs := State(), started := old(Known()).started || (PllOn(value) && !PllOn(old(cr))),
        locked := old(Known()).locked && PllOn(value))
    {
      hide Next, PllOn, HsiOn, SelectsPll, SelectsHsi, AfterPwrWrite, ScaleOne, Scale, PrescalersSet;
      WriteCr(Known(), value);
      cr := value;
      RecordWrite(CR, value);
    }

    method SetCfgr(value: bv32)
      requires Valid()
      requires SelectsHsi(value) ==> HsiOn(cr)
      requires SelectsPll(value) ==> PrescalersSet(device, value)
      requires SelectsPll(value) ==> Known().locked && Known().flash && WaitStates(acr) == Latency(device)
      requires SelectsPll(value) && HasOverdrive(device) ==> Known().overdrive.Switched?
      modifies `cfgr, `trace
      ensures Valid() && cfgr == value
      ensures Known() == old(Known()).(regs := State())
    {
      hide Next, PllOn, HsiOn, SelectsPll, SelectsHsi, AfterPwrWrite, ScaleOne, Scale, PrescalersSet;
      WriteOther(Known(), CFGR, value);
      cfgr := value;
      RecordWrite(CFGR, value);
    }

    method SetPllcfgr(value: bv32)
      requires Valid()
      requires !PllOn(cr)
      modifies `pllcfgr, `trace
      ensures Valid() && pllcfgr == value
      ensures Known() == old(Known()).(regs := State(), locked := false)
    {
      hide Next, PllOn, HsiOn, SelectsPll, SelectsHsi, AfterPwrWrite, ScaleOne, Scale, PrescalersSet;
      WritePllcfgr(Known(), value);
      pllcfgr := value;
      RecordWrite(PLLCFGR, value);
    }

    method SetCir(value: bv32)
      requires Valid()
      modifies `cir, `trace
      ensures Valid() && cir == value
      ensures Known() == old(Known()).(regs := State())
    {
      hide Next, PllOn, HsiOn, SelectsPll, SelectsHsi, AfterPwrWrite, ScaleOne, Scale, PrescalersSet;
      WriteOther(Known(), CIR, value);
      cir := value;
      RecordWrite(CIR, value);
    }

    method SetApb1enr(value: bv32)
      requires Valid()
      modifies `apb1enr, `trace
      ensures Valid() && apb1enr == value
      ensures Known() == old(Known()).(regs := State())
    {
      hide Next, PllOn, HsiOn, SelectsPll, SelectsHsi, AfterPwrWrite, ScaleOne, Scale, PrescalersSet;
      WriteOther(Known(), APB1ENR, value);
      apb1enr := value;
      RecordWrite(APB1ENR, value);
    }

    method SetPwrCr(value: bv32)
      requires Valid()
      requires Powered(apb1enr)
      requires PllOn(cr) ==> Scale(value) == Scale(pwrCr)
      modifies `pwrCr, `trace
      ensures Valid() && pwrCr == value
      ensures Known() == old(Known()).(regs := State(), overdrive := AfterPwrWrite(old(Known()).overdrive, value))
    {
      hide Next, PllOn, HsiOn, SelectsPll, SelectsHsi, AfterPwrWrite, ScaleOne, Scale, PrescalersSet;
      WritePwrCr(Known(), value);
      pwrCr := value;
      RecordWrite(PWR_CR, value);
    }

    method SetAcr(value: bv32)
      requires Valid()
      modifies `acr, `trace
      ensures Valid() && acr == value
      ensures Known() == old(Known()).(regs := State(), flash := true)
    {
      hide Next, PllOn, HsiOn, SelectsPll, SelectsHsi, AfterPwrWrite, ScaleOne, Scale, PrescalersSet;
      WriteAcr(Known(), value);
      acr := value;
      RecordWrite(ACR, value);
    }

    method SetVtor(value: bv32)
      requires Valid()
      modifies `vtor, `trace
      ensures Valid() && vtor == value
      ensures Known() == old(Known()).(regs := State())
    {
      hide Next, PllOn, HsiOn, SelectsPll, SelectsHsi, AfterPwrWrite, ScaleOne, Scale, PrescalersSet;
      WriteOther(Known(), VTOR, value);
      vtor := value;
      RecordWrite(VTOR, value);
    }

    // ----- The waits -----

    /** One read of CR. */
    method PollCr() returns (value: bv32)
      requires Valid() && readings != []
      modifies `readings, `trace
      ensures Valid()
      ensures readings == old(readings)[1..] && value == CrRead(cr, old(readings)[0])
      ensures Known() == old(Known()).(locked := old(Known()).locked || (PllOn(cr) && PllReady(value)))
    {
      hide Next, CrRead, PllOn, PllReady;
      value := CrRead(cr, readings[0]);
      readings := readings[1..];
      ReadCr(Known(), value);
      RecordRead(CR, value);
    }

    method WaitForPll() returns (ready: bool)
      requires Valid() && PllOn(cr)
      modifies `readings, `trace
      ensures Valid()
      ensures After(old(readings), PllLock) == if ready then Some(readings) else None
      ensures Known() == old(Known()).(locked := old(Known()).locked || ready)
    {
      hide PllOn, PllReady, CrRead, Shows, Scan, Safe;
      while true
        invariant Valid()
        invariant After(old(readings), PllLock) == After(readings, PllLock)
        invariant Known() == old(Known())
        decreases |readings|
      {
        if readings == [] {
          return false;
        }
        MergedCr(cr, readings[0]);
        var value := PollCr();
        if PllReady(value) {
          return true;
        }
      }
    }

    /** One read of the PWR status register. */
    method PollCsr() returns (value: bv32)
      requires Valid() && readings != []
      modifies `readings, `trace
      ensures Valid()
      ensures readings == old(readings)[1..] && value == old(readings)[0]
      ensures Known() == old(Known()).(overdrive := AfterStatusRead(old(Known()).overdrive, value))
    {
      hide Next, AfterStatusRead;
      value := readings[0];
      readings := readings[1..];
      ReadCsr(Known(), value);
      RecordRead(PWR_CSR, value);
    }

    method WaitForOverdrive() returns (ready: bool)
      requires Valid() && Known().overdrive.Enabled?
      modifies `readings, `trace
      ensures Valid()
      ensures After(old(readings), OverdriveUp) == if ready then Some(readings) else None
      ensures Known() == old(Known()).(overdrive := if ready then Ready else Enabled)
    {
      hide OverdriveReady, SwitchingReady, Scan, Safe;
      while true
        invariant Valid()
        invariant After(old(readings), OverdriveUp) == After(readings, OverdriveUp)
        invariant Known() == old(Known())
        decreases |readings|
      {
        if readings == [] {
          return false;
        }
        ShowsOverdrive(readings[0]);
        hide Shows;
        var value := PollCsr();
        if OverdriveReady(value) {
          return true;
        }
      }
    }

    method WaitForSwitching() returns (ready: bool)
      requires Valid() && Known().overdrive.Switching?
      modifies `readings, `trace
      ensures Valid()
      ensures After(old(readings), OverdriveSwitched) == if ready then Some(readings) else None
      ensures Known() == old(Known()).(overdrive := if ready then Switched else Switching)
    {
      hide OverdriveReady, SwitchingReady, Scan, Safe;
      while true
        invariant Valid()
        invariant After(old(readings), OverdriveSwitched) == After(readings, OverdriveSwitched)
        invariant Known() == old(Known())
        decreases |readings|
      {
        if readings == [] {
          return false;
        }
        ShowsOverdrive(readings[0]);
        hide Shows;
        var value := PollCsr();
        if SwitchingReady(value) {
          return true;
        }
      }
    }

    /** One read of CFGR. */
    method PollCfgr() returns (value: bv32)
      requires Valid() && readings != []
      modifies `readings, `trace
      ensures Valid()
      ensures readings == old(readings)[1..] && value == CfgrRead(cfgr, old(readings)[0])
      ensures Known() == old(Known())
    {
      hide Next, CfgrRead;
      value := CfgrRead(cfgr, readings[0]);
      readings := readings[1..];
      ReadCfgr(Known(), value);
      RecordRead(CFGR, value);
    }

    method WaitForSwitch() returns (ready: bool)
      requires Valid()
      modifies `readings, `trace
      ensures Valid()
      ensures After(old(readings), PllInUse) == if ready then Some(readings) else None
      ensures Known() == old(Known())
    {
      hide CfgrRead, Shows, Scan, Safe;
      while true
        invariant Valid()
        invariant After(old(readings), PllInUse) == After(readings, PllInUse)
        invariant Known() == old(Known())
        decreases |readings|
      {
        if readings == [] {
          return false;
        }
        MergedCfgr(cfgr, readings[0]);
        var value := PollCfgr();
        if value & SWS == 8 {
          return true;
        }
      }
    }

    /** The start-up loop: a 32-bit counter, compared with the timeout for equality after its increment. */
    method WaitForHse() returns (ended: bool)
      requires Valid() && !PllOn(cr)
      modifies `readings, `trace
      ensures Valid()
      ensures AfterHseLoop(old(readings), PollBound(timeout)) == if ended then Some(readings) else None
      ensures Known() == old(Known())
    {
      hide PllOn, PllReady, CrRead, Shows, Scan, Safe;
      var counter, again := 0, true;
      ghost var left := PollBound(timeout);
      while again
        invariant Valid()
        invariant 0 <= left <= PollBound(timeout) && (again ==> left > 0)
        invariant counter == (PollBound(timeout) - left) % WORD
        invariant AfterHseLoop(old(readings), PollBound(timeout))
               == if again then AfterHseLoop(readings, left) else Some(readings)
        invariant Known() == old(Known())
        decreases left, again
      {
        if readings == [] {
          return false;
        }
        MergedCr(cr, readings[0]);
        var value := PollCr();
        counter := (counter + 1) % WORD;
        left := left - 1;
        CounterHits(timeout, left);
        again := value & HSERDY == 0 && counter != timeout;
      }
      return true;
    }

    // ----- The bring-up -----

    /** HSI on and selected. */
    method SelectHsi()
      requires Valid()
      modifies `cr, `cfgr, `trace
      ensures Valid() && HsiOn(cr) && !SelectsPll(cfgr)
      ensures State() == old(State()).(cr := SetBits(old(cr), HSION), cfgr := 0)
      ensures Known() == old(Known()).(regs := State(), locked := old(Known()).locked && PllOn(cr))
    {
      hide PllOn, HsiOn, SelectsPll, SelectsHsi, Scan, Safe, SetBits, ScaleOne, PrescalersSet;
      SelectionOfReset();
      HsiStartBits(cr);
      SetCr(SetBits(cr, HSION));
      SetCfgr(0);
    }

    /** Back to the reset configuration: HSI on and selected, everything else off. */
    method ResetClock()
      requires Valid()
      modifies `cr, `cfgr, `pllcfgr, `cir, `trace
      ensures Valid()
      ensures State() == Cleared(old(State()))
      ensures Known() == old(Known()).(regs := State(), locked := false)
      ensures HsiOn(cr) && !PllOn(cr)
    {
      hide PllOn, HsiOn, SelectsPll, SelectsHsi, Scan, Safe, SetBits, KeepBits, ScaleOne, PrescalersSet;
      SelectHsi();
      PllStopBits(cr);
      SetCr(KeepBits(cr, 0xFEF6_FFFF));
      SetPllcfgr(PLLCFGR_RESET);
      BypassStopBits(cr);
      SetCr(KeepBits(cr, 0xFFFB_FFFF));
      SetCir(0);
    }

    method PowerUp()
      requires Valid() && !PllOn(cr)
      modifies `apb1enr, `pwrCr, `trace
      ensures Valid() && Powered(apb1enr) && ScaleOne(pwrCr)
      ensures apb1enr == SetBits(old(apb1enr), PWREN) && pwrCr == SetBits(old(pwrCr), VOS)
      ensures Known() == old(Known()).(regs := State(), overdrive := AfterPwrWrite(old(Known()).overdrive, pwrCr))
    {
      hide Powered, AfterPwrWrite, PllOn, HsiOn, SelectsPll, SelectsHsi, Scan, Safe, SetBits, KeepBits;
      hide ScaleOne, Scale, PrescalersSet;
      PowerBits(apb1enr);
      ScaleBits(pwrCr);
      SetApb1enr(SetBits(apb1enr, PWREN));
      SetPwrCr(SetBits(pwrCr, VOS));
    }

    /** HPRE, PPRE2 and PPRE1, one after the other. */
    method SetPrescalers()
      requires Valid() && HsiOn(cr) && cfgr == 0
      modifies `cfgr, `trace
      ensures Valid() && cfgr == ConfiguredPrescalers(device) && PrescalersSet(device, cfgr)
      ensures Known() == old(Known()).(regs := State())
    {
      PrescalerWords(device);
      hide PllOn, HsiOn, SelectsPll, SelectsHsi, Scan, Safe, SetBits, KeepBits, Prescaler1, Prescaler2;
      hide ConfiguredPrescalers, PrescalersSet;
      SetCfgr(SetBits(cfgr, 0));
      SetCfgr(SetBits(cfgr, Prescaler2(device)));
      SetCfgr(SetBits(cfgr, Prescaler1(device)));
    }

    /** The over-drive hand-shake; false if a ready flag never showed. */
    method StartOverdrive() returns (done: bool)
      requires Valid() && Powered(apb1enr)
      requires Known().overdrive.Off? || Known().overdrive.Enabled?
      modifies `pwrCr, `readings, `trace
      ensures Valid()
      ensures AfterHandshake(old(readings)) == if done then Some(readings) else None
      ensures Known().started == old(Known()).started
      ensures done ==> pwrCr == SetBits(SetBits(old(pwrCr), ODEN), ODSWEN)
      ensures done ==> Known() == old(Known()).(regs := State(), overdrive := Switched)
    {
      hide Powered, OverdriveOn, SwitchingOn, After, PllOn, HsiOn, SelectsPll, SelectsHsi, Scan, Safe;
      hide SetBits, KeepBits, Scale, ScaleOne;
      OverdriveBits(pwrCr);
      ScaleBits(pwrCr);
      SetPwrCr(SetBits(pwrCr, ODEN));
      done := WaitForOverdrive();
      if !done {
        return;
      }
      ScaleBits(pwrCr);
      SetPwrCr(SetBits(pwrCr, ODSWEN));
      done := WaitForSwitching();
    }

    method SelectPll() returns (done: bool)
      requires Valid() && HsiOn(cr) && cfgr == ConfiguredPrescalers(device)
      requires Known().locked && Known().flash && WaitStates(acr) == Latency(device)
      requires HasOverdrive(device) ==> Known().overdrive.Switched?
      modifies `cfgr, `readings, `trace
      ensures Valid() && cfgr == ConfiguredCfgr(device)
      ensures After(old(readings), PllInUse) == if done then Some(readings) else None
      ensures Known() == old(Known()).(regs := State())
    {
      SelectionWords(device);
      hide After, WaitStates, Latency, ConfiguredPrescalers, ConfiguredCfgr, PllOn, HsiOn, SelectsPll;
      hide SelectsHsi, Scan, Safe, SetBits, KeepBits, PrescalersSet;
      SetCfgr(KeepBits(cfgr, !SW));
      SetCfgr(SetBits(cfgr, SW_PLL));
      done := WaitForSwitch();
    }

    /** Regulator scale, prescalers and PLL configuration, then the wait for the PLL to lock. */
    method LockPll() returns (done: bool)
      requires Valid() && HsiOn(cr) && !PllOn(cr) && cfgr == 0
      requires Known().overdrive.Off?
      modifies `cr, `cfgr, `pllcfgr, `apb1enr, `pwrCr, `readings, `trace
      ensures Valid()
      ensures After(old(readings), PllLock) == if done then Some(readings) else None
      ensures State() == old(State()).(
        cr := SetBits(old(cr), PLLON), cfgr := ConfiguredPrescalers(device), pllcfgr := ConfiguredPll(device),
        apb1enr := SetBits(old(apb1enr), PWREN), pwrCr := SetBits(old(pwrCr), VOS))
      ensures HsiOn(cr) && Powered(apb1enr) && Known().started && Known().locked == done
      ensures Known().overdrive.Off? || Known().overdrive.Enabled?
    {
      hide PllOn, HsiOn, SelectsPll, SelectsHsi, Scan, Safe, SetBits, KeepBits, Powered, After, OverdriveOn;
      hide ConfiguredPll, ConfiguredPrescalers, ScaleOne, Scale, PrescalersSet;
      PowerUp();
      SetPrescalers();
      SetPllcfgr(ConfiguredPll(device));
      PllStartBits(cr);
      SetCr(SetBits(cr, PLLON));
      done := WaitForPll();
    }

    /** The over-drive hand-shake where there is one, the flash wait states, and the switch to the PLL. */
    method SwitchToPll() returns (outcome: Outcome)
      requires Valid() && HsiOn(cr) && Powered(apb1enr) && cfgr == ConfiguredPrescalers(device)
      requires Known().locked
      requires Known().overdrive.Off? || Known().overdrive.Enabled?
      modifies `cfgr, `pwrCr, `acr, `readings, `trace
      ensures Valid() && Known().started == old(Known()).started
      ensures outcome == SwitchOutcome(device, old(readings))
      ensures outcome.Returned? ==> readings == outcome.rest
      ensures outcome.Returned? ==>
        State() == old(State()).(
          cfgr := ConfiguredCfgr(device), acr := ConfiguredAcr(device),
          pwrCr := if HasOverdrive(device) then SetBits(SetBits(old(pwrCr), ODEN), ODSWEN) else old(pwrCr))
    {
      hide PllOn, HsiOn, SelectsPll, SelectsHsi, Scan, Safe, SetBits, KeepBits, Powered, After, WaitStates;
      hide Latency, ConfiguredPrescalers, ConfiguredCfgr, ConfiguredAcr, AfterHandshake;
      AcrLatency(device);
      var done := true;
      if HasOverdrive(device) {
        done := StartOverdrive();
      }
      if !done {
        return Waiting;
      }
      SetAcr(PRFTEN | ICEN | DCEN | Latency(device));
      done := SelectPll();
      outcome := if done then Returned(true, readings) else Waiting;
    }

    method StartPll() returns (outcome: Outcome)
      requires Valid() && HsiOn(cr) && !PllOn(cr) && cfgr == 0
      requires Known().overdrive.Off?
      modifies `cr, `cfgr, `pllcfgr, `apb1enr, `pwrCr, `acr, `readings, `trace
      ensures Valid() && Known().started
      ensures outcome == PllOutcome(device, old(readings))
      ensures outcome.Returned? ==> readings == outcome.rest
      ensures outcome.Returned? ==> State() == PllStarted(device, old(State()))
    {
      hide PllOn, HsiOn, SelectsPll, SelectsHsi, Scan, Safe, SetBits, KeepBits, Powered, After, SwitchOutcome;
      hide ConfiguredPll, ConfiguredPrescalers, ConfiguredCfgr, ConfiguredAcr;
      var done := LockPll();
      if !done {
        return Waiting;
      }
      outcome := SwitchToPll();
    }

    /** The source calls this only after the reset part of SystemInit. */
    method SetSysClock() returns (outcome: Outcome)
      requires Valid() && HsiOn(cr) && !PllOn(cr) && cfgr == 0
      requires Known().overdrive.Off?
      modifies `cr, `cfgr, `pllcfgr, `apb1enr, `pwrCr, `acr, `readings, `trace
      ensures Valid()
      ensures Known().started == (old(Known()).started || EntersPll(device, timeout, old(readings)))
      ensures outcome == SetupOutcome(device, timeout, old(readings))
      ensures outcome.Returned? ==> readings == outcome.rest
      ensures outcome.Returned? ==>
        var hse := if device.F411? then old(State()) else old(State()).(cr := SetBits(old(cr), HseBits(device)));
        State() == if outcome.pll then PllStarted(device, hse) else hse
    {
      hide CrRead, Shows, HseBits, AfterHseLoop, PllOutcome, PllStarted, PllOn, HsiOn, Scan, Safe, SetBits;
      hide KeepBits;
      if device.F411? {
        outcome := StartPll();
        return;
      }
      HseStartBits(device, cr);
      SetCr(SetBits(cr, HseBits(device)));
      var ended := WaitForHse();
      if !ended || readings == [] {
        return Waiting;
      }
      MergedCr(cr, readings[0]);
      var value := PollCr();
      if value & HSERDY != 0 {
        outcome := StartPll();
      } else {
        outcome := Returned(false, readings);
      }
    }

    /** From any register contents. The trace is that of this call. */
    method SystemInit() returns (outcome: Outcome)
      requires timeout < WORD
      modifies `cr, `cfgr, `pllcfgr, `cir, `apb1enr, `pwrCr, `acr, `vtor, `readings, `entry, `trace
      ensures Valid() && entry == old(State())
      ensures Known().started == EntersPll(device, timeout, old(readings))
      ensures outcome == SetupOutcome(device, timeout, old(readings))
      ensures outcome.Returned? ==> readings == outcome.rest
      ensures outcome.Returned? ==> State() == Initialized(device, outcome.pll, old(State()))
    {
      hide HseBits, SetupOutcome, EntersPll, PllStarted, PllOn, HsiOn, Scan, Safe, SetBits, KeepBits;
      entry, trace := State(), [];
      EmptyTrace(device, entry);
      ResetClock();
      outcome := SetSysClock();
      if outcome.Returned? {
        SetVtor(FLASH_BASE);
      }
    }

    // ----- Reading the clock back -----

    /** `status` holds the hardware bits of the CFGR read. */
    method SystemCoreClockUpdate(status: bv32)
      requires Decodable(CfgrRead(cfgr, status), pllcfgr)
      modifies `systemCoreClock
      ensures systemCoreClock == UpdatedClock(device, osc, CfgrRead(cfgr, status), pllcfgr)
    {
      hide CfgrRead, SourceOf, Hpre, FieldM;
      var word := CfgrRead(cfgr, status);
      match SourceOf(word) {
        case FromHsi => systemCoreClock := osc.hsi;
        case FromHse => systemCoreClock := osc.hse;
        case FromPll => systemCoreClock := PllClock(device, osc, pllcfgr);
      }
      hide PllOutput, UpdateInput;
      systemCoreClock := ShiftRight(systemCoreClock, AHB_PRESC_TABLE[Hpre(word)]);
    }

    method GetClocksFreq(status: bv32) returns (f: Frequencies)
      requires Decodable(CfgrRead(cfgr, status), pllcfgr)
      ensures f == RccFrequencies(osc, CfgrRead(cfgr, status), pllcfgr)
      ensures f.hclk == f.sysclk / RccAhbDivider(Hpre(CfgrRead(cfgr, status)))
      ensures f.pclk1 == f.hclk / ApbDivider(Ppre1(CfgrRead(cfgr, status)))
      ensures f.pclk2 == f.hclk / ApbDivider(Ppre2(CfgrRead(cfgr, status)))
    {
      RccClocksDivide(osc, CfgrRead(cfgr, status), pllcfgr);
      hide CfgrRead, SourceOf, Hpre, Ppre1, Ppre2, FieldM, RccInput, PllOutput, RccAhbDivider, ApbDivider;
      var word := CfgrRead(cfgr, status);
      var sysclk: nat;
      match SourceOf(word) {
        case FromHsi => sysclk := osc.hsi;
        case FromHse => sysclk := osc.hse;
        case FromPll => sysclk := RccPllClock(osc, pllcfgr);
      }
      var hclk := ShiftRight(sysclk, APB_AHB_PRESC_TABLE[Hpre(word)]);
      var pclk1 := ShiftRight(hclk, APB_AHB_PRESC_TABLE[Ppre1(word)]);
      var pclk2 := ShiftRight(hclk, APB_AHB_PRESC_TABLE[Ppre2(word)]);
      f := Frequencies(sysclk, hclk, pclk1, pclk2);
    }
  }
}
