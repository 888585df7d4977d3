// The register accesses of the clock bring-up as a trace, the ordering rules they must obey, and what those
// rules mean for positions in the trace.
module BringupTrace {
  import opened ClockDecode

  /** The words software last wrote. */
  datatype Registers = Registers(cr: bv32, cfgr: bv32, pllcfgr: bv32, cir: bv32, apb1enr: bv32,
                                 pwrCr: bv32, acr: bv32, vtor: bv32)

  datatype Port = CR | CFGR | PLLCFGR | CIR | APB1ENR | PWR_CR | PWR_CSR | ACR | VTOR

  datatype Access = Read(port: Port, value: bv32) | Write(port: Port, value: bv32)

  const HSION: bv32 := 0x1
  const PLLON: bv32 := 0x0100_0000
  const PLLRDY: bv32 := 0x0200_0000
  const PWREN: bv32 := 0x1000_0000
  const ODEN: bv32 := 0x1_0000
  const ODSWEN: bv32 := 0x2_0000
  const ODRDY: bv32 := 0x1_0000
  const ODSWRDY: bv32 := 0x2_0000

  predicate HsiOn(cr: bv32) { cr & HSION != 0 }

  predicate PllOn(cr: bv32) { cr & PLLON != 0 }

  predicate PllReady(cr: bv32) { cr & PLLRDY != 0 }

  predicate Powered(apb1enr: bv32) { apb1enr & PWREN != 0 }

  predicate OverdriveOn(pwrCr: bv32) { pwrCr & ODEN != 0 }

  predicate SwitchingOn(pwrCr: bv32) { pwrCr & ODSWEN != 0 }

  predicate OverdriveReady(csr: bv32) { csr & ODRDY != 0 }

  predicate SwitchingReady(csr: bv32) { csr & ODSWRDY != 0 }

  predicate SelectsHsi(cfgr: bv32) { cfgr & 3 == 0 }

  predicate SelectsPll(cfgr: bv32) { cfgr & 3 == 2 }

  /** The regulator scale, PWR_CR_VOS; scale 1 is needed for the configured frequencies. */
  function Scale(pwrCr: bv32): bv32 { pwrCr & 0xC000 }

  predicate ScaleOne(pwrCr: bv32) { Scale(pwrCr) == 0xC000 }

  /** HPRE, PPRE1 and PPRE2 are those of the variant. */
  predicate PrescalersSet(d: Device, cfgr: bv32) {
    cfgr & 0xFCF0 == if d.F401? || d.F411? || d.F411Bypass? then 0x1000 else 0x9400
  }

  function WaitStates(acr: bv32): bv32 { acr & 0xF }

  /** The wait states the source programs for each variant. */
  function Latency(d: Device): bv32 {
    if d.F401? || d.F411? || d.F411Bypass? then 2 else 5
  }

  predicate HasOverdrive(d: Device) { d.F427_437? || d.F429_439? }

  // ----- The fold over a trace -----

  /** How far the over-drive hand-shake has come. */
  datatype Overdrive = Off | Enabled | Ready | Switching | Switched

  /** What an observer of the bus knows: the written words, whether the PLL was ever switched on, whether it was
      seen ready since it was last switched on or reconfigured, whether the flash was configured, and the
      over-drive hand-shake. */
  datatype Seen = Seen(regs: Registers, started: bool, locked: bool, flash: bool, overdrive: Overdrive)

  function Stored(r: Registers, port: Port, value: bv32): Registers {
    match port
    case CR => r.(cr := value)
    case CFGR => r.(cfgr := value)
    case PLLCFGR => r.(pllcfgr := value)
    case CIR => r.(cir := value)
    case APB1ENR => r.(apb1enr := value)
    case PWR_CR => r.(pwrCr := value)
    case ACR => r.(acr := value)
    case VTOR => r.(vtor := value)
    case PWR_CSR => r
  }

  function AfterPwrWrite(o: Overdrive, pwrCr: bv32): Overdrive {
    if !OverdriveOn(pwrCr) then Off
    else match o
      case Off => Enabled
      case Enabled => Enabled
      case Ready => if SwitchingOn(pwrCr) then Switching else Ready
      case Switching => if SwitchingOn(pwrCr) then Switching else Ready
      case Switched => if SwitchingOn(pwrCr) then Switched else Ready
  }

  function AfterStatusRead(o: Overdrive, csr: bv32): Overdrive {
    match o
    case Enabled => if OverdriveReady(csr) then Ready else Enabled
    case Switching => if SwitchingReady(csr) then Switched else Switching
    case _ => o
  }

  function Next(s: Seen, a: Access): Seen {
    match a
    case Read(port, value) =>
      s.(locked := s.locked || (port == CR && PllOn(s.regs.cr) && PllReady(value)),
         overdrive := if port == PWR_CSR then AfterStatusRead(s.overdrive, value) else s.overdrive)
    case Write(port, value) =>
      Seen(Stored(s.regs, port, value),
           s.started || (port == CR && PllOn(value) && !PllOn(s.regs.cr)),
           s.locked && !(port == CR && !PllOn(value)) && port != PLLCFGR,
           s.flash || port == ACR,
           if port == PWR_CR then AfterPwrWrite(s.overdrive, value) else s.overdrive)
  }

  lemma ReadCr(s: Seen, value: bv32)
    ensures Next(s, Read(CR, value)) == s.(locked := s.locked || (PllOn(s.regs.cr) && PllReady(value)))
  {
    hide PllOn, PllReady;
  }

  lemma ReadCsr(s: Seen, value: bv32)
    ensures Next(s, Read(PWR_CSR, value)) == s.(overdrive := AfterStatusRead(s.overdrive, value))
  {
    hide AfterStatusRead;
  }

  lemma ReadCfgr(s: Seen, value: bv32)
    ensures Next(s, Read(CFGR, value)) == s
  {
  }

  lemma WriteCr(s: Seen, value: bv32)
    ensures Next(s, Write(CR, value))
         == s.(regs := s.regs.(cr := value), started := s.started || (PllOn(value) && !PllOn(s.regs.cr)),
               locked := s.locked && PllOn(value))
  {
    hide PllOn;
  }

  lemma WritePllcfgr(s: Seen, value: bv32)
    ensures Next(s, Write(PLLCFGR, value)) == s.(regs := s.regs.(pllcfgr := value), locked := false)
  {
  }

  lemma WriteAcr(s: Seen, value: bv32)
    ensures Next(s, Write(ACR, value)) == s.(regs := s.regs.(acr := value), flash := true)
  {
  }

  lemma WritePwrCr(s: Seen, value: bv32)
    ensures Next(s, Write(PWR_CR, value))
         == s.(regs := s.regs.(pwrCr := value), overdrive := AfterPwrWrite(s.overdrive, value))
  {
    hide AfterPwrWrite;
  }

  /** Every other write is only stored. */
  lemma WriteOther(s: Seen, port: Port, value: bv32)
    requires port != CR && port != PLLCFGR && port != ACR && port != PWR_CR
    ensures Next(s, Write(port, value)) == s.(regs := Stored(s.regs, port, value))
  {
  }

  /** Everything known after a trace that started with these registers. */
  ghost function Scan(entry: Registers, t: seq<Access>): Seen {
    if t == [] then Seen(entry, false, false, false, Off) else Next(Scan(entry, t[..|t| - 1]), t[|t| - 1])
  }

  /** The ordering rules. */
  predicate Permitted(d: Device, s: Seen, a: Access) {
    a.Write? ==>
      match a.port
      case PLLCFGR => !PllOn(s.regs.cr)
      case CR =>
        && (PllOn(s.regs.cr) && !PllOn(a.value) ==> !SelectsPll(s.regs.cfgr))
        && (!PllOn(s.regs.cr) && PllOn(a.value) ==> ScaleOne(s.regs.pwrCr) && PrescalersSet(d, s.regs.cfgr))
      case CFGR =>
        && (SelectsHsi(a.value) ==> HsiOn(s.regs.cr))
        && (SelectsPll(a.value) ==>
              && s.locked && PrescalersSet(d, a.value)
              && s.flash && WaitStates(s.regs.acr) == Latency(d)
              && (HasOverdrive(d) ==> s.overdrive.Switched?))
      case PWR_CR =>
        && Powered(s.regs.apb1enr)
        && (PllOn(s.regs.cr) ==> Scale(a.value) == Scale(s.regs.pwrCr))
      case PWR_CSR => false
      case _ => true
  }

  ghost predicate Safe(d: Device, entry: Registers, t: seq<Access>) {
    forall i :: 0 <= i < |t| ==> Permitted(d, Scan(entry, t[..i]), t[i])
  }

  lemma SafeExtends(d: Device, entry: Registers, t: seq<Access>, a: Access)
    requires Safe(d, entry, t)
    requires Permitted(d, Scan(entry, t), a)
    ensures Safe(d, entry, t + [a])
    ensures Scan(entry, t + [a]) == Next(Scan(entry, t), a)
  {
    var u := t + [a];
    assert u[..|t|] == t;
    assert u[..|u| - 1] == t;
    forall i | 0 <= i < |u| ensures Permitted(d, Scan(entry, u[..i]), u[i]) {
      if i < |t| {
        assert u[..i] == t[..i];
      }
    }
  }

  // ----- What the rules mean for positions in the trace -----

  predicate IsWrite(a: Access, port: Port) { a.Write? && a.port == port }

  function Word(r: Registers, port: Port): bv32 {
    match port
    case CR => r.cr
    case CFGR => r.cfgr
    case PLLCFGR => r.pllcfgr
    case CIR => r.cir
    case APB1ENR => r.apb1enr
    case PWR_CR => r.pwrCr
    case ACR => r.acr
    case VTOR => r.vtor
    case PWR_CSR => 0
  }

  lemma StepWord(s: Seen, a: Access, port: Port)
    requires port != PWR_CSR
    ensures Word(Next(s, a).regs, port) == if IsWrite(a, port) then a.value else Word(s.regs, port)
  {
    hide PllOn, PllReady, AfterPwrWrite, AfterStatusRead;
  }

  /** The access switches the PLL on: it writes PLLON where the word before it had none. */
  ghost predicate SwitchesOn(entry: Registers, t: seq<Access>, i: nat)
    requires i < |t|
  {
    IsWrite(t[i], CR) && PllOn(t[i].value) && !PllOn(Scan(entry, t[..i]).regs.cr)
  }

  lemma {:induction false} StartedMeans(entry: Registers, t: seq<Access>)
    ensures Scan(entry, t).started <==> exists i: nat :: i < |t| && SwitchesOn(entry, t, i)
  {
    hide PllOn, PllReady, AfterPwrWrite, AfterStatusRead, Stored;
    if t != [] {
      var p := t[..|t| - 1];
      StartedMeans(entry, p);
      forall i: nat | i < |p| ensures SwitchesOn(entry, t, i) <==> SwitchesOn(entry, p, i) {
        assert t[..i] == p[..i];
      }
      assert SwitchesOn(entry, t, |p|) <==>
             IsWrite(t[|p|], CR) && PllOn(t[|p|].value) && !PllOn(Scan(entry, p).regs.cr);
    }
  }

  /** Position j is a read of CR with PLLRDY; PLLON has been on since, and the PLL was not reconfigured since. */
  ghost predicate LockedFrom(entry: Registers, t: seq<Access>, j: nat) {
    && j < |t| && t[j].Read? && t[j].port == CR && PllReady(t[j].value)
    && (forall k :: j <= k <= |t| ==> PllOn(Scan(entry, t[..k]).regs.cr))
    && (forall k :: j < k < |t| ==> !IsWrite(t[k], PLLCFGR))
  }

  lemma LockedExtends(entry: Registers, t: seq<Access>, j: nat)
    requires t != [] && j < |t|
    requires PllOn(Scan(entry, t).regs.cr)
    requires j < |t| - 1 ==> LockedFrom(entry, t[..|t| - 1], j) && !IsWrite(t[|t| - 1], PLLCFGR)
    requires j == |t| - 1 ==>
               t[j].Read? && t[j].port == CR && PllReady(t[j].value) && PllOn(Scan(entry, t[..j]).regs.cr)
    ensures LockedFrom(entry, t, j)
  {
    hide Scan, PllOn, PllReady;
    var p := t[..|t| - 1];
    forall k | j <= k <= |t| ensures PllOn(Scan(entry, t[..k]).regs.cr) {
      if k < |t| {
        assert t[..k] == p[..k];
      } else {
        assert t[..k] == t;
      }
    }
  }

  lemma {:induction false} LockedMeans(entry: Registers, t: seq<Access>) returns (j: nat)
    requires Scan(entry, t).locked
    ensures LockedFrom(entry, t, j)
  {
    var p, a := t[..|t| - 1], t[|t| - 1];
    StepLocked(Scan(entry, p), a);
    StillOn(entry, t);
    hide Next, PllOn, PllReady, LockedFrom;
    if Scan(entry, p).locked {
      j := LockedMeans(entry, p);
      LockedBound(entry, p, j);
    } else {
      j := |p|;
    }
    LockedExtends(entry, t, j);
  }

  lemma LockedBound(entry: Registers, t: seq<Access>, j: nat)
    requires LockedFrom(entry, t, j)
    ensures j < |t|
  {
  }

  lemma StepLocked(s: Seen, a: Access)
    requires Next(s, a).locked
    ensures !IsWrite(a, PLLCFGR)
    ensures !s.locked ==> a.Read? && a.port == CR && PllReady(a.value) && PllOn(s.regs.cr)
  {
    hide PllOn, PllReady, AfterPwrWrite, AfterStatusRead, Stored;
  }

  lemma {:induction false} StillOn(entry: Registers, t: seq<Access>)
    requires Scan(entry, t).locked
    ensures PllOn(Scan(entry, t).regs.cr)
  {
    hide Next;
    var p, a := t[..|t| - 1], t[|t| - 1];
    if Scan(entry, p).locked {
      StillOn(entry, p);
    }
    StepKeepsOn(Scan(entry, p), a);
  }

  lemma StepKeepsOn(s: Seen, a: Access)
    requires s.locked ==> PllOn(s.regs.cr)
    requires Next(s, a).locked
    ensures PllOn(Next(s, a).regs.cr)
  {
    StepWord(s, a, CR);
    hide PllOn, PllReady, Stored, AfterPwrWrite, AfterStatusRead;
  }

  /** The flash register in force was written at some position and not since. */
  lemma {:induction false} FlashMeans(entry: Registers, t: seq<Access>) returns (j: nat)
    requires Scan(entry, t).flash
    ensures j < |t| && IsWrite(t[j], ACR) && t[j].value == Scan(entry, t).regs.acr
    ensures forall k :: j < k < |t| ==> !IsWrite(t[k], ACR)
  {
    hide Next;
    var p, a := t[..|t| - 1], t[|t| - 1];
    StepWord(Scan(entry, p), a, ACR);
    StepFlash(Scan(entry, p), a);
    if IsWrite(a, ACR) {
      j := |p|;
    } else {
      j := FlashMeans(entry, p);
    }
  }

  lemma StepFlash(s: Seen, a: Access)
    ensures Next(s, a).flash <==> s.flash || IsWrite(a, ACR)
  {
    hide PllOn, PllReady, AfterPwrWrite, AfterStatusRead, Stored;
  }

  ghost predicate StaysOn(t: seq<Access>, from: nat) {
    forall k :: from <= k < |t| && IsWrite(t[k], PWR_CR) ==> OverdriveOn(t[k].value)
  }

  ghost predicate StaysSwitching(t: seq<Access>, from: nat) {
    forall k :: from <= k < |t| && IsWrite(t[k], PWR_CR) ==> SwitchingOn(t[k].value)
  }

  lemma {:induction false} EnabledMeans(entry: Registers, t: seq<Access>) returns (e: nat)
    requires !Scan(entry, t).overdrive.Off?
    ensures e < |t| && IsWrite(t[e], PWR_CR) && StaysOn(t, e)
  {
    hide OverdriveOn;
    var p := t[..|t| - 1];
    if Scan(entry, p).overdrive.Off? {
      e := |p|;
    } else {
      e := EnabledMeans(entry, p);
    }
  }

  lemma {:induction false} ReadyMeans(entry: Registers, t: seq<Access>) returns (e: nat, r: nat)
    requires Scan(entry, t).overdrive in {Ready, Switching, Switched}
    ensures e < r < |t| && IsWrite(t[e], PWR_CR) && StaysOn(t, e)
    ensures t[r].Read? && t[r].port == PWR_CSR && OverdriveReady(t[r].value)
  {
    hide OverdriveOn, OverdriveReady;
    var p := t[..|t| - 1];
    if Scan(entry, p).overdrive in {Ready, Switching, Switched} {
      e, r := ReadyMeans(entry, p);
    } else {
      e := EnabledMeans(entry, p);
      r := |p|;
    }
  }

  lemma {:induction false} SwitchingMeans(entry: Registers, t: seq<Access>) returns (e: nat, r: nat, w: nat)
    requires Scan(entry, t).overdrive in {Switching, Switched}
    ensures e < r < w < |t| && IsWrite(t[e], PWR_CR) && StaysOn(t, e)
    ensures t[r].Read? && t[r].port == PWR_CSR && OverdriveReady(t[r].value)
    ensures IsWrite(t[w], PWR_CR) && StaysSwitching(t, w)
  {
    hide OverdriveOn, SwitchingOn, OverdriveReady;
    var p := t[..|t| - 1];
    if Scan(entry, p).overdrive in {Switching, Switched} {
      e, r, w := SwitchingMeans(entry, p);
    } else {
      e, r := ReadyMeans(entry, p);
      w := |p|;
    }
  }

  /** A completed over-drive hand-shake consists of four accesses in this order: enable, seen ready, switch,
      seen switched; and neither request is withdrawn afterwards. */
  lemma {:induction false} SwitchedMeans(entry: Registers, t: seq<Access>)
    returns (e: nat, r: nat, w: nat, s: nat)
    requires Scan(entry, t).overdrive.Switched?
    ensures e < r < w < s < |t| && IsWrite(t[e], PWR_CR) && StaysOn(t, e)
    ensures t[r].Read? && t[r].port == PWR_CSR && OverdriveReady(t[r].value)
    ensures IsWrite(t[w], PWR_CR) && StaysSwitching(t, w)
    ensures t[s].Read? && t[s].port == PWR_CSR && SwitchingReady(t[s].value)
  {
    hide OverdriveOn, SwitchingOn, OverdriveReady, SwitchingReady;
    var p := t[..|t| - 1];
    if Scan(entry, p).overdrive.Switched? {
      e, r, w, s := SwitchedMeans(entry, p);
    } else {
      e, r, w := SwitchingMeans(entry, p);
      s := |p|;
    }
  }

  // ----- The last write to a port -----

  /** Position j holds the last write to the port; j == |t| stands for none. */
  ghost predicate IsLastWrite(t: seq<Access>, port: Port, j: nat) {
    && j <= |t| && (j < |t| ==> IsWrite(t[j], port))
    && forall k :: 0 <= k < |t| && (j == |t| || j < k) ==> !IsWrite(t[k], port)
  }

  /** Every trace has a last write to every port, or none. */
  lemma {:induction false} LastWriteExists(t: seq<Access>, port: Port) returns (j: nat)
    ensures IsLastWrite(t, port, j)
    ensures j < |t| ==> IsWrite(t[j], port) && forall k :: j < k < |t| ==> !IsWrite(t[k], port)
    ensures j >= |t| ==> forall k :: 0 <= k < |t| ==> !IsWrite(t[k], port)
  {
    j := 0;
    if t != [] {
      var p := t[..|t| - 1];
      if IsWrite(t[|p|], port) {
        j := |p|;
      } else {
        j := LastWriteExists(p, port);
        if j == |p| {
          j := |t|;
        }
      }
    }
  }

  /** The word a register holds at the end of a trace is the last one written, or the one found there. */
  lemma {:induction false} HoldsLastWritten(entry: Registers, t: seq<Access>, port: Port, j: nat)
    requires port != PWR_CSR && IsLastWrite(t, port, j)
    ensures Word(Scan(entry, t).regs, port) == if j < |t| then t[j].value else Word(entry, port)
  {
    hide Next, Word;
    if t != [] {
      var p, a := t[..|t| - 1], t[|t| - 1];
      StepWord(Scan(entry, p), a, port);
      if j == |t| {
        HoldsLastWritten(entry, p, port, |p|);
      } else if j < |p| {
        HoldsLastWritten(entry, p, port, j);
      }
    }
  }
}
