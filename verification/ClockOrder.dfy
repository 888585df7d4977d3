// The order of the bring-up, on the bits of the words in the trace: what every trace that obeys the rules
// guarantees for the positions of its accesses.
module ClockOrder {
  import opened ClockDecode
  import opened BringupTrace

  /** The predicates of the rules as bits of the registers. */
  lemma Bits()
    ensures forall v :: HsiOn(v) <==> v & 0x1 != 0
    ensures forall v :: PllOn(v) <==> v & 0x0100_0000 != 0
    ensures forall v :: PllReady(v) <==> v & 0x0200_0000 != 0
    ensures forall v :: Powered(v) <==> v & 0x1000_0000 != 0
    ensures forall v :: SelectsHsi(v) <==> v & 0x3 == 0x0
    ensures forall v :: SelectsPll(v) <==> v & 0x3 == 0x2
    ensures forall v :: Scale(v) == v & 0xC000 && (ScaleOne(v) <==> v & 0xC000 == 0xC000)
    ensures forall v :: WaitStates(v) == v & 0xF
  {
  }

  lemma OverdriveBits()
    ensures forall v :: OverdriveOn(v) <==> v & 0x1_0000 != 0
    ensures forall v :: SwitchingOn(v) <==> v & 0x2_0000 != 0
    ensures forall v :: OverdriveReady(v) <==> v & 0x1_0000 != 0
    ensures forall v :: SwitchingReady(v) <==> v & 0x2_0000 != 0
  {
  }

  lemma PrescalerBits(d: Device, cfgr: bv32)
    ensures PrescalersSet(d, cfgr) <==>
            cfgr & 0xFCF0 == if d.F401? || d.F411? || d.F411Bypass? then 0x1000 else 0x9400
  {
  }

  /** The PLL is selected only after CR was read with PLLRDY, with PLLON kept set and PLLCFGR untouched since. */
  lemma SelectedOnlyWhenLocked(d: Device, entry: Registers, t: seq<Access>, i: nat) returns (j: nat)
    requires Safe(d, entry, t)
    requires i < |t| && IsWrite(t[i], CFGR) && t[i].value & 0x3 == 0x2
    ensures j < i && t[j].Read? && t[j].port == CR && t[j].value & 0x0200_0000 != 0
    ensures forall k :: j <= k <= i ==> Scan(entry, t[..k]).regs.cr & 0x0100_0000 != 0
    ensures forall k :: j < k < i ==> !IsWrite(t[k], PLLCFGR)
  {
    Bits();
    hide Next, HsiOn, PllOn, PllReady, SelectsHsi, SelectsPll, PrescalersSet, WaitStates;
    var p := t[..i];
    assert SelectsPll(t[i].value);
    assert Permitted(d, Scan(entry, p), t[i]);
    j := LockedMeans(entry, p);
    forall k | j <= k <= i ensures Scan(entry, t[..k]).regs.cr & 0x0100_0000 != 0 {
      assert t[..k] == p[..k];
      assert PllOn(Scan(entry, p[..k]).regs.cr);
    }
    assert PllReady(t[j].value);
  }

  /** ... and only after ACR was given the wait states of the variant, which are still in force. */
  lemma SelectedOnlyWithWaitStates(d: Device, entry: Registers, t: seq<Access>, i: nat) returns (j: nat)
    requires Safe(d, entry, t)
    requires i < |t| && IsWrite(t[i], CFGR) && t[i].value & 0x3 == 0x2
    ensures j < i && IsWrite(t[j], ACR)
    ensures t[j].value & 0xF == if d.F401? || d.F411? || d.F411Bypass? then 2 else 5
    ensures forall k :: j < k < i ==> !IsWrite(t[k], ACR)
  {
    Bits();
    hide Next, HsiOn, SelectsHsi, SelectsPll, PrescalersSet, WaitStates;
    assert SelectsPll(t[i].value);
    assert Permitted(d, Scan(entry, t[..i]), t[i]);
    j := FlashMeans(entry, t[..i]);
    assert WaitStates(t[j].value) == Latency(d);
  }

  lemma StaysOnBits(t: seq<Access>, from: nat, i: nat)
    requires i <= |t|
    ensures StaysOn(t[..i], from) ==>
              forall k :: from <= k < i && IsWrite(t[k], PWR_CR) ==> t[k].value & 0x1_0000 != 0
    ensures StaysSwitching(t[..i], from) ==>
              forall k :: from <= k < i && IsWrite(t[k], PWR_CR) ==> t[k].value & 0x2_0000 != 0
  {
    OverdriveBits();
    hide OverdriveOn, SwitchingOn;
    assert forall k :: 0 <= k < i ==> t[..i][k] == t[k];
  }

  lemma SwitchedBefore(d: Device, entry: Registers, t: seq<Access>, i: nat)
    requires Safe(d, entry, t) && HasOverdrive(d)
    requires i < |t| && IsWrite(t[i], CFGR) && SelectsPll(t[i].value)
    ensures Scan(entry, t[..i]).overdrive.Switched?
  {
    hide SelectsPll, SelectsHsi, PrescalersSet;
    assert Permitted(d, Scan(entry, t[..i]), t[i]);
  }

  /** ... and, on the F42x/43x, only after the whole over-drive hand-shake: ODEN written, ODRDY read, ODSWEN
      written, ODSWRDY read, and neither request withdrawn since. */
  lemma SelectedOnlyWhenSwitched(d: Device, entry: Registers, t: seq<Access>, i: nat)
    returns (e: nat, r: nat, w: nat, s: nat)
    requires Safe(d, entry, t) && (d.F427_437? || d.F429_439?)
    requires i < |t| && IsWrite(t[i], CFGR) && t[i].value & 0x3 == 0x2
    ensures e < r < w < s < i && IsWrite(t[e], PWR_CR) && IsWrite(t[w], PWR_CR)
    ensures forall k :: e <= k < i && IsWrite(t[k], PWR_CR) ==> t[k].value & 0x1_0000 != 0
    ensures t[r].Read? && t[r].port == PWR_CSR && t[r].value & 0x1_0000 != 0
    ensures forall k :: w <= k < i && IsWrite(t[k], PWR_CR) ==> t[k].value & 0x2_0000 != 0
    ensures t[s].Read? && t[s].port == PWR_CSR && t[s].value & 0x2_0000 != 0
  {
    SwitchedBefore(d, entry, t, i);
    OverdriveBits();
    hide Next, Scan, Safe, SelectsPll, OverdriveOn, SwitchingOn, OverdriveReady, SwitchingReady;
    e, r, w, s := SwitchedMeans(entry, t[..i]);
    assert OverdriveReady(t[r].value) && SwitchingReady(t[s].value);
    StaysOnBits(t, e, i);
    StaysOnBits(t, w, i);
    hide StaysOn, StaysSwitching;
  }

  /** What a register holds just before position i: the last word written, at position j, or else what it
      held at first (j == i). */
  function LastWord(t: seq<Access>, i: nat, j: nat, first: bv32): bv32
    requires j <= i <= |t|
  {
    if j < i then t[j].value else first
  }

  /** The PLL is never reconfigured while the word software last gave CR has PLLON set. */
  lemma ReconfiguredOnlyWhenOff(d: Device, entry: Registers, t: seq<Access>, i: nat, c: nat)
    requires Safe(d, entry, t)
    requires i < |t| && IsWrite(t[i], PLLCFGR) && IsLastWrite(t[..i], CR, c)
    ensures LastWord(t, i, c, entry.cr) & 0x0100_0000 == 0
  {
    Bits();
    hide PllOn;
    HoldsLastWritten(entry, t[..i], CR, c);
    assert Permitted(d, Scan(entry, t[..i]), t[i]);
    assert !PllOn(LastWord(t, i, c, entry.cr));
  }

  /** A write to CR that sets PLLON after one that did not comes only once the words last given to PWR_CR and
      CFGR hold regulator scale 1 and the prescalers of the variant. */
  lemma StartedOnlyWhenPrepared(d: Device, entry: Registers, t: seq<Access>, i: nat, c: nat, p: nat, f: nat)
    requires Safe(d, entry, t)
    requires i < |t| && IsWrite(t[i], CR) && t[i].value & 0x0100_0000 != 0
    requires IsLastWrite(t[..i], CR, c) && LastWord(t, i, c, entry.cr) & 0x0100_0000 == 0
    requires IsLastWrite(t[..i], PWR_CR, p) && IsLastWrite(t[..i], CFGR, f)
    ensures LastWord(t, i, p, entry.pwrCr) & 0xC000 == 0xC000
    ensures LastWord(t, i, f, entry.cfgr) & 0xFCF0
         == if d.F401? || d.F411? || d.F411Bypass? then 0x1000 else 0x9400
  {
    Bits();
    PrescalerBits(d, LastWord(t, i, f, entry.cfgr));
    hide PllOn, ScaleOne, Scale, PrescalersSet, SelectsPll;
    HoldsLastWritten(entry, t[..i], CR, c);
    HoldsLastWritten(entry, t[..i], PWR_CR, p);
    HoldsLastWritten(entry, t[..i], CFGR, f);
    assert !PllOn(LastWord(t, i, c, entry.cr)) && PllOn(t[i].value);
    assert Permitted(d, Scan(entry, t[..i]), t[i]);
    assert ScaleOne(LastWord(t, i, p, entry.pwrCr));
  }

  /** A write to CR that clears PLLON comes only once the word last given to CFGR does not select the PLL. */
  lemma StoppedOnlyWhenUnused(d: Device, entry: Registers, t: seq<Access>, i: nat, c: nat, f: nat)
    requires Safe(d, entry, t)
    requires i < |t| && IsWrite(t[i], CR) && t[i].value & 0x0100_0000 == 0
    requires IsLastWrite(t[..i], CR, c) && LastWord(t, i, c, entry.cr) & 0x0100_0000 != 0
    requires IsLastWrite(t[..i], CFGR, f)
    ensures LastWord(t, i, f, entry.cfgr) & 0x3 != 0x2
  {
    Bits();
    hide PllOn, ScaleOne, PrescalersSet, SelectsPll;
    HoldsLastWritten(entry, t[..i], CR, c);
    HoldsLastWritten(entry, t[..i], CFGR, f);
    assert PllOn(LastWord(t, i, c, entry.cr)) && !PllOn(t[i].value);
    assert Permitted(d, Scan(entry, t[..i]), t[i]);
    assert !SelectsPll(LastWord(t, i, f, entry.cfgr));
  }

  /** HSI is selected only while the word last given to CR has HSION set. */
  lemma HsiSelectedOnlyWhenOn(d: Device, entry: Registers, t: seq<Access>, i: nat, c: nat)
    requires Safe(d, entry, t)
    requires i < |t| && IsWrite(t[i], CFGR) && t[i].value & 0x3 == 0x0 && IsLastWrite(t[..i], CR, c)
    ensures LastWord(t, i, c, entry.cr) & 0x1 != 0
  {
    Bits();
    hide HsiOn, SelectsHsi, SelectsPll;
    HoldsLastWritten(entry, t[..i], CR, c);
    assert SelectsHsi(t[i].value);
    assert Permitted(d, Scan(entry, t[..i]), t[i]);
    assert HsiOn(LastWord(t, i, c, entry.cr));
  }

  /** PWR_CR is written only with the power interface clocked, and keeps the regulator scale while PLLON is set. */
  lemma PowerWrittenOnlyWhenClocked(d: Device, entry: Registers, t: seq<Access>, i: nat, c: nat, a: nat, p: nat)
    requires Safe(d, entry, t)
    requires i < |t| && IsWrite(t[i], PWR_CR)
    requires IsLastWrite(t[..i], CR, c) && IsLastWrite(t[..i], APB1ENR, a) && IsLastWrite(t[..i], PWR_CR, p)
    ensures LastWord(t, i, a, entry.apb1enr) & 0x1000_0000 != 0
    ensures LastWord(t, i, c, entry.cr) & 0x0100_0000 != 0 ==>
              t[i].value & 0xC000 == LastWord(t, i, p, entry.pwrCr) & 0xC000
  {
    Bits();
    hide PllOn, Powered, Scale, ScaleOne;
    HoldsLastWritten(entry, t[..i], CR, c);
    HoldsLastWritten(entry, t[..i], APB1ENR, a);
    HoldsLastWritten(entry, t[..i], PWR_CR, p);
    assert Permitted(d, Scan(entry, t[..i]), t[i]);
    assert Powered(LastWord(t, i, a, entry.apb1enr));
    assert PllOn(LastWord(t, i, c, entry.cr)) ==> Scale(t[i].value) == Scale(LastWord(t, i, p, entry.pwrCr));
  }
}
