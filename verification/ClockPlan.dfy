// What the clock bring-up of each device variant writes, what it waits for, and what it leaves behind.
module ClockPlan {
  import opened PllWord
  import opened ClockMath
  import opened ClockDecode
  import opened BringupTrace

  datatype Option<T> = None | Some(value: T)

  const HSEON: bv32 := 0x1_0000
  const HSEBYP: bv32 := 0x4_0000
  const HSERDY: bv32 := 0x2_0000
  const VOS: bv32 := 0xC000
  const CR_STATUS: bv32 := 0x2A02_FF02
  const SWS: bv32 := 0xC
  const SW: bv32 := 3
  const SW_PLL: bv32 := 2
  const PLLCFGR_RESET: bv32 := 0x2400_3010
  const FLASH_BASE: bv32 := 0x0800_0000
  const PLL_Q: bv32 := 7
  const PRFTEN: bv32 := 0x100
  const ICEN: bv32 := 0x200
  const DCEN: bv32 := 0x400

  // ----- The constants of each variant -----

  function PllM(d: Device): bv32 { if d.F411? then 16 else 8 }

  function PllN(d: Device): bv32 {
    match d
    case F40_41 => 336
    case F401 => 336
    case F427_437 => 360
    case F429_439 => 360
    case _ => 400
  }

  function PllP(d: Device): bv32 {
    if d.F401? || d.F411? || d.F411Bypass? then 4 else 2
  }

  function PllSource(d: Device): bv32 { if d.F411? then PLLSRC_HSI else PLLSRC_HSE }

  function ConfiguredPll(d: Device): bv32 {
    Packed(PllM(d), PllN(d), PllP(d), PLL_Q, PllSource(d))
  }

  /** PPRE2 and PPRE1 of each variant. */
  function Prescaler2(d: Device): bv32 {
    if d.F401? || d.F411? || d.F411Bypass? then 0 else 0x8000
  }

  function Prescaler1(d: Device): bv32 {
    if d.F401? || d.F411? || d.F411Bypass? then 0x1000 else 0x1400
  }

  function ConfiguredPrescalers(d: Device): bv32 {
    if d.F401? || d.F411? || d.F411Bypass? then 0x1000 else 0x9400
  }

  function HseBits(d: Device): bv32 {
    if d.F411Bypass? then HSEON | HSEBYP else HSEON
  }

  /** SYSCLK in units of the PLL input after division by M. */
  function Megahertz(d: Device): nat {
    match d
    case F40_41 => 168
    case F401 => 84
    case F427_437 => 180
    case F429_439 => 180
    case _ => 100
  }

  /** The initial value of SystemCoreClock. */
  function InitialClock(d: Device): nat { Megahertz(d) * 1_000_000 }

  // ----- The environment -----

  datatype Flag = HseReady | PllLock | OverdriveUp | OverdriveSwitched | PllInUse

  /** What a status word shows. */
  predicate Shows(reading: bv32, flag: Flag) {
    match flag
    case HseReady => reading & 0x2_0000 != 0
    case PllLock => reading & 0x0200_0000 != 0
    case OverdriveUp => reading & 0x1_0000 != 0
    case OverdriveSwitched => reading & 0x2_0000 != 0
    case PllInUse => reading & 0xC == 0x8
  }

  /** A register whose status bits come from the hardware and the other bits from the last write. */
  function CrRead(cr: bv32, reading: bv32): bv32 { (cr & !CR_STATUS) | (reading & CR_STATUS) }

  function CfgrRead(cfgr: bv32, reading: bv32): bv32 { (cfgr & !SWS) | (reading & SWS) }

  /** The readings left after an unbounded wait for a flag, if it ever shows. */
  function After(readings: seq<bv32>, flag: Flag): Option<seq<bv32>> {
    if readings == [] then None
    else if Shows(readings[0], flag) then Some(readings[1..])
    else After(readings[1..], flag)
  }

  /** The readings left after the start-up loop when at most `polls` iterations remain. */
  function AfterHseLoop(readings: seq<bv32>, polls: nat): Option<seq<bv32>> {
    if readings == [] || polls == 0 then None
    else if Shows(readings[0], HseReady) || polls == 1 then Some(readings[1..])
    else AfterHseLoop(readings[1..], polls - 1)
  }

  /** The counter is compared after its increment, so a timeout of 0 is met only when it wraps. */
  function PollBound(timeout: nat): nat {
    if timeout == 0 then WORD else timeout
  }

  datatype Outcome = Waiting | Returned(pll: bool, rest: seq<bv32>)

  /** How the bring-up ends once the PLL has locked. */
  function SwitchOutcome(d: Device, readings: seq<bv32>): (outcome: Outcome)
    ensures outcome.Returned? ==> outcome.pll
  {
    match if HasOverdrive(d) then AfterHandshake(readings) else Some(readings)
    case None => Waiting
    case Some(switched) =>
      match After(switched, PllInUse)
      case None => Waiting
      case Some(rest) => Returned(true, rest)
  }

  function AfterHandshake(readings: seq<bv32>): Option<seq<bv32>> {
    match After(readings, OverdriveUp)
    case None => None
    case Some(rest) => After(rest, OverdriveSwitched)
  }

  /** How the bring-up ends from the PLL start on. */
  function PllOutcome(d: Device, readings: seq<bv32>): (outcome: Outcome)
    ensures outcome.Returned? ==> outcome.pll
  {
    match After(readings, PllLock)
    case None => Waiting
    case Some(locked) => SwitchOutcome(d, locked)
  }

  /** How SetSysClock ends. */
  function SetupOutcome(d: Device, timeout: nat, readings: seq<bv32>): Outcome {
    if d.F411? then PllOutcome(d, readings) else
    match AfterHseLoop(readings, PollBound(timeout))
    case None => Waiting
    case Some(rest) =>
      if rest == [] then Waiting
      else if Shows(rest[0], HseReady) then PllOutcome(d, rest[1..])
      else Returned(false, rest[1..])
  }

  /** The PLL branch is entered: always on the F411 without bypass, and otherwise when the start-up loop has
      ended and the one reading after it shows HSE ready. */
  predicate EntersPll(d: Device, timeout: nat, readings: seq<bv32>) {
    d.F411? ||
    match AfterHseLoop(readings, PollBound(timeout))
    case None => false
    case Some(rest) => rest != [] && Shows(rest[0], HseReady)
  }

  // ----- The registers left behind -----

  /** `|=` and `&=`. */
  function SetBits(word: bv32, bits: bv32): bv32 { word | bits }

  function KeepBits(word: bv32, mask: bv32): bv32 { word & mask }

  function ClearedCr(cr: bv32): bv32 {
    KeepBits(KeepBits(SetBits(cr, HSION), 0xFEF6_FFFF), 0xFFFB_FFFF)
  }

  function StartedCr(d: Device, cr: bv32): bv32 {
    if d.F411? then ClearedCr(cr) else SetBits(ClearedCr(cr), HseBits(d))
  }

  function ConfiguredCfgr(d: Device): bv32 {
    if d.F401? || d.F411? || d.F411Bypass? then 0x1002 else 0x9402
  }

  function ConfiguredAcr(d: Device): bv32 {
    if d.F401? || d.F411? || d.F411Bypass? then 0x702 else 0x705
  }

  function PoweredCr(d: Device, pwrCr: bv32): bv32 {
    if HasOverdrive(d) then SetBits(SetBits(SetBits(pwrCr, VOS), ODEN), ODSWEN) else SetBits(pwrCr, VOS)
  }

  /** The registers after a completed PLL start. */
  function PllStarted(d: Device, r: Registers): Registers {
    r.(cr := SetBits(r.cr, PLLON), cfgr := ConfiguredCfgr(d), pllcfgr := ConfiguredPll(d),
       apb1enr := SetBits(r.apb1enr, PWREN), pwrCr := PoweredCr(d, r.pwrCr), acr := ConfiguredAcr(d))
  }

  /** The registers after the reset part of SystemInit. */
  function Cleared(r: Registers): Registers {
    r.(cr := ClearedCr(r.cr), cfgr := 0, pllcfgr := PLLCFGR_RESET, cir := 0)
  }

  /** The registers SystemInit leaves behind. */
  function Initialized(d: Device, pll: bool, r: Registers): Registers {
    var started := Cleared(r).(cr := StartedCr(d, r.cr));
    (if pll then PllStarted(d, started) else started).(vtor := FLASH_BASE)
  }
}
