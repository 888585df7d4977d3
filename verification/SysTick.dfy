// The system timer: SysTick_Config, and the counter it starts (ARMv7-M section B3.3).
module SysTick {
  import opened Priority
  import opened Nvic
  import opened ClockMath

  const RELOAD_MASK := 0xFF_FFFF
  const ENABLE: bv32 := 1
  const TICKINT: bv32 := 2
  const CLKSOURCE: bv32 := 4
  const SYSTICK_IRQ := -1

  // ----- The counter -----

  /** The registers with the number of interrupts raised so far. */
  datatype Counter = Counter(ctrl: bv32, load: nat, val: nat, raised: nat)

  /** The two clocks a counter may run from, each with its own pace. */
  datatype Pulse = Processor | Reference

  /** One pulse: an enabled counter steps on the clock that CLKSOURCE selects. It reloads at 0 and otherwise
      counts down; it raises its interrupt when it counts from 1 to 0. */
  function Clock(c: Counter, pulse: Pulse): Counter {
    if c.ctrl & ENABLE == 0 || (c.ctrl & CLKSOURCE != 0) != pulse.Processor? then c
    else if c.val == 0 then c.(val := c.load)
    else c.(val := c.val - 1, raised := c.raised + if c.val == 1 && c.ctrl & TICKINT != 0 then 1 else 0)
  }

  function Clocks(c: Counter, pulses: seq<Pulse>): Counter {
    if pulses == [] then c else Clock(Clocks(c, pulses[..|pulses| - 1]), pulses[|pulses| - 1])
  }

  function ProcessorClocks(pulses: seq<Pulse>): nat {
    if pulses == [] then 0
    else ProcessorClocks(pulses[..|pulses| - 1]) + if pulses[|pulses| - 1].Processor? then 1 else 0
  }

  /** The counter as SysTick_Config leaves it. */
  function Started(ticks: nat): Counter
    requires ticks >= 1
  {
    Counter(CLKSOURCE | TICKINT | ENABLE, ticks - 1, 0, 0)
  }

  /** The counter n processor clocks after the configuration. */
  function At(ticks: nat, n: nat): Counter
    requires ticks >= 2
  {
    RemainderIsSmall(n, ticks);
    Counter(7, ticks - 1, if n % ticks == 0 then 0 else ticks - n % ticks, n / ticks)
  }

  lemma RemainderIsSmall(n: nat, t: nat)
    requires t > 0
    ensures 0 <= n % t < t && n / t >= 0
  {
  }

  lemma OneClock(ticks: nat, n: nat, pulse: Pulse)
    requires ticks >= 2
    ensures Clock(At(ticks, n), pulse) == At(ticks, if pulse.Processor? then n + 1 else n)
  {
    RemainderIsSmall(n, ticks);
    NextQuotient(n, ticks);
    ControlBits();
  }

  lemma ControlBits()
    ensures Started(1).ctrl == 7
    ensures 7 & ENABLE != 0 && 7 & TICKINT != 0 && 7 & CLKSOURCE != 0
  {
  }

  /** What each bit of CTRL does: bit 0 clear stops the counter, bit 1 clear silences it, and bit 2 says which
      of the two clocks is the only one it follows. */
  lemma ControlMeans(c: Counter, pulse: Pulse)
    ensures c.ctrl & 1 == 0 ==> Clock(c, pulse) == c
    ensures c.ctrl & 2 == 0 ==> Clock(c, pulse).raised == c.raised
    ensures c.ctrl & 2 != 0 && Clock(c, pulse) != c && c.val == 1 ==> Clock(c, pulse).raised == c.raised + 1
    ensures (c.ctrl & 4 != 0) != pulse.Processor? ==> Clock(c, pulse) == c
    ensures c.ctrl & 1 != 0 && (c.ctrl & 4 != 0) == pulse.Processor? ==>
              Clock(c, pulse).val == if c.val == 0 then c.load else c.val - 1
  {
  }

  lemma {:induction false} CountsOn(ticks: nat, pulses: seq<Pulse>)
    requires ticks >= 2
    ensures Clocks(Started(ticks), pulses) == At(ticks, ProcessorClocks(pulses))
  {
    if pulses == [] {
      ControlBits();
      assert 0 / ticks == 0 && 0 % ticks == 0;
    } else {
      var before := pulses[..|pulses| - 1];
      CountsOn(ticks, before);
      OneClock(ticks, ProcessorClocks(before), pulses[|pulses| - 1]);
      hide At, Clock;
    }
  }

  /** However the two clocks interleave, n processor clocks after the configuration exactly n / ticks interrupts
      have been raised. */
  lemma Periodic(ticks: nat, pulses: seq<Pulse>)
    requires ticks >= 2
    ensures var n, c := ProcessorClocks(pulses), Clocks(Started(ticks), pulses);
            c.raised == n / ticks && c.val == if n % ticks == 0 then 0 else ticks - n % ticks
  {
    CountsOn(ticks, pulses);
  }

  lemma NextQuotient(n: nat, t: nat)
    requires t >= 2
    ensures n % t == t - 1 ==> (n + 1) / t == n / t + 1 && (n + 1) % t == 0
    ensures n % t < t - 1 ==> (n + 1) / t == n / t && (n + 1) % t == n % t + 1
  {
    var q := n / t;
    Distribute(t, q, 1);
    QuotientIs(n + 1, t, if n % t == t - 1 then q + 1 else q);
  }

  /** A tick count of 1 is accepted but loads 0: the counter stays at 0 and never raises its interrupt. */
  lemma {:induction false} OneTickNeverRaises(pulses: seq<Pulse>)
    ensures Clocks(Started(1), pulses) == Counter(7, 0, 0, 0)
  {
    if pulses != [] {
      OneTickNeverRaises(pulses[..|pulses| - 1]);
    }
  }

  /** So interrupts come every `ticks` processor clocks exactly for the accepted counts from 2 up. */
  lemma PeriodicExactly(ticks: nat)
    requires 1 <= ticks <= 0x100_0000
    ensures (forall pulses :: Clocks(Started(ticks), pulses).raised == ProcessorClocks(pulses) / ticks) <==> ticks >= 2
  {
    if ticks >= 2 {
      forall pulses ensures Clocks(Started(ticks), pulses).raised == ProcessorClocks(pulses) / ticks {
        Periodic(ticks, pulses);
      }
    } else {
      OneTickNeverRaises([Processor]);
      assert ProcessorClocks([Processor]) == 1;
      assert Clocks(Started(1), [Processor]).raised != ProcessorClocks([Processor]) / 1;
    }
  }

  // ----- Configuration -----

  /** The priority SysTick_Config stores is the lowest there is. */
  lemma LowestPriority(bits: bv32, priority: bv32)
    requires 1 <= bits <= 8
    ensures StoredByte(bits, priority) <= StoredByte(bits, (1 << bits) - 1)
  {
  }

  class Timer {
    const nvic: Controller
    var ctrl: bv32
    var load: nat
    var val: nat

    constructor (nvic: Controller)
      ensures this.nvic == nvic && ctrl == 0 && load == 0 && val == 0
    {
      this.nvic := nvic;
      ctrl, load, val := 0, 0, 0;
    }

    ghost function Counting(): Counter
      reads this
    {
      Counter(ctrl, load, val, 0)
    }

    /** Accepts 1 to 2^24 ticks; 0 wraps to a large reload value and is rejected. */
    method Config(ticks: nat) returns (failed: nat)
      requires nvic.Valid() && ticks < WORD
      modifies this, nvic.ip, nvic.shp
      ensures nvic.Valid()
      ensures failed == if 1 <= ticks <= 0x100_0000 then 0 else 1
      ensures failed == 0 ==> Counting() == Started(ticks)
      ensures failed == 0 ==> ctrl == 7 && load == ticks - 1 && val == 0
      ensures failed == 0 ==>
        && nvic.ip[..] == old(nvic.ip[..])
        && nvic.shp[..] == old(nvic.shp[..])[11 := StoredByte(nvic.bits, (1 << nvic.bits) - 1)]
      ensures failed == 0 ==>
        nvic.State() == Apply(nvic.bits, old(nvic.State()), Call.SetPriority(SYSTICK_IRQ, (1 << nvic.bits) - 1))
      ensures failed == 1 ==> unchanged(this, nvic.ip, nvic.shp)
    {
      if (ticks - 1) % WORD > RELOAD_MASK {
        return 1;
      }
      load := ticks - 1;
      nvic.SetPriority(SYSTICK_IRQ, (1 << nvic.bits) - 1);
      val := 0;
      ctrl := CLKSOURCE | TICKINT | ENABLE;
      failed := 0;
    }
  }
}
