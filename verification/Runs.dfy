// Whole runs of NVIC calls: the registers follow the plain sets and tables,
// the grouping stays in its documented range, and every interrupt keeps its own state.
module Runs {
  import opened Priority
  import opened Aircr
  import opened Nvic

  predicate AllAccepted(calls: seq<Call>) {
    forall i :: 0 <= i < |calls| ==> Accepts(calls[i])
  }

  /** The meaning of a run. */
  function Run(bits: bv32, r: Registers, calls: seq<Call>): (r': Registers)
    requires 1 <= bits <= 8
    requires r.Shaped() && AllAccepted(calls)
    ensures r'.Shaped()
  {
    if calls == [] then r
    else Apply(bits, Run(bits, r, calls[..|calls| - 1]), calls[|calls| - 1])
  }

  /** Every call of the run finds a grouping under which it is defined. */
  predicate DefinedRun(bits: bv32, r: Registers, calls: seq<Call>)
    requires 1 <= bits <= 8
    requires r.Shaped() && AllAccepted(calls)
  {
    forall i :: 0 <= i < |calls| ==> Defined(Run(bits, r, calls[..i]).group, calls[i])
  }

  /** One call on the registers. */
  method Step(c: Controller, call: Call)
    requires c.Valid() && Accepts(call) && Defined(c.State().group, call)
    modifies c`aircr, c`resetRequested, c.enableWords, c.pendingWords, c.ip, c.shp
    ensures c.State() == Apply(c.bits, old(c.State()), call)
  {
    hide Apply;
    match call
    case EnableIRQ(irq) => c.EnableIRQ(irq);
    case DisableIRQ(irq) => c.DisableIRQ(irq);
    case SetPendingIRQ(irq) => c.SetPendingIRQ(irq);
    case ClearPendingIRQ(irq) => c.ClearPendingIRQ(irq);
    case SetPriority(irq, priority) => c.SetPriority(irq, priority);
    case SetPriorityGrouping(group) => c.SetPriorityGrouping(group);
    case PriorityGroupConfig(group) => c.PriorityGroupConfig(group);
    case Init(channel, pre, sub, enable) => c.Init(channel, pre, sub, enable);
  }

  /** After any defined run, the register words stand for exactly the sets and tables of its meaning. */
  method Execute(c: Controller, calls: seq<Call>)
    requires c.Valid() && AllAccepted(calls) && DefinedRun(c.bits, c.State(), calls)
    modifies c`aircr, c`resetRequested, c.enableWords, c.pendingWords, c.ip, c.shp
    ensures c.State() == Run(c.bits, old(c.State()), calls)
  {
    ghost var start := c.State();
    assert calls[..0] == [];
    for i := 0 to |calls|
      invariant c.State() == Run(c.bits, start, calls[..i])
    {
      assert calls[..i + 1][..i] == calls[..i];
      Step(c, calls[i]);
    }
    assert calls[..|calls|] == calls;
  }

  // ----- Grouping -----

  /** No call leaves the documented groups, whichever one it finds or sets. */
  lemma GroupStaysDocumented(bits: bv32, r: Registers, c: Call)
    requires 1 <= bits <= 8
    requires r.Shaped() && Accepts(c) && (c.SetPriorityGrouping? ==> 3 <= c.group & 7)
    requires 3 <= r.group <= 7 || c.SetPriorityGrouping? || c.PriorityGroupConfig?
    ensures 3 <= Apply(bits, r, c).group <= 7
  {
    if c.PriorityGroupConfig? {
      ConfigWordIsKeyed(0, c.group);
    } else if c.SetPriorityGrouping? {
      MaskedGroupInRange(c.group);
    }
  }

  /** Once a documented group is set, any mix of calls keeps one, so no NVIC_Init shifts out of range. */
  lemma {:induction false} GroupingInvariant(bits: bv32, r: Registers, calls: seq<Call>)
    requires 1 <= bits <= 8
    requires r.Shaped() && AllAccepted(calls)
    requires 3 <= r.group <= 7
    requires forall i :: 0 <= i < |calls| && calls[i].SetPriorityGrouping? ==> 3 <= calls[i].group & 7
    ensures 3 <= Run(bits, r, calls).group <= 7
    ensures DefinedRun(bits, r, calls)
  {
    if calls != [] {
      var before, last := calls[..|calls| - 1], calls[|calls| - 1];
      GroupingInvariant(bits, r, before);
      GroupStaysDocumented(bits, Run(bits, r, before), last);
      forall i | 0 <= i < |calls|
        ensures Defined(Run(bits, r, calls[..i]).group, calls[i])
      {
        if i < |before| {
          assert calls[..i] == before[..i];
        }
      }
    }
  }

  lemma MaskedGroupInRange(group: bv32)
    ensures group & 7 <= 7
  {
  }

  /** A call of NVIC_Init that enables its channel is defined exactly when its left shift count is below the
      32 bits of the shifted int. */
  lemma DefinedIsShiftCount(aircr: bv32, c: Call)
    requires c.Init? && c.enable
    ensures Defined(GroupField(aircr), c) <==> ShiftCounts(aircr).1 < 32
  {
    ShiftCountsInRange(aircr);
    hide ShiftCounts, GroupField;
  }

  /** Straight after reset PRIGROUP is 0: enabling an interrupt with NVIC_Init shifts left by 253. */
  lemma InitNeedsGrouping(bits: bv32, r: Registers, aircr: bv32, channel: int, pre: bv8, sub: bv8)
    requires 1 <= bits <= 8
    requires r.Shaped() && 0 <= channel < IRQ_COUNT
    requires r.group == GroupField(aircr) == 0
    ensures ShiftCounts(aircr).1 == 253
    ensures !DefinedRun(bits, r, [Call.Init(channel, pre, sub, true)])
  {
    UngroupedShift(aircr);
    hide ShiftCounts, GroupField;
    var calls := [Call.Init(channel, pre, sub, true)];
    assert calls[..0] == [];
    assert !Defined(Run(bits, r, calls[..0]).group, calls[0]);
  }

  lemma UngroupedShift(aircr: bv32)
    requires GroupField(aircr) == 0
    ensures ShiftCounts(aircr).1 == 253
  {
  }

  // ----- Each interrupt keeps its own state -----

  /** What a call makes of one interrupt's enable state, if it touches it. */
  function EnableEffect(c: Call, irq: int): (bool, bool) {
    match c
    case EnableIRQ(i) => (i == irq, true)
    case DisableIRQ(i) => (i == irq, false)
    case Init(i, _, _, enable) => (i == irq, enable)
    case _ => (false, false)
  }

  function PendingEffect(c: Call, irq: int): (bool, bool) {
    match c
    case SetPendingIRQ(i) => (i == irq, true)
    case ClearPendingIRQ(i) => (i == irq, false)
    case _ => (false, false)
  }

  /** The state an interrupt has after a run in which only the last call touching it matters. */
  function LastEffect(effect: (Call, int) -> (bool, bool), calls: seq<Call>, irq: int, initially: bool): bool {
    if calls == [] then initially
    else
      var (touched, value) := effect(calls[|calls| - 1], irq);
      if touched then value else LastEffect(effect, calls[..|calls| - 1], irq, initially)
  }

  /** An interrupt is enabled, or pending, exactly as the last call that named it left it. */
  lemma {:induction false} LastCallDecides(bits: bv32, r: Registers, calls: seq<Call>, irq: int)
    requires 1 <= bits <= 8
    requires r.Shaped() && AllAccepted(calls)
    ensures irq in Run(bits, r, calls).enabled <==> LastEffect(EnableEffect, calls, irq, irq in r.enabled)
    ensures irq in Run(bits, r, calls).pending <==> LastEffect(PendingEffect, calls, irq, irq in r.pending)
  {
    if calls != [] {
      LastCallDecides(bits, r, calls[..|calls| - 1], irq);
    }
  }

  /** The calls that store a priority for an interrupt. */
  predicate SetsPriorityOf(c: Call, irq: int) {
    match c
    case SetPriority(i, _) => i == irq
    case Init(i, _, _, enable) => enable && i == irq
    case _ => false
  }

  /** The two arrays and their indices keep all interrupt numbers from -12 up apart, inside their bounds. */
  lemma SlotsSeparate(irq: int, other: int)
    requires -12 <= irq < IRQ_COUNT && -12 <= other < IRQ_COUNT
    ensures irq < 0 ==> 0 <= HandlerSlot(irq) < HANDLER_COUNT
    ensures irq < 0 && other < 0 && irq != other ==> HandlerSlot(irq) != HandlerSlot(other)
  {
  }

  /** Of the core exceptions -16..-1, exactly those from -12 up have a slot. */
  lemma SlotsOfHandlers(irq: int)
    requires -16 <= irq < 0
    ensures 0 <= HandlerSlot(irq) < HANDLER_COUNT <==> -12 <= irq
  {
  }

  /** A run leaves the priority of every interrupt that none of its calls sets. */
  lemma {:induction false} PriorityUntouched(bits: bv32, r: Registers, calls: seq<Call>, irq: int)
    requires 1 <= bits <= 8
    requires r.Shaped() && AllAccepted(calls)
    requires -12 <= irq < IRQ_COUNT
    requires forall i :: 0 <= i < |calls| && calls[i].SetPriority? ==> calls[i].irq != irq
    requires forall i :: 0 <= i < |calls| && calls[i].Init? && calls[i].enable ==> calls[i].channel != irq
    ensures PriorityOf(bits, Run(bits, r, calls), irq) == PriorityOf(bits, r, irq)
  {
    if calls != [] {
      var before, last := calls[..|calls| - 1], calls[|calls| - 1];
      PriorityUntouched(bits, r, before, irq);
      if last.SetPriority? {
        SlotsSeparate(irq, last.irq);
      }
      hide StoredByte, EncodedByte, LoadedPriority;
    }
  }

  /** NVIC_GetPriority after NVIC_SetPriority returns the value reduced to the implemented bits. */
  lemma SetThenGet(bits: bv32, r: Registers, irq: int, priority: bv32)
    requires 1 <= bits <= 8
    requires r.Shaped() && -12 <= irq < IRQ_COUNT
    ensures PriorityOf(bits, Apply(bits, r, Call.SetPriority(irq, priority)), irq)
         == priority & ((1 << bits) - 1)
  {
    LoadStored(bits, priority);
    hide StoredByte, LoadedPriority;
  }
}
