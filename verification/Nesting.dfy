// What the scheduling rules make of priorities configured through NVIC_Init:
// how deep handlers nest, which pending interrupt is served, and that the bound is reached.
module Nesting {
  import opened Priority
  import opened Aircr
  import opened Nvic
  import opened Scheduling

  // ----- Depth -----

  /** The preemption level of an interrupt. */
  function LevelOf(bits: bv32, r: Registers, irq: int): int
    requires 1 <= bits <= 8
    requires r.Shaped() && IsIrq(irq)
  {
    TopBits(LevelShift(bits, r.group), r.ip[irq]) as int
  }

  /** Number of preemption levels: 2 to the width of the preemption field. */
  function Levels(bits: bv32, group: bv32): int
    requires 1 <= bits <= 8
  {
    PreemptWidth(bits, group);
    ((1 as bv8) << PreemptBits(bits, group)) as int
  }

  lemma PreemptWidth(bits: bv32, group: bv32)
    requires 1 <= bits <= 8
    ensures PreemptBits(bits, group) <= 7
    ensures LevelShift(bits, group) == 8 - PreemptBits(bits, group)
  {
  }

  lemma LevelRange(bits: bv32, r: Registers, irq: int)
    requires 1 <= bits <= 8
    requires r.Shaped() && IsIrq(irq)
    ensures 0 <= LevelOf(bits, r, irq) < Levels(bits, r.group)
  {
    PreemptWidth(bits, r.group);
    var width, byte := PreemptBits(bits, r.group), r.ip[irq];
    TopBitsBound(width, byte);
    ByteAsInt(TopBits(8 - width, byte), 1 << width);
    hide TopBits, PreemptBits;
  }

  lemma GroupOrderIsLevelOrder(bits: bv32, r: Registers, i: int, j: int)
    requires 1 <= bits <= 8
    requires r.Shaped() && IsIrq(i) && IsIrq(j)
    requires Implemented(bits, r.ip[i]) && Implemented(bits, r.ip[j])
    ensures GroupOf(r, i) < GroupOf(r, j) <==> LevelOf(bits, r, i) < LevelOf(bits, r, j)
  {
    var k, l := GroupShift(r.group), LevelShift(bits, r.group);
    GroupPriorityIsLevel(bits, r.group, k, l, r.ip[i], r.ip[j]);
    hide TopBits, GroupShift, LevelShift;
    ByteAsInt(TopBits(k, r.ip[i]), TopBits(k, r.ip[j]));
    ByteAsInt(TopBits(l, r.ip[i]), TopBits(l, r.ip[j]));
  }

  /** A strictly falling sequence of values below a bound is no longer than the bound. */
  lemma {:induction false} FallingIsShort(xs: seq<int>, bound: int)
    requires forall k :: 0 <= k < |xs| ==> 0 <= xs[k] < bound
    requires forall j, k :: 0 <= j < k < |xs| ==> xs[k] < xs[j]
    ensures |xs| == 0 || |xs| <= bound
  {
    if xs != [] {
      FallingIsShort(xs[1..], xs[0]);
    }
  }

  /** Every handler was preempted by one of a strictly lower level. */
  ghost predicate FallingLevels(bits: bv32, s: Core)
    requires 1 <= bits <= 8 && s.r.Shaped()
  {
    && (forall k :: 0 <= k < |s.active| ==> IsIrq(s.active[k]))
    && (forall j, k :: 0 <= j < k < |s.active| ==>
          LevelOf(bits, s.r, s.active[k]) < LevelOf(bits, s.r, s.active[j]))
  }

  lemma LevelsFall(bits: bv32, s: Core)
    requires 4 <= bits <= 8 && Inv(bits, s)
    ensures FallingLevels(bits, s)
  {
    forall j, k | 0 <= j < k < |s.active|
      ensures LevelOf(bits, s.r, s.active[k]) < LevelOf(bits, s.r, s.active[j])
    {
      GroupOrderIsLevelOrder(bits, s.r, s.active[k], s.active[j]);
    }
    hide LevelOf, GroupOf, Implemented, EncodedByte;
  }

  lemma DepthBound(bits: bv32, s: Core)
    requires 4 <= bits <= 8 && Inv(bits, s)
    ensures FallingLevels(bits, s) && |s.active| <= Levels(bits, s.r.group)
  {
    LevelsFall(bits, s);
    hide Inv;
    var levels := seq(|s.active|, k requires 0 <= k < |s.active| => LevelOf(bits, s.r, s.active[k]));
    forall k | 0 <= k < |levels|
      ensures 0 <= levels[k] < Levels(bits, s.r.group)
    {
      LevelRange(bits, s.r, s.active[k]);
    }
    hide LevelOf;
    LevelsExist(bits, s.r.group);
    hide Levels;
    FallingIsShort(levels, Levels(bits, s.r.group));
  }

  lemma LevelsExist(bits: bv32, group: bv32)
    requires 1 <= bits <= 8
    ensures Levels(bits, group) >= 0
  {
  }

  /** In every run, active handlers have strictly falling preemption levels, so they nest no deeper
      than there are levels. */
  lemma NestingBound(bits: bv32, s: Core, events: seq<Event>)
    requires 4 <= bits <= 8 && Inv(bits, s) && AllowedRun(bits, s, events)
    ensures var t := AfterRun(bits, s, events);
            && (forall k :: 0 <= k < |t.active| ==> IsIrq(t.active[k]))
            && (forall j, k :: 0 <= j < k < |t.active| ==>
                  LevelOf(bits, t.r, t.active[k]) < LevelOf(bits, t.r, t.active[j]))
    ensures |AfterRun(bits, s, events).active| <= Levels(bits, s.r.group)
  {
    RunKeepsInv(bits, s, events);
    DepthBound(bits, AfterRun(bits, s, events));
  }

  /** NVIC_PriorityGroup_0 to NVIC_PriorityGroup_4 give 1, 2, 4, 8 and 16 levels. */
  lemma DocumentedLevels(bits: bv32)
    requires 4 <= bits <= 8
    ensures Levels(bits, 7) == 1 && Levels(bits, 6) == 2 && Levels(bits, 5) == 4
    ensures Levels(bits, 4) == 8 && Levels(bits, 3) == 16
  {
    assert PreemptBits(bits, 7) == 0;
    assert PreemptBits(bits, 6) == 1;
    assert PreemptBits(bits, 5) == 2;
    assert PreemptBits(bits, 4) == 3;
    assert PreemptBits(bits, 3) == 4;
  }

  /** The state after reset once NVIC_PriorityGroupConfig has run. */
  function ConfiguredReset(bits: bv32, group: bv32): (s: Core)
    requires 4 <= bits <= 8 && IsPriorityGroup(group)
    ensures s.r.Shaped()
  {
    Core(Apply(bits, ResetRegisters(), PriorityGroupConfig(group)), [], map[])
  }

  lemma ZeroIsImplemented(bits: bv32)
    requires 1 <= bits <= 8
    ensures Implemented(bits, 0)
  {
  }

  lemma ConfiguredResetInv(bits: bv32, group: bv32)
    requires 4 <= bits <= 8 && IsPriorityGroup(group)
    ensures Inv(bits, ConfiguredReset(bits, group))
  {
    ZeroIsImplemented(bits);
    hide Implemented;
  }

  /** After NVIC_PriorityGroupConfig(NVIC_PriorityGroup_k), handlers nest at most 2^k deep in every run. */
  lemma DocumentedNesting(bits: bv32, group: bv32, events: seq<Event>)
    requires 4 <= bits <= 8 && IsPriorityGroup(group)
    requires AllowedRun(bits, ConfiguredReset(bits, group), events)
    ensures |AfterRun(bits, ConfiguredReset(bits, group), events).active|
         <= (if group == 0x700 then 1 else if group == 0x600 then 2 else if group == 0x500 then 4
             else if group == 0x400 then 8 else 16)
  {
    ConfiguredResetInv(bits, group);
    DocumentedLevels(bits);
    hide Levels, Inv;
    NestingBound(bits, ConfiguredReset(bits, group), events);
    hide AfterRun;
  }

  /** Under NVIC_PriorityGroup_0 an interrupt is only ever taken when no handler is active. */
  lemma NoPreemptionInGroup0(bits: bv32, s: Core, events: seq<Event>, irq: int)
    requires 4 <= bits <= 8 && Inv(bits, s) && AllowedRun(bits, s, events)
    requires s.r.group == 7
    requires CanTake(AfterRun(bits, s, events), irq)
    ensures AfterRun(bits, s, events).active == []
  {
    var t := AfterRun(bits, s, events);
    RunKeepsInv(bits, s, events);
    DocumentedLevels(bits);
    EventKeepsInv(bits, t, Take(irq));
    DepthBound(bits, After(bits, t, Take(irq)));
  }

  // ----- The documented order -----

  /** The documented order: lowest preemption priority, then lowest subpriority, then lowest interrupt number. */
  predicate DocumentedBefore(left: bv8, p: (bv8, bv8), i: int, q: (bv8, bv8), j: int)
    requires left <= 4
  {
    || PreOf(left, p) < PreOf(left, q)
    || (PreOf(left, p) == PreOf(left, q)
        && (SubArgOf(left, p) < SubArgOf(left, q) || (SubArgOf(left, p) == SubArgOf(left, q) && i < j)))
  }

  lemma ConfiguredByteStored(bits: bv32, s: Core, irq: int)
    requires 4 <= bits <= 8 && Inv(bits, s) && irq in s.configured
    ensures IsIrq(irq) && s.r.ip[irq] == ConfiguredByte(s, irq)
  {
    hide ConfiguredByte, Implemented, GroupOf;
  }

  lemma ConfiguredIsShifted(bits: bv32, s: Core, irq: int)
    requires 4 <= bits <= 8 && Inv(bits, s)
    requires 3 <= s.r.group <= 7 && irq in s.configured
    ensures IsIrq(irq)
    ensures s.r.ip[irq] == ShiftedByte(LeftShift(s.r.group), s.configured[irq].0, s.configured[irq].1)
  {
    ConfiguredByteStored(bits, s, irq);
    hide Inv;
    CmsisByteIsShifted(s.r.group, s.configured[irq].0, s.configured[irq].1);
    hide CmsisByte, ShiftedByte, LeftShift;
  }

  /** A lexicographic reading of bytes, extended by a tie-break. */
  lemma TieBreak(a: int, b: int, g: int, g': int, t: int, t': int, i: int, j: int)
    requires a < b <==> (g < g' || (g == g' && t < t'))
    requires b < a <==> (g' < g || (g' == g && t' < t))
    ensures (g < g' || (g == g' && (t < t' || (t == t' && i < j)))) <==> (a < b || (a == b && i < j))
  {
  }

  /** The hardware serves the lower byte first, then the lower number. */
  lemma PrecedesByByte(r: Registers, i: int, j: int)
    requires r.Shaped() && IsIrq(i) && IsIrq(j)
    ensures Precedes(r, i, j) <==> (r.ip[i] as int < r.ip[j] as int || (r.ip[i] as int == r.ip[j] as int && i < j))
  {
    var k := GroupShift(r.group);
    ByteOrderIsLexicographic(k, r.ip[i], r.ip[j]);
    ByteOrderIsLexicographic(k, r.ip[j], r.ip[i]);
    hide TopBits, RestBits, GroupShift;
    TieBreak(r.ip[i] as int, r.ip[j] as int, GroupOf(r, i), GroupOf(r, j), SubOf(r, i), SubOf(r, j), i, j);
  }

  lemma DocumentedByByte(left: bv8, p: (bv8, bv8), i: int, q: (bv8, bv8), j: int)
    requires left <= 4
    ensures DocumentedBefore(left, p, i, q, j) <==>
            (ByteOf(left, p) < ByteOf(left, q) || (ByteOf(left, p) == ByteOf(left, q) && i < j))
  {
    InitOrder(left, p, q);
    InitOrder(left, q, p);
    hide ByteOf, PreOf, SubArgOf;
  }

  /** Between interrupts configured by NVIC_Init, the hardware's order is the documented one. */
  lemma PrecedesIsDocumented(bits: bv32, s: Core, i: int, j: int)
    requires 4 <= bits <= 8 && Inv(bits, s)
    requires 3 <= s.r.group <= 7 && i in s.configured && j in s.configured
    ensures IsIrq(i) && IsIrq(j)
    ensures Precedes(s.r, i, j) <==> DocumentedBefore(LeftShift(s.r.group), s.configured[i], i, s.configured[j], j)
  {
    ConfiguredIsShifted(bits, s, i);
    ConfiguredIsShifted(bits, s, j);
    hide Inv;
    PrecedesByByte(s.r, i, j);
    DocumentedByByte(LeftShift(s.r.group), s.configured[i], i, s.configured[j], j);
    hide Precedes, DocumentedBefore, ShiftedByte, LeftShift;
  }

  lemma GroupOfConfigured(bits: bv32, s: Core, irq: int)
    requires 4 <= bits <= 8 && Inv(bits, s)
    requires 3 <= s.r.group <= 7 && irq in s.configured
    ensures IsIrq(irq)
    ensures GroupOf(s.r, irq) == PreOf(LeftShift(s.r.group), s.configured[irq])
  {
    ConfiguredIsShifted(bits, s, irq);
    InitGroupPriority(s.r.group, LeftShift(s.r.group), s.configured[irq].0, s.configured[irq].1);
    hide Inv, ShiftedByte, Reduced, TopBits, GroupShift, LeftShift;
  }

  /** The subpriority the hardware reads is the configured one, shifted over the four unimplemented bits. */
  lemma SubOfConfigured(bits: bv32, s: Core, irq: int)
    requires 4 <= bits <= 8 && Inv(bits, s)
    requires 3 <= s.r.group <= 7 && irq in s.configured
    ensures IsIrq(irq)
    ensures SubOf(s.r, irq) == SubArgOf(LeftShift(s.r.group), s.configured[irq]) * 16
  {
    ConfiguredIsShifted(bits, s, irq);
    InitSubpriority(s.r.group, LeftShift(s.r.group), s.configured[irq].0, s.configured[irq].1);
    hide Inv, ShiftedByte, Reduced, RestBits, GroupShift, LeftShift;
  }

  /** One interrupt configured by NVIC_Init preempts another exactly when its preemption priority is lower. */
  lemma PreemptionIsDocumented(bits: bv32, s: Core, i: int, j: int)
    requires 4 <= bits <= 8 && Inv(bits, s)
    requires 3 <= s.r.group <= 7 && i in s.configured && j in s.configured
    ensures IsIrq(i) && IsIrq(j)
    ensures var left := LeftShift(s.r.group);
            GroupOf(s.r, i) < GroupOf(s.r, j) <==> PreOf(left, s.configured[i]) < PreOf(left, s.configured[j])
  {
    GroupOfConfigured(bits, s, i);
    GroupOfConfigured(bits, s, j);
    hide GroupOf, PreOf, LeftShift;
  }

  // ----- Some interrupt is served -----

  lemma PrecedesIsStrictTotal(r: Registers, i: int, j: int, k: int)
    requires r.Shaped() && IsIrq(i) && IsIrq(j) && IsIrq(k)
    ensures !Precedes(r, i, i)
    ensures i != j ==> Precedes(r, i, j) || Precedes(r, j, i)
    ensures Precedes(r, i, j) && Precedes(r, j, k) ==> Precedes(r, i, k)
  {
    hide GroupOf, SubOf;
  }

  lemma {:induction false} FirstExists(r: Registers, irqs: set<int>, some: int) returns (first: int)
    requires r.Shaped() && some in irqs
    requires forall i :: i in irqs ==> IsIrq(i)
    ensures first in irqs
    ensures forall j :: j in irqs && j != first ==> Precedes(r, first, j)
    decreases irqs
  {
    hide GroupOf, SubOf;
    first := some;
    if other :| other in irqs && other != some {
      var rest := FirstExists(r, irqs - {some}, other);
      first := if Precedes(r, some, rest) then some else rest;
      forall j | j in irqs && j != first
        ensures Precedes(r, first, j)
      {
        PrecedesIsStrictTotal(r, some, rest, j);
      }
    }
  }

  /** Whenever some candidate beats the execution priority, exactly one interrupt can be taken. */
  lemma ExactlyOneIsTaken(s: Core, irq: int) returns (first: int)
    requires s.r.Shaped()
    requires IsIrq(irq) && irq in s.r.enabled && irq in s.r.pending && Preempts(s, irq)
    ensures CanTake(s, first) && IsIrq(first) && first in s.r.enabled && first in s.r.pending
    ensures forall other :: CanTake(s, other) ==> other == first
  {
    hide GroupOf, SubOf;
    var candidates := set i | 0 <= i < IRQ_COUNT && Candidate(s.r, i);
    assert irq in candidates;
    first := FirstExists(s.r, candidates, irq);
    assert first == irq || Precedes(s.r, first, irq);
  }
}
