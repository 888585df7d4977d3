// Preemption: which pending interrupt the core takes, and how deep interrupts can nest.
// The hardware's rules are those of section B1.5.4 of the ARMv7-M Architecture Reference Manual.
module Scheduling {
  import opened Priority
  import opened Nvic
  import opened Runs

  /** The registers, the handlers being run (outermost first), and what NVIC_Init was last told for each interrupt. */
  datatype Core = Core(r: Registers, active: seq<int>, configured: map<int, (bv8, bv8)>)

  datatype Event =
    | Take(irq: int)
    | Return
    | Do(call: Call)

  predicate IsIrq(irq: int) {
    0 <= irq < IRQ_COUNT
  }

  function GroupOf(r: Registers, irq: int): int
    requires r.Shaped() && IsIrq(irq)
  {
    TopBits(GroupShift(r.group), r.ip[irq]) as int
  }

  function SubOf(r: Registers, irq: int): int
    requires r.Shaped() && IsIrq(irq)
  {
    RestBits(GroupShift(r.group), r.ip[irq]) as int
  }

  /** Of two pending interrupts, the hardware serves first the one with the lower group priority,
      then the lower subpriority, then the lower number. */
  predicate Precedes(r: Registers, i: int, j: int)
    requires r.Shaped() && IsIrq(i) && IsIrq(j)
  {
    || GroupOf(r, i) < GroupOf(r, j)
    || (GroupOf(r, i) == GroupOf(r, j)
        && (SubOf(r, i) < SubOf(r, j) || (SubOf(r, i) == SubOf(r, j) && i < j)))
  }

  predicate Candidate(r: Registers, irq: int) {
    IsIrq(irq) && irq in r.enabled && irq in r.pending
  }

  /** The candidate beats the execution priority: its group priority is below that of every active handler. */
  predicate Preempts(s: Core, irq: int)
    requires s.r.Shaped() && IsIrq(irq)
  {
    forall a :: a in s.active && IsIrq(a) ==> GroupOf(s.r, irq) < GroupOf(s.r, a)
  }

  /** The core takes the first of all candidates, and only if it beats the execution priority. */
  ghost predicate CanTake(s: Core, irq: int)
    requires s.r.Shaped()
  {
    && Candidate(s.r, irq)
    && Preempts(s, irq)
    && forall j :: Candidate(s.r, j) && j != irq ==> Precedes(s.r, irq, j)
  }

  /** Events of a run: the grouping stays, and no active handler has its own priority changed. */
  ghost predicate Allowed(bits: bv32, s: Core, e: Event)
    requires 4 <= bits <= 8 && s.r.Shaped()
  {
    match e
    case Take(irq) => CanTake(s, irq)
    case Return => s.active != []
    case Do(c) =>
      && Accepts(c) && Defined(s.r.group, c)
      && Apply(bits, s.r, c).group == s.r.group
      && forall a :: a in s.active ==> !SetsPriorityOf(c, a)
  }

  /** What may happen: an interrupt is taken if it is enabled and pending, of lower group priority than every
      active handler, and before every other one that is enabled and pending; the innermost handler may return
      at any time; and any accepted and defined call may be made that keeps the grouping and does not set the
      priority of an active handler. */
  lemma WhatIsAllowed(bits: bv32, s: Core, irq: int, c: Call)
    requires 4 <= bits <= 8 && s.r.Shaped()
    ensures Allowed(bits, s, Take(irq)) <==>
            && IsIrq(irq) && irq in s.r.enabled && irq in s.r.pending
            && (forall a :: a in s.active && IsIrq(a) ==> GroupOf(s.r, irq) < GroupOf(s.r, a))
            && forall j :: IsIrq(j) && j in s.r.enabled && j in s.r.pending && j != irq ==> Precedes(s.r, irq, j)
    ensures Allowed(bits, s, Return) <==> s.active != []
    ensures Allowed(bits, s, Do(c)) <==>
            && Accepts(c) && Defined(s.r.group, c) && Apply(bits, s.r, c).group == s.r.group
            && (c.SetPriority? ==> c.irq !in s.active)
            && (c.Init? && c.enable ==> c.channel !in s.active)
  {
    hide GroupOf, Precedes, Apply, Defined;
  }

  ghost function After(bits: bv32, s: Core, e: Event): (s': Core)
    requires 4 <= bits <= 8 && s.r.Shaped() && Allowed(bits, s, e)
    ensures s'.r.Shaped()
  {
    match e
    case Take(irq) => s.(r := s.r.(pending := s.r.pending - {irq}), active := s.active + [irq])
    case Return => s.(active := s.active[..|s.active| - 1])
    case Do(c) => s.(r := Apply(bits, s.r, c), configured := Configured(s.configured, c))
  }

  function Configured(configured: map<int, (bv8, bv8)>, c: Call): map<int, (bv8, bv8)> {
    match c
    case Init(channel, pre, sub, true) => configured[channel := (pre, sub)]
    case SetPriority(irq, _) => configured - {irq}
    case _ => configured
  }

  ghost predicate AllowedRun(bits: bv32, s: Core, events: seq<Event>)
    requires 4 <= bits <= 8 && s.r.Shaped()
    decreases |events|
  {
    events == [] || (Allowed(bits, s, events[0]) && AllowedRun(bits, After(bits, s, events[0]), events[1..]))
  }

  ghost function AfterRun(bits: bv32, s: Core, events: seq<Event>): (s': Core)
    requires 4 <= bits <= 8 && s.r.Shaped() && AllowedRun(bits, s, events)
    ensures s'.r.Shaped()
    decreases |events|
  {
    if events == [] then s else AfterRun(bits, After(bits, s, events[0]), events[1..])
  }

  // ----- What every event keeps -----

  /** Active handlers have strictly falling group priorities; stored bytes have only implemented bits;
      and every byte NVIC_Init stored is the one its arguments encode. */
  ghost predicate Inv(bits: bv32, s: Core)
    requires 4 <= bits <= 8
  {
    && s.r.Shaped()
    && (forall k :: 0 <= k < |s.active| ==> IsIrq(s.active[k]))
    && (forall j, k :: 0 <= j < k < |s.active| ==> GroupOf(s.r, s.active[k]) < GroupOf(s.r, s.active[j]))
    && (forall irq :: IsIrq(irq) ==> Implemented(bits, s.r.ip[irq]))
    && (forall irq :: irq in s.configured ==> IsIrq(irq) && s.r.ip[irq] == ConfiguredByte(s, irq))
  }

  function ConfiguredByte(s: Core, irq: int): bv8
    requires irq in s.configured
  {
    EncodedByte(s.r.group, s.configured[irq])
  }

  /** Storing a proper byte for an inactive interrupt keeps the invariant. */
  lemma NewByteKeepsInv(bits: bv32, s: Core, s': Core, irq: int)
    requires 4 <= bits <= 8 && Inv(bits, s)
    requires s'.r.Shaped() && s'.r.group == s.r.group && s'.active == s.active
    requires IsIrq(irq) && irq !in s.active
    requires forall i :: IsIrq(i) && i != irq ==> s'.r.ip[i] == s.r.ip[i]
    requires Implemented(bits, s'.r.ip[irq])
    requires forall i :: i in s'.configured && i != irq ==> i in s.configured && s'.configured[i] == s.configured[i]
    requires irq in s'.configured ==> s'.r.ip[irq] == ConfiguredByte(s', irq)
    ensures Inv(bits, s')
  {
    hide Implemented, EncodedByte, TopBits, GroupShift;
    forall k | 0 <= k < |s.active|
      ensures GroupOf(s'.r, s.active[k]) == GroupOf(s.r, s.active[k])
    {
      assert s.active[k] in s.active;
    }
  }

  /** Changing no byte and adding no configuration keeps the invariant. */
  lemma SameBytesKeepInv(bits: bv32, s: Core, s': Core)
    requires 4 <= bits <= 8 && Inv(bits, s)
    requires s'.r.Shaped() && s'.r.group == s.r.group && s'.active == s.active
    requires s'.r.ip == s.r.ip
    requires forall i :: i in s'.configured ==> i in s.configured && s'.configured[i] == s.configured[i]
    ensures Inv(bits, s')
  {
    hide Implemented, EncodedByte, TopBits, GroupShift;
  }

  lemma SetPriorityKeepsInv(bits: bv32, s: Core, c: Call)
    requires 4 <= bits <= 8 && Inv(bits, s) && Allowed(bits, s, Do(c))
    requires c.SetPriority?
    ensures Inv(bits, After(bits, s, Do(c)))
  {
    StoredIsImplemented(bits, c.priority);
    hide Inv, StoredByte;
    if c.irq >= 0 {
      NewByteKeepsInv(bits, s, After(bits, s, Do(c)), c.irq);
    } else {
      SameBytesKeepInv(bits, s, After(bits, s, Do(c)));
    }
  }

  lemma InitByteIsImplemented(bits: bv32, group: bv32, pre: bv8, sub: bv8)
    requires 4 <= bits <= 8
    ensures Implemented(bits, EncodedByte(group, (pre, sub)))
  {
    hide Encode, StoredByte, Implemented;
    StoredIsImplemented(4, Encode(4, group, pre as bv32, sub as bv32));
    ImplementedWidens(bits, CmsisByte(4, group, pre as bv32, sub as bv32));
  }

  lemma InitEffect(bits: bv32, s: Core, c: Call)
    requires 4 <= bits <= 8 && s.r.Shaped() && Allowed(bits, s, Do(c))
    requires c.Init? && c.enable
    ensures IsIrq(c.channel) && c.channel !in s.active
    ensures var t := After(bits, s, Do(c));
            && t.r.ip == s.r.ip[c.channel := EncodedByte(s.r.group, (c.pre, c.sub))]
            && t.r.group == s.r.group && t.active == s.active
            && t.configured == s.configured[c.channel := (c.pre, c.sub)]
  {
    hide EncodedByte, StoredByte;
  }

  lemma InitKeepsInv(bits: bv32, s: Core, c: Call)
    requires 4 <= bits <= 8 && Inv(bits, s) && Allowed(bits, s, Do(c))
    requires c.Init? && c.enable
    ensures Inv(bits, After(bits, s, Do(c)))
  {
    InitEffect(bits, s, c);
    InitByteIsImplemented(bits, s.r.group, c.pre, c.sub);
    hide Inv, EncodedByte, Implemented, After, Allowed;
    NewByteKeepsInv(bits, s, After(bits, s, Do(c)), c.channel);
  }

  lemma CallKeepsInv(bits: bv32, s: Core, c: Call)
    requires 4 <= bits <= 8 && Inv(bits, s) && Allowed(bits, s, Do(c))
    ensures Inv(bits, After(bits, s, Do(c)))
  {
    if c.SetPriority? {
      SetPriorityKeepsInv(bits, s, c);
    } else if c.Init? && c.enable {
      InitKeepsInv(bits, s, c);
    } else {
      hide Inv, EncodedByte, StoredByte;
      SameBytesKeepInv(bits, s, After(bits, s, Do(c)));
    }
  }

  lemma TakeKeepsInv(bits: bv32, s: Core, irq: int)
    requires 4 <= bits <= 8 && Inv(bits, s) && CanTake(s, irq)
    ensures Inv(bits, After(bits, s, Take(irq)))
  {
    var s' := After(bits, s, Take(irq));
    forall k | 0 <= k < |s.active|
      ensures GroupOf(s.r, irq) < GroupOf(s.r, s.active[k])
    {
      assert s.active[k] in s.active;
    }
    hide Implemented, EncodedByte, TopBits, GroupShift, Precedes;
  }

  lemma EventKeepsInv(bits: bv32, s: Core, e: Event)
    requires 4 <= bits <= 8 && Inv(bits, s) && Allowed(bits, s, e)
    ensures Inv(bits, After(bits, s, e)) && After(bits, s, e).r.group == s.r.group
  {
    match e
    case Do(c) =>
      CallKeepsInv(bits, s, c);
    case Take(irq) =>
      TakeKeepsInv(bits, s, irq);
    case Return =>
      hide Implemented, EncodedByte, TopBits, GroupShift;
  }

  lemma {:induction false} RunKeepsInv(bits: bv32, s: Core, events: seq<Event>)
    requires 4 <= bits <= 8 && Inv(bits, s) && AllowedRun(bits, s, events)
    ensures Inv(bits, AfterRun(bits, s, events))
    ensures AfterRun(bits, s, events).r.group == s.r.group
    decreases |events|
  {
    if events != [] {
      EventKeepsInv(bits, s, events[0]);
      RunKeepsInv(bits, After(bits, s, events[0]), events[1..]);
    }
    hide Inv, Allowed, After;
  }
}
