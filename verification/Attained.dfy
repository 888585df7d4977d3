// The nesting bound is exact: for every documented group some run nests one handler per preemption level.
module Attained {
  import opened Priority
  import opened Nvic
  import opened Runs
  import opened Scheduling
  import opened Nesting

  lemma RoundTrip(x: int)
    requires 0 <= x < 16
    ensures (x as bv8) as int == x
  {
    if x == 0 {} else if x == 1 {} else if x == 2 {} else if x == 3 {}
    else if x == 4 {} else if x == 5 {} else if x == 6 {} else if x == 7 {}
    else if x == 8 {} else if x == 9 {} else if x == 10 {} else if x == 11 {}
    else if x == 12 {} else if x == 13 {} else if x == 14 {} else if x == 15 {}
  }

  lemma LevelsOfGroup(bits: bv32, group: bv32)
    requires 4 <= bits <= 8 && 3 <= group <= 7
    ensures Levels(bits, group) == ((1 as bv8) << (4 - LeftShift(group))) as int
    ensures 1 <= Levels(bits, group) <= 16
  {
    DocumentedLevels(bits);
    if group == 3 {} else if group == 4 {} else if group == 5 {} else if group == 6 {}
  }

  lemma BelowPower(width: bv8, v: bv8)
    requires width <= 4 && v < 1 << width
    ensures v <= (1 << width) - 1
  {
  }

  /** Every level is the preemption priority of some argument of NVIC_Init. */
  lemma ArgumentForLevel(bits: bv32, group: bv32, x: int)
    requires 4 <= bits <= 8 && 3 <= group <= 7
    requires 0 <= x < Levels(bits, group)
    ensures x < 256 && PreOf(LeftShift(group), (x as bv8, 0)) == x
  {
    var left := LeftShift(group);
    LevelsOfGroup(bits, group);
    hide Levels, LeftShift;
    RoundTrip(x);
    ByteAsInt(x as bv8, 1 << (4 - left));
    BelowPower(4 - left, x as bv8);
    InRangeIsNotReduced(4 - left, x as bv8);
    hide Reduced;
  }

  /** No device interrupt is pending, except perhaps `but`. */
  ghost predicate QuietBut(pending: set<int>, but: int) {
    forall j :: IsIrq(j) && j in pending ==> j == but
  }

  /** Interrupts 0 to i-1 are nested, interrupt k at level n-1-k, and nothing is pending. */
  ghost predicate Nested(bits: bv32, s: Core, i: int, n: int)
    requires 4 <= bits <= 8
  {
    && Inv(bits, s) && 3 <= s.r.group <= 7 && n == Levels(bits, s.r.group)
    && 0 <= i <= n <= 16
    && QuietBut(s.r.pending, -1)
    && |s.active| == i && (forall k :: 0 <= k < i ==> s.active[k] == k)
    && forall k :: 0 <= k < i ==> k in s.configured && PreOf(LeftShift(s.r.group), s.configured[k]) == n - 1 - k
  }

  /** The events that nest one more interrupt. */
  function Round(i: int, n: int): seq<Event>
    requires 0 <= i < n <= 16
  {
    [Do(Init(i, (n - 1 - i) as bv8, 0, true)), Do(SetPendingIRQ(i)), Take(i)]
  }

  lemma ThreeEvents(bits: bv32, s: Core, t: Core, u: Core, v: Core, e: Event, f: Event, g: Event)
    requires 4 <= bits <= 8
    requires s.r.Shaped() && Allowed(bits, s, e) && t == After(bits, s, e)
    requires Allowed(bits, t, f) && u == After(bits, t, f)
    requires Allowed(bits, u, g) && v == After(bits, u, g)
    ensures AllowedRun(bits, s, [e, f, g])
    ensures AfterRun(bits, s, [e, f, g]) == v
  {
    hide Allowed, After;
    assert [e, f, g][1..] == [f, g];
    assert [f, g][1..] == [g];
    assert [g][1..] == [];
    assert AllowedRun(bits, v, []) && AfterRun(bits, v, []) == v;
    assert AllowedRun(bits, u, [g]) && AfterRun(bits, u, [g]) == v;
    assert AllowedRun(bits, t, [f, g]) && AfterRun(bits, t, [f, g]) == v;
  }

  /** Ready for the last event of a round: interrupt i is configured, enabled, and the only one pending. */
  ghost predicate Armed(bits: bv32, s: Core, i: int, n: int)
    requires 4 <= bits <= 8
  {
    && Inv(bits, s) && 3 <= s.r.group <= 7 && n == Levels(bits, s.r.group)
    && 0 <= i < n <= 16
    && i in s.r.enabled && i in s.r.pending && QuietBut(s.r.pending, i)
    && |s.active| == i && (forall k :: 0 <= k < i ==> s.active[k] == k)
    && forall k :: 0 <= k <= i ==> k in s.configured && PreOf(LeftShift(s.r.group), s.configured[k]) == n - 1 - k
  }

  lemma ArmedIsTaken(bits: bv32, s: Core, i: int, n: int)
    requires 4 <= bits <= 8 && Armed(bits, s, i, n)
    ensures CanTake(s, i) && Nested(bits, After(bits, s, Take(i)), i + 1, n)
  {
    forall a | a in s.active
      ensures IsIrq(a) && GroupOf(s.r, i) < GroupOf(s.r, a)
    {
      PreemptionIsDocumented(bits, s, i, a);
    }
    hide GroupOf, Inv, PreOf, Levels, LeftShift, Precedes;
    assert CanTake(s, i);
    EventKeepsInv(bits, s, Take(i));
  }

  lemma SetUp(bits: bv32, s: Core, i: int, n: int)
    requires 4 <= bits <= 8 && Nested(bits, s, i, n) && i < n
    ensures var e := Round(i, n)[0];
            Allowed(bits, s, e) && Inv(bits, After(bits, s, e))
    ensures var t := After(bits, s, Round(i, n)[0]);
            t.active == s.active && QuietBut(t.r.pending, -1) && t.r.group == s.r.group && i in t.r.enabled
            && t.configured == s.configured[i := ((n - 1 - i) as bv8, 0)]
  {
    var e := Round(i, n)[0];
    forall a | a in s.active
      ensures !SetsPriorityOf(e.call, a)
    {
    }
    hide Inv, PreOf, LeftShift, EncodedByte, Levels;
    EventKeepsInv(bits, s, e);
  }

  /** Configuring interrupt i and pending it leaves it ready to be taken. */
  lemma PendAfterSetUp(bits: bv32, s: Core, t: Core, i: int, n: int)
    requires 4 <= bits <= 8 && Nested(bits, s, i, n) && i < n
    requires Inv(bits, t)
    requires t.active == s.active && QuietBut(t.r.pending, -1) && t.r.group == s.r.group && i in t.r.enabled
    requires i in t.configured && PreOf(LeftShift(s.r.group), t.configured[i]) == n - 1 - i
    requires forall k :: k in s.configured && k != i ==> k in t.configured && t.configured[k] == s.configured[k]
    ensures Allowed(bits, t, Do(SetPendingIRQ(i)))
    ensures Armed(bits, After(bits, t, Do(SetPendingIRQ(i))), i, n)
  {
    hide Inv, Levels, LeftShift, PreOf, EncodedByte;
    EventKeepsInv(bits, t, Do(SetPendingIRQ(i)));
  }

  lemma OneRound(bits: bv32, s: Core, i: int, n: int)
    requires 4 <= bits <= 8 && Nested(bits, s, i, n) && i < n
    ensures AllowedRun(bits, s, Round(i, n))
    ensures Nested(bits, AfterRun(bits, s, Round(i, n)), i + 1, n)
  {
    var events := Round(i, n);
    SetUp(bits, s, i, n);
    var t := After(bits, s, events[0]);
    ArgumentForLevel(bits, s.r.group, n - 1 - i);
    hide Inv, Levels, LeftShift, PreOf, Allowed, After;
    PendAfterSetUp(bits, s, t, i, n);
    var u := After(bits, t, events[1]);
    ArmedIsTaken(bits, u, i, n);
    hide Nested, Armed;
    assert Allowed(bits, u, events[2]) by {
      TakeIsAllowed(bits, u, i);
    }
    ThreeEvents(bits, s, t, u, After(bits, u, events[2]), events[0], events[1], events[2]);
  }

  lemma TakeIsAllowed(bits: bv32, s: Core, irq: int)
    requires 4 <= bits <= 8 && s.r.Shaped() && CanTake(s, irq)
    ensures Allowed(bits, s, Take(irq))
  {
  }

  lemma {:induction false} RunsCompose(bits: bv32, s: Core, first: seq<Event>, second: seq<Event>)
    requires 4 <= bits <= 8 && s.r.Shaped()
    requires AllowedRun(bits, s, first) && AllowedRun(bits, AfterRun(bits, s, first), second)
    ensures AllowedRun(bits, s, first + second)
    ensures AfterRun(bits, s, first + second) == AfterRun(bits, AfterRun(bits, s, first), second)
    decreases |first|
  {
    hide Allowed, After;
    if first == [] {
      assert first + second == second;
    } else {
      assert (first + second)[1..] == first[1..] + second;
      RunsCompose(bits, After(bits, s, first[0]), first[1..], second);
    }
  }

  lemma {:induction false} NestFurther(bits: bv32, s: Core, i: int, n: int) returns (events: seq<Event>)
    requires 4 <= bits <= 8 && Nested(bits, s, i, n)
    ensures AllowedRun(bits, s, events)
    ensures Nested(bits, AfterRun(bits, s, events), n, n)
    decreases n - i
  {
    events := [];
    if i < n {
      OneRound(bits, s, i, n);
      hide Nested;
      var rest := NestFurther(bits, AfterRun(bits, s, Round(i, n)), i + 1, n);
      RunsCompose(bits, s, Round(i, n), rest);
      events := Round(i, n) + rest;
    }
  }

  /** Clearing the pending interrupts one by one from number k on leaves none. */
  lemma {:induction false} ClearAll(bits: bv32, s: Core, k: int) returns (events: seq<Event>)
    requires 4 <= bits <= 8 && Inv(bits, s) && 0 <= k <= IRQ_COUNT
    requires s.active == [] && forall j :: 0 <= j < k ==> j !in s.r.pending
    ensures AllowedRun(bits, s, events)
    ensures var t := AfterRun(bits, s, events);
            Inv(bits, t) && t.active == [] && t.r.group == s.r.group && QuietBut(t.r.pending, -1)
    decreases IRQ_COUNT - k
  {
    events := [];
    if k < IRQ_COUNT {
      var e := Do(ClearPendingIRQ(k));
      hide Inv;
      EventKeepsInv(bits, s, e);
      var t := After(bits, s, e);
      var rest := ClearAll(bits, t, k + 1);
      events := [e] + rest;
      assert events[1..] == rest;
      hide Allowed, After;
    }
  }

  /** From any idle state under a documented group, some run nests exactly as many handlers as there are levels. */
  lemma BoundIsReached(bits: bv32, s: Core) returns (events: seq<Event>)
    requires 4 <= bits <= 8 && Inv(bits, s)
    requires 3 <= s.r.group <= 7 && s.active == []
    ensures AllowedRun(bits, s, events)
    ensures |AfterRun(bits, s, events).active| == Levels(bits, s.r.group)
  {
    LevelsOfGroup(bits, s.r.group);
    hide Inv, Levels;
    var clear := ClearAll(bits, s, 0);
    var quiet := AfterRun(bits, s, clear);
    var nest := NestFurther(bits, quiet, 0, Levels(bits, s.r.group));
    RunsCompose(bits, s, clear, nest);
    RunKeepsInv(bits, quiet, nest);
    events := clear + nest;
  }
}
