// Which interrupts a run may serve, told from the calls and events of the run alone, and what serving one
// leaves behind.
module Served {
  import opened Priority
  import opened Aircr
  import opened Nvic
  import opened Scheduling
  import opened Nesting

  predicate Enables(e: Event, irq: int) {
    match e
    case Do(EnableIRQ(i)) => i == irq
    case Do(Init(i, _, _, enable)) => enable && i == irq
    case _ => false
  }

  predicate Disables(e: Event, irq: int) {
    match e
    case Do(DisableIRQ(i)) => i == irq
    case Do(Init(i, _, _, enable)) => !enable && i == irq
    case _ => false
  }

  predicate Pends(e: Event, irq: int) {
    e == Do(SetPendingIRQ(irq))
  }

  predicate Unpends(e: Event, irq: int) {
    e == Do(ClearPendingIRQ(irq)) || e == Take(irq)
  }

  ghost predicate NoneDisables(events: seq<Event>, from: nat, irq: int) {
    forall k :: from <= k < |events| ==> !Disables(events[k], irq)
  }

  ghost predicate NoneUnpends(events: seq<Event>, from: nat, irq: int) {
    forall k :: from <= k < |events| ==> !Unpends(events[k], irq)
  }

  /** An interrupt that a run leaves enabled was enabled before and never disabled, or was enabled by some event
      after which none disabled it. */
  lemma {:induction false} LeftEnabled(bits: bv32, s: Core, events: seq<Event>, irq: int) returns (i: int)
    requires 4 <= bits <= 8 && s.r.Shaped() && AllowedRun(bits, s, events)
    requires irq in AfterRun(bits, s, events).r.enabled
    ensures i == -1 || (0 <= i < |events| && Enables(events[i], irq))
    ensures i == -1 ==> irq in s.r.enabled
    ensures NoneDisables(events, i + 1, irq)
    decreases |events|
  {
    hide Allowed, After;
    i := -1;
    if events != [] {
      var e, rest := events[0], events[1..];
      EnabledAfter(bits, s, e, irq);
      i := LeftEnabled(bits, After(bits, s, e), rest, irq);
      assert forall k :: 1 <= k < |events| ==> events[k] == rest[k - 1];
      if i >= 0 {
        i := i + 1;
      } else if Enables(e, irq) {
        i := 0;
      }
    }
  }

  /** The enabled set after one event, in terms of the event. */
  lemma EnabledAfter(bits: bv32, s: Core, e: Event, irq: int)
    requires 4 <= bits <= 8 && s.r.Shaped() && Allowed(bits, s, e)
    ensures irq in After(bits, s, e).r.enabled <==> Enables(e, irq) || (irq in s.r.enabled && !Disables(e, irq))
  {
    hide EncodedByte, StoredByte;
  }

  lemma {:induction false} LeftPending(bits: bv32, s: Core, events: seq<Event>, irq: int) returns (i: int)
    requires 4 <= bits <= 8 && s.r.Shaped() && AllowedRun(bits, s, events)
    requires irq in AfterRun(bits, s, events).r.pending
    ensures i == -1 || (0 <= i < |events| && Pends(events[i], irq))
    ensures i == -1 ==> irq in s.r.pending
    ensures NoneUnpends(events, i + 1, irq)
    decreases |events|
  {
    hide Allowed, After;
    i := -1;
    if events != [] {
      var e, rest := events[0], events[1..];
      PendingAfter(bits, s, e, irq);
      i := LeftPending(bits, After(bits, s, e), rest, irq);
      assert forall k :: 1 <= k < |events| ==> events[k] == rest[k - 1];
      if i >= 0 {
        i := i + 1;
      } else if Pends(e, irq) {
        i := 0;
      }
    }
  }

  lemma PendingAfter(bits: bv32, s: Core, e: Event, irq: int)
    requires 4 <= bits <= 8 && s.r.Shaped() && Allowed(bits, s, e)
    ensures irq in After(bits, s, e).r.pending <==> Pends(e, irq) || (irq in s.r.pending && !Unpends(e, irq))
  {
    hide EncodedByte, StoredByte;
  }

  lemma {:induction false} LastIsAllowed(bits: bv32, s: Core, events: seq<Event>, e: Event)
    requires 4 <= bits <= 8 && s.r.Shaped() && AllowedRun(bits, s, events + [e])
    ensures AllowedRun(bits, s, events) && Allowed(bits, AfterRun(bits, s, events), e)
    decreases |events|
  {
    hide Allowed, After;
    if events == [] {
      assert (events + [e])[0] == e;
    } else {
      assert (events + [e])[0] == events[0];
      assert (events + [e])[1..] == events[1..] + [e];
      LastIsAllowed(bits, After(bits, s, events[0]), events[1..], e);
    }
  }

  /** From the configured reset state an interrupt is taken only if some earlier event enabled it and none
      disabled it since, and some earlier event made it pending and none cleared or took it since. */
  lemma ServedOnlyIfEnabledAndPending(bits: bv32, group: bv32, events: seq<Event>, irq: int)
    returns (enabled: nat, pended: nat)
    requires 4 <= bits <= 8 && IsPriorityGroup(group)
    requires AllowedRun(bits, ConfiguredReset(bits, group), events + [Take(irq)])
    ensures enabled < |events|
    ensures events[enabled] == Do(EnableIRQ(irq))
         || exists pre, sub :: events[enabled] == Do(Init(irq, pre, sub, true))
    ensures forall k :: enabled < k < |events| ==>
              events[k] != Do(DisableIRQ(irq)) && forall pre, sub :: events[k] != Do(Init(irq, pre, sub, false))
    ensures pended < |events| && events[pended] == Do(SetPendingIRQ(irq))
    ensures forall k :: pended < k < |events| ==> events[k] != Do(ClearPendingIRQ(irq)) && events[k] != Take(irq)
  {
    var s := ConfiguredReset(bits, group);
    LastIsAllowed(bits, s, events, Take(irq));
    assert CanTake(AfterRun(bits, s, events), irq);
    hide Allowed, After, AfterRun, Preempts, Precedes;
    enabled := LeftEnabled(bits, s, events, irq);
    pended := LeftPending(bits, s, events, irq);
    EnablingCall(events[enabled], irq);
    forall k | enabled < k < |events|
      ensures events[k] != Do(DisableIRQ(irq)) && forall pre, sub :: events[k] != Do(Init(irq, pre, sub, false))
    {
      assert !Disables(events[k], irq);
    }
    forall k | pended < k < |events|
      ensures events[k] != Do(ClearPendingIRQ(irq)) && events[k] != Take(irq)
    {
      assert !Unpends(events[k], irq);
    }
  }

  lemma EnablingCall(e: Event, irq: int)
    requires Enables(e, irq)
    ensures e == Do(EnableIRQ(irq)) || exists pre, sub :: e == Do(Init(irq, pre, sub, true))
  {
    if e.call.Init? {
      assert e == Do(Init(irq, e.call.pre, e.call.sub, true));
    }
  }

  // ----- The active stack -----

  /** Handlers entered minus handlers left. */
  function Depth(events: seq<Event>): int {
    if events == [] then 0
    else (if events[0].Take? then 1 else if events[0].Return? then -1 else 0) + Depth(events[1..])
  }

  lemma DepthOfTail(events: seq<Event>, k: nat)
    requires events != [] && k < |events|
    ensures Depth(events[..k + 1]) == Depth(events[..1]) + Depth(events[1..][..k])
  {
    assert events[..k + 1][1..] == events[1..][..k];
    assert events[..1][1..] == [];
  }

  /** A run that never returns below the first n active handlers leaves those in place. */
  lemma {:induction false} LowerHandlersStay(bits: bv32, s: Core, events: seq<Event>, n: nat)
    requires 4 <= bits <= 8 && s.r.Shaped() && AllowedRun(bits, s, events)
    requires n <= |s.active|
    requires forall k :: 0 <= k <= |events| ==> |s.active| + Depth(events[..k]) >= n
    ensures |AfterRun(bits, s, events).active| == |s.active| + Depth(events) >= n
    ensures AfterRun(bits, s, events).active[..n] == s.active[..n]
    decreases |events|
  {
    if events != [] {
      var t := After(bits, s, events[0]);
      assert Depth(events[..1]) == |t.active| - |s.active| by {
        assert events[..1][1..] == [];
      }
      assert |s.active| + Depth(events[..1]) >= n;
      assert t.active[..n] == s.active[..n];
      forall k | 0 <= k <= |events[1..]| ensures |t.active| + Depth(events[1..][..k]) >= n {
        DepthOfTail(events, k);
        assert |s.active| + Depth(events[..k + 1]) >= n;
      }
      hide Allowed, After;
      LowerHandlersStay(bits, t, events[1..], n);
    } else {
      assert events[..0] == [];
    }
  }

  /** A run that returns from every interrupt it takes, and from no other, leaves the active stack as it was;
      in particular taking an interrupt, serving whatever preempts it, and returning from it does. */
  lemma BalancedRunsRestore(bits: bv32, s: Core, events: seq<Event>)
    requires 4 <= bits <= 8 && s.r.Shaped() && AllowedRun(bits, s, events)
    requires Depth(events) == 0 && forall k :: 0 <= k <= |events| ==> Depth(events[..k]) >= 0
    ensures AfterRun(bits, s, events).active == s.active
  {
    LowerHandlersStay(bits, s, events, |s.active|);
  }
}
