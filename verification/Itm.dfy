// The one-slot receive mailbox ITM_RxBuffer, shared between ITM_ReceiveChar and a debugger that runs
// concurrently: every access to the slot is a step of its own.
module Itm {

  const EMPTY := 0x5AA5_5AA5
  const NO_CHARACTER := -1

  /** Where ITM_ReceiveChar stands: outside, after its test, or holding the character it read. */
  datatype Receiver = Outside | Tested | Holding(ch: int)

  /** Where the debugger stands: it writes only after it has seen the slot empty. */
  datatype Debugger = Watching | MayWrite

  datatype System = System(slot: int, receiver: Receiver, debugger: Debugger, sent: seq<int>, delivered: seq<int>)

  datatype Event =
    | Test          // the receiver compares the slot with the empty mark
    | Load          // the receiver reads the character
    | Clear         // the receiver empties the slot and returns the character
    | Look          // the debugger reads the slot
    | Write(ch: int) // the debugger stores a character

  const INITIAL := System(EMPTY, Outside, Watching, [], [])

  predicate Enabled(s: System, e: Event) {
    match e
    case Test => s.receiver.Outside?
    case Load => s.receiver.Tested?
    case Clear => s.receiver.Holding?
    case Look => true
    case Write(ch) => s.debugger.MayWrite? && ch != EMPTY
  }

  function Step(s: System, e: Event): System
    requires Enabled(s, e)
  {
    match e
    case Test => if s.slot != EMPTY then s.(receiver := Tested) else s
    case Load => s.(receiver := Holding(s.slot))
    case Clear => s.(slot := EMPTY, receiver := Outside, delivered := s.delivered + [s.receiver.ch])
    case Look => s.(debugger := if s.slot == EMPTY then MayWrite else Watching)
    case Write(ch) => s.(slot := ch, debugger := Watching, sent := s.sent + [ch])
  }

  predicate Possible(s: System, events: seq<Event>)
    decreases |events|
  {
    events == [] || (Enabled(s, events[0]) && Possible(Step(s, events[0]), events[1..]))
  }

  function After(s: System, events: seq<Event>): System
    requires Possible(s, events)
    decreases |events|
  {
    if events == [] then s else After(Step(s, events[0]), events[1..])
  }

  /** The slot holds exactly what was sent and not yet delivered, and each side's knowledge of it is current. */
  predicate Inv(s: System) {
    && s.sent == (if s.slot == EMPTY then s.delivered else s.delivered + [s.slot])
    && (s.debugger.MayWrite? ==> s.slot == EMPTY)
    && (s.receiver.Tested? ==> s.slot != EMPTY)
    && (s.receiver.Holding? ==> s.slot != EMPTY && s.receiver.ch == s.slot)
  }

  lemma StepKeepsInv(s: System, e: Event)
    requires Inv(s) && Enabled(s, e)
    ensures Inv(Step(s, e))
  {
  }

  lemma {:induction false} RunKeepsInv(s: System, events: seq<Event>)
    requires Inv(s) && Possible(s, events)
    ensures Inv(After(s, events))
    decreases |events|
  {
    if events != [] {
      StepKeepsInv(s, events[0]);
      RunKeepsInv(Step(s, events[0]), events[1..]);
    }
  }

  /** In every interleaving the delivered characters are a prefix of the sent ones and at most one behind, and
      they are the same whenever the slot is empty. */
  lemma Mailbox(events: seq<Event>)
    requires Possible(INITIAL, events)
    ensures var s := After(INITIAL, events);
            && s.delivered <= s.sent && |s.sent| <= |s.delivered| + 1
            && (s.slot == EMPTY <==> s.delivered == s.sent)
  {
    RunKeepsInv(INITIAL, events);
  }

  /** Every character but the empty mark can get through: any sequence of them is delivered by some run. */
  lemma {:induction false} EverythingGetsThrough(chars: seq<int>) returns (events: seq<Event>)
    requires forall i :: 0 <= i < |chars| ==> chars[i] != 0x5AA5_5AA5
    ensures Possible(INITIAL, events)
    ensures var s := After(INITIAL, events);
            s.delivered == chars && s.sent == chars && s.slot == EMPTY && s.receiver.Outside?
  {
    events := [];
    if chars != [] {
      var last := |chars| - 1;
      var before := EverythingGetsThrough(chars[..last]);
      var s := After(INITIAL, before);
      var one := [Look, Write(chars[last]), Test, Load, Clear];
      OneGetsThrough(s, chars[last]);
      Joined(INITIAL, before, one);
      events := before + one;
      assert chars[..last] + [chars[last]] == chars;
    }
  }

  lemma OneGetsThrough(s: System, ch: int)
    requires s.slot == EMPTY && s.receiver.Outside? && ch != EMPTY
    ensures var one := [Look, Write(ch), Test, Load, Clear];
            Possible(s, one)
            && After(s, one)
               == System(EMPTY, Outside, Watching, s.sent + [ch], s.delivered + [ch])
  {
    var looked := Step(s, Look);
    var written := Step(looked, Write(ch));
    var tested := Step(written, Test);
    var holding := Step(tested, Load);
    var cleared := Step(holding, Clear);
    Then(holding, Clear, []);
    Then(tested, Load, [Clear]);
    Then(written, Test, [Load, Clear]);
    Then(looked, Write(ch), [Test, Load, Clear]);
    Then(s, Look, [Write(ch), Test, Load, Clear]);
  }

  lemma Then(s: System, e: Event, rest: seq<Event>)
    requires Enabled(s, e) && Possible(Step(s, e), rest)
    ensures Possible(s, [e] + rest) && After(s, [e] + rest) == After(Step(s, e), rest)
  {
    assert ([e] + rest)[1..] == rest;
  }

  // ----- The slot belongs to the receiver while it is full -----

  predicate DebuggerOnly(events: seq<Event>) {
    forall i :: 0 <= i < |events| ==> events[i].Look? || events[i].Write?
  }

  /** A full slot is left alone by the debugger: what CheckChar reported stays there to be received. */
  lemma {:induction false} FullStaysFull(s: System, events: seq<Event>)
    requires Inv(s) && s.slot != EMPTY
    requires Possible(s, events)
    requires forall i :: 0 <= i < |events| ==> !events[i].Test? && !events[i].Load? && !events[i].Clear?
    ensures After(s, events) == s
    decreases |events|
  {
    if events != [] {
      FullStaysFull(Step(s, events[0]), events[1..]);
    }
  }

  lemma DebuggerSteps(events: seq<Event>)
    ensures DebuggerOnly(events) <==> Test !in events && Load !in events && Clear !in events
  {
    forall i | 0 <= i < |events| ensures events[i] in events {}
  }

  lemma {:induction false} Joined(s: System, first: seq<Event>, second: seq<Event>)
    requires Possible(s, first) && Possible(After(s, first), second)
    ensures Possible(s, first + second) && After(s, first + second) == After(After(s, first), second)
    decreases |first|
  {
    if first == [] {
      assert first + second == second;
    } else {
      Joined(Step(s, first[0]), first[1..], second);
      assert (first + second)[1..] == first[1..] + second;
    }
  }

  /** The steps of one call of ITM_ReceiveChar, with the debugger's between them. */
  function Interleaving(full: bool, first: seq<Event>, second: seq<Event>): seq<Event> {
    if full then ([Test] + first) + ([Load] + second) + [Clear] else [Test]
  }

  /** A call on a full slot is a run of the system that delivers the character. */
  lemma CallIsRun(s: System, first: seq<Event>, second: seq<Event>)
    requires Inv(s) && s.slot != EMPTY && s.receiver.Outside?
    requires DebuggerOnly(first) && Possible(Step(s, Test), first)
    requires DebuggerOnly(second) && Possible(Step(Step(s, Test), Load), second)
    ensures Possible(s, Interleaving(true, first, second))
    ensures After(s, Interleaving(true, first, second))
         == s.(slot := EMPTY, delivered := s.delivered + [s.slot])
  {
    var tested := Step(s, Test);
    var holding := Step(tested, Load);
    FullStaysFull(tested, first);
    FullStaysFull(holding, second);
    assert ([Test] + first)[1..] == first && ([Load] + second)[1..] == second;
    Joined(s, [Test] + first, [Load] + second);
    assert Possible(Step(holding, Clear), [Clear][1..]);
    Joined(s, ([Test] + first) + ([Load] + second), [Clear]);
  }

  // ----- The functions -----

  class Slot {
    var rxBuffer: int
    ghost var system: System

    ghost predicate Valid()
      reads this
    {
      system.slot == rxBuffer && Inv(system)
    }

    constructor ()
      ensures Valid() && system == INITIAL
    {
      rxBuffer := EMPTY;
      system := INITIAL;
    }

    /** The debugger acts between two statements of the program. */
    method Debug(events: seq<Event>)
      requires Valid() && DebuggerOnly(events) && Possible(system, events)
      modifies this
      ensures Valid() && system == After(old(system), events)
    {
      var i := 0;
      while i < |events|
        invariant 0 <= i <= |events|
        invariant Valid() && Possible(system, events[i..])
        invariant After(system, events[i..]) == After(old(system), events)
      {
        var e := events[i];
        assert events[i..][0] == e;
        StepKeepsInv(system, e);
        if e.Write? {
          rxBuffer := e.ch;
        }
        system := Step(system, e);
        assert events[i..][1..] == events[i + 1..];
        i := i + 1;
      }
    }

    /** Receives the character in the slot, whatever the debugger does between the three accesses; -1 if the
        slot was empty at the test. */
    method ReceiveChar(first: seq<Event>, second: seq<Event>) returns (ch: int)
      requires Valid() && system.receiver.Outside?
      requires DebuggerOnly(first) && DebuggerOnly(second)
      requires rxBuffer != EMPTY ==> Possible(Step(system, Test), first)
      requires rxBuffer != EMPTY ==> Possible(Step(Step(system, Test), Load), second)
      modifies this
      ensures Valid()
      ensures ch == if old(rxBuffer) != 0x5AA5_5AA5 then old(rxBuffer) else -1
      ensures rxBuffer == 0x5AA5_5AA5
      ensures var call := Interleaving(old(rxBuffer) != EMPTY, first, second);
              Possible(old(system), call) && system == After(old(system), call)
      ensures system == if old(rxBuffer) == EMPTY then old(system)
                        else old(system).(slot := EMPTY, delivered := old(system).delivered + [ch])
    {
      ch := NO_CHARACTER;
      if rxBuffer != EMPTY {
        CallIsRun(system, first, second);
        system := Step(system, Test);
        FullStaysFull(system, first);
        Debug(first);
        ch := rxBuffer;
        system := Step(system, Load);
        FullStaysFull(system, second);
        Debug(second);
        rxBuffer := EMPTY;
        system := Step(system, Clear);
      }
    }

    method CheckChar() returns (r: int)
      requires Valid()
      ensures r == if system.sent == system.delivered then 0 else 1
      ensures r == if rxBuffer == 0x5AA5_5AA5 then 0 else 1
    {
      if rxBuffer == EMPTY {
        return 0;
      } else {
        return 1;
      }
    }
  }

  /** The returned value tells an empty slot from a received character, except for the character -1. */
  lemma EmptyIsTold(slot: int)
    ensures ((if slot != EMPTY then slot else NO_CHARACTER) == NO_CHARACTER <==> slot == EMPTY) <==> slot != -1
  {
  }

  /** ITM_CheckChar and then ITM_ReceiveChar, with the debugger active all the while. */
  method CheckThenReceive(m: Slot, between: seq<Event>, first: seq<Event>, second: seq<Event>)
    returns (checked: int, ch: int)
    requires m.Valid() && m.system.receiver.Outside? && m.rxBuffer != EMPTY
    requires DebuggerOnly(between) && DebuggerOnly(first) && DebuggerOnly(second)
    requires Possible(m.system, between)
    requires Possible(Step(m.system, Test), first) && Possible(Step(Step(m.system, Test), Load), second)
    modifies m
    ensures checked == 1 && ch == old(m.rxBuffer)
    ensures m.system.delivered == old(m.system).sent
  {
    checked := m.CheckChar();
    FullStaysFull(m.system, between);
    m.Debug(between);
    ch := m.ReceiveChar(first, second);
  }
}
