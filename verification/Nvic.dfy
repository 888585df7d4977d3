// The interrupt controller: its register file as the NVIC functions update it,
// and the plain sets and tables those registers stand for.
module Nvic {
  import opened Words
  import opened Priority
  import opened Aircr

  const IRQ_COUNT := 240
  const HANDLER_COUNT := 12

  /** What the registers mean: sets of interrupt numbers, priority bytes, and the PRIGROUP field. */
  datatype Registers = Registers(enabled: set<int>, pending: set<int>, ip: seq<bv8>, shp: seq<bv8>, group: bv32) {
    predicate Shaped() {
      |ip| == IRQ_COUNT && |shp| == HANDLER_COUNT
    }
  }

  /** The registers after reset: nothing enabled or pending, every priority and PRIGROUP zero. */
  function ResetRegisters(): (r: Registers)
    ensures r.Shaped()
  {
    Registers({}, {}, seq(IRQ_COUNT, _ => 0), seq(HANDLER_COUNT, _ => 0), 0)
  }

  datatype Call =
    | EnableIRQ(irq: int)
    | DisableIRQ(irq: int)
    | SetPendingIRQ(irq: int)
    | ClearPendingIRQ(irq: int)
    | SetPriority(irq: int, priority: bv32)
    | SetPriorityGrouping(group: bv32)
    | PriorityGroupConfig(group: bv32)
    | Init(channel: int, pre: bv8, sub: bv8, enable: bool)

  /** `((uint32_t)(IRQn) & 0xF) - 4`, the index NVIC_SetPriority uses for a negative number. */
  function HandlerSlot(irq: int): int {
    (irq + 0x1_0000_0000) % 16 - 4
  }

  /** Exception number irq + 16 has the byte of its number less 4, the first with a settable priority. */
  lemma HandlerSlotIs(irq: int)
    requires -12 <= irq < 0
    ensures HandlerSlot(irq) == (irq + 16) - 4
    ensures 0 <= HandlerSlot(irq) < 12
  {
  }

  /** Arguments for which the call stays inside the register arrays and its own documented ranges. */
  predicate Accepts(c: Call) {
    match c
    case EnableIRQ(irq) => 0 <= irq < IRQ_COUNT
    case DisableIRQ(irq) => 0 <= irq < IRQ_COUNT
    case SetPendingIRQ(irq) => 0 <= irq < IRQ_COUNT
    case ClearPendingIRQ(irq) => 0 <= irq < IRQ_COUNT
    case SetPriority(irq, _) => -12 <= irq < IRQ_COUNT
    case SetPriorityGrouping(_) => true
    case PriorityGroupConfig(group) => IsPriorityGroup(group)
    case Init(channel, _, _, enable) => 0 <= channel < (if enable then IRQ_COUNT else 256)
  }

  /** Every interrupt number from 0 to 239 is accepted, for priorities also the core exceptions from -12 up, and
      nothing else. */
  lemma AcceptedNumbers(irq: int, priority: bv32, pre: bv8, sub: bv8)
    ensures Accepts(EnableIRQ(irq)) <==> 0 <= irq < 240
    ensures Accepts(DisableIRQ(irq)) <==> 0 <= irq < 240
    ensures Accepts(SetPendingIRQ(irq)) <==> 0 <= irq < 240
    ensures Accepts(ClearPendingIRQ(irq)) <==> 0 <= irq < 240
    ensures Accepts(SetPriority(irq, priority)) <==> -12 <= irq < 240
    ensures Accepts(Init(irq, pre, sub, true)) <==> 0 <= irq < 240
    ensures Accepts(Init(irq, pre, sub, false)) <==> 0 <= irq < 256
  {
  }

  /** NVIC_Init shifts by a defined amount only under the groups 3..7. */
  predicate Defined(group: bv32, c: Call) {
    c.Init? && c.enable ==> 3 <= group
  }

  /** The meaning of one call. NVIC_Init means what the CMSIS functions would do for it. */
  function Apply(bits: bv32, r: Registers, c: Call): (r': Registers)
    requires 1 <= bits <= 8
    requires r.Shaped() && Accepts(c)
    ensures r'.Shaped()
  {
    match c
    case EnableIRQ(irq) => r.(enabled := r.enabled + {irq})
    case DisableIRQ(irq) => r.(enabled := r.enabled - {irq})
    case SetPendingIRQ(irq) => r.(pending := r.pending + {irq})
    case ClearPendingIRQ(irq) => r.(pending := r.pending - {irq})
    case SetPriority(irq, priority) =>
      if irq < 0 then r.(shp := r.shp[HandlerSlot(irq) := StoredByte(bits, priority)])
      else r.(ip := r.ip[irq := StoredByte(bits, priority)])
    case SetPriorityGrouping(group) => r.(group := group & 7)
    case PriorityGroupConfig(group) => r.(group := group >> 8)
    case Init(channel, pre, sub, enable) =>
      if enable then
        r.(ip := r.ip[channel := EncodedByte(r.group, (pre, sub))], enabled := r.enabled + {channel})
      else
        r.(enabled := r.enabled - {channel})
  }

  class Controller {
    const bits: bv32
    var enableWords: array<bv32>
    var pendingWords: array<bv32>
    var ip: array<bv8>
    var shp: array<bv8>
    var aircr: bv32
    var resetRequested: bool

    ghost predicate Valid()
      reads this
    {
      && 1 <= bits <= 8
      && enableWords.Length == 8 && pendingWords.Length == 8 && enableWords != pendingWords
      && ip.Length == IRQ_COUNT && shp.Length == HANDLER_COUNT && ip != shp
    }

    ghost function State(): (r: Registers)
      requires Valid()
      reads this, enableWords, pendingWords, ip, shp
      ensures r.Shaped()
    {
      Registers(BitsOf(enableWords[..]), BitsOf(pendingWords[..]), ip[..], shp[..], GroupField(aircr))
    }

    /** The controller after reset. */
    constructor (bits: bv32)
      requires 1 <= bits <= 8
      ensures Valid() && this.bits == bits && !resetRequested
      ensures State() == ResetRegisters()
      ensures ip.Length == 240 && shp.Length == 12 && enableWords.Length == 8 && pendingWords.Length == 8
      ensures fresh(enableWords) && fresh(pendingWords) && fresh(ip) && fresh(shp)
    {
      this.bits := bits;
      enableWords := new bv32[8](_ => 0);
      pendingWords := new bv32[8](_ => 0);
      ip := new bv8[IRQ_COUNT](_ => 0);
      shp := new bv8[HANDLER_COUNT](_ => 0);
      aircr := 0xFA05_0000;
      resetRequested := false;
      new;
      ZeroBank(enableWords[..]);
      ZeroBank(pendingWords[..]);
      assert ip[..] == seq(IRQ_COUNT, _ => 0);
      assert shp[..] == seq(HANDLER_COUNT, _ => 0);
    }

    method EnableIRQ(irq: int)
      requires Valid() && Accepts(Call.EnableIRQ(irq))
      modifies enableWords
      ensures State() == Apply(bits, old(State()), Call.EnableIRQ(irq))
    {
      WriteSetPort(enableWords, irq / 32, Mask(Bit(irq)));
      SetPort(old(enableWords[..]), irq);
    }

    method DisableIRQ(irq: int)
      requires Valid() && Accepts(Call.DisableIRQ(irq))
      modifies enableWords
      ensures State() == Apply(bits, old(State()), Call.DisableIRQ(irq))
    {
      WriteClearPort(enableWords, irq / 32, Mask(Bit(irq)));
      ClearPort(old(enableWords[..]), irq);
    }

    method SetPendingIRQ(irq: int)
      requires Valid() && Accepts(Call.SetPendingIRQ(irq))
      modifies pendingWords
      ensures State() == Apply(bits, old(State()), Call.SetPendingIRQ(irq))
    {
      WriteSetPort(pendingWords, irq / 32, Mask(Bit(irq)));
      SetPort(old(pendingWords[..]), irq);
    }

    method ClearPendingIRQ(irq: int)
      requires Valid() && Accepts(Call.ClearPendingIRQ(irq))
      modifies pendingWords
      ensures State() == Apply(bits, old(State()), Call.ClearPendingIRQ(irq))
    {
      WriteClearPort(pendingWords, irq / 32, Mask(Bit(irq)));
      ClearPort(old(pendingWords[..]), irq);
    }

    /** Reads 1 exactly when the interrupt is in the pending set. */
    method GetPendingIRQ(irq: int) returns (r: bv32)
      requires Valid() && 0 <= irq < IRQ_COUNT
      ensures r == (if irq in State().pending then 1 else 0)
    {
      hide Mask, Bit, TestBit;
      BankRead(pendingWords[..], irq);
      r := if pendingWords[irq / 32] & Mask(Bit(irq)) != 0 then 1 else 0;
    }

    method SetPriority(irq: int, priority: bv32)
      requires Valid() && Accepts(Call.SetPriority(irq, priority))
      modifies ip, shp
      ensures State() == Apply(bits, old(State()), Call.SetPriority(irq, priority))
      ensures irq < 0 ==> shp[..] == old(shp[..])[irq + 12 := StoredByte(bits, priority)] && ip[..] == old(ip[..])
      ensures irq >= 0 ==> ip[..] == old(ip[..])[irq := StoredByte(bits, priority)] && shp[..] == old(shp[..])
    {
      hide StoredByte;
      var byte := AlignedByte(bits, priority);
      if irq < 0 {
        HandlerSlotIs(irq);
        shp[HandlerSlot(irq)] := byte;
      } else {
        ip[irq] := byte;
      }
    }

    method GetPriority(irq: int) returns (priority: bv32)
      requires Valid() && -12 <= irq < IRQ_COUNT
      ensures priority == PriorityOf(bits, State(), irq)
      ensures priority == LoadedPriority(bits, if irq < 0 then shp[irq + 12] else ip[irq])
    {
      if irq < 0 {
        HandlerSlotIs(irq);
        priority := (shp[HandlerSlot(irq)] >> (8 - bits)) as bv32;
      } else {
        priority := (ip[irq] >> (8 - bits)) as bv32;
      }
    }

    /** The hardware's side of a write to AIRCR. */
    method WriteAircr(word: bv32)
      modifies this`aircr, this`resetRequested
      ensures aircr == Stored(old(aircr), word)
      ensures resetRequested == (old(resetRequested) || RequestsReset(word))
    {
      aircr, resetRequested := Stored(aircr, word), resetRequested || RequestsReset(word);
    }

    method SetPriorityGrouping(group: bv32)
      requires Valid()
      modifies this`aircr, this`resetRequested
      ensures State() == Apply(bits, old(State()), Call.SetPriorityGrouping(group))
      ensures resetRequested == (old(resetRequested) || old(aircr) & 0x4 != 0)
    {
      SetGroupingWordIsKeyed(aircr, group);
      SetGroupingWordReset(aircr, group);
      var regValue := KeyedWord(aircr, group);
      hide SetGroupingWord, Stored, RequestsReset, HasKey, GroupField;
      WriteAircr(regValue);
    }

    method GetPriorityGrouping() returns (group: bv32)
      requires Valid()
      ensures group == State().group
    {
      group := (aircr & 0x700) >> 8;
    }

    method PriorityGroupConfig(group: bv32)
      requires Valid() && Accepts(Call.PriorityGroupConfig(group))
      modifies this`aircr, this`resetRequested
      ensures State() == Apply(bits, old(State()), Call.PriorityGroupConfig(group))
      ensures resetRequested == old(resetRequested)
    {
      WriteAircr(0x05FA_0000 | group);
      ConfigWordIsKeyed(old(aircr), group);
    }

    /** NVIC_SystemReset up to its final wait: the reset is requested and the registers are as before. */
    method SystemReset()
      requires Valid()
      modifies this`aircr, this`resetRequested
      ensures resetRequested && State() == old(State())
    {
      ResetWordKeepsGroup(aircr);
      WriteAircr(0x05FA_0000 | (aircr & 0x700) | 0x4);
    }

    /** NVIC_Init, which builds the priority byte by hand. */
    method Init(channel: int, pre: bv8, sub: bv8, enable: bool)
      requires Valid() && Accepts(Call.Init(channel, pre, sub, enable))
      requires Defined(GroupField(aircr), Call.Init(channel, pre, sub, enable))
      modifies enableWords, ip
      ensures State() == Apply(bits, old(State()), Call.Init(channel, pre, sub, enable))
    {
      hide EncodedByte, GroupField;
      if enable {
        ip[channel] := InitPriority(aircr, pre, sub);
        WriteSetPort(enableWords, channel / 32, Mask(Bit(channel)));
        SetPort(old(enableWords[..]), channel);
      } else {
        WriteClearPort(enableWords, channel / 32, Mask(Bit(channel)));
        ClearPort(old(enableWords[..]), channel);
      }
    }
  }

  /** The byte NVIC_SetPriority computes. */
  method AlignedByte(bits: bv32, priority: bv32) returns (byte: bv8)
    requires 1 <= bits <= 8
    ensures byte == StoredByte(bits, priority)
  {
    byte := ((priority << (8 - bits)) & 0xFF) as bv8;
  }

  /** The read-modify part of NVIC_SetPriorityGrouping. */
  method KeyedWord(aircr: bv32, group: bv32) returns (regValue: bv32)
    ensures regValue == SetGroupingWord(aircr, group)
  {
    var priorityGroupTmp := group & 7;
    regValue := aircr;
    regValue := regValue & !(0xFFFF_0000 | 0x700);
    regValue := regValue | 0x05FA_0000 | (priorityGroupTmp << 8);
  }

  /** The part of NVIC_Init that computes the priority byte, in 8-bit variables. */
  method InitPriority(aircr: bv32, pre: bv8, sub: bv8) returns (tmppriority: bv8)
    requires 3 <= GroupField(aircr)
    ensures tmppriority == EncodedByte(GroupField(aircr), (pre, sub))
  {
    var tmppre, tmpsub: bv8 := 0x00, 0x0F;
    ShiftCountsInRange(aircr);
    InitByteIsEncoded(aircr, pre, sub);
    hide EncodedByte;
    tmppriority := (((0x700 - (aircr & 0x700)) >> 8) & 0xFF) as bv8;
    tmppre := 4 - tmppriority;
    tmpsub := tmpsub >> tmppriority;
    tmppriority := pre << tmppre;
    tmppriority := tmppriority | (sub & tmpsub);
    tmppriority := tmppriority << 4;
  }

  /** The hardware's side of a write to a set port, and to a clear port (section B3.4). */
  method WriteSetPort(words: array<bv32>, i: int, value: bv32)
    requires 0 <= i < words.Length
    modifies words
    ensures words[..] == old(words[..])[i := old(words[i]) | value]
  {
    words[i] := words[i] | value;
  }

  method WriteClearPort(words: array<bv32>, i: int, value: bv32)
    requires 0 <= i < words.Length
    modifies words
    ensures words[..] == old(words[..])[i := old(words[i]) & !value]
  {
    words[i] := words[i] & !value;
  }

  lemma ZeroBank(words: seq<bv32>)
    requires forall i :: 0 <= i < |words| ==> words[i] == 0
    ensures BitsOf(words) == {}
  {
    forall k ensures !TestBit(0, k) {}
  }

  /** What NVIC_GetPriority returns. */
  function PriorityOf(bits: bv32, r: Registers, irq: int): bv32
    requires 1 <= bits <= 8
    requires r.Shaped() && -12 <= irq < IRQ_COUNT
  {
    LoadedPriority(bits, if irq < 0 then r.shp[HandlerSlot(irq)] else r.ip[irq])
  }
}
