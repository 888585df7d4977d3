// The priority byte: how the CMSIS functions and NVIC_Init build it, and what the hardware reads in it.
module Priority {
  import opened Fields

  /** Width of the preemption field, for `bits` implemented priority bits. */
  function PreemptBits(bits: bv32, group: bv32): (width: bv32)
    ensures bits <= 8 ==> width <= bits
  {
    var g := group & 7;
    if 7 - g > bits then bits else 7 - g
  }

  /** Width of the subpriority field. */
  function SubBits(bits: bv32, group: bv32): (width: bv32)
    ensures bits <= 8 ==> width <= bits
  {
    var g := group & 7;
    if g + bits < 7 then 0 else g - 7 + bits
  }

  /** The two fields tile the implemented bits. */
  lemma FieldsTile(bits: bv32, group: bv32)
    requires 1 <= bits <= 8
    ensures PreemptBits(bits, group) + SubBits(bits, group) == bits
    ensures PreemptBits(bits, group) <= bits && SubBits(bits, group) <= bits
  {
  }

  /** NVIC_EncodePriority. */
  function Encode(bits: bv32, group: bv32, pre: bv32, sub: bv32): bv32
    requires 1 <= bits <= 8
  {
    FieldsTile(bits, group);
    var high, low := PreemptBits(bits, group), SubBits(bits, group);
    Pack(low, LowField(high, pre), LowField(low, sub))
  }

  /** NVIC_DecodePriority: the two values it stores through its pointers. */
  function Decode(bits: bv32, group: bv32, priority: bv32): (bv32, bv32)
    requires 1 <= bits <= 8
  {
    FieldsTile(bits, group);
    var high, low := PreemptBits(bits, group), SubBits(bits, group);
    (HighField(high, low, priority), LowField(low, priority))
  }

  /** The byte NVIC_SetPriority stores. */
  function StoredByte(bits: bv32, priority: bv32): bv8
    requires 1 <= bits <= 8
  {
    Align(bits, priority)
  }

  /** What NVIC_GetPriority makes of a stored byte. */
  function LoadedPriority(bits: bv32, byte: bv8): bv32
    requires 1 <= bits <= 8
  {
    (byte >> (8 - bits)) as bv32
  }

  /** The byte the CMSIS path stores for a preemption priority and a subpriority. */
  function CmsisByte(bits: bv32, group: bv32, pre: bv32, sub: bv32): bv8
    requires 1 <= bits <= 8
  {
    StoredByte(bits, Encode(bits, group, pre, sub))
  }

  /** The CMSIS byte for arguments of NVIC_Init: 4 priority bits. */
  function EncodedByte(group: bv32, p: (bv8, bv8)): bv8 {
    CmsisByte(4, group, p.0 as bv32, p.1 as bv32)
  }

  // ----- Codec -----

  /** Decoding an encoded pair returns both values reduced to their field widths. */
  lemma DecodeEncode(bits: bv32, group: bv32, pre: bv32, sub: bv32)
    requires 1 <= bits <= 8
    ensures Decode(bits, group, Encode(bits, group, pre, sub))
         == (LowField(PreemptBits(bits, group), pre), LowField(SubBits(bits, group), sub))
  {
    var high, low := PreemptBits(bits, group), SubBits(bits, group);
    hide PreemptBits, SubBits, Pack, LowField, HighField;
    LowFieldFits(high, pre);
    LowFieldFits(low, sub);
    HighFieldOfPack(high, low, LowField(high, pre), LowField(low, sub));
    LowFieldOfPack(high, low, LowField(high, pre), LowField(low, sub));
  }

  /** Encoding a decoded value returns it reduced to the implemented bits. */
  lemma EncodeDecode(bits: bv32, group: bv32, priority: bv32)
    requires 1 <= bits <= 8
    ensures var (pre, sub) := Decode(bits, group, priority);
            Encode(bits, group, pre, sub) == LowField(bits, priority)
  {
    FieldsTile(bits, group);
    var high, low := PreemptBits(bits, group), SubBits(bits, group);
    hide PreemptBits, SubBits, Pack;
    LowFieldTwice(low, priority);
    LowFieldOfHighField(high, low, priority);
    hide LowField, HighField;
    PackOfFields(high, low, priority);
  }

  lemma LowFieldTwice(width: bv32, v: bv32)
    requires width <= 8
    ensures LowField(width, LowField(width, v)) == LowField(width, v)
  {
    LowFieldFits(width, v);
    FittingLowField(width, LowField(width, v));
  }

  lemma LowFieldOfHighField(high: bv32, low: bv32, v: bv32)
    requires high <= 8 && low <= 8
    ensures LowField(high, HighField(high, low, v)) == HighField(high, low, v)
  {
    LowFieldTwice(high, v >> low);
  }

  lemma EncodedFits(bits: bv32, group: bv32, pre: bv32, sub: bv32)
    requires 1 <= bits <= 8
    ensures Encode(bits, group, pre, sub) <= (1 << bits) - 1
  {
    FieldsTile(bits, group);
    var high, low := PreemptBits(bits, group), SubBits(bits, group);
    hide PreemptBits, SubBits, Pack;
    LowFieldFits(high, pre);
    LowFieldFits(low, sub);
    hide LowField;
    PackFits(high, low, LowField(high, pre), LowField(low, sub));
  }

  /** The round trip survives storage: encode, store, load, decode. */
  lemma StoredRoundTrip(bits: bv32, group: bv32, pre: bv32, sub: bv32)
    requires 1 <= bits <= 8
    ensures LoadedPriority(bits, CmsisByte(bits, group, pre, sub)) == Encode(bits, group, pre, sub)
  {
    EncodedFits(bits, group, pre, sub);
    hide Encode, Align;
    AlignRoundTrip(bits, Encode(bits, group, pre, sub));
  }

  /** A stored value loads back reduced to the implemented bits. */
  lemma LoadStored(bits: bv32, priority: bv32)
    requires 1 <= bits <= 8
    ensures LoadedPriority(bits, StoredByte(bits, priority)) == priority & ((1 << bits) - 1)
  {
  }

  // ----- NVIC_Init's own computation -----

  /** The PRIGROUP field of AIRCR, which NVIC_GetPriorityGrouping returns. */
  function GroupField(aircr: bv32): bv32 {
    (aircr & 0x700) >> 8
  }

  /** `tmppriority` and `tmppre` as NVIC_Init first computes them from AIRCR, with 8-bit wrap-around. */
  function ShiftCounts(aircr: bv32): (bv8, bv8) {
    var tmppriority := (((0x700 - (aircr & 0x700)) >> 8) & 0xFF) as bv8;
    (tmppriority, 4 - tmppriority)
  }

  /** The byte NVIC_Init leaves in `tmppriority`. In C a shift by 32 or more has no meaning. */
  function InitByte(aircr: bv32, pre: bv8, sub: bv8): bv8
    requires ShiftCounts(aircr).1 <= 4
  {
    var (right, left) := ShiftCounts(aircr);
    ((pre << left) | (sub & ((0x0F as bv8) >> right))) << 4
  }

  /** The shift counts stay in 0..4 exactly for the five documented groups; otherwise the left count wraps past 250. */
  lemma ShiftCountsInRange(aircr: bv32)
    ensures ShiftCounts(aircr).1 <= 4 <==> 3 <= GroupField(aircr)
    ensures ShiftCounts(aircr).1 <= 4 ==> ShiftCounts(aircr).0 + ShiftCounts(aircr).1 == 4
    ensures GroupField(aircr) < 3 ==> ShiftCounts(aircr).1 >= 0xFD
  {
  }

  /** Both implementations store the same byte, for every argument, in or out of range. */
  lemma InitByteIsCmsisByte(aircr: bv32, pre: bv8, sub: bv8)
    requires 3 <= GroupField(aircr)
    ensures ShiftCounts(aircr).1 <= 4
    ensures InitByte(aircr, pre, sub) == CmsisByte(4, GroupField(aircr), pre as bv32, sub as bv32)
  {
  }

  lemma InitByteIsEncoded(aircr: bv32, pre: bv8, sub: bv8)
    requires 3 <= GroupField(aircr)
    ensures ShiftCounts(aircr).1 <= 4
    ensures InitByte(aircr, pre, sub) == EncodedByte(GroupField(aircr), (pre, sub))
  {
    InitByteIsCmsisByte(aircr, pre, sub);
    hide CmsisByte, InitByte, ShiftCounts, GroupField;
  }

  // ----- What the hardware reads (ARMv7-M Architecture Reference Manual, section B1.5.4) -----

  /** Number of byte bits below the group priority: PRIGROUP + 1. */
  function GroupShift(group: bv32): (k: bv32)
    ensures 1 <= k <= 8
  {
    (group & 7) + 1
  }

  /** Number of byte bits below the preemption field: the group priority without unimplemented bits. */
  function LevelShift(bits: bv32, group: bv32): (k: bv32)
    requires 1 <= bits <= 8
    ensures 1 <= k <= 8
  {
    8 - PreemptBits(bits, group)
  }

  /** Group priority for k = GroupShift, level for k = LevelShift. Lower values preempt higher ones. */
  function TopBits(k: bv32, byte: bv8): bv8
    requires k <= 8
  {
    byte >> k
  }

  /** Subpriority for k = GroupShift: bits PRIGROUP..0. */
  function RestBits(k: bv32, byte: bv8): bv8
    requires k <= 8
  {
    byte & ((1 << k) - 1)
  }

  /** Only implemented bits of the byte are set. */
  predicate Implemented(bits: bv32, byte: bv8)
    requires 1 <= bits <= 8
  {
    byte & ((1 << (8 - bits)) - 1) == 0
  }

  lemma StoredIsImplemented(bits: bv32, priority: bv32)
    requires 1 <= bits <= 8
    ensures Implemented(bits, StoredByte(bits, priority))
  {
  }

  lemma ZeroBitsNarrow(k: bv32, byte: bv8)
    requires k <= 4
    requires byte & 0x0F == 0
    ensures byte & ((1 << k) - 1) == 0
  {
    if k == 0 {} else if k == 1 {} else if k == 2 {} else if k == 3 {}
  }

  /** A byte with only its upper half set suits every controller with at least 4 priority bits. */
  lemma ImplementedWidens(bits: bv32, byte: bv8)
    requires 4 <= bits <= 8 && Implemented(4, byte)
    ensures Implemented(bits, byte)
  {
    assert byte & 0x0F == 0;
    ZeroBitsNarrow(8 - bits, byte);
  }

  lemma TopBitsBound(width: bv32, byte: bv8)
    requires width <= 7
    ensures TopBits(8 - width, byte) < 1 << width
  {
    if width == 0 {} else if width == 1 {} else if width == 2 {} else if width == 3 {}
    else if width == 4 {} else if width == 5 {} else if width == 6 {}
  }

  /** The group priority has more bits than the level only when they are unimplemented ones. */
  lemma LevelShiftIsGroupShift(bits: bv32, group: bv32)
    requires 1 <= bits <= 8
    ensures GroupShift(group) <= LevelShift(bits, group) <= 8
    ensures GroupShift(group) == LevelShift(bits, group) || LevelShift(bits, group) == 8 - bits
  {
  }

  lemma UnimplementedDoNotDecide(bits: bv32, k: bv32, l: bv32, a: bv8, b: bv8)
    requires 1 <= bits <= 8
    requires k <= l <= 8 && (k == l || l == 8 - bits)
    requires Implemented(bits, a) && Implemented(bits, b)
    ensures TopBits(k, a) < TopBits(k, b) <==> TopBits(l, a) < TopBits(l, b)
  {
    if k != l {
      ZeroBitsDoNotDecide(k, l, a, b);
    }
  }

  /** The hardware's preemption rule, which compares group priorities, compares levels. */
  lemma GroupPriorityIsLevel(bits: bv32, group: bv32, k: bv32, l: bv32, a: bv8, b: bv8)
    requires 1 <= bits <= 8
    requires Implemented(bits, a) && Implemented(bits, b)
    requires k == GroupShift(group) && l == LevelShift(bits, group)
    ensures TopBits(k, a) < TopBits(k, b) <==> TopBits(l, a) < TopBits(l, b)
  {
    LevelShiftIsGroupShift(bits, group);
    UnimplementedDoNotDecide(bits, k, l, a, b);
  }

  lemma TopBitsOrder(k: bv32, a: bv8, b: bv8)
    requires k <= 8
    requires TopBits(k, a) < TopBits(k, b)
    ensures a < b
  {
    TopBitsDecide(k, a, b);
  }

  lemma RestBitsOrder(k: bv32, a: bv8, b: bv8)
    requires k <= 8
    requires TopBits(k, a) == TopBits(k, b)
    ensures a < b <==> RestBits(k, a) < RestBits(k, b)
  {
    RestDecides(k, a, b);
  }

  lemma ByteAsInt(a: bv8, b: bv8)
    ensures a < b <==> a as int < b as int
  {
  }

  lemma EqualBytes(a: bv8, b: bv8)
    requires a as int == b as int
    ensures a == b
  {
  }

  /** Comparing bytes is comparing group priorities, then subpriorities. */
  lemma ByteOrderIsLexicographic(k: bv32, a: bv8, b: bv8)
    requires k <= 8
    ensures a as int < b as int <==>
            (TopBits(k, a) as int < TopBits(k, b) as int
             || (TopBits(k, a) as int == TopBits(k, b) as int && RestBits(k, a) as int < RestBits(k, b) as int))
  {
    hide TopBits, RestBits;
    ByteAsInt(a, b);
    ByteAsInt(b, a);
    ByteAsInt(TopBits(k, a), TopBits(k, b));
    ByteAsInt(TopBits(k, b), TopBits(k, a));
    ByteAsInt(RestBits(k, a), RestBits(k, b));
    if TopBits(k, a) < TopBits(k, b) {
      TopBitsOrder(k, a, b);
    } else if TopBits(k, b) < TopBits(k, a) {
      TopBitsOrder(k, b, a);
    } else {
      EqualBytes(TopBits(k, a), TopBits(k, b));
      RestBitsOrder(k, a, b);
    }
  }

  /** The level the hardware sees is the preemption priority that was encoded. */
  lemma LevelOfCmsisByte(bits: bv32, group: bv32, pre: bv32, sub: bv32)
    requires 1 <= bits <= 8
    ensures TopBits(LevelShift(bits, group), CmsisByte(bits, group, pre, sub)) as bv32
         == LowField(PreemptBits(bits, group), pre)
  {
    FieldsTile(bits, group);
    var high, low := PreemptBits(bits, group), SubBits(bits, group);
    EncodedFits(bits, group, pre, sub);
    hide PreemptBits, SubBits, Pack, Align;
    LowFieldFits(high, pre);
    LowFieldFits(low, sub);
    hide LowField;
    HighOfPack(high, low, LowField(high, pre), LowField(low, sub));
    AlignedTopBits(bits, low, Encode(bits, group, pre, sub));
  }

  /** A value within its documented range of 0 to 2^width - 1. */
  predicate InRange(width: bv32, v: bv32)
    requires width <= 8
  {
    v <= (1 << width) - 1
  }

  /** Both values within the ranges the grouping gives them. */
  predicate InRanges(bits: bv32, group: bv32, p: (bv32, bv32))
    requires 1 <= bits <= 8
  {
    InRange(PreemptBits(bits, group), p.0) && InRange(SubBits(bits, group), p.1)
  }

  /** In range are exactly the values that the reduction to the field leaves as they are. */
  lemma InRangeIsUnreduced(width: bv32, v: bv32)
    requires width <= 8
    ensures InRange(width, v) <==> LowField(width, v) == v
  {
    LowFieldFits(width, v);
    if InRange(width, v) {
      FittingLowField(width, v);
    }
    hide LowField;
  }

  lemma EncodeInRange(bits: bv32, group: bv32, pre: bv32, sub: bv32)
    requires 1 <= bits <= 8
    requires InRanges(bits, group, (pre, sub))
    ensures Encode(bits, group, pre, sub) == Pack(SubBits(bits, group), pre, sub)
  {
    var high, low := PreemptBits(bits, group), SubBits(bits, group);
    FittingLowField(high, pre);
    FittingLowField(low, sub);
    hide PreemptBits, SubBits, Pack, LowField, InRange;
  }

  lemma PackOrderInRange(high: bv32, low: bv32, h: bv32, l: bv32, h': bv32, l': bv32)
    requires high <= 8 && low <= 8
    requires InRange(high, h) && InRange(high, h') && InRange(low, l) && InRange(low, l')
    ensures Pack(low, h, l) < Pack(low, h', l') <==> (h < h' || (h == h' && l < l'))
  {
    hide Pack;
    PackOrder(high, low, h, l, h', l');
  }

  lemma EncodeOrder(bits: bv32, group: bv32, pre: bv32, sub: bv32, pre': bv32, sub': bv32)
    requires 1 <= bits <= 8
    requires InRanges(bits, group, (pre, sub)) && InRanges(bits, group, (pre', sub'))
    ensures Encode(bits, group, pre, sub) < Encode(bits, group, pre', sub')
            <==> (pre < pre' || (pre == pre' && sub < sub'))
  {
    hide PreemptBits, SubBits, InRange, Pack, Encode;
    EncodeInRange(bits, group, pre, sub);
    EncodeInRange(bits, group, pre', sub');
    PackOrderInRange(PreemptBits(bits, group), SubBits(bits, group), pre, sub, pre', sub');
  }

  /** Comparing stored bytes is comparing the encoded pairs lexicographically. */
  lemma OrderPreserved(bits: bv32, group: bv32, pre: bv32, sub: bv32, pre': bv32, sub': bv32)
    requires 1 <= bits <= 8
    requires InRange(PreemptBits(bits, group), pre) && InRange(SubBits(bits, group), sub)
    requires InRange(PreemptBits(bits, group), pre') && InRange(SubBits(bits, group), sub')
    ensures CmsisByte(bits, group, pre, sub) < CmsisByte(bits, group, pre', sub')
            <==> (pre < pre' || (pre == pre' && sub < sub'))
  {
    hide InRange, Encode, Align;
    assert InRanges(bits, group, (pre, sub)) && InRanges(bits, group, (pre', sub'));
    hide InRanges, PreemptBits, SubBits;
    EncodeOrder(bits, group, pre, sub, pre', sub');
    EncodedFits(bits, group, pre, sub);
    EncodedFits(bits, group, pre', sub');
    AlignKeepsOrder(bits, Encode(bits, group, pre, sub), Encode(bits, group, pre', sub'));
  }

  // ----- NVIC_Init's bytes under the documented groups -----

  /** The byte NVIC_Init computes when its left shift count is `left`. */
  function ShiftedByte(left: bv8, pre: bv8, sub: bv8): bv8
    requires left <= 4
  {
    ((pre << left) | (sub & ((0x0F as bv8) >> (4 - left)))) << 4
  }

  /** An 8-bit argument reduced to a field's width. */
  function Reduced(width: bv8, v: bv8): bv8
    requires width <= 8
  {
    v & ((1 << width) - 1)
  }

  /** The left shift count under group 3..7, which is the width of the subpriority field. */
  function LeftShift(group: bv32): (left: bv8)
    requires 3 <= group <= 7
    ensures left <= 4
  {
    (group - 3) as bv8
  }

  lemma CmsisByteIsShifted(group: bv32, pre: bv8, sub: bv8)
    requires 3 <= group <= 7
    ensures CmsisByte(4, group, pre as bv32, sub as bv32) == ShiftedByte(LeftShift(group), pre, sub)
  {
  }

  lemma ShiftedByteByPreemption(left: bv8, pre: bv8, sub: bv8, pre': bv8, sub': bv8)
    requires left <= 4
    requires Reduced(4 - left, pre) < Reduced(4 - left, pre')
    ensures ShiftedByte(left, pre, sub) < ShiftedByte(left, pre', sub')
  {
  }

  lemma ShiftedByteBySubpriority(left: bv8, pre: bv8, sub: bv8, pre': bv8, sub': bv8)
    requires left <= 4
    requires Reduced(4 - left, pre) == Reduced(4 - left, pre')
    ensures ShiftedByte(left, pre, sub) < ShiftedByte(left, pre', sub') <==> Reduced(left, sub) < Reduced(left, sub')
  {
  }

  /** The preemption priority and the subpriority that arguments of NVIC_Init stand for: each reduced
      to its field, the subpriority field having `left` bits. */
  function PreOf(left: bv8, p: (bv8, bv8)): int
    requires left <= 4
  {
    Reduced(4 - left, p.0) as int
  }

  function SubArgOf(left: bv8, p: (bv8, bv8)): int
    requires left <= 4
  {
    Reduced(left, p.1) as int
  }

  function ByteOf(left: bv8, p: (bv8, bv8)): int
    requires left <= 4
  {
    ShiftedByte(left, p.0, p.1) as int
  }

  lemma InitOrderByPreemption(left: bv8, p: (bv8, bv8), q: (bv8, bv8))
    requires left <= 4
    requires PreOf(left, p) < PreOf(left, q)
    ensures ByteOf(left, p) < ByteOf(left, q)
  {
    hide ShiftedByte, Reduced;
    ByteAsInt(Reduced(4 - left, p.0), Reduced(4 - left, q.0));
    ShiftedByteByPreemption(left, p.0, p.1, q.0, q.1);
    ByteAsInt(ShiftedByte(left, p.0, p.1), ShiftedByte(left, q.0, q.1));
  }

  lemma InitOrderBySubpriority(left: bv8, p: (bv8, bv8), q: (bv8, bv8))
    requires left <= 4
    requires PreOf(left, p) == PreOf(left, q)
    ensures ByteOf(left, p) < ByteOf(left, q) <==> SubArgOf(left, p) < SubArgOf(left, q)
  {
    hide ShiftedByte, Reduced;
    EqualBytes(Reduced(4 - left, p.0), Reduced(4 - left, q.0));
    ShiftedByteBySubpriority(left, p.0, p.1, q.0, q.1);
    ByteAsInt(Reduced(left, p.1), Reduced(left, q.1));
    ByteAsInt(ShiftedByte(left, p.0, p.1), ShiftedByte(left, q.0, q.1));
  }

  /** Bytes stored by NVIC_Init compare as the documented pairs do: preemption priority first, then subpriority. */
  lemma InitOrder(left: bv8, p: (bv8, bv8), q: (bv8, bv8))
    requires left <= 4
    ensures ByteOf(left, p) < ByteOf(left, q) <==>
            (PreOf(left, p) < PreOf(left, q)
             || (PreOf(left, p) == PreOf(left, q) && SubArgOf(left, p) < SubArgOf(left, q)))
  {
    hide ByteOf, PreOf, SubArgOf;
    if PreOf(left, p) < PreOf(left, q) {
      InitOrderByPreemption(left, p, q);
    } else if PreOf(left, q) < PreOf(left, p) {
      InitOrderByPreemption(left, q, p);
    } else {
      InitOrderBySubpriority(left, p, q);
    }
  }

  /** Under groups 3..7 the group priority of the byte NVIC_Init stores is its preemption priority. */
  lemma InitGroupPriority(group: bv32, left: bv8, pre: bv8, sub: bv8)
    requires 3 <= group <= 7 && left == LeftShift(group)
    ensures TopBits(GroupShift(group), ShiftedByte(left, pre, sub)) == Reduced(4 - left, pre)
  {
    if group == 3 {} else if group == 4 {} else if group == 5 {} else if group == 6 {}
  }

  /** ... and its subpriority is the subpriority, above the four unimplemented bits. */
  lemma InitSubpriority(group: bv32, left: bv8, pre: bv8, sub: bv8)
    requires 3 <= group <= 7 && left == LeftShift(group)
    ensures RestBits(GroupShift(group), ShiftedByte(left, pre, sub)) as int == Reduced(left, sub) as int * 16
  {
    TimesSixteen(Reduced(left, sub));
    if group == 3 {} else if group == 4 {} else if group == 5 {} else if group == 6 {}
  }

  lemma TimesSixteen(v: bv8)
    requires v <= 0xF
    ensures (v << 4) as int == v as int * 16
  {
  }

  /** Arguments in the documented range are not reduced. */
  lemma InRangeIsNotReduced(width: bv8, v: bv8)
    requires width <= 4 && v <= (1 << width) - 1
    ensures Reduced(width, v) == v
  {
  }
}
