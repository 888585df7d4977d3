// Two adjacent bit fields in a word, and a small value shifted to the top of a byte.
// Where a comparison depends on a shift count, the proofs fix the count first.
module Fields {

  /** The low `width` bits of a value. */
  function LowField(width: bv32, v: bv32): bv32
    requires width <= 8
  {
    v & ((1 << width) - 1)
  }

  /** The `high` bits above the `low` lowest ones. */
  function HighField(high: bv32, low: bv32, v: bv32): bv32
    requires high <= 8 && low <= 8
  {
    LowField(high, v >> low)
  }

  /** Two adjacent fields, `h` above the `low` bits of `l`. */
  function Pack(low: bv32, h: bv32, l: bv32): bv32
    requires low <= 8
  {
    (h << low) | l
  }

  /** A value of `width` bits, shifted to the top of a byte. */
  function Align(width: bv32, v: bv32): bv8
    requires 1 <= width <= 8
  {
    ((v << (8 - width)) & 0xFF) as bv8
  }

  // ----- Facts about fields -----

  lemma LowFieldFits(width: bv32, v: bv32)
    requires width <= 8
    ensures LowField(width, v) <= (1 << width) - 1
  {
  }

  lemma FittingLowField(width: bv32, v: bv32)
    requires width <= 8
    requires v <= (1 << width) - 1
    ensures LowField(width, v) == v
  {
  }

  lemma HighOfPack(high: bv32, low: bv32, h: bv32, l: bv32)
    requires high <= 8 && low <= 8
    requires h <= (1 << high) - 1 && l <= (1 << low) - 1
    ensures Pack(low, h, l) >> low == h
  {
    if low == 0 {} else if low == 1 {} else if low == 2 {} else if low == 3 {}
    else if low == 4 {} else if low == 5 {} else if low == 6 {} else if low == 7 {}
  }

  lemma HighFieldOfPack(high: bv32, low: bv32, h: bv32, l: bv32)
    requires high <= 8 && low <= 8
    requires h <= (1 << high) - 1 && l <= (1 << low) - 1
    ensures HighField(high, low, Pack(low, h, l)) == h
  {
    HighOfPack(high, low, h, l);
    FittingLowField(high, h);
    hide Pack, LowField;
  }

  lemma LowFieldOfPack(high: bv32, low: bv32, h: bv32, l: bv32)
    requires high <= 8 && low <= 8
    requires h <= (1 << high) - 1 && l <= (1 << low) - 1
    ensures LowField(low, Pack(low, h, l)) == l
  {
  }

  lemma PackFits(high: bv32, low: bv32, h: bv32, l: bv32)
    requires high <= 8 && low <= 8 && high + low <= 8
    requires h <= (1 << high) - 1 && l <= (1 << low) - 1
    ensures Pack(low, h, l) <= (1 << (high + low)) - 1
  {
  }

  /** Packing the two fields of a value gives its low bits back. */
  lemma PackOfFields(high: bv32, low: bv32, v: bv32)
    requires high <= 8 && low <= 8 && high + low <= 8
    ensures Pack(low, HighField(high, low, v), LowField(low, v)) == LowField(high + low, v)
  {
    if low == 0 {} else if low == 1 {} else if low == 2 {} else if low == 3 {}
    else if low == 4 {} else if low == 5 {} else if low == 6 {} else if low == 7 {}
  }

  lemma HighFieldDecides(high: bv32, low: bv32, h: bv32, l: bv32, h': bv32, l': bv32)
    requires high <= 8 && low <= 8
    requires h < h' && h' <= (1 << high) - 1 && l <= (1 << low) - 1
    ensures Pack(low, h, l) < Pack(low, h', l')
  {
    if low == 0 {} else if low == 1 {} else if low == 2 {} else if low == 3 {}
    else if low == 4 {} else if low == 5 {} else if low == 6 {} else if low == 7 {}
  }

  lemma LowFieldDecides(high: bv32, low: bv32, h: bv32, l: bv32, l': bv32)
    requires high <= 8 && low <= 8
    requires l < l' && h <= (1 << high) - 1 && l' <= (1 << low) - 1
    ensures Pack(low, h, l) < Pack(low, h, l')
  {
    if low == 0 {} else if low == 1 {} else if low == 2 {} else if low == 3 {}
    else if low == 4 {} else if low == 5 {} else if low == 6 {} else if low == 7 {}
  }

  lemma AlignRoundTrip(width: bv32, v: bv32)
    requires 1 <= width <= 8
    requires v <= (1 << width) - 1
    ensures (Align(width, v) >> (8 - width)) as bv32 == v
  {
  }

  lemma AlignedTopBits(width: bv32, low: bv32, v: bv32)
    requires 1 <= width <= 8 && low <= width
    requires v <= (1 << width) - 1
    ensures (Align(width, v) >> (8 - width + low)) as bv32 == v >> low
  {
  }

  lemma AlignKeepsOrder(width: bv32, v: bv32, v': bv32)
    requires 1 <= width <= 8
    requires v <= (1 << width) - 1 && v' <= (1 << width) - 1
    ensures Align(width, v) < Align(width, v') <==> v < v'
  {
    if width == 1 {} else if width == 2 {} else if width == 3 {} else if width == 4 {}
    else if width == 5 {} else if width == 6 {} else if width == 7 {}
  }

  /** Bits that are zero in both bytes do not affect a comparison of their top bits. */
  lemma ZeroBitsDoNotDecide(k: bv32, zeros: bv32, a: bv8, b: bv8)
    requires k <= zeros <= 8
    requires a & ((1 << zeros) - 1) == 0 && b & ((1 << zeros) - 1) == 0
    ensures (a >> k) < (b >> k) <==> (a >> zeros) < (b >> zeros)
  {
    if k == 0 {} else if k == 1 {} else if k == 2 {} else if k == 3 {}
    else if k == 4 {} else if k == 5 {} else if k == 6 {} else if k == 7 {}
  }

  lemma TopBitsDecide(k: bv32, a: bv8, b: bv8)
    requires k <= 8
    requires (a >> k) < (b >> k)
    ensures a < b
  {
    if k == 0 {} else if k == 1 {} else if k == 2 {} else if k == 3 {}
    else if k == 4 {} else if k == 5 {} else if k == 6 {} else if k == 7 {}
  }

  lemma RestDecides(k: bv32, a: bv8, b: bv8)
    requires k <= 8
    requires (a >> k) == (b >> k)
    ensures a < b <==> (a & ((1 << k) - 1)) < (b & ((1 << k) - 1))
  {
    if k == 0 {} else if k == 1 {} else if k == 2 {} else if k == 3 {}
    else if k == 4 {} else if k == 5 {} else if k == 6 {} else if k == 7 {}
  }

  lemma FieldTrichotomy(width: bv32, v: bv32, w: bv32)
    requires width <= 8
    requires v <= (1 << width) - 1 && w <= (1 << width) - 1
    ensures v < w || v == w || w < v
  {
    assert v <= 0xFF && w <= 0xFF;
  }

  /** Packed values compare as their pairs of fields do. */
  lemma PackOrder(high: bv32, low: bv32, h: bv32, l: bv32, h': bv32, l': bv32)
    requires high <= 8 && low <= 8
    requires h <= (1 << high) - 1 && h' <= (1 << high) - 1
    requires l <= (1 << low) - 1 && l' <= (1 << low) - 1
    ensures Pack(low, h, l) < Pack(low, h', l') <==> (h < h' || (h == h' && l < l'))
  {
    hide Pack;
    FieldTrichotomy(high, h, h');
    FieldTrichotomy(low, l, l');
    if h < h' {
      HighFieldDecides(high, low, h, l, h', l');
    } else if h' < h {
      HighFieldDecides(high, low, h', l', h, l);
    } else if l < l' {
      LowFieldDecides(high, low, h, l, l');
    } else if l' < l {
      LowFieldDecides(high, low, h, l', l);
    }
  }
}
