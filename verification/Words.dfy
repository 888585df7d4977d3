// Single-bit masks of 32-bit registers, and bitmaps kept in a bank of such registers.
module Words {

  /** Position of an interrupt's bit in its register, `irq & 0x1F`. */
  function Bit(irq: int): bv5 {
    (irq % 32) as bv5
  }

  /** The word `1 << k`. */
  function Mask(k: bv5): bv32 {
    1 << k
  }

  predicate TestBit(w: bv32, k: bv5) {
    (w >> k) & 1 == 1
  }

  /** The numbers whose bit is set in a bank of registers, 32 to a register. */
  function BitsOf(words: seq<bv32>): set<int> {
    set i | 0 <= i < 32 * |words| && TestBit(words[i / 32], Bit(i))
  }

  lemma BitRoundTrip(k: int)
    requires 0 <= k < 32
    ensures Bit(k) as int == k
  {
  }

  lemma DistinctBits(k: int, j: int)
    ensures Bit(k) == Bit(j) <==> k % 32 == j % 32
  {
    BitRoundTrip(k % 32);
    BitRoundTrip(j % 32);
  }

  /** Reading through a mask, as the getters do, is testing the bit. */
  lemma MaskedRead(w: bv32, k: bv5)
    ensures w & Mask(k) != 0 <==> TestBit(w, k)
  {
  }

  lemma SetPortBit(w: bv32, k: bv5, j: bv5)
    ensures TestBit(w | Mask(k), j) <==> TestBit(w, j) || j == k
  {
  }

  lemma ClearPortBit(w: bv32, k: bv5, j: bv5)
    ensures TestBit(w & !Mask(k), j) <==> TestBit(w, j) && j != k
  {
  }

  /** In a bank of registers, writing a one-bit mask to a set-port inserts exactly one number. */
  lemma SetPort(words: seq<bv32>, irq: int)
    requires 0 <= irq < 32 * |words|
    ensures BitsOf(words[irq / 32 := words[irq / 32] | Mask(Bit(irq))]) == BitsOf(words) + {irq}
  {
    hide TestBit, Bit, Mask;
    var word := words[irq / 32] | Mask(Bit(irq));
    forall i | 0 <= i < 32 * |words|
      ensures TestBit(words[irq / 32 := word][i / 32], Bit(i)) <==> TestBit(words[i / 32], Bit(i)) || i == irq
    {
      if i / 32 == irq / 32 {
        DistinctBits(i, irq);
        SetPortBit(words[irq / 32], Bit(irq), Bit(i));
      }
    }
  }

  /** Writing a one-bit mask to a clear-port removes exactly one number. */
  lemma ClearPort(words: seq<bv32>, irq: int)
    requires 0 <= irq < 32 * |words|
    ensures BitsOf(words[irq / 32 := words[irq / 32] & !Mask(Bit(irq))]) == BitsOf(words) - {irq}
  {
    hide TestBit, Bit, Mask;
    var word := words[irq / 32] & !Mask(Bit(irq));
    forall i | 0 <= i < 32 * |words|
      ensures TestBit(words[irq / 32 := word][i / 32], Bit(i)) <==> TestBit(words[i / 32], Bit(i)) && i != irq
    {
      if i / 32 == irq / 32 {
        DistinctBits(i, irq);
        ClearPortBit(words[irq / 32], Bit(irq), Bit(i));
      }
    }
  }

  /** The masked read of a bank's register is membership in its set. */
  lemma BankRead(words: seq<bv32>, irq: int)
    requires 0 <= irq < 32 * |words|
    ensures words[irq / 32] & Mask(Bit(irq)) != 0 <==> irq in BitsOf(words)
  {
    hide Mask, Bit, TestBit;
    MaskedRead(words[irq / 32], Bit(irq));
  }
}
