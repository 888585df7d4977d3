// The words written to AIRCR, and what the register keeps of them
// (ARMv7-M Architecture Reference Manual, section B3.2.6: a write without the key 0x05FA is ignored).
module Aircr {
  import opened Priority

  /** The word NVIC_SetPriorityGrouping writes, given what AIRCR read back. */
  function SetGroupingWord(aircr: bv32, group: bv32): bv32 {
    (aircr & !(0xFFFF_0000 | 0x700)) | 0x05FA_0000 | ((group & 7) << 8)
  }

  /** The word NVIC_PriorityGroupConfig writes. */
  function ConfigWord(group: bv32): bv32 {
    0x05FA_0000 | group
  }

  /** The word NVIC_SystemReset writes, given what AIRCR read back. */
  function ResetWord(aircr: bv32): bv32 {
    0x05FA_0000 | (aircr & 0x700) | 0x4
  }

  /** IS_NVIC_PRIORITY_GROUP. */
  predicate IsPriorityGroup(group: bv32) {
    group == 0x700 || group == 0x600 || group == 0x500 || group == 0x400 || group == 0x300
  }

  /** The five groups are all the words with no bits but 10..8 and PRIGROUP at least 3. */
  lemma DocumentedGroups(group: bv32)
    ensures IsPriorityGroup(group) <==> group & 0xFFFF_F8FF == 0 && group >= 0x300
  {
  }

  predicate HasKey(word: bv32) {
    word >> 16 == 0x05FA
  }

  /** What AIRCR reads back after a write: only PRIGROUP is stored, and only under the key. */
  function Stored(aircr: bv32, word: bv32): bv32 {
    if HasKey(word) then (aircr & !0x700) | (word & 0x700) else aircr
  }

  predicate RequestsReset(word: bv32) {
    HasKey(word) && word & 0x4 != 0
  }

  /** A write without the key 0x05FA changes nothing and requests nothing. */
  lemma KeylessWriteIsIgnored(aircr: bv32, word: bv32)
    ensures word >> 16 != 0x05FA ==> Stored(aircr, word) == aircr && !RequestsReset(word)
    ensures word >> 16 == 0x05FA && word & 0x4 != 0 ==> RequestsReset(word)
  {
  }

  /** Whatever AIRCR reads back, the write carries the key, keeps every other bit, and sets the group. */
  lemma SetGroupingWordIsKeyed(aircr: bv32, group: bv32)
    ensures HasKey(SetGroupingWord(aircr, group)) && SetGroupingWord(aircr, group) >> 16 == 0x05FA
    ensures SetGroupingWord(aircr, group) & 0xF8FF == aircr & 0xF8FF
    ensures GroupField(Stored(aircr, SetGroupingWord(aircr, group))) == group & 7
  {
  }

  /** The write passes bit 2 on as it was read, so it requests a reset exactly if that bit was read set. */
  lemma SetGroupingWordReset(aircr: bv32, group: bv32)
    ensures RequestsReset(SetGroupingWord(aircr, group)) <==> aircr & 0x4 != 0
  {
  }

  lemma SetGroupingField(aircr: bv32, group: bv32)
    ensures SetGroupingWord(aircr, group) & 0x700 == (group & 7) << 8
  {
  }

  lemma ConfigWordIsKeyed(aircr: bv32, group: bv32)
    requires IsPriorityGroup(group)
    ensures HasKey(ConfigWord(group)) && ConfigWord(group) >> 16 == 0x05FA && !RequestsReset(ConfigWord(group))
    ensures GroupField(Stored(aircr, ConfigWord(group))) == group >> 8
    ensures 3 <= group >> 8 <= 7
  {
  }

  /** On the five documented groups both configuration functions leave AIRCR the same. */
  lemma ConfigWordAgrees(aircr: bv32, group: bv32)
    requires IsPriorityGroup(group)
    ensures Stored(aircr, ConfigWord(group)) == Stored(aircr, SetGroupingWord(aircr, group >> 8))
  {
    ConfigWordIsKeyed(aircr, group);
    SetGroupingWordIsKeyed(aircr, group >> 8);
    assert SetGroupingWord(aircr, group >> 8) & 0x700 == group == ConfigWord(group) & 0x700 by {
      SetGroupingField(aircr, group >> 8);
    }
    hide SetGroupingWord, ConfigWord;
  }

  /** A reset request carries the key and leaves AIRCR as it was. */
  lemma ResetWordKeepsGroup(aircr: bv32)
    ensures RequestsReset(ResetWord(aircr))
    ensures ResetWord(aircr) >> 16 == 0x05FA && ResetWord(aircr) & 0xFFFF == (aircr & 0x700) | 0x4
    ensures Stored(aircr, ResetWord(aircr)) == aircr
  {
  }
}
