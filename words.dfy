/** Fixed-width values shared by every part of the machine.  C++ `uint16_t`
    and `uint8_t` become integer subset types; wrap-around is written out
    with `%` wherever the source relies on it. */
module Words {

  const WORD_MOD: int := 0x1_0000

  /** An unsigned 16-bit value (`uint16_t`). */
  type Word = x: int | 0 <= x < 0x1_0000

  /** An unsigned 8-bit value (`uint8_t`). */
  type Byte = x: int | 0 <= x < 0x100

  /** A general-purpose register index (three instruction bits). */
  type RegIndex = x: int | 0 <= x < 8

  /** Truncation of an arbitrary integer to `uint16_t`. */
  function Wrap16(x: int): (r: Word)
    ensures (r - x) % WORD_MOD == 0
  {
    x % WORD_MOD
  }

  /** Bitwise `&` of two 16-bit values. */
  function And16(a: Word, b: Word): Word {
    ((a as bv16) & (b as bv16)) as int
  }

  /** Bitwise `|` of two 16-bit values. */
  function Or16(a: Word, b: Word): Word {
    ((a as bv16) | (b as bv16)) as int
  }

  /** Bitwise `^` of two 16-bit values. */
  function Xor16(a: Word, b: Word): Word {
    ((a as bv16) ^ (b as bv16)) as int
  }

  /** `~a` truncated to 16 bits: every bit of `a` flipped. */
  function Not16(a: Word): Word {
    0xFFFF - a
  }

  /** Bit 15, the sign bit of a 16-bit value (`x & 0x8000`). */
  predicate Msb(x: Word) {
    x >= 0x8000
  }

  /** A boolean as the 0/1 integer C++ converts it to. */
  function B2I(b: bool): nat {
    if b then 1 else 0
  }
}
