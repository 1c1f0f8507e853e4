/** The arithmetic logic unit: a pure function of two 16-bit operands, an
    8-bit selector and an enable bit (`ALU::GetALU_Data`).  The C++ class has
    no data members, so the model is a function and nothing else. */
module Alu {
  import opened Words

  /** The result record `ALU_Data`. */
  datatype AluData = AluData(result: Word, zero: bool, negative: bool, carry: bool, overflow: bool)

  /** A value-initialised `ALU_Data` (`ALU_Data ret = {}`). */
  const DEFAULT: AluData := AluData(0, false, false, false, false)

  // Selectors named in the switch of `GetALU_Data`.
  const OP_ADD: Byte := 0
  const OP_SUB: Byte := 1
  const OP_MUL: Byte := 2
  const OP_DIV: Byte := 3
  const OP_MOD: Byte := 4
  const OP_AND: Byte := 5
  const OP_OR: Byte := 6
  const OP_NAND: Byte := 7
  const OP_NOR: Byte := 8
  const OP_XOR: Byte := 9
  const OP_SUB_ALIAS: Byte := 10
  const OP_NOT: Byte := 11

  predicate IsSub(op: Byte) {
    op == OP_SUB || op == OP_SUB_ALIAS
  }

  /** The `switch` on the selector: the 16-bit result before the flags.
      The C++ code computes ADD, SUB and MUL in a `uint32_t` and casts to
      `uint16_t`; NAND and NOR use the logical `!`, so they yield 0 or 1. */
  function Compute(a: Word, b: Word, op: Byte): Word {
    if op == OP_ADD then Sum(a, b)
    else if IsSub(op) then Difference(a, b)
    else if op == OP_MUL then Wrap16(a * b)
    else if op == OP_DIV then Quotient(a, b)
    else if op == OP_MOD then Remainder(a, b)
    else if op == OP_AND then And16(a, b)
    else if op == OP_OR then Or16(a, b)
    else if op == OP_NAND then B2I(And16(a, b) == 0)
    else if op == OP_NOR then B2I(Or16(a, b) == 0)
    else if op == OP_XOR then Xor16(a, b)
    else if op == OP_NOT then Not16(a)
    else 0
  }

  /** The sum cast back to sixteen bits. */
  function Sum(a: Word, b: Word): (s: Word)
    ensures s == if a + b > 0xFFFF then a + b - WORD_MOD else a + b
  {
    Wrap16(a + b)
  }

  /** The difference computed in a `uint32_t` and cast to sixteen bits,
      which is the difference modulo 2^16. */
  function Difference(a: Word, b: Word): (d: Word)
    ensures d == if a < b then a - b + WORD_MOD else a - b
  {
    Wrap16(a - b)
  }

  /** Integer division; a zero divisor yields 0. */
  function Quotient(a: Word, b: Word): (q: Word)
    ensures b != 0 ==> q * b <= a < (q + 1) * b
    ensures b == 0 ==> q == 0
  {
    if b != 0 then QuotientBound(a, b); a / b else 0
  }

  /** Integer remainder; a zero divisor yields 0. */
  function Remainder(a: Word, b: Word): (m: Word)
    ensures b != 0 ==> m < b && Quotient(a, b) * b + m == a
    ensures b == 0 ==> m == 0
  {
    if b != 0 then a % b else 0
  }

  lemma QuotientBound(a: Word, b: int)
    requires b > 0
    ensures 0 <= a / b <= a
  {
  }

  /** `uint8_t MSB = x & 0x8000`: the sign bit does not fit in eight bits,
      so the stored value is always 0. */
  function TruncatedMsb(x: Word): (m: Byte)
    ensures m == 0
  {
    (if Msb(x) then 0x8000 else 0) % 0x100
  }

  /** The overflow expressions of the source, evaluated on the truncated
      sign bits (`~` and `^` on the low eight bits, then `& != 0`). */
  predicate OverflowAsWritten(a: Word, b: Word, result: Word, op: Byte) {
    var ma, mb, mr := TruncatedMsb(a) as bv8, TruncatedMsb(b) as bv8, TruncatedMsb(result) as bv8;
    if op == OP_ADD then (!(ma ^ mb)) & (ma ^ mr) != 0
    else if IsSub(op) then (ma ^ mb) & (ma ^ mr) != 0
    else false
  }

  /** `ALU::GetALU_Data(DataRA, DataRB, ALU_OpCode, enable)`. */
  function GetAluData(a: Word, b: Word, op: Byte, enable: bool): (r: AluData)
    // a disabled ALU drives the all-zero record whatever its inputs
    ensures !enable ==> r == DEFAULT
    // flags derived from the result
    ensures enable ==> (r.zero <==> r.result == 0)
    ensures enable ==> (r.negative <==> Msb(r.result))
    // the truncated sign bits make overflow unreachable
    ensures !r.overflow
    // carry only for ADD and SUB
    ensures r.carry ==> enable && (op == OP_ADD || IsSub(op))
    // ADD: 17-bit sum split into result and carry
    ensures enable && op == OP_ADD ==>
              r.result + B2I(r.carry) * WORD_MOD == a + b
    // SUB: borrow is the carry flag
    ensures enable && IsSub(op) ==>
              r.result == a - b + B2I(r.carry) * WORD_MOD && (r.carry <==> a < b)
    // DIV and MOD by zero give 0
    ensures enable && (op == OP_DIV || op == OP_MOD) && b == 0 ==> r.result == 0
    // logical NAND / NOR
    ensures enable && op == OP_NAND ==> (r.result == 1 <==> And16(a, b) == 0) && r.result <= 1
    ensures enable && op == OP_NOR ==> (r.result == 1 <==> Or16(a, b) == 0) && r.result <= 1
    // NOT complements a
    ensures enable && op == OP_NOT ==> r.result + a == 0xFFFF
    // selectors without a case
    ensures enable && op >= 12 ==> r.result == 0 && r.zero && !r.negative && !r.carry
  {
    if !enable then DEFAULT
    else
      var result := Compute(a, b, op);
      var carry := if op == OP_ADD then a + b > 0xFFFF
                   else if IsSub(op) then a < b
                   else false;
      AluData(result, result == 0, Msb(result), carry, OverflowAsWritten(a, b, result, op))
  }

  /** SUB undoes ADD modulo 2^16, whatever the carry. */
  lemma SubUndoesAdd(a: Word, b: Word)
    ensures GetAluData(GetAluData(a, b, OP_ADD, true).result, b, OP_SUB, true).result == a
  {
    var s := GetAluData(a, b, OP_ADD, true);
    if s.carry {
      assert s.result == a + b - WORD_MOD;
    } else {
      assert s.result == a + b;
    }
  }

  /** DIV and MOD satisfy the division identity for a non-zero divisor. */
  lemma DivModIdentity(a: Word, b: Word)
    requires b != 0
    ensures GetAluData(a, b, OP_DIV, true).result * b + GetAluData(a, b, OP_MOD, true).result == a
    ensures GetAluData(a, b, OP_MOD, true).result < b
  {
    assert GetAluData(a, b, OP_DIV, true).result == Quotient(a, b);
    assert GetAluData(a, b, OP_MOD, true).result == Remainder(a, b);
  }

  /** NOT ignores its second operand and is an involution. */
  lemma NotIgnoresB(a: Word, b: Word, b': Word)
    ensures GetAluData(a, b, OP_NOT, true) == GetAluData(a, b', OP_NOT, true)
    ensures GetAluData(GetAluData(a, b, OP_NOT, true).result, b, OP_NOT, true).result == a
  {
  }

  /** The selector alias 10 computes exactly what selector 1 computes. */
  lemma SubAlias(a: Word, b: Word, enable: bool)
    ensures GetAluData(a, b, OP_SUB_ALIAS, enable) == GetAluData(a, b, OP_SUB, enable)
  {
  }
}
