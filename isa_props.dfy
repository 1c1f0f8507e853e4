/** What a compare followed by a conditional jump decides: the ALU's
    subtraction, the packed flags and the branch multiplexer together. */
module BranchSemantics {
  import opened Words
  import opened Alu
  import opened ControlUnit
  import opened Registers

  /** The flag register after `CMP a, b` (selector 10 with the ALU enabled,
      the flags written from its outputs). */
  function FlagsAfterCompare(a: Word, b: Word): Nibble {
    var r := GetAluData(a, b, OP_SUB_ALIAS, true);
    PackFlags(r.zero, r.negative, r.carry, r.overflow)
  }

  /** The unsigned jumps after a compare: JE, JNE, JB, JBE, JA and JAE
      (sub-opcodes 1-6) are taken exactly for `==`, `!=`, `<`, `<=`, `>`
      and `>=`. */
  lemma UnsignedJumpsAfterCompare(a: Word, b: Word)
    ensures var f := FlagsAfterCompare(a, b);
            (BranchMux(1, f) <==> a == b) && (BranchMux(2, f) <==> a != b)
            && (BranchMux(3, f) <==> a < b) && (BranchMux(4, f) <==> a <= b)
            && (BranchMux(5, f) <==> a > b) && (BranchMux(6, f) <==> a >= b)
  {
    var r := GetAluData(a, b, OP_SUB_ALIAS, true);
    PackFlagsBits(r.zero, r.negative, r.carry, r.overflow);
  }

  /** The signed jumps: with the overflow flag never set, JL (7) tests only
      the sign bit of the 16-bit difference, and JGE (10) is the same test
      as JL, not its negation. */
  lemma SignedJumpsAfterCompare(a: Word, b: Word)
    ensures var f := FlagsAfterCompare(a, b);
            (BranchMux(7, f) <==> Msb(Difference(a, b)))
            && (BranchMux(10, f) <==> BranchMux(7, f))
            && (BranchMux(8, f) <==> a == b || Msb(Difference(a, b)))
            && (BranchMux(9, f) <==> a != b && !Msb(Difference(a, b)))
  {
    var r := GetAluData(a, b, OP_SUB_ALIAS, true);
    PackFlagsBits(r.zero, r.negative, r.carry, r.overflow);
  }

  /** A word read as a 16-bit two's-complement number. */
  function SignedValue(w: Word): int {
    if Msb(w) then w - WORD_MOD else w
  }

  /** Because JL reads only the sign of the 16-bit difference, it agrees
      with signed less-than exactly when the signed difference fits in
      sixteen bits; for every pair whose difference overflows (0x7FFF
      against 0x8000, say) it gives the opposite answer. */
  lemma SignedLessIgnoresOverflow(a: Word, b: Word)
    ensures var d := SignedValue(a) - SignedValue(b);
            (BranchMux(7, FlagsAfterCompare(a, b)) <==> d < 0) <==> -0x8000 <= d < 0x8000
  {
    SignedJumpsAfterCompare(a, b);
  }
}
