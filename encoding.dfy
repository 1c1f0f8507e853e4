/** What the linker's instruction words mean to the machine: the bit
    strings `LineToBinary` builds, read as numbers, are decoded by the
    control unit (`ControlUnit::GetCU_Data`) into the opcode, sub-opcode and
    register fields the assembler meant. */
module Encoding {
  import opened Words
  import opened Text
  import opened Assembler
  import ControlUnit

  /** A 16-bit string read as a number is a machine word whose five decoder
      fields are the values of its five bit groups (3, 4, 3, 3 and 3 bits). */
  lemma WordFields(w: string)
    requires IsBitField(w, 16)
    ensures BinaryValue(w) < 0x1_0000
    ensures var v := BinaryValue(w);
            ControlUnit.Opcode(v) == BinaryValue(w[..3])
            && ControlUnit.SubOpcode(v) == BinaryValue(w[3..7])
            && ControlUnit.DstField(v) == BinaryValue(w[7..10])
            && ControlUnit.SrcAField(v) == BinaryValue(w[10..13])
            && ControlUnit.SrcBField(v) == BinaryValue(w[13..])
  {
    var a, b, c, d, e := w[..3], w[3..7], w[7..10], w[10..13], w[13..];
    GroupValues(a, b, c, d, e);
    assert w == a + b + c + d + e;
    ControlUnit.EncodeDecode(BinaryValue(a), BinaryValue(b), BinaryValue(c), BinaryValue(d), BinaryValue(e));
  }

  /** The value of five concatenated bit groups, weighted by their places. */
  lemma GroupValues(a: string, b: string, c: string, d: string, e: string)
    requires IsBitField(a, 3) && IsBitField(b, 4) && IsBitField(c, 3) && IsBitField(d, 3) && IsBitField(e, 3)
    ensures BinaryValue(a) < 8 && BinaryValue(b) < 16 && BinaryValue(c) < 8 && BinaryValue(d) < 8 && BinaryValue(e) < 8
    ensures BinaryValue(a + b + c + d + e)
            == BinaryValue(a) * 0x2000 + BinaryValue(b) * 0x200 + BinaryValue(c) * 64 + BinaryValue(d) * 8 + BinaryValue(e)
  {
    WordPowers();
    BinaryBelow(a);
    BinaryBelow(b);
    BinaryBelow(c);
    BinaryBelow(d);
    BinaryBelow(e);
    var A, B, C, D, E := BinaryValue(a), BinaryValue(b), BinaryValue(c), BinaryValue(d), BinaryValue(e);
    BinaryValueConcat(a, b);
    assert BinaryValue(a + b) == A * 16 + B;
    BinaryValueConcat(a + b, c);
    assert BinaryValue(a + b + c) == A * 128 + B * 8 + C;
    BinaryValueConcat(a + b + c, d);
    assert BinaryValue(a + b + c + d) == A * 1024 + B * 64 + C * 8 + D;
    BinaryValueConcat(a + b + c + d, e);
  }

  /** An opcode and three register fields, as the decoder reads them. */
  lemma FieldsOfGroups(op: string, f1: string, f2: string, f3: string)
    requires IsBitField(op, 7) && IsBitField(f1, 3) && IsBitField(f2, 3) && IsBitField(f3, 3)
    ensures BinaryValue(op + f1 + f2 + f3) < 0x1_0000
    ensures var v := BinaryValue(op + f1 + f2 + f3);
            ControlUnit.Opcode(v) == BinaryValue(op[..3])
            && ControlUnit.SubOpcode(v) == BinaryValue(op[3..])
            && ControlUnit.DstField(v) == BinaryValue(f1)
            && ControlUnit.SrcAField(v) == BinaryValue(f2)
            && ControlUnit.SrcBField(v) == BinaryValue(f3)
  {
    var w := op + f1 + f2 + f3;
    WordFields(w);
    assert w[..3] == op[..3] && w[3..7] == op[3..] && w[7..10] == f1 && w[10..13] == f2 && w[13..] == f3;
  }

  /** `"000"` is the value 0. */
  lemma ZeroField()
    ensures BinaryValue("000") == 0
  {
    ThreeBits("000");
  }

  /** The decoder reads the register operands of a line where the
      assembler placed them: three registers go to destination, source A
      and source B in order; two go to destination and source A, except
      for CMP and STORER, which use source A and source B; a single
      register is the destination for an instruction with an immediate
      (source A for STORE) and source A for one without (destination for
      POP).  Unused fields are zero, and the opcode and sub-opcode are the
      mnemonic's. */
  lemma {:induction false} FirstWordFields(op: string, regs: seq<string>, hasImm: bool)
    requires |op| == 7 && IsBits(op)
    requires |regs| <= 3 && forall k :: 0 <= k < |regs| ==> IsRegisterName(regs[k])
    ensures BinaryValue(FirstWord(op, regs, hasImm)) < 0x1_0000
    ensures var v := BinaryValue(FirstWord(op, regs, hasImm));
            var dst, ra, rb := ControlUnit.DstField(v), ControlUnit.SrcAField(v), ControlUnit.SrcBField(v);
            ControlUnit.Opcode(v) == BinaryValue(op[..3])
            && ControlUnit.SubOpcode(v) == BinaryValue(op[3..])
            && (|regs| == 0 ==> dst == 0 && ra == 0 && rb == 0)
            && (|regs| == 1 && hasImm && op != STORE_BITS ==> dst == RegisterNumber(regs[0]) && ra == 0 && rb == 0)
            && (|regs| == 1 && hasImm && op == STORE_BITS ==> dst == 0 && ra == RegisterNumber(regs[0]) && rb == 0)
            && (|regs| == 1 && !hasImm && op == POP_BITS ==> dst == RegisterNumber(regs[0]) && ra == 0 && rb == 0)
            && (|regs| == 1 && !hasImm && op != POP_BITS ==> dst == 0 && ra == RegisterNumber(regs[0]) && rb == 0)
            && (|regs| == 2 && (op == CMP_BITS || op == STORER_BITS) ==>
                  dst == 0 && ra == RegisterNumber(regs[0]) && rb == RegisterNumber(regs[1]))
            && (|regs| == 2 && op != CMP_BITS && op != STORER_BITS ==>
                  dst == RegisterNumber(regs[0]) && ra == RegisterNumber(regs[1]) && rb == 0)
            && (|regs| == 3 ==>
                  dst == RegisterNumber(regs[0]) && ra == RegisterNumber(regs[1]) && rb == RegisterNumber(regs[2]))
  {
    var data := DataToBinData(regs);
    var z := "000";
    ZeroField();
    assert IsBitField(z, 3);
    if |regs| >= 1 {
      assert BinaryValue(data[0..3]) == RegisterNumber(regs[0]);
    }
    if |regs| >= 2 {
      assert BinaryValue(data[3..6]) == RegisterNumber(regs[1]);
    }
    if |regs| == 3 {
      assert BinaryValue(data[6..9]) == RegisterNumber(regs[2]);
    }
    if |regs| == 0 {
      assert FirstWord(op, regs, hasImm) == op + z + z + z;
      FieldsOfGroups(op, z, z, z);
    } else if |regs| == 1 {
      assert data == data[0..3];
      if (hasImm && op != STORE_BITS) || (!hasImm && op == POP_BITS) {
        assert FirstWord(op, regs, hasImm) == op + data + z + z;
        FieldsOfGroups(op, data, z, z);
      } else {
        assert FirstWord(op, regs, hasImm) == op + z + data + z;
        FieldsOfGroups(op, z, data, z);
      }
    } else if |regs| == 2 {
      var d0, d1 := data[..3], data[3..];
      assert data == d0 + d1 && d1 == data[3..6];
      if op == CMP_BITS || op == STORER_BITS {
        assert FirstWord(op, regs, hasImm) == op + z + d0 + d1;
        FieldsOfGroups(op, z, d0, d1);
      } else {
        assert FirstWord(op, regs, hasImm) == op + d0 + d1 + z;
        FieldsOfGroups(op, d0, d1, z);
      }
    } else {
      var d0, d1, d2 := data[..3], data[3..6], data[6..];
      assert data == d0 + d1 + d2 && d2 == data[6..9];
      assert FirstWord(op, regs, hasImm) == op + d0 + d1 + d2;
      FieldsOfGroups(op, d0, d1, d2);
    }
  }
}
