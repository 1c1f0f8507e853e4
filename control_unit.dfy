/** The instruction decoder (`ControlUnit::GetCU_Data`): a pure function of
    the instruction word in IR0 and the four-bit flag register.  An
    instruction word is laid out as
      bits 15-13 opcode, bits 12-9 sub-opcode, bits 8-6 destination,
      bits 5-3 source A, bits 2-0 source B. */
module ControlUnit {
  import opened Words

  /** One of the three I/O ports. */
  type Port = p: int | 0 <= p < 3

  /** The decoded control signals `CU_Data`.  The one-byte flags of the C++
      record are booleans here; `aluData` keeps the selector byte. */
  datatype CuData = CuData(
    aluData: Byte,
    regWrite: bool,
    srcRA: RegIndex,
    srcRB: RegIndex,
    dstR: RegIndex,
    isNxtExt: bool,
    flagsWrite: bool,
    memWrite: bool,
    memToReg: bool,
    containsAddress: bool,
    loadPC: bool,
    spPop: bool,
    spChange: bool,
    jsr: bool,
    rts: bool,
    regIsAddress: bool,
    hlt: bool,
    useIn: bool,
    useOut: bool,
    ioPort: Port)

  // Opcodes (bits 15-13).
  const OPC_ALU: int := 0
  const OPC_UNARY: int := 1
  const OPC_MOV: int := 2
  const OPC_MEM: int := 3
  const OPC_JUMP: int := 4
  const OPC_STACK: int := 5
  const OPC_SYS: int := 7

  /** Bits 15-13. */
  function Opcode(ir: Word): (op: int)
    ensures 0 <= op < 8
  {
    ir / 0x2000
  }

  /** Bits 12-9. */
  function SubOpcode(ir: Word): (sub: int)
    ensures 0 <= sub < 16
  {
    (ir / 0x200) % 16
  }

  /** Bits 8-0, the operand field. */
  function OpData(ir: Word): (d: int)
    ensures 0 <= d < 0x200
  {
    ir % 0x200
  }

  function DstField(ir: Word): RegIndex { (OpData(ir) / 64) % 8 }
  function SrcAField(ir: Word): RegIndex { (OpData(ir) / 8) % 8 }
  function SrcBField(ir: Word): RegIndex { OpData(ir) % 8 }

  /** An instruction word assembled from its five fields (disjoint bit
      ranges, so the sum is the bitwise OR). */
  function EncodeWord(op: int, sub: int, dst: RegIndex, ra: RegIndex, rb: RegIndex): Word
    requires 0 <= op < 8 && 0 <= sub < 16
  {
    op * 0x2000 + sub * 0x200 + dst * 64 + ra * 8 + rb
  }

  /** Splitting a word into its fields and joining them gives the word back. */
  lemma DecodeEncode(ir: Word)
    ensures EncodeWord(Opcode(ir), SubOpcode(ir), DstField(ir), SrcAField(ir), SrcBField(ir)) == ir
  {
    var q, d := ir / 0x200, OpData(ir);
    assert ir == q * 0x200 + d;
    assert q == Opcode(ir) * 16 + SubOpcode(ir) by {
      assert q / 16 == Opcode(ir);
    }
    assert d == DstField(ir) * 64 + SrcAField(ir) * 8 + SrcBField(ir);
  }

  /** Joining five fields and splitting the word gives the fields back. */
  lemma EncodeDecode(op: int, sub: int, dst: RegIndex, ra: RegIndex, rb: RegIndex)
    requires 0 <= op < 8 && 0 <= sub < 16
    ensures var w := EncodeWord(op, sub, dst, ra, rb);
            Opcode(w) == op && SubOpcode(w) == sub && DstField(w) == dst
            && SrcAField(w) == ra && SrcBField(w) == rb
  {
    var w := EncodeWord(op, sub, dst, ra, rb);
    var low := dst * 64 + ra * 8 + rb;
    SplitAt(w, op * 16 + sub, low, 0x200);
    SplitAt(op * 16 + sub, op, sub, 16);
    SplitAt(w, op, sub * 0x200 + low, 0x2000);
    SplitAt(low, dst * 8 + ra, rb, 8);
    SplitAt(dst * 8 + ra, dst, ra, 8);
    SplitAt(low, dst, ra * 8 + rb, 64);
    SplitAt(dst, 0, dst, 8);
  }

  /** Euclidean division of `q * d + r` by `d` for a remainder below `d`. */
  lemma SplitAt(x: int, q: int, r: int, d: int)
    requires 0 < d && 0 <= r < d && x == q * d + r
    ensures x / d == q && x % d == r
  {
    var q', r' := x / d, x % d;
    assert (q - q') * d == r' - r && (q' - q) * d == r - r';
    if q > q' {
      MulAtLeast(q - q', d);
    } else if q < q' {
      MulAtLeast(q' - q, d);
    }
  }

  /** A positive multiple of `d` is at least `d`. */
  lemma MulAtLeast(k: int, d: int)
    requires 1 <= k && 0 < d
    ensures d <= k * d
  {
    assert k * d == (k - 1) * d + d;
    assert 0 <= (k - 1) * d;
  }

  /** Flag bit `k` of the flag register (Z = 0, N = 1, C = 2, V = 3). */
  predicate FlagBit(flags: Byte, k: nat)
    requires k < 4
  {
    var pow := if k == 0 then 1 else if k == 1 then 2 else if k == 2 then 4 else 8;
    (flags / pow) % 2 == 1
  }

  /** The branch-condition multiplexer, selected by the sub-opcode.
      Row 8 follows C++ precedence (`Z | (N ^ V)`); row 9 evaluates
      `~(N ^ V) & !Z`, which is non-zero exactly when N == V and Z is clear. */
  predicate BranchMux(sub: int, flags: Byte) {
    var z, n, c, v := FlagBit(flags, 0), FlagBit(flags, 1), FlagBit(flags, 2), FlagBit(flags, 3);
    if sub == 0 then true
    else if sub == 1 then z
    else if sub == 2 then !z
    else if sub == 3 then c
    else if sub == 4 then z || c
    else if sub == 5 then !(z || c)
    else if sub == 6 then !c
    else if sub == 7 then n != v
    else if sub == 8 then z || n != v
    else if sub == 9 then n == v && !z
    else if sub == 10 then n != v
    else if sub == 11 then true
    else false
  }

  /** The ALU selector byte: bit 4 enables the ALU, bits 3-0 select the
      operation; only the register-register group and NOT / CMP drive it. */
  function AluSelector(op: int, sub: int): (sel: Byte)
    requires 0 <= op < 8 && 0 <= sub < 16
    ensures sel != 0 <==> (op == OPC_ALU && sub <= 9) || (op == OPC_UNARY && (sub == 10 || sub == 11))
    ensures sel != 0 ==> sel == 16 + sub
  {
    if op == OPC_ALU then (if sub <= 9 then 16 + sub else 0)
    else if op == OPC_UNARY then (if sub == 10 then 26 else if sub == 11 then 27 else 0)
    else 0
  }

  /** The register-write rows of the decoder. */
  predicate RegWriteRow(op: int, sub: int) {
    (op == OPC_STACK && sub == 1)
    || (op == OPC_MEM && (sub == 0 || sub == 3))
    || op == OPC_MOV
    || (op == OPC_UNARY && sub == 11)
    || op == OPC_ALU
    || (op == OPC_SYS && 1 <= sub <= 3)
  }

  /** The I/O port: sub-opcodes 1-3 read ports 0-2, 4-6 write ports 0-2. */
  function IoPort(op: int, sub: int): Port {
    if op == OPC_SYS && 1 <= sub <= 3 then sub - 1
    else if op == OPC_SYS && 4 <= sub <= 6 then sub - 4
    else 0
  }

  /** `ControlUnit::GetCU_Data(IR_0, FlagsData)`. */
  function GetCuData(ir: Word, flags: Byte): (r: CuData)
    // the ALU is driven exactly by the register-register group, NOT and CMP
    ensures r.aluData >= 16 <==> (Opcode(ir) == OPC_ALU && SubOpcode(ir) <= 9)
                                 || (Opcode(ir) == OPC_UNARY && (SubOpcode(ir) == 10 || SubOpcode(ir) == 11))
    ensures r.aluData != 0 ==> r.aluData % 16 == SubOpcode(ir) % 16 && r.aluData < 32
    ensures r.aluData == AluSelector(Opcode(ir), SubOpcode(ir))
    // the signal table, row by row: each signal is raised for exactly the
    // opcode / sub-opcode pairs listed.  The ALU group, MOV, unary 11,
    // LOAD/LOADR, POP and IN write a register
    ensures r.regWrite <==> Opcode(ir) == OPC_ALU || (Opcode(ir) == OPC_UNARY && SubOpcode(ir) == 11)
                            || Opcode(ir) == OPC_MOV || (Opcode(ir) == OPC_MEM && (SubOpcode(ir) == 0 || SubOpcode(ir) == 3))
                            || (Opcode(ir) == OPC_STACK && SubOpcode(ir) == 1) || (Opcode(ir) == OPC_SYS && 1 <= SubOpcode(ir) <= 3)
    // only STORE and STORER write memory, only CMP writes the flags
    ensures r.memWrite <==> Opcode(ir) == OPC_MEM && (SubOpcode(ir) == 1 || SubOpcode(ir) == 2)
    ensures r.flagsWrite <==> Opcode(ir) == OPC_UNARY && SubOpcode(ir) == 10
    ensures r.memToReg <==> Opcode(ir) == OPC_MEM && (SubOpcode(ir) == 0 || SubOpcode(ir) == 3)
    ensures r.regIsAddress <==> Opcode(ir) == OPC_MEM && (SubOpcode(ir) == 2 || SubOpcode(ir) == 3)
    // every jump-group instruction loads the PC; 11 is a call and 12 a return
    ensures r.loadPC <==> Opcode(ir) == OPC_JUMP
    ensures r.jsr <==> Opcode(ir) == OPC_JUMP && SubOpcode(ir) == 11
    ensures r.rts <==> Opcode(ir) == OPC_JUMP && SubOpcode(ir) == 12
    ensures r.spPop <==> (Opcode(ir) == OPC_JUMP && SubOpcode(ir) == 12) || (Opcode(ir) == OPC_STACK && SubOpcode(ir) == 1)
    ensures r.spChange <==> (Opcode(ir) == OPC_JUMP && (SubOpcode(ir) == 11 || SubOpcode(ir) == 12)) || Opcode(ir) == OPC_STACK
    // a memory instruction and POP carry an address; a jump exactly when the multiplexer selects it
    ensures r.containsAddress <==> Opcode(ir) == OPC_MEM || (Opcode(ir) == OPC_JUMP && BranchMux(SubOpcode(ir), flags))
                                   || (Opcode(ir) == OPC_STACK && SubOpcode(ir) == 1)
    // the two-word instructions: MOV, all jumps, LOAD, STORE, POP
    ensures r.isNxtExt <==> Opcode(ir) == OPC_MOV || Opcode(ir) == OPC_JUMP
                            || (Opcode(ir) == OPC_MEM && SubOpcode(ir) < 2)
                            || (Opcode(ir) == OPC_STACK && SubOpcode(ir) == 1)
    // the system group: HLT, IN from ports 0-2 (sub-opcodes 1-3), OUT to ports 0-2 (4-6)
    ensures r.hlt <==> Opcode(ir) == OPC_SYS && SubOpcode(ir) == 0
    ensures r.useIn <==> Opcode(ir) == OPC_SYS && 1 <= SubOpcode(ir) <= 3
    ensures r.useOut <==> Opcode(ir) == OPC_SYS && SubOpcode(ir) >= 4
    ensures r.ioPort == (if Opcode(ir) == OPC_SYS && 1 <= SubOpcode(ir) <= 6 then (SubOpcode(ir) - 1) % 3 else 0)
  {
    var op := Opcode(ir);
    var sub := SubOpcode(ir);
    var mux := BranchMux(sub, flags);
    var containsAddress :=
      if op == OPC_MEM then true
      else if op == OPC_JUMP then mux
      else op == OPC_STACK && sub == 1;
    CuData(
      aluData := AluSelector(op, sub),
      regWrite := RegWriteRow(op, sub),
      srcRA := SrcAField(ir),
      srcRB := SrcBField(ir),
      dstR := DstField(ir),
      isNxtExt := op == OPC_MOV || op == OPC_JUMP || (op == OPC_MEM && sub < 2) || (op == OPC_STACK && sub == 1),
      flagsWrite := op == OPC_UNARY && sub == 10,
      memWrite := op == OPC_MEM && (sub == 1 || sub == 2),
      memToReg := op == OPC_MEM && (sub == 0 || sub == 3),
      containsAddress := containsAddress,
      loadPC := op == OPC_JUMP,
      spPop := (op == OPC_JUMP && sub == 12) || (op == OPC_STACK && sub == 1),
      spChange := (op == OPC_JUMP && (sub == 11 || sub == 12)) || op == OPC_STACK,
      jsr := op == OPC_JUMP && sub == 11,
      rts := op == OPC_JUMP && sub == 12,
      regIsAddress := op == OPC_MEM && (sub == 2 || sub == 3),
      hlt := op == OPC_SYS && sub == 0,
      useIn := op == OPC_SYS && 0 < sub < 4,
      useOut := op == OPC_SYS && sub >= 4,
      ioPort := IoPort(op, sub))
  }

  /** The decoded register fields, with opcode and sub-opcode, rebuild the
      instruction word: the decoder loses no operand bit. */
  lemma DecodedFieldsRebuildWord(ir: Word, flags: Byte)
    ensures var r := GetCuData(ir, flags);
            EncodeWord(Opcode(ir), SubOpcode(ir), r.dstR, r.srcRA, r.srcRB) == ir
  {
    DecodeEncode(ir);
  }

  /** The flag register influences the jump group only. */
  lemma FlagsOnlyAffectJumps(ir: Word, flags: Byte, flags': Byte)
    requires Opcode(ir) != OPC_JUMP
    ensures GetCuData(ir, flags) == GetCuData(ir, flags')
  {
  }
}
