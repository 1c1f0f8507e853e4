/** Two inputs on which the linker of `tools/compiler.py` does something
    other than what it evidently means to do: a label name that also
    occurs inside the mnemonic, and a negative base address. */
module LinkerFindings {
  import opened Wrappers
  import opened Text
  import opened Labels
  import opened Assembler
  import opened Linker
  import Legacy

  // ---------------------------------------------------------------------
  // ReplaceLabelsAndConstants rewrites the mnemonic

  /** No mnemonic of the linker's table is longer than six letters. */
  lemma LongestMnemonic()
    ensures forall key :: key in OPCODES ==> |key| <= 6
  {
  }

  /** `JA A` is the mnemonic JA, no register and the immediate A. */
  lemma ParseJump(line: string)
    requires line == "JA A"
    ensures Assembler.ParseLine(line) == ParsedLine("JA", [], Some("A"))
  {
    var m, t := line[..2], line[3..];
    assert line == m + " " + t;
    Legacy.JumpWords(m, t);
    Legacy.CodeOfTwoWords(line, m, t);
    assert line[..2] == m && line[2..] == " A";
    OperandOfJump();
    assert RegisterTokens(["A"]) == [];
    assert OtherTokens(["A"], []) == ["A"];
  }

  /** The operand text of `JA A` is the one token `A`. */
  lemma OperandOfJump()
    ensures Tokens(" A", IsCommaOrSpace) == ["A"]
  {
    var rest := " A";
    assert rest[1..] == "A";
    assert !IsCommaOrSpace("A"[0]);
    TokensOfWord("A", IsCommaOrSpace);
  }

  /** The mnemonic of `J0x… 0x…` is its first word, upper-cased. */
  lemma MangledInstruction(mangled: string, address: int)
    requires address >= 0 && mangled == "J" + AddressLiteral(address) + " " + AddressLiteral(address)
    ensures var m := "J" + AddressLiteral(address);
            Assembler.ParseLine(mangled).instr == Upper(m)
            && |m| >= 7 && forall i :: 0 <= i < |m| ==> !IsCommaOrSpace(m[i])
  {
    var lit := AddressLiteral(address);
    var m := "J" + lit;
    Legacy.MangledWords(address);
    assert mangled == m + " " + lit;
    Legacy.ParseOfTwoWords(mangled, m, lit);
    Legacy.ParseLinesAgree(mangled);
  }

  /** A word of seven or more characters without whitespace is no
      mnemonic of the linker's table. */
  lemma LongMnemonicUnknown(m: string)
    requires |m| >= 7 && forall i :: 0 <= i < |m| ==> !IsCommaOrSpace(m[i])
    ensures OpCodeToBinOpCode(Upper(m)).Failure?
  {
    var key := Upper(Upper(m));
    assert |key| >= 7 && forall i :: 0 <= i < |key| ==> !IsSpace(key[i]);
    StripUnspaced(key);
    LongestMnemonic();
    assert Strip(key) !in OPCODES;
  }

  /** `J0x… 0x…` fails: its mnemonic is longer than any in the table. */
  lemma MangledLineFails(mangled: string, address: int, labels: map<string, int>, constants: map<string, int>,
                         evaluate: string -> Option<int>)
    requires address >= 0 && mangled == "J" + AddressLiteral(address) + " " + AddressLiteral(address)
    ensures LineToBinary(mangled, labels, constants, evaluate).Failure?
  {
    MangledInstruction(mangled, address);
    LongMnemonicUnknown("J" + AddressLiteral(address));
  }

  /** `ReplaceLabelsAndConstants` turns `JA A` into `J0x… 0x…`. */
  lemma JumpRewritten(line: string, labels: map<string, int>, constants: map<string, int>)
    requires line == "JA A" && "A" in labels
    ensures var lit := AddressLiteral(labels["A"]);
            ReplaceLabelsAndConstants(line, labels, constants) == "J" + lit + " " + lit
  {
    var lit := AddressLiteral(labels["A"]);
    ParseJump(line);
    assert Upper("A") == "A";
    assert ReplaceLabelsAndConstants(line, labels, constants) == ReplaceAll(line, line[3..], lit);
    Legacy.ReplaceInJump(line, lit);
    assert line[..1] == "J" && line[2..3] == " ";
  }

  /** As written: the immediate `A` of `JA A` names a label, so every `A`
      of the line is rewritten, the one inside the mnemonic included; the
      line becomes `J0x… 0x…`, and `CompileMultiple` fails on it. */
  lemma ReplaceReachesMnemonic(line: string, labels: map<string, int>, constants: map<string, int>,
                               evaluate: string -> Option<int>)
    requires line == "JA A" && "A" in labels && labels["A"] >= 0
    ensures ReplaceLabelsAndConstants(line, labels, constants)
            == "J" + AddressLiteral(labels["A"]) + " " + AddressLiteral(labels["A"])
    ensures WrittenLine(line, labels, constants, evaluate).Failure?
  {
    JumpRewritten(line, labels, constants);
    MangledLineFails(ReplaceLabelsAndConstants(line, labels, constants), labels["A"], labels, constants, evaluate);
  }

  /** The opcode bits of `JA`. */
  lemma JumpOpcode()
    ensures OpCodeToBinOpCode("JA") == Success("1000101")
  {
    assert Upper("JA") == "JA";
    StripUnspaced("JA");
    MnemonicCaseInsensitive("JA", "JA");
    assert OPCODES["JA"].0 + OPCODES["JA"].1 == "1000101";
  }

  /** `JA A` is the jump word and the immediate word of the label. */
  lemma JumpBits(line: string, labels: map<string, int>, constants: map<string, int>,
                 evaluate: string -> Option<int>)
    requires line == "JA A" && "A" in labels
    ensures var r := LineToBinary(line, labels, constants, evaluate);
            r.Success? && |r.value| == 2 && r.value[1] == ImmediateToBin(labels["A"])
  {
    ParseJump(line);
    JumpOpcode();
    KnownMnemonic(line, "1000101", labels, constants, evaluate);
    LabelImmediate("A", labels, constants, evaluate);
    ImmediateOperand("1000101", ParsedLine("JA", [], Some("A")), labels, constants, evaluate);
  }

  /** An immediate that names a label is the label's address in sixteen
      bits. */
  lemma LabelImmediate(imm: string, labels: map<string, int>, constants: map<string, int>,
                       evaluate: string -> Option<int>)
    requires imm == "A" && "A" in labels
    ensures ImmediateWord(imm, labels, constants, evaluate) == Success(ImmediateToBin(labels["A"]))
  {
    assert Upper(imm) == "A";
  }

  /** A line with at most one register and an immediate that evaluates is
      two words, the second the immediate's. */
  lemma ImmediateOperand(op: string, p: ParsedLine, labels: map<string, int>, constants: map<string, int>,
                         evaluate: string -> Option<int>)
    requires |op| == 7 && IsBits(op)
    requires |p.regs| <= 1 && (forall k :: 0 <= k < |p.regs| ==> IsRegisterName(p.regs[k]))
    requires p.imm.Some? && ImmediateWord(p.imm.value, labels, constants, evaluate).Success?
    ensures var r := EncodeOperands(op, p, labels, constants, evaluate);
            r.Success? && |r.value| == 2 && r.value[1] == ImmediateWord(p.imm.value, labels, constants, evaluate).value
  {
  }

  /** Corrected: with the immediate looked up instead of rewritten, `JA A`
      is two words, the second holding the label's address. */
  lemma JumpToLabelEncoded(line: string, labels: map<string, int>, constants: map<string, int>,
                           evaluate: string -> Option<int>)
    requires line == "JA A" && "A" in labels
    ensures var r := HexLine(line, labels, constants, evaluate);
            r.Success? && |r.value| == 2 && ParseDigits(r.value[1], 16) == Some(labels["A"] % 0x1_0000)
  {
    JumpBits(line, labels, constants, evaluate);
    var bits := ImmediateToBin(labels["A"]);
    assert BinaryValue(bits) == labels["A"] % 0x1_0000;
  }

  // ---------------------------------------------------------------------
  // A negative base address

  /** `HLT` is all code. */
  lemma CodeOfHalt()
    ensures Code("HLT") == "HLT"
  {
    var line := "HLT";
    assert BeforeFirst(line, ';') == line by {
      assert LeadingRun(line, x => x != ';') == 3;
      assert line[..3] == line;
    }
    StripUnspaced(line);
  }

  /** `HLT` is the mnemonic HLT alone. */
  lemma ParseHalt()
    ensures Assembler.ParseLine("HLT") == ParsedLine("HLT", [], None)
  {
    var line := "HLT";
    CodeOfHalt();
    assert LeadingRun(line, x => !IsSpace(x)) == 3;
    assert line[..3] == line && line[3..] == [];
    assert Upper(line) == line;
  }

  /** The opcode bits of `HLT`. */
  lemma HaltOpcode()
    ensures OpCodeToBinOpCode("HLT") == Success("1110000")
  {
    assert Upper("HLT") == "HLT";
    StripUnspaced("HLT");
    MnemonicCaseInsensitive("HLT", "HLT");
    assert OPCODES["HLT"].0 + OPCODES["HLT"].1 == "1110000";
  }

  /** A line with no register is its opcode bits and nine zero bits. */
  lemma NoRegisterWord(op: string, hasImm: bool)
    requires |op| == 7 && IsBits(op)
    ensures FirstWord(op, [], hasImm) == op + "000000000"
  {
  }

  /** `LineToBinary` of a line with a known mnemonic and at most three
      registers encodes its operands. */
  lemma KnownMnemonic(line: string, op: string, globals: map<string, int>, constants: map<string, int>,
                      evaluate: string -> Option<int>)
    requires OpCodeToBinOpCode(ParseLine(line).instr) == Success(op)
    requires ParseLine(line).instr != "" && |ParseLine(line).regs| <= 3
    ensures LineToBinary(line, globals, constants, evaluate)
            == EncodeOperands(op, ParseLine(line), globals, constants, evaluate)
  {
  }

  /** `HLT` is one word whose first bit is set. */
  lemma HaltBits(globals: map<string, int>, constants: map<string, int>, evaluate: string -> Option<int>)
    ensures var r := LineToBinary("HLT", globals, constants, evaluate);
            r.Success? && |r.value| == 1 && |r.value[0]| == 16 && r.value[0][0] == '1'
  {
    ParseHalt();
    HaltOpcode();
    KnownMnemonic("HLT", "1110000", globals, constants, evaluate);
    NoRegisterWord("1110000", false);
  }

  /** `HLT` is one word, which is not the blank word `"0000"`. */
  lemma HaltLine(globals: map<string, int>, constants: map<string, int>, evaluate: string -> Option<int>)
    ensures var r := HexLine("HLT", globals, constants, evaluate);
            r.Success? && |r.value| == 1 && r.value[0] != "0000"
  {
    HaltBits(globals, constants, evaluate);
    var bits := LineToBinary("HLT", globals, constants, evaluate).value[0];
    var r := HexLine("HLT", globals, constants, evaluate);
    assert ParseDigits(r.value[0], 16) == Some(BinaryValue(bits));
    assert BinaryValue(bits) > 0 by {
      FirstBitSet(bits);
    }
    BlankWordIsZero();
  }

  /** A bit string whose first bit is set is not zero. */
  lemma FirstBitSet(bits: string)
    requires |bits| > 0 && bits[0] == '1'
    ensures BinaryValue(bits) > 0
  {
    assert bits == "1" + bits[1..];
    BinaryValueConcat("1", bits[1..]);
    assert DigitsOf("1") == [1];
    assert BinaryValue("1") == 1;
    PowPositive(|bits[1..]|);
  }

  /** The blank word reads as zero. */
  lemma BlankWordIsZero()
    ensures ParseDigits("0000", 16) == Some(0)
  {
    assert DigitsOf("0000") == Zeros(4) + [];
    LeadingZerosValue(4, [], 16);
  }

  lemma {:induction false} PowPositive(k: nat)
    ensures Pow(2, k) > 0
  {
    if k > 0 {
      PowPositive(k - 1);
    }
  }

  /** `HLT` is no `@define` line, and counts one word. */
  lemma HaltLineKept()
    ensures WithoutDefines(["HLT"]) == ["HLT"]
    ensures WordsOf(["HLT"], InstructionWordCount) == 1
  {
    var line := "HLT";
    assert !IsDefine(line);
    WithoutDefinesAppend([line], []);
    assert [line] + [] == [line];
    ParseHalt();
    assert [line][..0] == [];
    LabelIsNotHalt();
  }

  /** A segment of the single line `HLT` below the stack is kept whole. */
  lemma PrepareHalt(base: int)
    requires base < STACK_START - 1
    ensures PreparedOf([Segment(["HLT"], base)]) == [Prepared(["HLT"], base, ConstantsOf(["HLT"]))]
  {
    var seg := Segment(["HLT"], base);
    HaltLineKept();
    assert Prepare(seg) == Some(Prepared(["HLT"], base, ConstantsOf(["HLT"])));
    assert [seg][..0] == [];
  }

  /** Both translations give `HLT` its one word. */
  lemma HaltTranslated(globals: map<string, int>, constants: map<string, int>, evaluate: string -> Option<int>,
                       asWritten: bool)
    ensures var r := SegmentTranslator(globals, constants, evaluate, asWritten)("HLT");
            r.Success? && |r.value| == 1 && r.value[0] != "0000"
  {
    HaltLine(globals, constants, evaluate);
    ParseHalt();
    assert ReplaceLabelsAndConstants("HLT", globals, constants) == "HLT";
  }

  /** A one-word line written at a negative address lands `0x10000` higher. */
  lemma EmitAtNegative(line: string, base: int, translate: Translator)
    requires -MAX_MEMORY <= base < 0 && ProducesHexWords(translate) && !IsLabel(line)
    requires translate(line).Success? && |translate(line).value| == 1
    ensures EmitLines(BlankImage(), [line], base, translate)
            == Success(BlankImage()[MAX_MEMORY + base := translate(line).value[0]])
  {
    var hexes := translate(line).value;
    assert EmitWords(BlankImage(), hexes, base) == Success(BlankImage()[MAX_MEMORY + base := hexes[0]]) by {
      assert hexes[1..] == [];
    }
    assert [line][1..] == [];
  }

  /** Linking a single kept segment is writing its lines into the blank
      image. */
  lemma CompileOneSegment(seg: Segment, p: Prepared, evaluate: string -> Option<int>, asWritten: bool)
    requires PreparedOf([seg]) == [p]
    ensures Compile([seg], evaluate, asWritten)
            == EmitLines(BlankImage(), p.lines, p.base,
                         SegmentTranslator(GlobalLabels([p]), p.constants, evaluate, asWritten))
  {
    var translate := SegmentTranslator(GlobalLabels([p]), p.constants, evaluate, asWritten);
    assert [p][0] == p && [p][1..] == [];
    match EmitLines(BlankImage(), p.lines, p.base, translate)
    case Failure(e) =>
    case Success(m) =>
      assert EmitAll(m, [], GlobalLabels([p]), evaluate, asWritten) == Success(m);
  }

  /** As written: `int(value, 16)` accepts `-0x10`, only a base from
      `0xF000` up is skipped, and Python's negative indexing stores the
      first word of a segment based at `-n` at `0x10000 - n`, inside the
      stack region. */
  lemma NegativeBaseReachesStack(base: int, evaluate: string -> Option<int>, asWritten: bool)
    requires -0x1000 <= base < 0
    ensures var r := Compile([Segment(["HLT"], base)], evaluate, asWritten);
            r.Success? && STACK_START <= MAX_MEMORY + base && r.value[MAX_MEMORY + base] != "0000"
  {
    var p := Prepared(["HLT"], base, ConstantsOf(["HLT"]));
    PrepareHalt(base);
    CompileOneSegment(Segment(["HLT"], base), p, evaluate, asWritten);
    var translate := SegmentTranslator(GlobalLabels([p]), p.constants, evaluate, asWritten);
    HaltTranslated(GlobalLabels([p]), p.constants, evaluate, asWritten);
    LabelIsNotHalt();
    EmitAtNegative("HLT", base, translate);
  }

  lemma LabelIsNotHalt()
    ensures !IsLabel("HLT")
  {
  }
}
