/** The older assembler `main.py`.  It shares the linker's label pass and
    most of its encoder, and differs where this module says: the mnemonic
    table has no STORER, the immediate is the first non-register operand
    and must be a number in hexadecimal, binary or decimal or a known
    label, its value is not masked to 16 bits, only CMP places two
    registers in bits 5-0, and `CompileMultiple` neither skips nor crops
    segments that reach the stack region. */
module Legacy {
  import opened Wrappers
  import opened Text
  import opened Labels
  import Assembler
  import Linker

  // ---------------------------------------------------------------------
  // Mnemonics

  /** The `opcode_map` of `OpCodeToBinOpCode`. */
  const OPCODES: map<string, (string, string)> := map[
    "ADD" := ("000", "0000"), "SUB" := ("000", "0001"), "MUL" := ("000", "0010"),
    "DIV" := ("000", "0011"), "MOD" := ("000", "0100"), "AND" := ("000", "0101"),
    "OR" := ("000", "0110"), "NAND" := ("000", "0111"), "NOR" := ("000", "1000"),
    "XOR" := ("000", "1001"), "NOT" := ("001", "1011"), "CMP" := ("001", "1010"),
    "MOV" := ("010", "0000"), "LOAD" := ("011", "0000"), "STORE" := ("011", "0001"),
    "JMP" := ("100", "0000"), "JE" := ("100", "0001"), "JNE" := ("100", "0010"),
    "JB" := ("100", "0011"), "JBE" := ("100", "0100"), "JA" := ("100", "0101"),
    "JAE" := ("100", "0110"), "JL" := ("100", "0111"), "JLE" := ("100", "1000"),
    "JG" := ("100", "1001"), "JGE" := ("100", "1010"), "JSR" := ("100", "1011"),
    "RTS" := ("100", "1100"), "HLT" := ("111", "0000"), "PUSH" := ("101", "0000"),
    "POP" := ("101", "0001")]

  /** The table is the linker's without STORER, and no mnemonic in it is
      encoded as STORER is. */
  lemma OpcodeTable()
    ensures Assembler.WellFormedTable(OPCODES)
    ensures forall m :: m in OPCODES <==> m in Assembler.OPCODES && m != "STORER"
    ensures forall m :: m in OPCODES ==> OPCODES[m] == Assembler.OPCODES[m]
    ensures forall m :: m in OPCODES ==> OPCODES[m].0 + OPCODES[m].1 != Assembler.STORER_BITS
  {
    TableKeys();
    TableCodes();
    NoStorerCode();
    Assembler.OpcodeTableWellFormed();
    assert Assembler.STORER_BITS[..3] == "011" && Assembler.STORER_BITS[3..] == "0010";
    forall m | m in OPCODES
      ensures IsBitField(OPCODES[m].0, 3) && IsBitField(OPCODES[m].1, 4)
      ensures OPCODES[m].0 + OPCODES[m].1 != Assembler.STORER_BITS
    {
      var (op, sub) := OPCODES[m];
      assert (op, sub) == Assembler.OPCODES[m];
      assert (op + sub)[..3] == op && (op + sub)[3..] == sub;
    }
  }

  lemma TableKeys()
    ensures forall m :: m in OPCODES <==> m in Assembler.OPCODES && m != "STORER"
  {
    assert Assembler.OPCODES.Keys == OPCODES.Keys + {"STORER"};
  }

  lemma TableCodes()
    ensures forall m :: m in OPCODES ==> OPCODES[m] == Assembler.OPCODES[m]
  {
    forall m | m in OPCODES
      ensures OPCODES[m] == Assembler.OPCODES[m]
    {
    }
  }

  lemma NoStorerCode()
    ensures forall m :: m in OPCODES ==> OPCODES[m] != ("011", "0010")
  {
  }

  /** `OpCodeToBinOpCode`: the seven opcode bits of a mnemonic in any
      letter case; an unknown mnemonic raises `ValueError`. */
  function OpCodeToBinOpCode(instruction: string): (r: Result<string>)
    ensures r.Success? <==> Strip(Upper(instruction)) in OPCODES
    ensures r.Success? ==> |r.value| == 7 && IsBits(r.value) && r.value != Assembler.STORER_BITS
    ensures r.Failure? ==> r.error == "Unknown instruction: " + Strip(Upper(instruction))
  {
    OpcodeTable();
    Assembler.Lookup(OPCODES, instruction)
  }

  /** Both assemblers encode every mnemonic but STORER alike; STORER is
      known only to the linker. */
  lemma OpcodesAgree(instruction: string)
    ensures Strip(Upper(instruction)) != "STORER" ==>
              OpCodeToBinOpCode(instruction) == Assembler.OpCodeToBinOpCode(instruction)
    ensures Strip(Upper(instruction)) == "STORER" ==>
              OpCodeToBinOpCode(instruction).Failure?
              && Assembler.OpCodeToBinOpCode(instruction) == Success(Assembler.STORER_BITS)
  {
    OpcodeTable();
    var key := Strip(Upper(instruction));
    if key == "STORER" {
      assert Assembler.OPCODES[key] == ("011", "0010");
      assert "011" + "0010" == Assembler.STORER_BITS;
    } else if key in OPCODES {
      assert OPCODES[key] == Assembler.OPCODES[key];
    }
  }

  // ---------------------------------------------------------------------
  // ParseLine

  /** `[tok.upper() for tok in tokens]`. */
  function UpperAll(tokens: seq<string>): (us: seq<string>)
    ensures |us| == |tokens| && forall k :: 0 <= k < |tokens| ==> us[k] == Upper(tokens[k])
  {
    seq(|tokens|, k requires 0 <= k < |tokens| => Upper(tokens[k]))
  }

  /** The upper-cased operand tokens of a line: the text after the first
      word, split on commas and whitespace. */
  function Operands(line: string): seq<string> {
    var code := Assembler.Code(line);
    var n := LeadingRun(code, x => !IsSpace(x));
    UpperAll(Tokens(code[n..], IsCommaOrSpace))
  }

  /** `[tok for tok in tokens if re.fullmatch(r"R[0-7]", tok)]`. */
  function Registers(tokens: seq<string>): (regs: seq<string>)
    ensures forall k :: 0 <= k < |regs| ==> Assembler.IsRegisterName(regs[k])
    ensures |regs| <= |tokens|
  {
    if tokens == [] then []
    else if Assembler.IsRegisterName(tokens[0]) then [tokens[0]] + Registers(tokens[1..])
    else Registers(tokens[1..])
  }

  /** `next((tok for tok in tokens if not re.fullmatch(r"R[0-7]", tok)), None)`:
      the first token that is not a register name, after registers only. */
  function FirstNonRegister(tokens: seq<string>): (imm: Option<string>)
    ensures imm.None? <==> forall k :: 0 <= k < |tokens| ==> Assembler.IsRegisterName(tokens[k])
    ensures imm.Some? ==>
              exists k :: 0 <= k < |tokens| && tokens[k] == imm.value && !Assembler.IsRegisterName(tokens[k])
                          && forall j :: 0 <= j < k ==> Assembler.IsRegisterName(tokens[j])
  {
    if tokens == [] then None
    else if !Assembler.IsRegisterName(tokens[0]) then Some(tokens[0])
    else
      var rest := FirstNonRegister(tokens[1..]);
      assert forall k :: 1 <= k < |tokens| ==> tokens[k] == tokens[1..][k - 1];
      if rest.Some? then
        var k :| 0 <= k < |tokens[1..]| && tokens[1..][k] == rest.value && !Assembler.IsRegisterName(tokens[1..][k])
                 && forall j :: 0 <= j < k ==> Assembler.IsRegisterName(tokens[1..][j]);
        assert tokens[k + 1] == rest.value;
        rest
      else rest
  }

  /** `ParseLine(line)`: the upper-cased first word, the register operands
      and the first other operand, upper-cased. */
  function ParseLine(line: string): (p: Assembler.ParsedLine)
    ensures p.instr == "" <==> Assembler.Code(line) == ""
    ensures p.instr == "" ==> p.regs == [] && p.imm.None?
    ensures forall k :: 0 <= k < |p.regs| ==> Assembler.IsRegisterName(p.regs[k])
    ensures p.imm.Some? ==> |p.imm.value| > 0 && !Assembler.IsRegisterName(p.imm.value)
  {
    var code := Assembler.Code(line);
    if code == "" then Assembler.ParsedLine("", [], None)
    else
      var n := LeadingRun(code, x => !IsSpace(x));
      var tokens := Operands(line);
      assert forall k :: 0 <= k < |tokens| ==> |tokens[k]| > 0;
      Assembler.ParsedLine(Upper(code[..n]), Registers(tokens), FirstNonRegister(tokens))
  }

  /** `Registers` is a filter: it works token by token, keeping the
      register names in order. */
  lemma {:induction false} RegistersAppend(a: seq<string>, b: seq<string>)
    ensures Registers(a + b) == Registers(a) + Registers(b)
    ensures |a| == 1 ==> Registers(a) == (if Assembler.IsRegisterName(a[0]) then a else [])
    decreases |a|
  {
    if a != [] {
      assert (a + b)[0] == a[0] && (a + b)[1..] == a[1..] + b;
      RegistersAppend(a[1..], b);
    } else {
      assert a + b == b;
    }
  }

  /** Parsing a line written as a mnemonic and operand words separated by
      single spaces gives back the upper-cased mnemonic, the upper-cased
      register operands in order, and the first other operand, upper-cased. */
  lemma ParseLineOfWords(line: string, m: string, ts: seq<string>)
    requires line == m + " " + JoinSpace(ts)
    requires Assembler.IsWord(m) && |ts| > 0 && forall k :: 0 <= k < |ts| ==> Assembler.IsWord(ts[k])
    ensures ParseLine(line) == Assembler.ParsedLine(Upper(m), Registers(UpperAll(ts)), FirstNonRegister(UpperAll(ts)))
  {
    OperandsOfWords(line, m, ts);
    ParseOfCode(line, m, UpperAll(ts));
  }

  /** `ParseLine` of a line that is all code, with first word `m` and
      operands `us`. */
  lemma ParseOfCode(line: string, m: string, us: seq<string>)
    requires 0 < |m| <= |line| && Assembler.Code(line) == line && line[..|m|] == m
    requires LeadingRun(line, x => !IsSpace(x)) == |m| && Operands(line) == us
    ensures ParseLine(line) == Assembler.ParsedLine(Upper(m), Registers(us), FirstNonRegister(us))
  {
  }

  /** Such a line is all code, its first word is `m`, and its operands are
      the words `ts`, upper-cased. */
  lemma OperandsOfWords(line: string, m: string, ts: seq<string>)
    requires line == m + " " + JoinSpace(ts)
    requires Assembler.IsWord(m) && |ts| > 0 && forall k :: 0 <= k < |ts| ==> Assembler.IsWord(ts[k])
    ensures Assembler.Code(line) == line && LeadingRun(line, x => !IsSpace(x)) == |m|
    ensures Operands(line) == UpperAll(ts) && line[..|m|] == m
  {
    Assembler.LineOfWords(line, m, ts);
    assert forall i :: 0 <= i < |m| ==> line[i] == m[i];
    assert line[|m|] == ' ';
  }

  /** The two parsers agree on the mnemonic and the registers, and find an
      immediate on the same lines: the linker joins every other operand
      into an expression, this one keeps the first. */
  lemma {:induction false} ParseLinesAgree(line: string)
    ensures ParseLine(line).instr == Assembler.ParseLine(line).instr
    ensures ParseLine(line).regs == Assembler.ParseLine(line).regs
    ensures ParseLine(line).imm.Some? <==> Assembler.ParseLine(line).imm.Some?
  {
    var code := Assembler.Code(line);
    if code != "" {
      var n := LeadingRun(code, x => !IsSpace(x));
      var tokens := Tokens(code[n..], IsCommaOrSpace);
      var regs := Assembler.RegisterTokens(tokens);
      RegistersAgree(tokens);
      RegisterTokensHold(tokens);
      OthersPresent(tokens, regs);
      var us := UpperAll(tokens);
      assert (exists k :: 0 <= k < |tokens| && Upper(tokens[k]) !in regs)
             <==> !(forall k :: 0 <= k < |us| ==> Assembler.IsRegisterName(us[k]));
    }
  }

  /** Filtering upper-cased tokens is the linker's register collection. */
  lemma {:induction false} RegistersAgree(tokens: seq<string>)
    ensures Registers(UpperAll(tokens)) == Assembler.RegisterTokens(tokens)
    decreases |tokens|
  {
    if tokens != [] {
      RegistersAgree(tokens[1..]);
      assert UpperAll(tokens)[1..] == UpperAll(tokens[1..]);
    }
  }

  /** The linker's register list holds the upper-cased form of every
      register token. */
  lemma {:induction false} RegisterTokensHold(tokens: seq<string>)
    ensures forall k :: 0 <= k < |tokens| && Assembler.IsRegisterName(Upper(tokens[k])) ==>
              Upper(tokens[k]) in Assembler.RegisterTokens(tokens)
    decreases |tokens|
  {
    if tokens != [] {
      RegisterTokensHold(tokens[1..]);
      assert forall k :: 1 <= k < |tokens| ==> tokens[k] == tokens[1..][k - 1];
    }
  }

  /** The linker's immediate is present exactly when some operand is not in
      its register list. */
  lemma {:induction false} OthersPresent(tokens: seq<string>, regs: seq<string>)
    ensures Assembler.OtherTokens(tokens, regs) != [] <==>
            exists k :: 0 <= k < |tokens| && Upper(tokens[k]) !in regs
    decreases |tokens|
  {
    if tokens != [] {
      OthersPresent(tokens[1..], regs);
      assert forall k :: 1 <= k < |tokens| ==> tokens[k] == tokens[1..][k - 1];
      if Upper(tokens[0]) in regs && exists k :: 0 <= k < |tokens| && Upper(tokens[k]) !in regs {
        var k :| 0 <= k < |tokens| && Upper(tokens[k]) !in regs;
        assert Upper(tokens[1..][k - 1]) !in regs;
      }
    }
  }

  // ---------------------------------------------------------------------
  // Word counts and labels

  /** `InstructionWordCount(line)`: no word for an empty line, two with an
      immediate, one otherwise. */
  function InstructionWordCount(line: string): (n: nat)
    ensures n <= 2
  {
    var p := ParseLine(line);
    if p.instr == "" then 0 else if p.imm.Some? then 2 else 1
  }

  /** Both assemblers count the same words for every line. */
  lemma WordCountsAgree(line: string)
    ensures InstructionWordCount(line) == Assembler.InstructionWordCount(line)
  {
    ParseLinesAgree(line);
  }

  /** `FirstPass(lines, start_address)`. */
  method FirstPass(lines: seq<string>, start: int) returns (labels: map<string, int>)
    ensures labels == LabelsOf(lines, start, InstructionWordCount)
  {
    labels := Labels.FirstPass(lines, start, InstructionWordCount);
  }

  /** Both assemblers give every label the same address. */
  lemma FirstPassesAgree(lines: seq<string>, start: int)
    ensures LabelsOf(lines, start, InstructionWordCount) == LabelsOf(lines, start, Assembler.InstructionWordCount)
  {
    forall line {
      WordCountsAgree(line);
    }
    LabelsOfSameCount(lines, start, InstructionWordCount, Assembler.InstructionWordCount);
  }

  // ---------------------------------------------------------------------
  // Immediates

  /** The value `ImmediateToBin` reads from an immediate: `int(imm, 16)`
      when it starts with `0x` in either case, `int(imm, 2)` after `0b`,
      `int(imm, 10)` for decimal digits, and otherwise the address of the
      label it names; `None` where it raises `ValueError`. */
  function ImmediateValue(imm: string, labels: map<string, int>): (v: Option<int>)
    ensures v.Some? ==> "0x" <= Lower(imm) || "0b" <= Lower(imm) || IsDigits(imm) || Upper(imm) in labels
    ensures !("0x" <= Lower(imm)) && !("0b" <= Lower(imm)) && !IsDigits(imm) ==>
              v == (if Upper(imm) in labels then Some(labels[Upper(imm)]) else None)
  {
    if "0x" <= Lower(imm) then PyInt(imm, 16)
    else if "0b" <= Lower(imm) then PyInt(imm, 2)
    else if IsDigits(imm) then PyInt(imm, 10)
    else if Upper(imm) in labels then Some(labels[Upper(imm)])
    else None
  }

  /** A number is read in the base its prefix names, never as a label, and
      never comes out negative: `0x` or `0X` and hexadecimal digits, `0b` or
      `0B` and binary digits, or decimal digits alone. */
  lemma NumericImmediates(imm: string, labels: map<string, int>)
    ensures IsDigits(imm) ==> ImmediateValue(imm, labels) == Some(ValueOf(DigitsOf(imm), 10))
    ensures "0x" <= Lower(imm) && IsDigitsIn(imm[2..], 16) ==>
              ImmediateValue(imm, labels) == Some(ValueOf(DigitsOf(imm[2..]), 16))
    ensures "0b" <= Lower(imm) && IsDigitsIn(imm[2..], 2) ==>
              ImmediateValue(imm, labels) == Some(ValueOf(DigitsOf(imm[2..]), 2))
    ensures ("0x" <= Lower(imm) || "0b" <= Lower(imm) || IsDigits(imm)) && ImmediateValue(imm, labels).Some? ==>
              ImmediateValue(imm, labels).value >= 0
  {
    if "0x" <= Lower(imm) {
      PrefixedImmediate(imm, labels, 16);
    } else if "0b" <= Lower(imm) {
      PrefixedImmediate(imm, labels, 2);
    } else if IsDigits(imm) {
      DecimalImmediate(imm, labels);
    }
  }

  /** An immediate with the prefix of base 2 or 16 is `int(imm, base)`. */
  lemma PrefixedImmediate(imm: string, labels: map<string, int>, base: nat)
    requires base == 2 || base == 16
    requires (if base == 16 then "0x" else "0b") <= Lower(imm)
    ensures base == 16 || !("0x" <= Lower(imm))
    ensures base == 2 || !("0b" <= Lower(imm))
    ensures !IsDigits(imm)
    ensures ImmediateValue(imm, labels) == PyInt(imm, base)
    ensures PyInt(imm, base).Some? ==> PyInt(imm, base).value >= 0
    ensures IsDigitsIn(imm[2..], base) ==> PyInt(imm, base) == Some(ValueOf(DigitsOf(imm[2..]), base))
  {
    assert Lower(imm)[1] == LowerChar(imm[1]) == (if base == 16 then 'x' else 'b');
    assert !IsAsciiDigit(imm[1]);
    PrefixedValue(imm, base);
  }

  /** An immediate of decimal digits without a prefix is `int(imm, 10)`. */
  lemma DecimalImmediate(imm: string, labels: map<string, int>)
    requires IsDigits(imm) && !("0x" <= Lower(imm)) && !("0b" <= Lower(imm))
    ensures ImmediateValue(imm, labels) == Some(ValueOf(DigitsOf(imm), 10))
  {
    assert IsDigitsIn(imm, 10);
    PyIntOfDigits(imm, 10);
  }

  /** `int(s, base)` of a string that starts with the prefix of its base. */
  lemma PrefixedValue(s: string, base: nat)
    requires base == 2 || base == 16
    requires (if base == 16 then "0x" else "0b") <= Lower(s)
    ensures PyInt(s, base).Some? ==> PyInt(s, base).value >= 0
    ensures IsDigitsIn(s[2..], base) ==> PyInt(s, base) == Some(ValueOf(DigitsOf(s[2..]), base))
  {
    assert Lower(s)[0] == '0';
    assert s[0] == '0';
    StripStartsWith(s);
    if IsDigitsIn(s[2..], base) {
      PrefixedDigits(s, base);
    }
  }

  /** The value of a prefixed literal whose digits are all of its base. */
  lemma PrefixedDigits(s: string, base: nat)
    requires base == 2 || base == 16
    requires (if base == 16 then "0x" else "0b") <= Lower(s)
    requires IsDigitsIn(s[2..], base)
    ensures PyInt(s, base) == Some(ValueOf(DigitsOf(s[2..]), base))
  {
    PrefixedShape(s, base);
  }

  /** Such a literal is already stripped, unsigned, and loses exactly its
      prefix. */
  lemma PrefixedShape(s: string, base: nat)
    requires base == 2 || base == 16
    requires (if base == 16 then "0x" else "0b") <= Lower(s)
    requires IsDigitsIn(s[2..], base)
    ensures s[0] == '0' && Strip(s) == s && Unsigned(s) == s && WithoutPrefix(s, base) == s[2..]
  {
    assert Lower(s)[0] == '0';
    assert s[0] == '0';
    NotSpaceDigit(s[2..][|s| - 3], base);
    StripUnspaced(s);
    assert LowerChar(s[1]) == (if base == 16 then 'x' else 'b');
  }

  /** `strip()` keeps a first character that is not whitespace. */
  lemma StripStartsWith(s: string)
    requires |s| > 0 && !IsSpace(s[0])
    ensures |Strip(s)| > 0 && Strip(s)[0] == s[0]
  {
    assert LeadingRun(s, IsSpace) == 0;
    assert s[0..] == s;
  }

  /** `bin(v)[2:]`: the binary digits, after a stray `b` for a negative
      value (whose `bin` starts with `-0b`). */
  function BinDigits(v: int): string {
    if v >= 0 then Bin(v) else "b" + Bin(-v)
  }

  /** `ImmediateToBin(immediate, label_map)`: the value zero-filled to
      sixteen binary digits and not masked, so a value of 0x10000 or more
      gives a longer string than the linker's `ImmediateToBin` and a label
      at a negative address gives no bit string at all; an unreadable
      immediate raises `ValueError`. */
  function ImmediateToBin(imm: string, labels: map<string, int>): (r: Result<string>)
    ensures r.Failure? <==> ImmediateValue(imm, labels).None?
    ensures r.Failure? ==> r.error == "Invalid immediate value: " + imm
    ensures r.Success? ==> |r.value| >= 16
    ensures r.Success? ==>
              var v := ImmediateValue(imm, labels).value;
              (v >= 0 ==> IsBits(r.value) && BinaryValue(r.value) == v && (|r.value| == 16 <==> v < 0x1_0000))
              && (0 <= v < 0x1_0000 ==> r.value == Assembler.ImmediateToBin(v))
              && (v >= 0x1_0000 ==> |r.value| > 16 && r.value != Assembler.ImmediateToBin(v))
              && (v < 0 ==> !IsBits(r.value))
  {
    match ImmediateValue(imm, labels)
    case None => Failure("Invalid immediate value: " + imm)
    case Some(v) =>
      ZFilledBinary(v);
      Success(ZFill(BinDigits(v), 16))
  }

  /** The sixteen-digit binary form of a value. */
  lemma ZFilledBinary(v: int)
    ensures var s := ZFill(BinDigits(v), 16);
            |s| >= 16
            && (v >= 0 ==> IsBits(s) && BinaryValue(s) == v && (|s| == 16 <==> v < 0x1_0000))
            && (0 <= v < 0x1_0000 ==> s == Assembler.ImmediateToBin(v))
            && (v < 0 ==> !IsBits(s))
  {
    var s := ZFill(BinDigits(v), 16);
    if v >= 0 {
      Alphabets();
      ZFilledDigits(v, 2, "01", 16);
      WordPowers();
      BinaryDigitsAreBits(s);
      if v < 0x1_0000 {
        assert v % 0x1_0000 == v;
      }
    } else {
      var d := BinDigits(v);
      assert s[|s| - |d|..] == d;
      assert s[|s| - |d|] == 'b';
    }
  }

  // ---------------------------------------------------------------------
  // Instruction words

  /** The instruction word: the linker's, except that only CMP places two
      registers in bits 5-0 (the table has no STORER). */
  function FirstWord(op: string, regs: seq<string>, hasImm: bool): (w: string)
    requires |op| == 7 && IsBits(op)
    requires |regs| <= 3 && forall k :: 0 <= k < |regs| ==> Assembler.IsRegisterName(regs[k])
    ensures op != Assembler.STORER_BITS ==> w == Assembler.FirstWord(op, regs, hasImm)
  {
    var data := Assembler.DataToBinData(regs);
    var fields :=
      if |regs| == 0 then "000000000"
      else if |regs| == 1 then
        if hasImm then (if op == Assembler.STORE_BITS then "000" + data + "000" else data + "000000")
        else if op == Assembler.POP_BITS then data + "000000"
        else "000" + data + "000"
      else if |regs| == 2 then
        if op == Assembler.CMP_BITS then "000" + data else data + "000"
      else data;
    op + fields
  }

  /** `LineToBinary(line, label_map)`: no word for an empty line or for
      four or more registers (`None` in the source); otherwise the
      instruction word, followed by the immediate when the line has at most
      one register.  An unknown mnemonic fails before the registers are
      looked at, an unreadable immediate only where it would be used. */
  function LineToBinary(line: string, labels: map<string, int>): (r: Result<seq<string>>)
    ensures var p := ParseLine(line);
            (r.Failure? <==>
               p.instr != "" && (OpCodeToBinOpCode(p.instr).Failure?
                                 || (|p.regs| <= 1 && p.imm.Some? && ImmediateToBin(p.imm.value, labels).Failure?)))
            && (r.Success? ==>
                  (r.value == [] <==> p.instr == "" || |p.regs| > 3)
                  && (|r.value| == 2 <==> p.instr != "" && |p.regs| <= 1 && p.imm.Some?)
                  && |r.value| <= InstructionWordCount(line))
            && (r.Success? && |r.value| > 0 ==>
                  IsBitField(r.value[0], 16) && OpCodeToBinOpCode(p.instr) == Success(r.value[0][..7]))
            && (r.Success? && |r.value| == 2 ==> ImmediateToBin(p.imm.value, labels) == Success(r.value[1]))
  {
    var p := ParseLine(line);
    if p.instr == "" then Success([])
    else match OpCodeToBinOpCode(p.instr)
      case Failure(e) => Failure(e)
      case Success(op) =>
        if |p.regs| > 3 then Success([])
        else
          var w := FirstWord(op, p.regs, p.imm.Some?);
          if |p.regs| <= 1 && p.imm.Some? then
            match ImmediateToBin(p.imm.value, labels)
            case Failure(e) => Failure(e)
            case Success(imm) => Success([w, imm])
          else Success([w])
  }

  /** Where both assemblers encode a line, they produce as many words and
      the same instruction word, so the control unit decodes it the same
      way (`Encoding.FirstWordFields`). */
  lemma LinesAgree(line: string, labels: map<string, int>, constants: map<string, int>,
                   evaluate: string -> Option<int>)
    requires LineToBinary(line, labels).Success?
    requires Assembler.LineToBinary(line, labels, constants, evaluate).Success?
    ensures var ws := LineToBinary(line, labels).value;
            var vs := Assembler.LineToBinary(line, labels, constants, evaluate).value;
            |ws| == |vs| && (|ws| > 0 ==> ws[0] == vs[0])
  {
    var p := ParseLine(line);
    ParseLinesAgree(line);
    OpcodesAgree(p.instr);
  }

  /** `BinToHex(binary)`: `int(binary, 2)` in lowercase hexadecimal,
      zero-filled to four digits; a string `int` does not accept raises
      `ValueError`. */
  function BinToHex(binary: string): (r: Result<string>)
    ensures IsBits(binary) && |binary| > 0 ==> r == Success(Assembler.BinToHex(binary))
    ensures r.Success? ==> |r.value| >= 4
    ensures r.Failure? ==> !IsBits(binary) || binary == []
  {
    BitsToHex(binary);
    match PyInt(binary, 2)
    case None => Failure("invalid literal for int() with base 2: '" + binary + "'")
    case Some(v) => Success(Lower(ZFill(HexDigits(v), 4)))
  }

  /** `hex(v)[2:]`: the hexadecimal digits, after a stray `x` for a
      negative value. */
  function HexDigits(v: int): string {
    if v >= 0 then Hex(v) else "x" + Hex(-v)
  }

  /** A bit string reads as its value and prints as the linker prints it. */
  lemma BitsToHex(binary: string)
    ensures IsBits(binary) && |binary| > 0 ==>
              PyInt(binary, 2) == Some(BinaryValue(binary))
              && Lower(ZFill(HexDigits(BinaryValue(binary)), 4)) == Assembler.BinToHex(binary)
  {
    if IsBits(binary) && |binary| > 0 {
      BitsRead(binary);
      BitsPrinted(binary);
    }
  }

  lemma BitsRead(binary: string)
    requires IsBits(binary) && |binary| > 0
    ensures PyInt(binary, 2) == Some(BinaryValue(binary))
  {
    BinaryDigitsAreBits(binary);
    PyIntOfDigits(binary, 2);
  }

  lemma BitsPrinted(binary: string)
    requires IsBits(binary) && |binary| > 0
    ensures Lower(ZFill(HexDigits(BinaryValue(binary)), 4)) == Assembler.BinToHex(binary)
  {
    var h := Assembler.BinToHex(binary);
    assert h == ZFill(Hex(BinaryValue(binary)), 4);
    LowerKeepsHex(h);
  }

  /** Lower-casing leaves lowercase hexadecimal digits as they are. */
  lemma LowerKeepsHex(h: string)
    requires forall i :: 0 <= i < |h| ==> IsLowerHexDigit(h[i])
    ensures Lower(h) == h
  {
    forall i | 0 <= i < |h|
      ensures Lower(h)[i] == h[i]
    {
      assert IsLowerHexDigit(h[i]);
    }
  }

  // ---------------------------------------------------------------------
  // ReplaceLabels

  /** `ReplaceLabels(line, label_map)`: when the immediate names a label,
      every occurrence of it in the line, wherever it stands, becomes the
      label's address as a hexadecimal literal. */
  function ReplaceLabels(line: string, labels: map<string, int>): (r: string)
    ensures ParseLine(line).imm.None? || Upper(ParseLine(line).imm.value) !in labels ==> r == line
    ensures ParseLine(line).imm.Some? && (forall i :: !OccursAt(line, ParseLine(line).imm.value, i)) ==> r == line
  {
    var p := ParseLine(line);
    if p.imm.Some? && Upper(p.imm.value) in labels then
      ReplaceAll(line, p.imm.value, AddressLiteral(labels[Upper(p.imm.value)]))
    else line
  }

  /** What the rewrite produces when the immediate's text occurs in the line
      only where the operand stands, between `before` and `after`: that one
      occurrence becomes the label's address. */
  lemma RewrittenLabel(line: string, labels: map<string, int>, before: string, after: string)
    requires ParseLine(line).imm.Some? && Upper(ParseLine(line).imm.value) in labels
    requires line == before + ParseLine(line).imm.value + after
    requires forall i :: OccursAt(line, ParseLine(line).imm.value, i) ==> i == |before|
    ensures ReplaceLabels(line, labels)
            == before + AddressLiteral(labels[Upper(ParseLine(line).imm.value)]) + after
  {
    var imm := ParseLine(line).imm.value;
    ReplaceOnce(before, imm, after, AddressLiteral(labels[Upper(imm)]));
  }

  /** A label address written by `ReplaceLabels` reads back as the same
      address, and an immediate that is an identifier naming a label reads
      as that label's address: replacing the operand alone would not change
      its value.  A negative address is written with its sign after `0x`,
      which no longer reads as a number. */
  lemma AddressLiteralReadsBack(address: int, name: string, labels: map<string, int>)
    ensures address >= 0 ==> ImmediateValue(AddressLiteral(address), labels) == Some(address)
    ensures address < 0 ==> ImmediateValue(AddressLiteral(address), labels).None?
    ensures IsIdentifier(name) && Upper(name) in labels ==> ImmediateValue(name, labels) == Some(labels[Upper(name)])
  {
    var lit := AddressLiteral(address);
    assert Lower(lit)[..2] == "0x";
    assert lit[..2] == "0x";
    if address >= 0 {
      var s := ZFill(HexUpper(address), 4);
      assert lit[2..] == s;
      Alphabets();
      ZFilledDigits(address, 16, UPPER_HEX, 4);
      NumericImmediates(lit, labels);
    } else {
      var s := "-" + ZFill(HexUpper(-address), 3);
      assert lit[2..] == s;
      assert lit[2] == '-';
      NegativeLiteral(lit);
    }
    if IsIdentifier(name) && Upper(name) in labels {
      IdentifierImmediate(name, labels);
    }
  }

  /** An identifier is neither a prefixed nor a decimal number. */
  lemma IdentifierImmediate(name: string, labels: map<string, int>)
    requires IsIdentifier(name)
    ensures ImmediateValue(name, labels) == if Upper(name) in labels then Some(labels[Upper(name)]) else None
  {
    assert !IsAsciiDigit(name[0]);
    assert !IsDigits(name);
    assert Lower(name)[0] == LowerChar(name[0]) != '0';
    assert !("0x" <= Lower(name)) && !("0b" <= Lower(name));
  }

  /** `int("0x-…", 16)` raises `ValueError`. */
  lemma NegativeLiteral(lit: string)
    requires |lit| >= 3 && lit[..2] == "0x" && lit[2] == '-'
    ensures PyInt(lit, 16).None?
  {
    StripStartsWith(lit);
    var t := Strip(lit);
    assert t[0] == '0';
    var u := Unsigned(t);
    assert u == t;
    if |t| >= 3 {
      assert t[..|t|] == t;
    }
    var d := WithoutPrefix(u, 16);
    assert |d| > 0 ==> DigitValue(d[0]) >= 16;
  }

  // ---------------------------------------------------------------------
  // CompileMultiple: the image

  /** Turns one word into the text stored for it (`BinToHex`). */
  type HexConverter = string -> Result<string>

  /** `memory[addr] = BinToHex(b); addr += 1` for each word `b` of a line:
      the word is converted before the index is checked. */
  function EmitWords(mem: seq<string>, words: seq<string>, addr: int, hex: HexConverter): (r: Result<seq<string>>)
    requires |mem| == Assembler.MAX_MEMORY
    ensures r.Success? ==> |r.value| == Assembler.MAX_MEMORY
    decreases |words|
  {
    if words == [] then Success(mem)
    else match hex(words[0])
      case Failure(e) => Failure(e)
      case Success(h) =>
        match Linker.ListIndex(addr)
        case None => Failure("list assignment index out of range")
        case Some(i) => EmitWords(mem[i := h], words[1..], addr + 1, hex)
  }

  /** The second loop of `CompileMultiple` for one segment: label lines are
      skipped, every other line is translated and its words stored from the
      running address on. */
  function EmitLines(mem: seq<string>, lines: seq<string>, addr: int, translate: Linker.Translator,
                     hex: HexConverter): (r: Result<seq<string>>)
    requires |mem| == Assembler.MAX_MEMORY
    ensures r.Success? ==> |r.value| == Assembler.MAX_MEMORY
    decreases |lines|
  {
    if lines == [] then Success(mem)
    else if IsLabel(lines[0]) then EmitLines(mem, lines[1..], addr, translate, hex)
    else match translate(lines[0])
      case Failure(e) => Failure(e)
      case Success(words) =>
        match EmitWords(mem, words, addr, hex)
        case Failure(e) => Failure(e)
        case Success(m) => EmitLines(m, lines[1..], addr + |words|, translate, hex)
  }

  /** Words stored from `addr` on leave every address below it alone. */
  lemma {:induction false} EmitWordsKeeps(mem: seq<string>, words: seq<string>, addr: int, hex: HexConverter, a: int)
    requires |mem| == Assembler.MAX_MEMORY && 0 <= a < addr && a < Assembler.MAX_MEMORY
    requires EmitWords(mem, words, addr, hex).Success?
    ensures EmitWords(mem, words, addr, hex).value[a] == mem[a]
    decreases |words|
  {
    if words != [] {
      var i := Linker.ListIndex(addr).value;
      EmitWordsKeeps(mem[i := hex(words[0]).value], words[1..], addr + 1, hex, a);
    }
  }

  /** A segment stored from `addr` on leaves every address below it alone. */
  lemma {:induction false} EmitLinesKeeps(mem: seq<string>, lines: seq<string>, addr: int,
                                          translate: Linker.Translator, hex: HexConverter, a: int)
    requires |mem| == Assembler.MAX_MEMORY && 0 <= a < addr && a < Assembler.MAX_MEMORY
    requires EmitLines(mem, lines, addr, translate, hex).Success?
    ensures EmitLines(mem, lines, addr, translate, hex).value[a] == mem[a]
    decreases |lines|
  {
    if lines != [] {
      if IsLabel(lines[0]) {
        EmitLinesKeeps(mem, lines[1..], addr, translate, hex, a);
      } else {
        var words := translate(lines[0]).value;
        var m := EmitWords(mem, words, addr, hex).value;
        EmitWordsKeeps(mem, words, addr, hex, a);
        EmitLinesKeeps(m, lines[1..], addr + |words|, translate, hex, a);
      }
    }
  }

  /** The first word of an instruction line lands at the segment's address,
      wherever that is in the image. */
  lemma FirstWordStored(mem: seq<string>, lines: seq<string>, addr: int, translate: Linker.Translator,
                        hex: HexConverter, words: seq<string>)
    requires |mem| == Assembler.MAX_MEMORY && 0 <= addr < Assembler.MAX_MEMORY
    requires lines != [] && !IsLabel(lines[0]) && translate(lines[0]) == Success(words) && words != []
    requires EmitLines(mem, lines, addr, translate, hex).Success?
    ensures hex(words[0]).Success? && EmitLines(mem, lines, addr, translate, hex).value[addr] == hex(words[0]).value
  {
    var m := EmitWords(mem, words, addr, hex).value;
    var h := hex(words[0]).value;
    EmitWordsKeeps(mem[addr := h], words[1..], addr + 1, hex, addr);
    EmitLinesKeeps(m, lines[1..], addr + |words|, translate, hex, addr);
  }

  /** The translation `CompileMultiple` applies to an instruction line:
      `ReplaceLabels`, then `LineToBinary`. */
  function TranslateWritten(line: string, labels: map<string, int>): Result<seq<string>> {
    LineToBinary(ReplaceLabels(line, labels), labels)
  }

  /** `TranslateWritten` as a translator. */
  function WrittenTranslator(labels: map<string, int>): (translate: Linker.Translator)
    ensures forall line :: translate(line) == TranslateWritten(line, labels)
  {
    line => TranslateWritten(line, labels)
  }

  /** `global_labels` after the first loop: `dict.update` in segment
      order. */
  function GlobalLabels(segments: seq<Linker.Segment>): map<string, int> {
    if segments == [] then map[]
    else
      var last := segments[|segments| - 1];
      GlobalLabels(segments[..|segments| - 1]) + LabelsOf(last.lines, last.base, InstructionWordCount)
  }

  // ---------------------------------------------------------------------
  // A label inside the mnemonic

  /** `LineToBinary(line, label_map)` without the textual replacement: the
      immediate names the label, which `ImmediateToBin` looks up itself.
      This is what `ReplaceLabels` is evidently meant to leave unchanged. */
  function LineTranslator(labels: map<string, int>): (translate: Linker.Translator)
    ensures forall line :: translate(line) == LineToBinary(line, labels)
  {
    line => LineToBinary(line, labels)
  }

  /** An identifier operand naming a label at a 16-bit address is encoded
      as that address: the second word is the address in sixteen bits. */
  lemma LabelOperandEncoded(line: string, labels: map<string, int>)
    requires ParseLine(line).imm.Some? && IsIdentifier(ParseLine(line).imm.value)
    requires Upper(ParseLine(line).imm.value) in labels
    requires 0 <= labels[Upper(ParseLine(line).imm.value)] < 0x1_0000
    requires |ParseLine(line).regs| <= 1 && LineToBinary(line, labels).Success?
    ensures var ws := LineToBinary(line, labels).value;
            |ws| == 2 && ws[1] == Assembler.ImmediateToBin(labels[Upper(ParseLine(line).imm.value)])
  {
    IdentifierImmediate(ParseLine(line).imm.value, labels);
  }

  /** A line made of a first word `m`, one space and one operand `t`,
      neither holding a separator, a comment or whitespace. */
  lemma ParseOfTwoWords(line: string, m: string, t: string)
    requires line == m + " " + t && |m| > 0 && |t| > 0
    requires forall i :: 0 <= i < |m| ==> !IsCommaOrSpace(m[i]) && m[i] != ';'
    requires forall i :: 0 <= i < |t| ==> !IsCommaOrSpace(t[i]) && t[i] != ';'
    ensures ParseLine(line).instr == Upper(m)
    ensures Operands(line) == [Upper(t)]
  {
    CodeOfTwoWords(line, m, t);
    InstrOfTwoWords(line, m, t);
    OperandsOfTwoWords(line, m, t);
  }

  lemma InstrOfTwoWords(line: string, m: string, t: string)
    requires line == m + " " + t && |m| > 0
    requires Assembler.Code(line) == line && LeadingRun(line, x => !IsSpace(x)) == |m|
    ensures ParseLine(line).instr == Upper(m)
  {
    assert line[..|m|] == m;
  }

  lemma OperandsOfTwoWords(line: string, m: string, t: string)
    requires line == m + " " + t && |t| > 0
    requires forall i :: 0 <= i < |t| ==> !IsCommaOrSpace(t[i]) && t[i] != ';'
    requires Assembler.Code(line) == line && LeadingRun(line, x => !IsSpace(x)) == |m|
    ensures Operands(line) == [Upper(t)]
  {
    var rest := line[|m|..];
    assert rest == " " + t && rest[1..] == t;
    TokensOfWord(t, IsCommaOrSpace);
    assert Tokens(rest, IsCommaOrSpace) == [t];
  }

  /** Such a line is all code, and its first word is `m`. */
  lemma CodeOfTwoWords(line: string, m: string, t: string)
    requires line == m + " " + t && |m| > 0 && |t| > 0
    requires forall i :: 0 <= i < |m| ==> !IsCommaOrSpace(m[i]) && m[i] != ';'
    requires forall i :: 0 <= i < |t| ==> !IsCommaOrSpace(t[i]) && t[i] != ';'
    ensures Assembler.Code(line) == line
    ensures LeadingRun(line, x => !IsSpace(x)) == |m|
  {
    forall i | 0 <= i < |line|
      ensures line[i] != ';'
    {
      if i < |m| {
        assert line[i] == m[i];
      } else if i > |m| {
        assert line[i] == t[i - |m| - 1];
      }
    }
    assert LeadingRun(line, x => x != ';') == |line|;
    assert line[..|line|] == line;
    assert line[0] == m[0] && line[|line| - 1] == t[|t| - 1];
    assert BeforeFirst(line, ';') == line;
    StripUnspaced(line);
    assert forall i :: 0 <= i < |m| ==> line[i] == m[i];
    assert line[|m|] == ' ';
  }

  /** No mnemonic is longer than five letters. */
  lemma ShortMnemonics()
    ensures forall key :: key in OPCODES ==> |key| <= 5
  {
  }

  /** `AddressLiteral` of a non-negative address: `0x`, then hexadecimal
      digits, none of them whitespace, a comma or a semicolon. */
  lemma LiteralCharacters(address: int)
    requires address >= 0
    ensures var lit := AddressLiteral(address);
            |lit| >= 6 && forall i :: 0 <= i < |lit| ==> !IsCommaOrSpace(lit[i]) && lit[i] != ';'
  {
    var lit := AddressLiteral(address);
    var digits := ZFill(HexUpper(address), 4);
    assert lit == "0x" + digits;
    assert digits == ZFill(Render(ToDigits(address, 16), UPPER_HEX), 4);
    Alphabets();
    ZFilledDigits(address, 16, UPPER_HEX, 4);
    assert IsDigitsIn(digits, 16);
    forall i | 0 <= i < |lit|
      ensures !IsCommaOrSpace(lit[i]) && lit[i] != ';'
    {
      if i >= 2 {
        assert lit[i] == digits[i - 2];
      }
      CharOfLiteral(lit[i]);
    }
  }

  /** `0`, `x` and the hexadecimal digits separate nothing. */
  lemma CharOfLiteral(c: char)
    requires c == 'x' || DigitValue(c) < 16
    ensures !IsCommaOrSpace(c) && c != ';'
  {
  }

  /** The immediate `A` of `JA A` names a label, so `ReplaceLabels` rewrites
      every `A` of the line, the one inside the mnemonic included: the line
      becomes `J0x… 0x…`, whose mnemonic is unknown, and the translation
      fails. */
  lemma ReplaceReachesMnemonic(line: string, labels: map<string, int>)
    requires line == "JA A" && "A" in labels && labels["A"] >= 0
    ensures ReplaceLabels(line, labels) == "J" + AddressLiteral(labels["A"]) + " " + AddressLiteral(labels["A"])
    ensures TranslateWritten(line, labels).Failure?
  {
    var t := line[3..];
    assert t == "A";
    var lit := AddressLiteral(labels[t]);
    var mangled := line[..1] + lit + line[2..3] + lit;
    assert line[..1] == "J" && line[2..3] == " ";
    ParseJump(line);
    ReplaceInJump(line, lit);
    assert ReplaceLabels(line, labels) == mangled;
    MangledLineFails(mangled, labels[t], labels);
  }

  /** Read without the rewrite, `JA A` is the jump and the address of `A`:
      the second word is the address in binary, and for a 16-bit address
      it is the word `LabelOperandEncoded` gives. */
  lemma JumpToLabelEncoded(line: string, labels: map<string, int>)
    requires line == "JA A" && "A" in labels && labels["A"] >= 0
    ensures LineToBinary(line, labels).Success? && |LineToBinary(line, labels).value| == 2
    ensures var w := LineToBinary(line, labels).value[1];
            IsBits(w) && BinaryValue(w) == labels["A"]
            && (labels["A"] < 0x1_0000 ==> w == Assembler.ImmediateToBin(labels["A"]))
  {
    var t := line[3..];
    assert t == "A";
    ParseJump(line);
    IdentifierImmediate(t, labels);
    assert ImmediateToBin(t, labels).Success?;
    TwoWordLine(line, labels);
    if labels["A"] < 0x1_0000 {
      LabelOperandEncoded(line, labels);
    }
  }

  /** A known mnemonic with at most one register and a readable immediate
      is encoded in two words. */
  lemma TwoWordLine(line: string, labels: map<string, int>)
    requires var p := ParseLine(line);
             p.instr != "" && OpCodeToBinOpCode(p.instr).Success? && |p.regs| <= 1
             && p.imm.Some? && ImmediateToBin(p.imm.value, labels).Success?
    ensures LineToBinary(line, labels).Success? && |LineToBinary(line, labels).value| == 2
  {
  }

  /** `JA A` is the mnemonic JA with the immediate A. */
  lemma ParseJump(line: string)
    requires line == "JA A"
    ensures var m, t := line[..2], line[3..];
            ParseLine(line) == Assembler.ParsedLine(m, [], Some(t))
            && IsIdentifier(t) && Upper(t) == t && Strip(Upper(m)) in OPCODES
  {
    var m, t := line[..2], line[3..];
    assert line == m + " " + t;
    JumpWords(m, t);
    ParseOfTwoWords(line, m, t);
  }

  /** `JA` is a mnemonic and `A` an identifier, both upper case already. */
  lemma JumpWords(m: string, t: string)
    requires m == "JA" && t == "A"
    ensures Upper(m) == m && Upper(t) == t && IsIdentifier(t) && Strip(Upper(m)) in OPCODES
    ensures Registers([t]) == []
  {
    assert Upper(m) == m && Upper(t) == t;
    StripUnspaced(m);
  }

  /** Every `A` of `JA A` is replaced. */
  lemma ReplaceInJump(line: string, lit: string)
    requires line == "JA A"
    ensures ReplaceAll(line, line[3..], lit) == line[..1] + lit + line[2..3] + lit
  {
    var t := line[3..];
    assert line[1..][1..] == line[2..] && line[2..][1..] == line[3..] && line[3..][1..] == [];
    assert line[0] == 'J' && line[2] == ' ' && t[0] == 'A' && |t| == 1;
    assert line[..1][0] != t[0] && line[2..][..1][0] != t[0];
    assert line[..1] != t && line[1..][..1] == t && line[2..][..1] != t && line[3..][..1] == t;
    assert ReplaceAll(line[3..][1..], t, lit) == [];
    assert ReplaceAll(line[3..], t, lit) == lit;
    assert ReplaceAll(line[2..], t, lit) == line[2..3] + lit;
    assert ReplaceAll(line[1..], t, lit) == lit + line[2..3] + lit;
  }

  /** `J0x… 0x…` fails: its mnemonic is longer than any in the table. */
  lemma MangledLineFails(mangled: string, address: int, labels: map<string, int>)
    requires address >= 0 && mangled == "J" + AddressLiteral(address) + " " + AddressLiteral(address)
    ensures LineToBinary(mangled, labels).Failure?
  {
    var lit := AddressLiteral(address);
    var m := "J" + lit;
    MangledWords(address);
    assert mangled == m + " " + lit;
    ParseOfTwoWords(mangled, m, lit);
    LongMnemonicUnknown(m);
  }

  /** The two words of the mangled line separate nothing inside. */
  lemma MangledWords(address: int)
    requires address >= 0
    ensures var lit := AddressLiteral(address);
            var m := "J" + lit;
            |m| >= 7 && |lit| > 0
            && (forall i :: 0 <= i < |m| ==> !IsCommaOrSpace(m[i]) && m[i] != ';')
            && (forall i :: 0 <= i < |lit| ==> !IsCommaOrSpace(lit[i]) && lit[i] != ';')
  {
    var lit := AddressLiteral(address);
    LiteralCharacters(address);
    var m := "J" + lit;
    forall i | 0 <= i < |m|
      ensures !IsCommaOrSpace(m[i]) && m[i] != ';'
    {
      if i > 0 {
        assert m[i] == lit[i - 1];
      }
    }
  }

  /** A word of seven or more characters without whitespace is no
      mnemonic. */
  lemma LongMnemonicUnknown(m: string)
    requires |m| >= 7 && forall i :: 0 <= i < |m| ==> !IsCommaOrSpace(m[i])
    ensures OpCodeToBinOpCode(Upper(m)).Failure?
  {
    var instr := Upper(m);
    assert |instr| >= 7 && forall i :: 0 <= i < |instr| ==> !IsSpace(instr[i]);
    StripUnspaced(Upper(instr));
    ShortMnemonics();
    assert Strip(Upper(instr)) !in OPCODES;
  }

  // ---------------------------------------------------------------------
  // CompileMultiple

  /** The second loop over all segments, in order, each line translated by
      `translate` and each word converted by `BinToHex`. */
  function EmitAll(mem: seq<string>, segments: seq<Linker.Segment>, translate: Linker.Translator): (r: Result<seq<string>>)
    requires |mem| == Assembler.MAX_MEMORY
    ensures r.Success? ==> |r.value| == Assembler.MAX_MEMORY
    decreases |segments|
  {
    if segments == [] then Success(mem)
    else match EmitLines(mem, segments[0].lines, segments[0].base, translate, BinToHex)
      case Failure(e) => Failure(e)
      case Success(m) => EmitAll(m, segments[1..], translate)
  }

  /** `CompileMultiple(segments, output_file)` up to the file output, with
      labels resolved by `ImmediateToBin` alone: the 65536-word image, or
      the error that aborts the run.  Segments are neither skipped nor
      cropped, wherever their base address lies. */
  function Compile(segments: seq<Linker.Segment>): (r: Result<seq<string>>)
    ensures r.Success? ==> |r.value| == Assembler.MAX_MEMORY
  {
    EmitAll(Linker.BlankImage(), segments, LineTranslator(GlobalLabels(segments)))
  }

  /** `CompileMultiple` as written, with `ReplaceLabels` applied to every
      instruction line first. */
  function CompileAsWritten(segments: seq<Linker.Segment>): (r: Result<seq<string>>)
    ensures r.Success? ==> |r.value| == Assembler.MAX_MEMORY
  {
    EmitAll(Linker.BlankImage(), segments, WrittenTranslator(GlobalLabels(segments)))
  }

  /** Nothing keeps a segment out of the stack region: one based at any
      address of the image, `[0xF000, 0x10000)` included, has the first
      word of its first instruction stored at that address. */
  lemma StackRegionNotReserved(seg: Linker.Segment, words: seq<string>)
    requires 0 <= seg.base < Assembler.MAX_MEMORY
    requires seg.lines != [] && !IsLabel(seg.lines[0])
    requires LineToBinary(seg.lines[0], GlobalLabels([seg])) == Success(words) && words != []
    requires Compile([seg]).Success?
    ensures BinToHex(words[0]) == Success(Compile([seg]).value[seg.base])
    ensures BinToHex(words[0]) == Success(Assembler.BinToHex(words[0]))
  {
    var translate := LineTranslator(GlobalLabels([seg]));
    EmitOneSegment(Linker.BlankImage(), seg, translate);
    FirstWordStored(Linker.BlankImage(), seg.lines, seg.base, translate, BinToHex, words);
  }

  /** `EmitAll` of a single segment. */
  lemma EmitOneSegment(mem: seq<string>, seg: Linker.Segment, translate: Linker.Translator)
    requires |mem| == Assembler.MAX_MEMORY
    ensures EmitAll(mem, [seg], translate) == EmitLines(mem, seg.lines, seg.base, translate, BinToHex)
  {
    assert [seg][1..] == [];
  }

  // ---------------------------------------------------------------------
  // The imperative CompileMultiple

  /** `memory[addr] = BinToHex(b); addr += 1` for each word of a line. */
  method WriteWords(memory: array<string>, words: seq<string>, addr: int, hex: HexConverter) returns (r: Result<()>)
    requires memory.Length == Assembler.MAX_MEMORY
    modifies memory
    ensures r.Success? ==> EmitWords(old(memory[..]), words, addr, hex) == Success(memory[..])
    ensures r.Failure? ==> EmitWords(old(memory[..]), words, addr, hex) == Failure(r.error)
  {
    var k := 0;
    while k < |words|
      invariant 0 <= k <= |words|
      invariant EmitWords(old(memory[..]), words, addr, hex) == EmitWords(memory[..], words[k..], addr + k, hex)
    {
      assert words[k..][0] == words[k] && words[k..][1..] == words[k + 1..];
      var h := hex(words[k]);
      if h.Failure? {
        return Failure(h.error);
      }
      var index := Linker.ListIndex(addr + k);
      if index.None? {
        return Failure("list assignment index out of range");
      }
      ghost var before := memory[..];
      memory[index.value] := h.value;
      assert memory[..] == before[index.value := h.value];
      k := k + 1;
    }
    assert words[k..] == [];
    return Success(());
  }

  /** One pass of the line loop, on the first of `lines`: a label is
      skipped, an instruction line is translated and its words stored at
      `addr`; the result is the address after them. */
  method WriteLine(memory: array<string>, lines: seq<string>, addr: int, translate: Linker.Translator,
                   hex: HexConverter) returns (r: Result<int>)
    requires memory.Length == Assembler.MAX_MEMORY && lines != []
    modifies memory
    ensures r.Failure? ==> EmitLines(old(memory[..]), lines, addr, translate, hex) == Failure(r.error)
    ensures r.Success? ==>
              EmitLines(old(memory[..]), lines, addr, translate, hex)
              == EmitLines(memory[..], lines[1..], r.value, translate, hex)
  {
    if IsLabel(lines[0]) {
      return Success(addr);
    }
    var words := translate(lines[0]);
    if words.Failure? {
      return Failure(words.error);
    }
    var written := WriteWords(memory, words.value, addr, hex);
    if written.Failure? {
      return Failure(written.error);
    }
    return Success(addr + |words.value|);
  }

  /** The line loop of `CompileMultiple` for one segment. */
  method WriteSegment(memory: array<string>, seg: Linker.Segment, translate: Linker.Translator) returns (r: Result<()>)
    requires memory.Length == Assembler.MAX_MEMORY
    modifies memory
    ensures r.Success? ==> EmitLines(old(memory[..]), seg.lines, seg.base, translate, BinToHex) == Success(memory[..])
    ensures r.Failure? ==> EmitLines(old(memory[..]), seg.lines, seg.base, translate, BinToHex) == Failure(r.error)
  {
    var addr := seg.base;
    var i := 0;
    while i < |seg.lines|
      invariant 0 <= i <= |seg.lines|
      invariant EmitLines(old(memory[..]), seg.lines, seg.base, translate, BinToHex)
                == EmitLines(memory[..], seg.lines[i..], addr, translate, BinToHex)
    {
      assert seg.lines[i..][1..] == seg.lines[i + 1..];
      var next := WriteLine(memory, seg.lines[i..], addr, translate, BinToHex);
      if next.Failure? {
        return Failure(next.error);
      }
      addr := next.value;
      i := i + 1;
    }
    assert seg.lines[i..] == [];
    return Success(());
  }

  /** The first loop of `CompileMultiple`: the labels of every segment,
      later segments overriding earlier ones. */
  method GatherLabels(segments: seq<Linker.Segment>) returns (globalLabels: map<string, int>)
    ensures globalLabels == GlobalLabels(segments)
  {
    globalLabels := map[];
    var i := 0;
    while i < |segments|
      invariant 0 <= i <= |segments|
      invariant globalLabels == GlobalLabels(segments[..i])
    {
      assert segments[..i + 1][..i] == segments[..i];
      var labelMap := FirstPass(segments[i].lines, segments[i].base);
      globalLabels := globalLabels + labelMap;
      i := i + 1;
    }
    assert segments[..|segments|] == segments;
  }

  /** `CompileMultiple`: the labels of all segments, then every segment
      written into a blank image in order, each instruction line passed
      through `ReplaceLabels` before it is translated. */
  method CompileMultiple(segments: seq<Linker.Segment>) returns (r: Result<seq<string>>)
    ensures r == CompileAsWritten(segments)
  {
    var globalLabels := GatherLabels(segments);
    var memory := new string[Assembler.MAX_MEMORY](_ => "0000");
    assert memory[..] == Linker.BlankImage();
    var translate := WrittenTranslator(globalLabels);
    var j := 0;
    while j < |segments|
      invariant 0 <= j <= |segments|
      invariant EmitAll(Linker.BlankImage(), segments, translate) == EmitAll(memory[..], segments[j..], translate)
    {
      assert segments[j..][0] == segments[j] && segments[j..][1..] == segments[j + 1..];
      var written := WriteSegment(memory, segments[j], translate);
      if written.Failure? {
        return Failure(written.error);
      }
      j := j + 1;
    }
    assert segments[j..] == [];
    return Success(memory[..]);
  }
}
