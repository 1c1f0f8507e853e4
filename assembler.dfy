/** The line-level assembler of the linker `tools/compiler.py`: mnemonic
    and register encoding, line tokenising, word counting and the
    translation of one line into 16-bit words written as strings of 0s and
    1s, the way the Python code builds them. */
module Assembler {
  import opened Wrappers
  import opened Text
  import opened Labels

  /** The stack region the linker keeps free, and the image size. */
  const STACK_START: int := 0xF000
  const STACK_END: int := 0xFFFF
  const MAX_MEMORY: int := 0x1_0000

  /** `is_stack_overlap(start_addr, instr_count)`. */
  predicate IsStackOverlap(startAddr: int, instrCount: int) {
    startAddr < STACK_END && startAddr + instrCount > STACK_START
  }

  /** For a segment that starts below the stack, overlapping the stack is
      the same as taking more words than the linker's cropping bound
      `STACK_START - base` allows. */
  lemma StackOverlapIsCropCondition(base: int, count: int)
    requires base < STACK_START
    ensures IsStackOverlap(base, count) <==> count > STACK_START - base
  {
  }

  /** The mnemonic table of `OpCodeToBinOpCode`: opcode (3 bits) and
      sub-opcode (4 bits). */
  const OPCODES: map<string, (string, string)> := map[
    "ADD" := ("000", "0000"), "SUB" := ("000", "0001"), "MUL" := ("000", "0010"),
    "DIV" := ("000", "0011"), "MOD" := ("000", "0100"), "AND" := ("000", "0101"),
    "OR" := ("000", "0110"), "NAND" := ("000", "0111"), "NOR" := ("000", "1000"),
    "XOR" := ("000", "1001"), "NOT" := ("001", "1011"), "CMP" := ("001", "1010"),
    "MOV" := ("010", "0000"), "LOAD" := ("011", "0000"), "STORE" := ("011", "0001"),
    "JMP" := ("100", "0000"), "JE" := ("100", "0001"), "JNE" := ("100", "0010"),
    "JB" := ("100", "0011"), "JBE" := ("100", "0100"), "JA" := ("100", "0101"),
    "JAE" := ("100", "0110"), "JL" := ("100", "0111"), "JLE" := ("100", "1000"),
    "JG" := ("100", "1001"), "JGE" := ("100", "1010"), "JSR" := ("100", "1011"),
    "RTS" := ("100", "1100"), "HLT" := ("111", "0000"), "PUSH" := ("101", "0000"),
    "POP" := ("101", "0001"), "STORER" := ("011", "0010")]

  /** The two special first words the encoder tests for. */
  const STORE_BITS: string := "0110001"
  const POP_BITS: string := "1010001"
  const CMP_BITS: string := "0011010"
  const STORER_BITS: string := "0110010"

  /** Every entry of a mnemonic table is a 3-bit opcode and a 4-bit
      sub-opcode. */
  predicate WellFormedTable(table: map<string, (string, string)>) {
    forall m :: m in table ==> IsBitField(table[m].0, 3) && IsBitField(table[m].1, 4)
  }

  lemma OpcodeTableWellFormed()
    ensures WellFormedTable(OPCODES)
  {
    FieldsAreBits();
    TableUsesFields();
  }

  lemma FieldsAreBits()
    ensures forall s :: s in OPCODE_FIELDS ==> IsBitField(s, 3)
    ensures forall s :: s in SUBOPCODE_FIELDS ==> IsBitField(s, 4)
  {
  }

  lemma TableUsesFields()
    ensures forall m :: m in OPCODES ==> OPCODES[m].0 in OPCODE_FIELDS && OPCODES[m].1 in SUBOPCODE_FIELDS
  {
  }

  /** The opcodes and sub-opcodes the table uses. */
  const OPCODE_FIELDS: set<string> := {"000", "001", "010", "011", "100", "101", "111"}
  const SUBOPCODE_FIELDS: set<string> := {
    "0000", "0001", "0010", "0011", "0100", "0101", "0110", "0111",
    "1000", "1001", "1010", "1011", "1100"}

  /** `OpCodeToBinOpCode`: the seven opcode bits of a mnemonic in any
      letter case; an unknown mnemonic raises `ValueError`. */
  function OpCodeToBinOpCode(instruction: string): (r: Result<string>)
    ensures r.Success? <==> Strip(Upper(instruction)) in OPCODES
    ensures r.Success? ==> |r.value| == 7 && IsBits(r.value)
    ensures r.Failure? ==> r.error == "Unknown instruction: " + Strip(Upper(instruction))
  {
    OpcodeTableWellFormed();
    Lookup(OPCODES, instruction)
  }

  /** The table lookup shared with the older assembler. */
  function Lookup(table: map<string, (string, string)>, instruction: string): (r: Result<string>)
    requires WellFormedTable(table)
    ensures r.Success? <==> Strip(Upper(instruction)) in table
    ensures r.Success? ==> |r.value| == 7 && IsBits(r.value)
    ensures r.Failure? ==> r.error == "Unknown instruction: " + Strip(Upper(instruction))
  {
    var key := Strip(Upper(instruction));
    if key in table then Success(table[key].0 + table[key].1)
    else Failure("Unknown instruction: " + key)
  }

  /** A mnemonic is found whatever the case of its letters and whatever
      whitespace surrounds it. */
  lemma {:induction false} MnemonicCaseInsensitive(m: string, written: string)
    requires m in OPCODES && Strip(Upper(written)) == m
    ensures OpCodeToBinOpCode(written) == Success(OPCODES[m].0 + OPCODES[m].1)
  {
  }

  /** `re.fullmatch(r"R[0-7]", t)`. */
  predicate IsRegisterName(t: string) {
    |t| == 2 && t[0] == 'R' && '0' <= t[1] <= '7'
  }

  function RegisterNumber(t: string): (n: nat)
    requires IsRegisterName(t)
    ensures n < 8
  {
    t[1] as int - '0' as int
  }

  /** The `register_map` of `DataToBinData`. */
  const REGISTER_CODES: map<string, string> := map[
    "R0" := "000", "R1" := "001", "R2" := "010", "R3" := "011",
    "R4" := "100", "R5" := "101", "R6" := "110", "R7" := "111"]

  /** The register table holds exactly the eight register names, each as
      its number in three bits. */
  lemma RegisterCodes(t: string)
    ensures t in REGISTER_CODES <==> IsRegisterName(t)
    ensures t in REGISTER_CODES ==>
      |REGISTER_CODES[t]| == 3 && IsBits(REGISTER_CODES[t]) && BinaryValue(REGISTER_CODES[t]) == RegisterNumber(t)
  {
    if IsRegisterName(t) {
      assert t == ['R', t[1]];
      ThreeBits(REGISTER_CODES[t]);
    }
  }

  /** `DataToBinData(regs)`: three bits per register, in order. */
  function DataToBinData(regs: seq<string>): (r: string)
    requires forall k :: 0 <= k < |regs| ==> IsRegisterName(regs[k])
    ensures |r| == 3 * |regs| && IsBits(r)
    ensures forall k :: 0 <= k < |regs| ==> BinaryValue(r[3 * k..3 * k + 3]) == RegisterNumber(regs[k])
  {
    if regs == [] then ""
    else
      RegisterCodes(regs[0]);
      var rest := DataToBinData(regs[1..]);
      var r := REGISTER_CODES[regs[0]] + rest;
      assert forall k :: 1 <= k < |regs| ==> r[3 * k..3 * k + 3] == rest[3 * (k - 1)..3 * (k - 1) + 3];
      assert r[..3] == REGISTER_CODES[regs[0]];
      r
  }

  /** `ParseLine`'s result: the upper-cased mnemonic, the register operands
      and the immediate expression, if any. */
  datatype ParsedLine = ParsedLine(instr: string, regs: seq<string>, imm: Option<string>)

  /** The operands that are register names, upper-cased, in order. */
  function RegisterTokens(tokens: seq<string>): (regs: seq<string>)
    ensures forall k :: 0 <= k < |regs| ==> IsRegisterName(regs[k])
    ensures |regs| <= |tokens|
  {
    if tokens == [] then []
    else if IsRegisterName(Upper(tokens[0])) then [Upper(tokens[0])] + RegisterTokens(tokens[1..])
    else RegisterTokens(tokens[1..])
  }

  /** The operands whose upper-cased form is not among `regs`. */
  function OtherTokens(tokens: seq<string>, regs: seq<string>): (rest: seq<string>)
    ensures forall k :: 0 <= k < |rest| ==> rest[k] in tokens && Upper(rest[k]) !in regs
  {
    if tokens == [] then []
    else if Upper(tokens[0]) !in regs then [tokens[0]] + OtherTokens(tokens[1..], regs)
    else OtherTokens(tokens[1..], regs)
  }

  /** The statement part of a line: before the first `;`, stripped. */
  function Code(line: string): string {
    Strip(BeforeFirst(line, ';'))
  }

  /** `ParseLine(line)`: the first word is the mnemonic; the rest is split on
      commas and whitespace; the register tokens are collected and every
      other token is joined with spaces into the immediate. */
  function ParseLine(line: string): (p: ParsedLine)
    ensures p.instr == "" <==> Code(line) == ""
    ensures p.instr != "" ==> All(p.instr, x => !IsSpace(x))
    ensures forall k :: 0 <= k < |p.regs| ==> IsRegisterName(p.regs[k])
    ensures p.imm.Some? ==> |p.imm.value| > 0 && p.instr != ""
  {
    var code := Code(line);
    if code == "" then ParsedLine("", [], None)
    else
      var n := LeadingRun(code, x => !IsSpace(x));
      var tokens := Tokens(code[n..], IsCommaOrSpace);
      var regs := RegisterTokens(tokens);
      var rest := OtherTokens(tokens, regs);
      assert rest != [] ==> rest[0] in tokens;
      ParsedLine(Upper(code[..n]), regs, if rest == [] then None else Some(JoinSpace(rest)))
  }

  /** `RegisterTokens` is a filter: it works token by token, keeping the
      upper-cased register names in order. */
  lemma {:induction false} RegisterTokensAppend(a: seq<string>, b: seq<string>)
    ensures RegisterTokens(a + b) == RegisterTokens(a) + RegisterTokens(b)
    ensures |a| == 1 ==> RegisterTokens(a) == (if IsRegisterName(Upper(a[0])) then [Upper(a[0])] else [])
    decreases |a|
  {
    if a != [] {
      assert (a + b)[0] == a[0] && (a + b)[1..] == a[1..] + b;
      RegisterTokensAppend(a[1..], b);
    } else {
      assert a + b == b;
    }
  }

  /** `OtherTokens` is a filter: it works token by token, keeping in order
      the tokens whose upper-cased form is not in `regs`. */
  lemma {:induction false} OtherTokensAppend(a: seq<string>, b: seq<string>, regs: seq<string>)
    ensures OtherTokens(a + b, regs) == OtherTokens(a, regs) + OtherTokens(b, regs)
    ensures |a| == 1 ==> OtherTokens(a, regs) == (if Upper(a[0]) !in regs then [a[0]] else [])
    decreases |a|
  {
    if a != [] {
      var ab := a + b;
      assert ab[0] == a[0] && ab[1..] == a[1..] + b;
      OtherTokensAppend(a[1..], b, regs);
      var head := if Upper(a[0]) !in regs then [a[0]] else [];
      assert OtherTokens(a, regs) == head + OtherTokens(a[1..], regs);
      assert OtherTokens(ab, regs) == head + OtherTokens(ab[1..], regs);
      var x, y := OtherTokens(a[1..], regs), OtherTokens(b, regs);
      assert head + (x + y) == (head + x) + y;
      assert |a| == 1 ==> a[1..] == [];
    } else {
      assert a + b == b;
      assert [] + OtherTokens(b, regs) == OtherTokens(b, regs);
    }
  }

  /** A word of a line: non-empty, with no comma, whitespace or `;`. */
  predicate IsWord(w: string) {
    |w| > 0 && forall i :: 0 <= i < |w| ==> !IsCommaOrSpace(w[i]) && w[i] != ';'
  }

  /** Parsing a line written as a mnemonic and operand words separated by
      single spaces gives back the upper-cased mnemonic, the register
      operands in order, and the other operands joined by spaces. */
  lemma ParseLineOfWords(line: string, m: string, ts: seq<string>)
    requires line == m + " " + JoinSpace(ts)
    requires IsWord(m) && |ts| > 0 && forall k :: 0 <= k < |ts| ==> IsWord(ts[k])
    ensures var rest := OtherTokens(ts, RegisterTokens(ts));
            ParseLine(line) == ParsedLine(Upper(m), RegisterTokens(ts), if rest == [] then None else Some(JoinSpace(rest)))
  {
    LineOfWords(line, m, ts);
    ParseOfCode(line, m, ts);
  }

  /** `ParseLine` of a line that is all code, with first word `m` and
      operand tokens `ts`. */
  lemma ParseOfCode(line: string, m: string, ts: seq<string>)
    requires 0 < |m| <= |line| && Code(line) == line && line[..|m|] == m
    requires LeadingRun(line, x => !IsSpace(x)) == |m| && Tokens(line[|m|..], IsCommaOrSpace) == ts
    ensures var rest := OtherTokens(ts, RegisterTokens(ts));
            ParseLine(line) == ParsedLine(Upper(m), RegisterTokens(ts), if rest == [] then None else Some(JoinSpace(rest)))
  {
  }

  /** Such a line is all code, its first word is `m`, and the rest splits
      into `ts`. */
  lemma LineOfWords(line: string, m: string, ts: seq<string>)
    requires line == m + " " + JoinSpace(ts)
    requires IsWord(m) && |ts| > 0 && forall k :: 0 <= k < |ts| ==> IsWord(ts[k])
    ensures Code(line) == line && LeadingRun(line, x => !IsSpace(x)) == |m|
    ensures Tokens(line[|m|..], IsCommaOrSpace) == ts && line[..|m|] == m
  {
    JoinedWords(ts);
    CodeOfWords(line, m, JoinSpace(ts));
    OperandTokens(line, m, ts);
  }

  /** After the mnemonic, the line splits into the operand words again. */
  lemma OperandTokens(line: string, m: string, ts: seq<string>)
    requires line == m + " " + JoinSpace(ts)
    requires |ts| > 0 && forall k :: 0 <= k < |ts| ==> IsWord(ts[k])
    ensures Tokens(line[|m|..], IsCommaOrSpace) == ts
  {
    var j := JoinSpace(ts);
    AfterFirst(m, " ", j);
    TokensSkip(' ', j, IsCommaOrSpace);
    forall k | 0 <= k < |ts|
      ensures |ts[k]| > 0 && All(ts[k], x => !IsCommaOrSpace(x))
    {
      assert IsWord(ts[k]);
    }
    TokensOfJoin(ts, IsCommaOrSpace);
  }

  /** Words joined by spaces hold no `;` and do not end in whitespace. */
  lemma JoinedWords(ts: seq<string>)
    requires |ts| > 0 && forall k :: 0 <= k < |ts| ==> IsWord(ts[k])
    ensures var j := JoinSpace(ts);
            |j| > 0 && !IsSpace(j[|j| - 1]) && forall i :: 0 <= i < |j| ==> j[i] != ';'
  {
    forall k | 0 <= k < |ts|
      ensures |ts[k]| > 0 && All(ts[k], x => x != ';')
    {
      assert IsWord(ts[k]);
    }
    JoinSpaceChars(ts, x => x != ';');
    JoinSpaceLast(ts);
    assert IsWord(ts[|ts| - 1]);
  }

  /** A line `m + " " + j` with no `;` and no whitespace at its ends is all
      code, and its first word is `m`. */
  lemma CodeOfWords(line: string, m: string, j: string)
    requires line == m + " " + j && IsWord(m)
    requires |j| > 0 && !IsSpace(j[|j| - 1]) && forall i :: 0 <= i < |j| ==> j[i] != ';'
    ensures Code(line) == line && LeadingRun(line, x => !IsSpace(x)) == |m| && line[..|m|] == m
  {
    forall i | 0 <= i < |line|
      ensures line[i] != ';'
    {
      if i < |m| {
        assert line[i] == m[i];
      } else if i > |m| {
        assert line[i] == j[i - |m| - 1];
      }
    }
    assert LeadingRun(line, x => x != ';') == |line|;
    assert line[..|line|] == line;
    assert line[0] == m[0] && line[|line| - 1] == j[|j| - 1];
    assert BeforeFirst(line, ';') == line;
    StripUnspaced(line);
    assert forall i :: 0 <= i < |m| ==> line[i] == m[i];
    assert line[|m|] == ' ';
  }

  /** `InstructionWordCount(line)`. */
  function InstructionWordCount(line: string): (n: nat)
    ensures n <= 2
  {
    var p := ParseLine(line);
    if p.instr == "" then 0 else if p.imm.Some? then 2 else 1
  }

  /** `FirstPass(lines, start_address)` of the linker. */
  method FirstPass(lines: seq<string>, start: int) returns (labels: map<string, int>)
    ensures labels == LabelsOf(lines, start, InstructionWordCount)
  {
    labels := Labels.FirstPass(lines, start, InstructionWordCount);
  }

  /** The value of an immediate.  A label or constant name is replaced by
      its value first (`ReplaceLabelsAndConstants`, labels before
      constants); any other expression is given to `evaluate`, which stands
      for Python's `eval` after name substitution and is `None` where it
      raises or yields a non-integral value. */
  function ImmediateValue(imm: string, labels: map<string, int>, constants: map<string, int>,
                          evaluate: string -> Option<int>): (v: Option<int>)
    ensures Upper(imm) in labels ==> v == Some(labels[Upper(imm)])
    ensures Upper(imm) !in labels && Upper(imm) in constants ==> v == Some(constants[Upper(imm)])
  {
    var key := Upper(imm);
    if key in labels then Some(labels[key])
    else if key in constants then Some(constants[key])
    else evaluate(imm)
  }

  /** `ImmediateToBin` after evaluation: the value masked with `0xFFFF`,
      written in sixteen binary digits. */
  function ImmediateToBin(value: int): (bits: string)
    ensures |bits| == 16 && IsBits(bits)
    ensures BinaryValue(bits) == value % 0x1_0000
  {
    var masked := value % 0x1_0000;
    BinWord(masked);
    ZFill(Bin(masked), 16)
  }

  /** The immediate word of a line, or the error `ImmediateToBin` raises. */
  function ImmediateWord(imm: string, labels: map<string, int>, constants: map<string, int>,
                         evaluate: string -> Option<int>): (r: Result<string>)
    ensures r.Success? ==> IsBitField(r.value, 16)
    ensures r.Failure? <==> ImmediateValue(imm, labels, constants, evaluate).None?
    ensures r.Failure? ==> r.error == "Invalid immediate value or expression: " + imm
  {
    match ImmediateValue(imm, labels, constants, evaluate)
    case None => Failure("Invalid immediate value or expression: " + imm)
    case Some(v) => Success(ImmediateToBin(v))
  }

  /** The instruction word of `LineToBinary`: opcode bits, then the
      register fields as the encoder places them.  With one register and an
      immediate, STORE puts the register in bits 5-3 and every other
      instruction in bits 8-6; with one register and no immediate, POP uses
      bits 8-6 and every other instruction bits 5-3; with two registers, CMP
      and STORER use bits 5-0 and every other instruction bits 8-3. */
  function FirstWord(op: string, regs: seq<string>, hasImm: bool): (w: string)
    requires |op| == 7 && IsBits(op)
    requires |regs| <= 3 && forall k :: 0 <= k < |regs| ==> IsRegisterName(regs[k])
    ensures IsBitField(w, 16) && w[..7] == op
  {
    var data := DataToBinData(regs);
    var fields :=
      if |regs| == 0 then "000000000"
      else if |regs| == 1 then
        if hasImm then (if op == STORE_BITS then "000" + data + "000" else data + "000000")
        else if op == POP_BITS then data + "000000"
        else "000" + data + "000"
      else if |regs| == 2 then
        if op == CMP_BITS || op == STORER_BITS then "000" + data else data + "000"
      else data;
    assert (op + fields)[..7] == op;
    op + fields
  }

  /** `LineToBinary(line, label_map, constants_map)`: no word for an empty
      line; otherwise the instruction word, followed by the immediate word
      when the line has at most one register and an immediate.  A line with
      four or more registers yields nothing (`None` in the source). */
  function LineToBinary(line: string, labels: map<string, int>, constants: map<string, int>,
                        evaluate: string -> Option<int>): (r: Result<seq<string>>)
    ensures r.Success? ==> |r.value| <= 2
    ensures r.Success? ==> forall k :: 0 <= k < |r.value| ==> IsBitField(r.value[k], 16)
    ensures r.Success? && |r.value| > 0 ==>
              |r.value[0]| == 16 && OpCodeToBinOpCode(ParseLine(line).instr) == Success(r.value[0][..7])
  {
    var p := ParseLine(line);
    EncodeParsed(p, OpCodeToBinOpCode(p.instr), labels, constants, evaluate)
  }

  /** The words of a parsed line. */
  function EncodeParsed(p: ParsedLine, opcode: Result<string>, labels: map<string, int>, constants: map<string, int>,
                        evaluate: string -> Option<int>): (r: Result<seq<string>>)
    requires forall k :: 0 <= k < |p.regs| ==> IsRegisterName(p.regs[k])
    requires opcode.Success? ==> |opcode.value| == 7 && IsBits(opcode.value)
    ensures r.Success? ==> |r.value| <= 2
    ensures r.Success? ==> forall k :: 0 <= k < |r.value| ==> IsBitField(r.value[k], 16)
    ensures r.Success? && |r.value| > 0 ==>
              |r.value[0]| == 16 && opcode == Success(r.value[0][..7]) && |p.regs| <= 3
    ensures r.Success? ==> (|r.value| == 2 <==> p.instr != "" && |p.regs| <= 1 && p.imm.Some?)
    ensures r.Success? ==> (r.value == [] <==> p.instr == "" || |p.regs| > 3)
  {
    if p.instr == "" then Success([])
    else
      match opcode
      case Failure(e) => Failure(e)
      case Success(op) => if |p.regs| > 3 then Success([]) else EncodeOperands(op, p, labels, constants, evaluate)
  }

  /** The words of a parsed line with a known mnemonic and at most three
      registers. */
  function EncodeOperands(op: string, p: ParsedLine, labels: map<string, int>, constants: map<string, int>,
                          evaluate: string -> Option<int>): (r: Result<seq<string>>)
    requires |op| == 7 && IsBits(op)
    requires |p.regs| <= 3 && forall k :: 0 <= k < |p.regs| ==> IsRegisterName(p.regs[k])
    ensures r.Success? ==> 1 <= |r.value| <= 2 && r.value[0] == FirstWord(op, p.regs, p.imm.Some?)
    ensures r.Success? ==> (|r.value| == 2 <==> |p.regs| <= 1 && p.imm.Some?)
    ensures r.Success? ==> forall k :: 0 <= k < |r.value| ==> IsBitField(r.value[k], 16)
    ensures r.Failure? ==> |p.regs| <= 1 && p.imm.Some?
  {
    var w := FirstWord(op, p.regs, p.imm.Some?);
    if |p.regs| <= 1 && p.imm.Some? then
      match ImmediateWord(p.imm.value, labels, constants, evaluate)
      case Failure(e) => Failure(e)
      case Success(imm) => WordsAreFields([w, imm]); Success([w, imm])
    else WordsAreFields([w]); Success([w])
  }

  /** Each of one or two sixteen-bit fields is one. */
  lemma WordsAreFields(ws: seq<string>)
    requires 1 <= |ws| <= 2 && IsBitField(ws[0], 16) && (|ws| == 2 ==> IsBitField(ws[1], 16))
    ensures forall k :: 0 <= k < |ws| ==> IsBitField(ws[k], 16)
  {
  }

  /** The words a line produces agree with the count the first pass used,
      except that registers beyond the first one crowd out the immediate
      and four or more registers drop the line. */
  lemma WordCountOfLine(line: string, labels: map<string, int>, constants: map<string, int>,
                        evaluate: string -> Option<int>)
    requires LineToBinary(line, labels, constants, evaluate).Success?
    ensures var ws := LineToBinary(line, labels, constants, evaluate).value;
            var p := ParseLine(line);
            |ws| <= InstructionWordCount(line)
            && (|p.regs| <= 1 ==> |ws| == InstructionWordCount(line))
            && (2 <= |p.regs| <= 3 ==> |ws| == 1)
            && (|p.regs| >= 4 ==> ws == [])
  {
  }

  /** `BinToHex(binary)`: the value of a bit string in lowercase
      hexadecimal, zero-filled to four digits. */
  function BinToHex(binary: string): (hex: string)
    requires IsBits(binary) && |binary| > 0
    ensures ParseDigits(hex, 16) == Some(BinaryValue(binary))
    ensures |hex| == 4 <==> BinaryValue(binary) < 0x1_0000
    ensures forall i :: 0 <= i < |hex| ==> IsLowerHexDigit(hex[i])
  {
    HexWord(BinaryValue(binary));
    ZFill(Hex(BinaryValue(binary)), 4)
  }

  /** A 16-bit word always becomes exactly four hex digits. */
  lemma WordToHex(bits: string)
    requires |bits| == 16 && IsBits(bits)
    ensures |BinToHex(bits)| == 4
  {
    BinaryBelow(bits);
    WordPowers();
  }
}
