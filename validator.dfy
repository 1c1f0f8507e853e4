/** The assembly checker of the editor's language server
    (`validate_org_source`).  It reads a program line by line, reports
    malformed labels, unknown mnemonics, wrong operand counts, bad
    registers, immediates and jump targets as it goes, records every operand
    that can only be a label, and after the last line reports each recorded
    label that no line defines.  Every report is an error. */
module Validator {
  import opened Wrappers
  import opened Text
  import Assembler
  import Legacy

  // ---------------------------------------------------------------------
  // Reports

  datatype Severity = Error | Warning | Information | Hint

  /** An LSP diagnostic: the line, the character range on it, the message,
      the severity and the name of the server that reports it. */
  datatype Diagnostic = Diagnostic(line: int, startChar: int, endChar: int, message: string,
                                   severity: Severity, source: string)

  const SOURCE: string := "Organ 16 Language"

  /** `make_error`. */
  function MakeError(line: int, startChar: int, endChar: int, message: string): Diagnostic {
    Diagnostic(line, startChar, endChar, message, Error, SOURCE)
  }

  /** Every report is an error from this server. */
  predicate AllErrors(ds: seq<Diagnostic>) {
    forall i :: 0 <= i < |ds| ==> ds[i].severity == Error && ds[i].source == SOURCE
  }

  /** The messages of a list of reports, in order. */
  function Messages(ds: seq<Diagnostic>): (ms: seq<string>)
    ensures |ms| == |ds|
  {
    seq(|ds|, i requires 0 <= i < |ds| => ds[i].message)
  }

  /** `str(n)`. */
  function Decimal(n: nat): (s: string)
    ensures |s| > 0 && IsDigits(s)
  {
    if n < 10 then [('0' as int + n) as char] else Decimal(n / 10) + [('0' as int + n % 10) as char]
  }

  // ---------------------------------------------------------------------
  // Mnemonics, registers and immediates

  /** The operand shape a mnemonic is checked against. */
  datatype Format = RRR | RR | RI | MEM | JMP | HLT | R

  /** `VALID_OPCODES`: each mnemonic's format and operand count. */
  const VALID_OPCODES: map<string, (Format, nat)> := map[
    "ADD" := (RRR, 3), "SUB" := (RRR, 3), "MUL" := (RRR, 3), "DIV" := (RRR, 3),
    "MOD" := (RRR, 3), "AND" := (RRR, 3), "OR" := (RRR, 3), "NAND" := (RRR, 3),
    "NOR" := (RRR, 3), "XOR" := (RRR, 3), "NOT" := (RR, 2), "MOV" := (RI, 2),
    "LOAD" := (MEM, 2), "STORE" := (MEM, 2), "STORER" := (RR, 2), "JMP" := (JMP, 1),
    "JE" := (JMP, 1), "JNE" := (JMP, 1), "JB" := (JMP, 1), "JBE" := (JMP, 1),
    "JA" := (JMP, 1), "JAE" := (JMP, 1), "JL" := (JMP, 1), "JLE" := (JMP, 1),
    "JG" := (JMP, 1), "JGE" := (JMP, 1), "JSR" := (JMP, 1), "RTS" := (JMP, 0),
    "HLT" := (HLT, 0), "CMP" := (RR, 2), "PUSH" := (R, 1), "POP" := (R, 1)]

  /** `VALID_REGISTERS`. */
  const VALID_REGISTERS: set<string> := {"R0", "R1", "R2", "R3", "R4", "R5", "R6", "R7"}

  /** `is_invalid_register`: upper-cased, the token starts with R but is
      not one of R0-R7. */
  predicate IsInvalidRegister(t: string) {
    var u := Upper(t);
    |u| > 0 && u[0] == 'R' && u !in VALID_REGISTERS
  }

  /** `IMMEDIATE_REGEX`, `^(0x[0-9a-fA-F]+|0b[01]+|\d+)$`: a hexadecimal
      number after a lower-case `0x`, a binary one after `0b`, or decimal
      digits. */
  predicate IsImmediate(t: string) {
    (|t| >= 2 && t[..2] == "0x" && IsDigitsIn(t[2..], 16))
    || (|t| >= 2 && t[..2] == "0b" && IsDigitsIn(t[2..], 2))
    || IsDigits(t)
  }

  // ---------------------------------------------------------------------
  // Lines

  /** `line.split('#')[0].split(';')[0].strip()`. */
  function Code(line: string): string {
    Strip(BeforeFirst(BeforeFirst(line, '#'), ';'))
  }

  /** `code.split(':', 1)[0].strip()`: the label of a line with a colon. */
  function LabelOf(code: string): string {
    Strip(BeforeFirst(code, ':'))
  }

  /** `code.split(':', 1)[1].strip()`: what follows the label. */
  function AfterLabel(code: string): string
    requires ':' in code
  {
    var part := BeforeFirst(code, ':');
    assert |part| < |code| by {
      var i :| 0 <= i < |code| && code[i] == ':';
      assert forall j :: 0 <= j < |part| ==> part[j] == code[j] && part[j] != ':';
    }
    Strip(code[|part| + 1..])
  }

  /** `tok.strip(',')`. */
  function StripCommas(t: string): string {
    Trim(t, c => c == ',')
  }

  /** `[tok.strip(',') for tok in code.split()]`. */
  function TokensOf(code: string): (ts: seq<string>)
    ensures |ts| == |Tokens(code, IsSpace)|
  {
    var words := Tokens(code, IsSpace);
    seq(|words|, i requires 0 <= i < |words| => StripCommas(words[i]))
  }

  /** A line as the checker reads it: its text, the label before a colon
      in its code, if there is a colon, and the mnemonic and operands of the
      instruction after it, if there is one. */
  datatype SourceLine = SourceLine(text: string, labelName: Option<string>, instruction: Option<(string, seq<string>)>)

  /** The reading of a line: comments and blanks dropped, the label split
      off at the first colon, and the rest split into tokens with their
      commas stripped. */
  function Parse(line: string): SourceLine {
    var code := Code(line);
    var name := if ':' in code then Some(LabelOf(code)) else None;
    var rest := if ':' in code then AfterLabel(code) else code;
    if rest == "" then SourceLine(line, name, None)
    else
      assert !IsSpace(rest[0]);
      var tokens := TokensOf(rest);
      SourceLine(line, name, Some((tokens[0], tokens[1..])))
  }

  /** The readings of a sequence of lines. */
  function Parsed(lines: seq<string>): (ps: seq<SourceLine>)
    ensures |ps| == |lines|
  {
    seq(|lines|, i requires 0 <= i < |lines| => Parse(lines[i]))
  }

  // ---------------------------------------------------------------------
  // The scan

  /** An operand recorded as a label: its name, line and character range. */
  datatype LabelUse = LabelUse(name: string, line: int, startChar: int, endChar: int)

  /** The reports so far, `labels_defined` and `labels_used`. */
  datatype ScanState = ScanState(diagnostics: seq<Diagnostic>, defined: map<string, int>, used: set<LabelUse>)

  const INITIAL: ScanState := ScanState([], map[], {})

  function Report(st: ScanState, d: Diagnostic): ScanState {
    st.(diagnostics := st.diagnostics + [d])
  }

  /** A label definition: an identifier not yet defined is entered with its
      line; any other label is reported and the table is left alone. */
  function DefineLabel(st: ScanState, lineno: int, name: string): ScanState {
    if !IsIdentifier(name) then
      Report(st, MakeError(lineno, 0, |name|, "Invalid label name '" + name + "'"))
    else if name in st.defined then
      Report(st, MakeError(lineno, 0, |name|, "Duplicate label '" + name + "'"))
    else
      st.(defined := st.defined[name := lineno])
  }

  /** The label part of a line. */
  function LabelStep(st: ScanState, lineno: int, p: SourceLine): ScanState {
    match p.labelName
    case None => st
    case Some(name) => DefineLabel(st, lineno, name)
  }

  /** A report about operand `op`, placed at its first occurrence on the
      line. */
  function OperandError(lineno: int, line: string, op: string, what: string): Diagnostic {
    var at := Find(line, op);
    MakeError(lineno, at, at + |op|, what + " '" + op + "'")
  }

  /** The register check of RRR and RR: one report per operand that is an
      invalid register, in order. */
  function RegisterErrors(lineno: int, line: string, ops: seq<string>): (ds: seq<Diagnostic>)
    ensures |ds| <= |ops| && AllErrors(ds)
  {
    if ops == [] then []
    else
      var op := ops[|ops| - 1];
      RegisterErrors(lineno, line, ops[..|ops| - 1])
      + if IsInvalidRegister(op) then [OperandError(lineno, line, op, "Invalid register")] else []
  }

  /** The check of one operand that must not be an invalid register. */
  function RegisterError(lineno: int, line: string, op: string): seq<Diagnostic> {
    if IsInvalidRegister(op) then [OperandError(lineno, line, op, "Invalid register")] else []
  }

  /** The operand checks by format, once the count is right.  `defined` is
      the label table as the scan has it on this line. */
  function OperandDiagnostics(lineno: int, line: string, instr: string, fmt: Format, expected: nat,
                              ops: seq<string>, defined: map<string, int>): (ds: seq<Diagnostic>)
    requires fmt == RI || fmt == MEM ==> |ops| >= 2
    requires fmt == R ==> |ops| >= 1
    ensures AllErrors(ds)
  {
    if fmt == RRR || fmt == RR then RegisterErrors(lineno, line, ops)
    else if fmt == RI then
      RegisterError(lineno, line, ops[0])
      + if !IsImmediate(ops[1]) then [OperandError(lineno, line, ops[1], "Invalid immediate value")] else []
    else if fmt == MEM then
      RegisterError(lineno, line, ops[0])
      + if !IsImmediate(ops[1]) then [OperandError(lineno, line, ops[1], "Invalid memory address")] else []
    else if fmt == JMP then
      if expected == 1 && |ops| == 1 then
        if !IsImmediate(ops[0]) && ops[0] !in defined then [OperandError(lineno, line, ops[0], "Invalid jump address")]
        else []
      else if expected == 2 then
        if |ops| != 1 then [MakeError(lineno, |instr| + 1, |line|, "Instruction '" + instr + "' expects 1 operand")]
        else if !IsImmediate(ops[0]) then [OperandError(lineno, line, ops[0], "Invalid jump address")]
        else []
      else []
    else if fmt == R then RegisterError(lineno, line, ops[0])
    else []
  }

  /** An operand that is neither a register (valid or not) nor an immediate,
      and so names a label. */
  predicate IsLabelOperand(op: string) {
    !IsInvalidRegister(op) && Upper(op) !in VALID_REGISTERS && !IsImmediate(op)
  }

  /** The label operands of a line and the character range last found:
      `char_start`/`char_end` start at -1 and keep their values when an
      operand is not found on the line. */
  function LabelScan(lineno: int, line: string, ops: seq<string>): (set<LabelUse>, int, int) {
    if ops == [] then ({}, -1, -1)
    else
      var (uses, s, e) := LabelScan(lineno, line, ops[..|ops| - 1]);
      var op := ops[|ops| - 1];
      if !IsLabelOperand(op) then (uses, s, e)
      else
        var pos := Find(line, op);
        var (s', e') := if pos != -1 then (pos, pos + |op|) else (s, e);
        (uses + {LabelUse(op, lineno, s', e')}, s', e')
  }

  /** The instruction part of a line: an unknown mnemonic or a wrong operand
      count gives one report and ends the line; otherwise the operands are
      checked by format and the label operands recorded. */
  function InstructionStep(st: ScanState, lineno: int, line: string, mnemonic: string, operands: seq<string>): ScanState {
    var instr := Upper(mnemonic);
    if instr !in VALID_OPCODES then
      Report(st, MakeError(lineno, Find(line, instr), |line|, "Unknown instruction '" + instr + "'"))
    else
      var (fmt, expected) := VALID_OPCODES[instr];
      if |operands| != expected then
        Report(st, MakeError(lineno, Find(line, instr), |line|,
                             "Instruction '" + instr + "' expects " + Decimal(expected) + " operands"))
      else
        assert WellFormedEntry(fmt, expected) by { TableWellFormed(instr); }
        st.(diagnostics := st.diagnostics + OperandDiagnostics(lineno, line, instr, fmt, expected, operands, st.defined),
            used := st.used + LabelScan(lineno, line, operands).0)
  }

  /** The operand counts the format checks rely on. */
  predicate WellFormedEntry(fmt: Format, expected: nat) {
    (fmt == RRR ==> expected == 3) && (fmt == RR || fmt == RI || fmt == MEM ==> expected == 2)
    && (fmt == JMP ==> expected <= 1) && (fmt == HLT ==> expected == 0) && (fmt == R ==> expected == 1)
  }

  /** Every entry of the table has the operand count its format expects. */
  lemma TableWellFormed(m: string)
    requires m in VALID_OPCODES
    ensures WellFormedEntry(VALID_OPCODES[m].0, VALID_OPCODES[m].1)
  {
  }

  /** One line of the scan. */
  function LineStep(st: ScanState, lineno: int, p: SourceLine): ScanState {
    var st1 := LabelStep(st, lineno, p);
    match p.instruction
    case None => st1
    case Some((mnemonic, operands)) => InstructionStep(st1, lineno, p.text, mnemonic, operands)
  }

  /** The scan over all lines, numbered from 0. */
  function Scan(ps: seq<SourceLine>): ScanState {
    if ps == [] then INITIAL
    else LineStep(Scan(ps[..|ps| - 1]), |ps| - 1, ps[|ps| - 1])
  }

  /** The report for a label used and never defined. */
  function UndefinedReport(u: LabelUse): Diagnostic {
    MakeError(u.line, u.startChar, u.endChar, UndefinedMessage(u.name))
  }

  function UndefinedMessage(name: string): string {
    "Undefined label referenced: '" + name + "'"
  }

  /** The reports for the recorded labels that the table lacks. */
  function UndefinedReports(used: set<LabelUse>, defined: map<string, int>): set<Diagnostic> {
    set u | u in used && u.name !in defined :: UndefinedReport(u)
  }

  /** What `validate_org_source` returns: the reports of the scan in line
      order, then one report per undefined label use, in the unspecified
      order of a Python set and with no repetition. */
  predicate IsValidationOf(lines: seq<string>, ds: seq<Diagnostic>) {
    var st := Scan(Parsed(lines));
    var n := |st.diagnostics|;
    |ds| >= n && ds[..n] == st.diagnostics
    && multiset(ds[n..]) == multiset(UndefinedReports(st.used, st.defined))
  }

  // ---------------------------------------------------------------------
  // Properties of one line

  /** A line whose code is empty, being blank or a comment, changes
      nothing. */
  lemma BlankLine(st: ScanState, lineno: int, line: string)
    requires Code(line) == ""
    ensures LineStep(st, lineno, Parse(line)) == st
  {
  }

  /** A comment, starting with `#` or `;`, does not change how a line is
      read. */
  lemma CommentIgnored(l: string, comment: string)
    requires '#' !in l && ';' !in l
    requires |comment| > 0 && (comment[0] == '#' || comment[0] == ';')
    ensures Code(l + comment) == Code(l)
    ensures Parse(l + comment).labelName == Parse(l).labelName
    ensures Parse(l + comment).instruction == Parse(l).instruction
  {
    CommentCut(l, comment);
  }

  /** Cutting at `#` and then at `;` leaves a line without either alone, and
      cuts a comment off it. */
  lemma CommentCut(l: string, comment: string)
    requires '#' !in l && ';' !in l
    requires |comment| > 0 && (comment[0] == '#' || comment[0] == ';')
    ensures BeforeFirst(BeforeFirst(l + comment, '#'), ';') == l
    ensures BeforeFirst(BeforeFirst(l, '#'), ';') == l
  {
    var s := l + comment;
    BeforeFirstAbsent(l, '#');
    BeforeFirstAbsent(l, ';');
    assert s[..|l|] == l;
    if comment[0] == '#' {
      BeforeFirstAt(s, '#', |l|);
    } else {
      var h := BeforeFirst(s, '#');
      assert |h| > |l| && h[..|l|] == l by {
        assert forall j :: 0 <= j < |l| ==> s[j] == l[j];
        assert s[|l|] == ';';
      }
      BeforeFirstAt(h, ';', |l|);
    }
  }

  /** `BeforeFirst` of a string without the character is the string. */
  lemma BeforeFirstAbsent(s: string, c: char)
    requires c !in s
    ensures BeforeFirst(s, c) == s
  {
  }

  /** `BeforeFirst` stops at the first occurrence of the character. */
  lemma BeforeFirstAt(s: string, c: char, i: int)
    requires 0 <= i < |s| && s[i] == c && c !in s[..i]
    ensures BeforeFirst(s, c) == s[..i]
  {
    var r := BeforeFirst(s, c);
    assert forall j :: 0 <= j < |r| ==> s[j] == r[j] && r[j] != c;
    assert forall j :: 0 <= j < i ==> s[j] == s[..i][j] && s[..i][j] != c;
  }

  /** Two lines read alike give the same reports, label table and label
      names, whatever else their text holds; only the character positions
      of the reports may differ. */
  lemma SameReadingSameReports(st: ScanState, lineno: int, p1: SourceLine, p2: SourceLine)
    requires p1.labelName == p2.labelName && p1.instruction == p2.instruction
    ensures Messages(LineStep(st, lineno, p1).diagnostics) == Messages(LineStep(st, lineno, p2).diagnostics)
    ensures LineStep(st, lineno, p1).defined == LineStep(st, lineno, p2).defined
    ensures Names(LineStep(st, lineno, p1).used) == Names(LineStep(st, lineno, p2).used)
  {
    var st1 := LabelStep(st, lineno, p1);
    assert st1 == LabelStep(st, lineno, p2);
    match p1.instruction
    case None =>
    case Some((m, ops)) =>
      InstructionSameReports(st1, lineno, p1.text, p2.text, m, ops);
  }

  /** The names of a set of label uses. */
  function Names(uses: set<LabelUse>): set<string> {
    set u | u in uses :: u.name
  }

  lemma InstructionSameReports(st: ScanState, lineno: int, l1: string, l2: string, m: string, ops: seq<string>)
    ensures Messages(InstructionStep(st, lineno, l1, m, ops).diagnostics)
            == Messages(InstructionStep(st, lineno, l2, m, ops).diagnostics)
    ensures InstructionStep(st, lineno, l1, m, ops).defined == InstructionStep(st, lineno, l2, m, ops).defined
    ensures Names(InstructionStep(st, lineno, l1, m, ops).used) == Names(InstructionStep(st, lineno, l2, m, ops).used)
  {
    var instr := Upper(m);
    if instr in VALID_OPCODES && |ops| == VALID_OPCODES[instr].1 {
      var (fmt, expected) := VALID_OPCODES[instr];
      TableWellFormed(instr);
      var d1 := OperandDiagnostics(lineno, l1, instr, fmt, expected, ops, st.defined);
      var d2 := OperandDiagnostics(lineno, l2, instr, fmt, expected, ops, st.defined);
      OperandMessages(lineno, l1, l2, instr, fmt, expected, ops, st.defined);
      MessagesAppend(st.diagnostics, d1);
      MessagesAppend(st.diagnostics, d2);
      UsedNames(st.used, lineno, l1, l2, ops);
    } else {
      MessagesAppend(st.diagnostics, InstructionStep(st, lineno, l1, m, ops).diagnostics[|st.diagnostics|..]);
      MessagesAppend(st.diagnostics, InstructionStep(st, lineno, l2, m, ops).diagnostics[|st.diagnostics|..]);
    }
  }

  /** The operand reports of a line do not depend on where its operands
      stand. */
  lemma OperandMessages(lineno: int, l1: string, l2: string, instr: string, fmt: Format, expected: nat,
                        ops: seq<string>, defined: map<string, int>)
    requires (fmt == RI || fmt == MEM ==> |ops| >= 2) && (fmt == R ==> |ops| >= 1)
    ensures Messages(OperandDiagnostics(lineno, l1, instr, fmt, expected, ops, defined))
            == Messages(OperandDiagnostics(lineno, l2, instr, fmt, expected, ops, defined))
  {
    if fmt == RRR || fmt == RR {
      RegisterMessages(lineno, l1, l2, ops);
    }
  }

  /** The label names a line records do not depend on where they stand. */
  lemma UsedNames(used: set<LabelUse>, lineno: int, l1: string, l2: string, ops: seq<string>)
    ensures Names(used + LabelScan(lineno, l1, ops).0) == Names(used + LabelScan(lineno, l2, ops).0)
  {
    LabelNames(lineno, l1, ops);
    LabelNames(lineno, l2, ops);
    NamesUnion(used, LabelScan(lineno, l1, ops).0);
    NamesUnion(used, LabelScan(lineno, l2, ops).0);
  }

  lemma MessagesAppend(a: seq<Diagnostic>, b: seq<Diagnostic>)
    ensures Messages(a + b) == Messages(a) + Messages(b)
  {
  }

  lemma NamesUnion(a: set<LabelUse>, b: set<LabelUse>)
    ensures Names(a + b) == Names(a) + Names(b)
  {
  }

  /** The register reports of a line do not depend on where its operands
      stand. */
  lemma {:induction false} RegisterMessages(lineno: int, l1: string, l2: string, ops: seq<string>)
    ensures Messages(RegisterErrors(lineno, l1, ops)) == Messages(RegisterErrors(lineno, l2, ops))
  {
    if ops != [] {
      var op := ops[|ops| - 1];
      RegisterMessages(lineno, l1, l2, ops[..|ops| - 1]);
      var tail1 := if IsInvalidRegister(op) then [OperandError(lineno, l1, op, "Invalid register")] else [];
      var tail2 := if IsInvalidRegister(op) then [OperandError(lineno, l2, op, "Invalid register")] else [];
      MessagesAppend(RegisterErrors(lineno, l1, ops[..|ops| - 1]), tail1);
      MessagesAppend(RegisterErrors(lineno, l2, ops[..|ops| - 1]), tail2);
    }
  }

  /** The operands of a line that name labels. */
  function LabelOperands(ops: seq<string>): set<string> {
    set k | 0 <= k < |ops| && IsLabelOperand(ops[k]) :: ops[k]
  }

  /** The labels recorded for a line are exactly its label operands. */
  lemma {:induction false} LabelNames(lineno: int, line: string, ops: seq<string>)
    ensures Names(LabelScan(lineno, line, ops).0) == LabelOperands(ops)
    ensures forall u :: u in LabelScan(lineno, line, ops).0 ==> u.line == lineno
  {
    if ops != [] {
      var init := ops[..|ops| - 1];
      LabelNames(lineno, line, init);
      LabelOperandsSnoc(ops);
      var (uses, s, e) := LabelScan(lineno, line, init);
      var op := ops[|ops| - 1];
      if IsLabelOperand(op) {
        var pos := Find(line, op);
        var (s', e') := if pos != -1 then (pos, pos + |op|) else (s, e);
        NamesUnion(uses, {LabelUse(op, lineno, s', e')});
        assert Names({LabelUse(op, lineno, s', e')}) == {op};
      }
    }
  }

  /** The label operands of a list are those before its last one, and the
      last one if it names a label. */
  lemma LabelOperandsSnoc(ops: seq<string>)
    requires ops != []
    ensures var op := ops[|ops| - 1];
            LabelOperands(ops) == LabelOperands(ops[..|ops| - 1]) + (if IsLabelOperand(op) then {op} else {})
  {
    var init, op := ops[..|ops| - 1], ops[|ops| - 1];
    var later, earlier := LabelOperands(ops), LabelOperands(init);
    forall x | x in later
      ensures x in earlier + (if IsLabelOperand(op) then {op} else {})
    {
      var k :| 0 <= k < |ops| && IsLabelOperand(ops[k]) && ops[k] == x;
      if k < |init| {
        assert init[k] == x;
      }
    }
    forall x | x in earlier
      ensures x in later
    {
      var k :| 0 <= k < |init| && IsLabelOperand(init[k]) && init[k] == x;
      assert ops[k] == x;
    }
  }

  /** The register check reports exactly the operands that are invalid
      registers, each at its first occurrence on the line. */
  lemma {:induction false} InvalidRegisters(lineno: int, line: string, ops: seq<string>)
    ensures forall k :: 0 <= k < |ops| && IsInvalidRegister(ops[k]) ==>
              OperandError(lineno, line, ops[k], "Invalid register") in RegisterErrors(lineno, line, ops)
    ensures forall d :: d in RegisterErrors(lineno, line, ops) ==>
              exists k :: 0 <= k < |ops| && IsInvalidRegister(ops[k]) && d == OperandError(lineno, line, ops[k], "Invalid register")
  {
    if ops != [] {
      var init := ops[..|ops| - 1];
      InvalidRegisters(lineno, line, init);
      var op := ops[|ops| - 1];
      var ds := RegisterErrors(lineno, line, ops);
      var tail := if IsInvalidRegister(op) then [OperandError(lineno, line, op, "Invalid register")] else [];
      assert ds == RegisterErrors(lineno, line, init) + tail;
      forall k | 0 <= k < |ops| && IsInvalidRegister(ops[k])
        ensures OperandError(lineno, line, ops[k], "Invalid register") in ds
      {
        if k < |init| {
          assert init[k] == ops[k];
        }
      }
      forall d | d in ds
        ensures exists k :: 0 <= k < |ops| && IsInvalidRegister(ops[k]) && d == OperandError(lineno, line, ops[k], "Invalid register")
      {
        if d in RegisterErrors(lineno, line, init) {
          var k :| 0 <= k < |init| && IsInvalidRegister(init[k]) && d == OperandError(lineno, line, init[k], "Invalid register");
          assert ops[k] == init[k];
        } else {
          assert d in tail;
          assert ops[|ops| - 1] == op;
        }
      }
    }
  }

  /** `VALID_REGISTERS` are the register names the assembler accepts. */
  lemma ValidRegisterSet(t: string)
    ensures t in VALID_REGISTERS <==> Assembler.IsRegisterName(t)
  {
    if Assembler.IsRegisterName(t) {
      assert t == [t[0], t[1]];
    }
  }

  /** A token is an invalid register when it starts with `R` or `r` and,
      upper-cased, is no register name. */
  lemma InvalidRegisterMeaning(t: string)
    ensures IsInvalidRegister(t) <==> |t| > 0 && (t[0] == 'R' || t[0] == 'r') && !Assembler.IsRegisterName(Upper(t))
  {
    ValidRegisterSet(Upper(t));
  }

  /** Every number the checker accepts as an immediate is one the legacy
      assembler reads as a number, never as a label: a hexadecimal,
      binary or decimal value, not negative. */
  lemma AcceptedImmediatesAreNumbers(t: string, labels: map<string, int>)
    requires IsImmediate(t)
    ensures Legacy.ImmediateValue(t, labels) == Some(ImmediateNumber(t))
  {
    Legacy.NumericImmediates(t, labels);
    if |t| >= 2 && t[..2] == "0x" && IsDigitsIn(t[2..], 16) {
      assert Lower(t)[..2] == "0x";
    } else if |t| >= 2 && t[..2] == "0b" && IsDigitsIn(t[2..], 2) {
      assert Lower(t)[..2] == "0b";
    } else {
      assert !("0x" <= Lower(t)) by {
        assert !IsAsciiDigit('x') && (|t| >= 2 ==> Lower(t)[1] == LowerChar(t[1]));
      }
      assert !("0b" <= Lower(t)) by {
        assert !IsAsciiDigit('b') && (|t| >= 2 ==> Lower(t)[1] == LowerChar(t[1]));
      }
    }
  }

  /** The value of an accepted immediate. */
  function ImmediateNumber(t: string): nat
    requires IsImmediate(t)
  {
    if |t| >= 2 && t[..2] == "0x" && IsDigitsIn(t[2..], 16) then ValueOf(DigitsOf(t[2..]), 16)
    else if |t| >= 2 && t[..2] == "0b" && IsDigitsIn(t[2..], 2) then ValueOf(DigitsOf(t[2..]), 2)
    else ValueOf(DigitsOf(t), 10)
  }

  /** A label that is no identifier is reported as invalid, a label
      already defined is reported as a duplicate, and the table keeps the
      first definition; only a new identifier enters the table, with its
      line. */
  lemma LabelDefinition(st: ScanState, lineno: int, p: SourceLine, name: string)
    requires p.labelName == Some(name)
    ensures var st' := LineStep(st, lineno, p);
            && (IsIdentifier(name) && name !in st.defined ==> st'.defined == st.defined[name := lineno])
            && (!IsIdentifier(name) || name in st.defined ==> st'.defined == st.defined)
            && (!IsIdentifier(name) ==>
                  |st'.diagnostics| > |st.diagnostics|
                  && st'.diagnostics[|st.diagnostics|] == MakeError(lineno, 0, |name|, "Invalid label name '" + name + "'"))
            && (IsIdentifier(name) && name in st.defined ==>
                  |st'.diagnostics| > |st.diagnostics|
                  && st'.diagnostics[|st.diagnostics|] == MakeError(lineno, 0, |name|, "Duplicate label '" + name + "'"))
  {
    var st1 := LabelStep(st, lineno, p);
    match p.instruction
    case None =>
    case Some((m, ops)) =>
      InstructionAppends(st1, lineno, p.text, m, ops);
  }

  /** The instruction part of a line only appends reports, all errors, and
      label uses, and leaves the label table alone. */
  lemma InstructionAppends(st: ScanState, lineno: int, line: string, m: string, ops: seq<string>)
    ensures InstructionStep(st, lineno, line, m, ops).defined == st.defined
    ensures st.diagnostics <= InstructionStep(st, lineno, line, m, ops).diagnostics
    ensures st.used <= InstructionStep(st, lineno, line, m, ops).used
    ensures AllErrors(st.diagnostics) ==> AllErrors(InstructionStep(st, lineno, line, m, ops).diagnostics)
  {
  }

  /** A line only appends reports, all errors, and label uses; its label
      table is the one its label part leaves. */
  lemma LineAppends(st: ScanState, lineno: int, p: SourceLine)
    ensures st.diagnostics <= LineStep(st, lineno, p).diagnostics
    ensures st.used <= LineStep(st, lineno, p).used
    ensures LineStep(st, lineno, p).defined == LabelStep(st, lineno, p).defined
    ensures AllErrors(st.diagnostics) ==> AllErrors(LineStep(st, lineno, p).diagnostics)
  {
    var st1 := LabelStep(st, lineno, p);
    match p.instruction
    case None =>
    case Some((m, ops)) =>
      InstructionAppends(st1, lineno, p.text, m, ops);
  }

  /** An unknown mnemonic gives one report, and nothing else on the line is
      checked or recorded. */
  lemma UnknownInstruction(st: ScanState, lineno: int, p: SourceLine, m: string, ops: seq<string>)
    requires p.instruction == Some((m, ops)) && Upper(m) !in VALID_OPCODES
    ensures var st1 := LabelStep(st, lineno, p);
            LineStep(st, lineno, p)
            == st1.(diagnostics := st1.diagnostics
                      + [MakeError(lineno, Find(p.text, Upper(m)), |p.text|, "Unknown instruction '" + Upper(m) + "'")])
  {
  }

  /** A known mnemonic with the wrong number of operands gives one report
      naming the expected count, and nothing else on the line is checked or
      recorded. */
  lemma OperandCountMismatch(st: ScanState, lineno: int, p: SourceLine, m: string, ops: seq<string>)
    requires p.instruction == Some((m, ops)) && Upper(m) in VALID_OPCODES
    requires |ops| != VALID_OPCODES[Upper(m)].1
    ensures var st1, instr := LabelStep(st, lineno, p), Upper(m);
            LineStep(st, lineno, p)
            == st1.(diagnostics := st1.diagnostics
                      + [MakeError(lineno, Find(p.text, instr), |p.text|,
                                   "Instruction '" + instr + "' expects " + Decimal(VALID_OPCODES[instr].1) + " operands")])
  {
  }

  /** The reports that the instruction part of a line adds. */
  function NewReports(st: ScanState, lineno: int, line: string, m: string, ops: seq<string>): seq<Diagnostic> {
    var st' := InstructionStep(st, lineno, line, m, ops);
    if |st.diagnostics| <= |st'.diagnostics| then st'.diagnostics[|st.diagnostics|..] else []
  }

  /** A mnemonic with its operand count, whose operands are checked. */
  predicate Checked(m: string, ops: seq<string>) {
    Upper(m) in VALID_OPCODES && |ops| == VALID_OPCODES[Upper(m)].1
  }

  function FormatOf(m: string): Format
    requires Upper(m) in VALID_OPCODES
  {
    VALID_OPCODES[Upper(m)].0
  }

  /** For the register formats every operand, and for MOV, LOAD, STORE,
      PUSH and POP the first operand, is reported as an invalid register
      exactly when it starts with R but is not one of R0-R7. */
  lemma RegisterReports(st: ScanState, lineno: int, line: string, m: string, ops: seq<string>, k: int)
    requires Checked(m, ops) && 0 <= k < |ops|
    requires FormatOf(m) in {RRR, RR} || (k == 0 && FormatOf(m) in {RI, MEM, R})
    ensures OperandError(lineno, line, ops[k], "Invalid register") in NewReports(st, lineno, line, m, ops)
            <==> IsInvalidRegister(ops[k])
  {
    var instr := Upper(m);
    TableWellFormed(instr);
    var (fmt, expected) := VALID_OPCODES[instr];
    var ds := OperandDiagnostics(lineno, line, instr, fmt, expected, ops, st.defined);
    assert NewReports(st, lineno, line, m, ops) == ds;
    var target := OperandError(lineno, line, ops[k], "Invalid register");
    if fmt == RRR || fmt == RR {
      InvalidRegisters(lineno, line, ops);
      if target in ds {
        var j :| 0 <= j < |ops| && IsInvalidRegister(ops[j]) && target == OperandError(lineno, line, ops[j], "Invalid register");
        QuotedInjective("Invalid register", "Invalid register", ops[k], ops[j]);
      }
    } else if fmt == RI || fmt == MEM {
      var what := if fmt == RI then "Invalid immediate value" else "Invalid memory address";
      QuotedDistinct("Invalid register", what, ops[k], ops[1]);
    }
  }

  /** MOV takes an immediate and LOAD and STORE an address as second
      operand: a hexadecimal number after `0x`, a binary one after `0b` or
      decimal digits; anything else is reported. */
  lemma ImmediateOperand(st: ScanState, lineno: int, line: string, m: string, ops: seq<string>)
    requires Checked(m, ops) && FormatOf(m) in {RI, MEM}
    ensures |ops| == 2
    ensures var what := if FormatOf(m) == RI then "Invalid immediate value" else "Invalid memory address";
            OperandError(lineno, line, ops[1], what) in NewReports(st, lineno, line, m, ops)
            <==> !IsImmediate(ops[1])
  {
    var instr := Upper(m);
    TableWellFormed(instr);
    var (fmt, expected) := VALID_OPCODES[instr];
    var ds := OperandDiagnostics(lineno, line, instr, fmt, expected, ops, st.defined);
    assert NewReports(st, lineno, line, m, ops) == ds;
    var what := if fmt == RI then "Invalid immediate value" else "Invalid memory address";
    QuotedDistinct("Invalid register", what, ops[0], ops[1]);
  }

  /** A jump to something other than a number is reported unless the label
      table already holds it. */
  lemma JumpTarget(st: ScanState, lineno: int, line: string, m: string, target: string)
    requires Checked(m, [target]) && FormatOf(m) == JMP
    ensures NewReports(st, lineno, line, m, [target])
            == if !IsImmediate(target) && target !in st.defined
               then [OperandError(lineno, line, target, "Invalid jump address")] else []
  {
  }

  /** Quoted reports about the same subject agree on the subject. */
  lemma QuotedInjective(what: string, what': string, a: string, b: string)
    requires what + " '" + a + "'" == what' + " '" + b + "'" && |what| == |what'|
    ensures a == b
  {
    var m := what + " '" + a + "'";
    assert a == m[|what| + 2..|m| - 1];
  }

  /** Reports whose kinds differ early differ. */
  lemma QuotedDistinct(what: string, what': string, a: string, b: string)
    requires |what| > 8 && |what'| > 8 && what[8] != what'[8]
    ensures what + " '" + a + "'" != what' + " '" + b + "'"
  {
    assert (what + " '" + a + "'")[8] == what[8];
    assert (what' + " '" + b + "'")[8] == what'[8];
  }

  // ---------------------------------------------------------------------
  // Properties of the scan

  /** A line defines `name`: its code has a colon and `name`, an
      identifier, before it. */
  predicate Defines(p: SourceLine, name: string) {
    p.labelName == Some(name) && IsIdentifier(name)
  }

  /** The label table after a scan holds the labels some line defines, each
      with the first line that defines it. */
  lemma {:induction false} DefinedLabels(ps: seq<SourceLine>)
    ensures forall name :: name in Scan(ps).defined <==> exists i :: 0 <= i < |ps| && Defines(ps[i], name)
    ensures forall name :: name in Scan(ps).defined ==>
              var i := Scan(ps).defined[name];
              0 <= i < |ps| && Defines(ps[i], name) && forall j :: 0 <= j < i ==> !Defines(ps[j], name)
  {
    if ps != [] {
      var init, n, p := ps[..|ps| - 1], |ps| - 1, ps[|ps| - 1];
      DefinedLabels(init);
      var st := Scan(init);
      assert Scan(ps) == LineStep(st, n, p);
      forall j | 0 <= j < |init|
        ensures ps[j] == init[j]
      {
      }
      forall name
        ensures name in Scan(ps).defined <==> exists i :: 0 <= i < |ps| && Defines(ps[i], name)
        ensures name in Scan(ps).defined ==>
                  var i := Scan(ps).defined[name];
                  0 <= i < |ps| && Defines(ps[i], name) && forall j :: 0 <= j < i ==> !Defines(ps[j], name)
      {
        DefinedStep(st, n, p, name);
      }
    }
  }

  /** One line enters a label into the table when it defines it and the
      table lacks it. */
  lemma DefinedStep(st: ScanState, lineno: int, p: SourceLine, name: string)
    ensures name in LineStep(st, lineno, p).defined <==> name in st.defined || Defines(p, name)
    ensures name in LineStep(st, lineno, p).defined ==>
              LineStep(st, lineno, p).defined[name] == if name in st.defined then st.defined[name] else lineno
  {
    LineAppends(st, lineno, p);
  }

  /** A scan only appends reports and label uses. */
  lemma {:induction false} ScanGrows(ps: seq<SourceLine>, k: int)
    requires 0 <= k <= |ps|
    ensures Scan(ps[..k]).diagnostics <= Scan(ps).diagnostics
    ensures Scan(ps[..k]).used <= Scan(ps).used
    decreases |ps| - k
  {
    if k < |ps| {
      var init := ps[..|ps| - 1];
      assert init[..k] == ps[..k];
      ScanGrows(init, k);
      LastStepGrows(ps);
    } else {
      assert ps[..k] == ps;
    }
  }

  /** The last line of a scan only appends to what the lines before it
      reported and used. */
  lemma LastStepGrows(ps: seq<SourceLine>)
    requires |ps| > 0
    ensures Scan(ps[..|ps| - 1]).diagnostics <= Scan(ps).diagnostics
    ensures Scan(ps[..|ps| - 1]).used <= Scan(ps).used
  {
    ScanLast(ps, |ps| - 1);
    assert ps[..|ps|] == ps;
    LineAppends(Scan(ps[..|ps| - 1]), |ps| - 1, ps[|ps| - 1]);
  }

  /** A jump to a label that no line up to the jump defines is reported
      as an invalid jump address, even when a later line defines it; and
      then the label is not reported as undefined. */
  lemma ForwardJump(ps: seq<SourceLine>, i: int, m: string, target: string)
    requires 0 <= i < |ps| && ps[i].instruction == Some((m, [target]))
    requires Checked(m, [target]) && FormatOf(m) == JMP && !IsImmediate(target)
    requires forall j :: 0 <= j <= i ==> !Defines(ps[j], target)
    ensures OperandError(i, ps[i].text, target, "Invalid jump address") in Scan(ps).diagnostics
    ensures (exists j :: i < j < |ps| && Defines(ps[j], target)) ==>
              forall d :: d in UndefinedReports(Scan(ps).used, Scan(ps).defined) ==>
                d.message != UndefinedMessage(target)
  {
    JumpReported(ps, i, m, target);
    if exists j :: i < j < |ps| && Defines(ps[j], target) {
      DefinedNeverUndefined(ps, target);
    }
  }

  /** The jump report of `ForwardJump`. */
  lemma JumpReported(ps: seq<SourceLine>, i: int, m: string, target: string)
    requires 0 <= i < |ps| && ps[i].instruction == Some((m, [target]))
    requires Checked(m, [target]) && FormatOf(m) == JMP && !IsImmediate(target)
    requires forall j :: 0 <= j <= i ==> !Defines(ps[j], target)
    ensures OperandError(i, ps[i].text, target, "Invalid jump address") in Scan(ps).diagnostics
  {
    var st := Scan(ps[..i]);
    ScanLast(ps, i);
    NotDefinedUpTo(ps, i + 1, target);
    LineAppends(st, i, ps[i]);
    JumpLineReports(st, i, ps[i], m, target);
    InPrefixInScan(ps, i + 1, OperandError(i, ps[i].text, target, "Invalid jump address"));
  }

  /** The scan of a prefix one line longer. */
  lemma ScanLast(ps: seq<SourceLine>, i: int)
    requires 0 <= i < |ps|
    ensures Scan(ps[..i + 1]) == LineStep(Scan(ps[..i]), i, ps[i])
  {
    assert ps[..i + 1][..i] == ps[..i];
  }

  /** A label that no line of a prefix defines is not in its table. */
  lemma NotDefinedUpTo(ps: seq<SourceLine>, k: int, name: string)
    requires 0 <= k <= |ps| && forall j :: 0 <= j < k ==> !Defines(ps[j], name)
    ensures name !in Scan(ps[..k]).defined
  {
    var upto := ps[..k];
    forall j | 0 <= j < |upto|
      ensures !Defines(upto[j], name)
    {
      assert upto[j] == ps[j];
    }
    NotYetDefined(upto, name);
  }

  /** A report made by a prefix of the lines is among the scan's reports. */
  lemma InPrefixInScan(ps: seq<SourceLine>, k: int, d: Diagnostic)
    requires 0 <= k <= |ps| && d in Scan(ps[..k]).diagnostics
    ensures d in Scan(ps).diagnostics
  {
    ScanGrows(ps, k);
    var j :| 0 <= j < |Scan(ps[..k]).diagnostics| && Scan(ps[..k]).diagnostics[j] == d;
    assert Scan(ps).diagnostics[j] == d;
  }

  /** The jump report on the line of the jump. */
  lemma JumpLineReports(st: ScanState, lineno: int, p: SourceLine, m: string, target: string)
    requires p.instruction == Some((m, [target]))
    requires Checked(m, [target]) && FormatOf(m) == JMP && !IsImmediate(target)
    requires target !in LabelStep(st, lineno, p).defined
    ensures OperandError(lineno, p.text, target, "Invalid jump address") in LineStep(st, lineno, p).diagnostics
  {
    var st1 := LabelStep(st, lineno, p);
    JumpTarget(st1, lineno, p.text, m, target);
    InstructionAppends(st1, lineno, p.text, m, [target]);
    assert LineStep(st, lineno, p).diagnostics[|st1.diagnostics|] == OperandError(lineno, p.text, target, "Invalid jump address");
  }

  /** A label no line defines is not in the table. */
  lemma NotYetDefined(ps: seq<SourceLine>, name: string)
    requires forall j :: 0 <= j < |ps| ==> !Defines(ps[j], name)
    ensures name !in Scan(ps).defined
  {
    DefinedLabels(ps);
  }

  /** A label some line defines is in the table. */
  lemma SomewhereDefined(ps: seq<SourceLine>, name: string)
    requires exists j :: 0 <= j < |ps| && Defines(ps[j], name)
    ensures name in Scan(ps).defined
  {
    DefinedLabels(ps);
  }

  /** A label that some line defines is never reported as undefined. */
  lemma DefinedNeverUndefined(ps: seq<SourceLine>, name: string)
    requires exists j :: 0 <= j < |ps| && Defines(ps[j], name)
    ensures forall d :: d in UndefinedReports(Scan(ps).used, Scan(ps).defined) ==>
              d.message != UndefinedMessage(name)
  {
    SomewhereDefined(ps, name);
    var st := Scan(ps);
    forall d | d in UndefinedReports(st.used, st.defined)
      ensures d.message != UndefinedMessage(name)
    {
      var u :| u in st.used && u.name !in st.defined && d == UndefinedReport(u);
      if d.message == UndefinedMessage(name) {
        UndefinedMessageNames(u.name, name);
      }
    }
  }

  /** Every label recorded and never defined is reported once the scan is
      over, and nothing else is reported then. */
  lemma UndefinedReported(lines: seq<string>, ds: seq<Diagnostic>)
    requires IsValidationOf(lines, ds)
    ensures var st := Scan(Parsed(lines));
            forall u :: u in st.used && u.name !in st.defined ==> UndefinedReport(u) in ds
    ensures var st := Scan(Parsed(lines));
            forall i :: |st.diagnostics| <= i < |ds| ==> ds[i] in UndefinedReports(st.used, st.defined)
  {
    var st := Scan(Parsed(lines));
    TailReports(ds, |st.diagnostics|, st.used, st.defined);
  }

  /** The reports after the first `n` are the undefined-label reports. */
  lemma TailReports(ds: seq<Diagnostic>, n: nat, used: set<LabelUse>, defined: map<string, int>)
    requires n <= |ds| && multiset(ds[n..]) == multiset(UndefinedReports(used, defined))
    ensures forall u :: u in used && u.name !in defined ==> UndefinedReport(u) in ds
    ensures forall i :: n <= i < |ds| ==> ds[i] in UndefinedReports(used, defined)
  {
    var tail := ds[n..];
    forall u | u in used && u.name !in defined
      ensures UndefinedReport(u) in ds
    {
      assert UndefinedReport(u) in multiset(tail);
    }
    forall i | n <= i < |ds|
      ensures ds[i] in UndefinedReports(used, defined)
    {
      assert tail[i - n] == ds[i];
      assert ds[i] in multiset(UndefinedReports(used, defined));
    }
  }

  /** Every report of the checker is an error from this server. */
  lemma AllReportsAreErrors(lines: seq<string>, ds: seq<Diagnostic>)
    requires IsValidationOf(lines, ds)
    ensures AllErrors(ds)
  {
    var st := Scan(Parsed(lines));
    var n := |st.diagnostics|;
    ScanErrors(Parsed(lines));
    UndefinedReportsAreErrors(st.used, st.defined);
    forall i | 0 <= i < |ds|
      ensures ds[i].severity == Error && ds[i].source == SOURCE
    {
      if i < n {
        assert ds[i] == ds[..n][i];
      } else {
        assert ds[i] in multiset(ds[n..]) by {
          assert ds[n..][i - n] == ds[i];
        }
      }
    }
  }

  lemma UndefinedReportsAreErrors(used: set<LabelUse>, defined: map<string, int>)
    ensures forall d :: d in UndefinedReports(used, defined) ==> d.severity == Error && d.source == SOURCE
  {
  }

  lemma {:induction false} ScanErrors(ps: seq<SourceLine>)
    ensures AllErrors(Scan(ps).diagnostics)
  {
    if ps != [] {
      var init := ps[..|ps| - 1];
      ScanErrors(init);
      LineAppends(Scan(init), |ps| - 1, ps[|ps| - 1]);
    }
  }

  // ---------------------------------------------------------------------
  // The checker

  /** `validate_org_source`. */
  method ValidateOrgSource(lines: seq<string>) returns (diagnostics: seq<Diagnostic>)
    ensures IsValidationOf(lines, diagnostics)
  {
    var labelsDefined, labelsUsed;
    diagnostics, labelsDefined, labelsUsed := ScanLines(lines);
    var undefined := ReportUndefined(labelsUsed, labelsDefined);
    ghost var n := |diagnostics|;
    diagnostics := diagnostics + undefined;
    assert diagnostics[n..] == undefined;
  }

  /** The loop over the lines of `validate_org_source`. */
  method ScanLines(lines: seq<string>)
    returns (diagnostics: seq<Diagnostic>, labelsDefined: map<string, int>, labelsUsed: set<LabelUse>)
    ensures ScanState(diagnostics, labelsDefined, labelsUsed) == Scan(Parsed(lines))
  {
    diagnostics, labelsDefined, labelsUsed := [], map[], {};
    ghost var ps := Parsed(lines);
    for lineno := 0 to |lines|
      invariant ScanState(diagnostics, labelsDefined, labelsUsed) == Scan(ps[..lineno])
    {
      assert ps[..lineno + 1][..lineno] == ps[..lineno] && ps[lineno] == Parse(lines[lineno]);
      diagnostics, labelsDefined, labelsUsed := ValidateLine(lineno, lines[lineno], diagnostics, labelsDefined, labelsUsed);
    }
    assert ps[..|lines|] == ps;
  }

  /** The final loop of `validate_org_source`: one report per recorded use
      whose label the table lacks, in whatever order the set is visited. */
  method ReportUndefined(labelsUsed: set<LabelUse>, labelsDefined: map<string, int>)
    returns (reports: seq<Diagnostic>)
    ensures multiset(reports) == multiset(UndefinedReports(labelsUsed, labelsDefined))
  {
    reports := [];
    var remaining := labelsUsed;
    while remaining != {}
      invariant remaining <= labelsUsed
      invariant multiset(reports) + multiset(UndefinedReports(remaining, labelsDefined))
                == multiset(UndefinedReports(labelsUsed, labelsDefined))
      decreases |remaining|
    {
      var use :| use in remaining;
      ReportsWithout(remaining, use, labelsDefined);
      if use.name !in labelsDefined {
        reports := reports + [UndefinedReport(use)];
      }
      remaining := remaining - {use};
    }
  }

  /** Taking one use out of a set of uses takes out its report, which no
      other use shares. */
  lemma ReportsWithout(uses: set<LabelUse>, u: LabelUse, defined: map<string, int>)
    requires u in uses
    ensures multiset(UndefinedReports(uses, defined))
            == multiset(UndefinedReports(uses - {u}, defined))
               + (if u.name !in defined then multiset{UndefinedReport(u)} else multiset{})
  {
    var rest := UndefinedReports(uses - {u}, defined);
    if u.name !in defined {
      assert UndefinedReport(u) !in rest by {
        if UndefinedReport(u) in rest {
          var v :| v in uses - {u} && v.name !in defined && UndefinedReport(v) == UndefinedReport(u);
          ReportNamesUse(u, v);
        }
      }
      assert UndefinedReports(uses, defined) == rest + {UndefinedReport(u)};
    } else {
      assert UndefinedReports(uses, defined) == rest;
    }
  }

  /** Two uses with the same undefined-label report are the same use. */
  lemma ReportNamesUse(u: LabelUse, v: LabelUse)
    requires UndefinedReport(u) == UndefinedReport(v)
    ensures u == v
  {
    UndefinedMessageNames(u.name, v.name);
  }

  /** The undefined-label report names its label. */
  lemma UndefinedMessageNames(a: string, b: string)
    requires UndefinedMessage(a) == UndefinedMessage(b)
    ensures a == b
  {
    var p := "Undefined label referenced: '";
    var m := UndefinedMessage(a);
    assert m == p + a + "'" && m == p + b + "'";
    assert a == m[|p|..|m| - 1];
    assert b == m[|p|..|m| - 1];
  }

  /** One line of `validate_org_source`. */
  method ValidateLine(lineno: int, line: string, diagnostics0: seq<Diagnostic>, defined0: map<string, int>,
                      used0: set<LabelUse>)
    returns (diagnostics: seq<Diagnostic>, labelsDefined: map<string, int>, labelsUsed: set<LabelUse>)
    ensures ScanState(diagnostics, labelsDefined, labelsUsed)
            == LineStep(ScanState(diagnostics0, defined0, used0), lineno, Parse(line))
  {
    diagnostics, labelsDefined, labelsUsed := diagnostics0, defined0, used0;
    ghost var p := Parse(line);
    var code := Code(line);
    if code == "" {
      return;
    }
    if ':' in code {
      diagnostics, labelsDefined := CheckLabel(lineno, LabelOf(code), diagnostics, labelsDefined, labelsUsed);
      code := AfterLabel(code);
      if code == "" {
        return;
      }
    }
    assert ScanState(diagnostics, labelsDefined, labelsUsed) == LabelStep(ScanState(diagnostics0, defined0, used0), lineno, p);
    var tokens := TokensOf(code);
    assert p.instruction == Some((tokens[0], tokens[1..]));
    diagnostics, labelsUsed := CheckInstruction(lineno, line, tokens[0], tokens[1..], diagnostics, labelsDefined, labelsUsed);
  }

  /** The label part of one line of `validate_org_source`. */
  method CheckLabel(lineno: int, name: string, diagnostics0: seq<Diagnostic>, defined0: map<string, int>,
                    ghost labelsUsed: set<LabelUse>)
    returns (diagnostics: seq<Diagnostic>, labelsDefined: map<string, int>)
    ensures ScanState(diagnostics, labelsDefined, labelsUsed)
            == DefineLabel(ScanState(diagnostics0, defined0, labelsUsed), lineno, name)
  {
    diagnostics, labelsDefined := diagnostics0, defined0;
    if !IsIdentifier(name) {
      diagnostics := diagnostics + [MakeError(lineno, 0, |name|, "Invalid label name '" + name + "'")];
    } else if name in labelsDefined {
      diagnostics := diagnostics + [MakeError(lineno, 0, |name|, "Duplicate label '" + name + "'")];
    } else {
      labelsDefined := labelsDefined[name := lineno];
    }
  }

  /** The instruction part of one line of `validate_org_source`. */
  method CheckInstruction(lineno: int, line: string, mnemonic: string, operands: seq<string>,
                          diagnostics0: seq<Diagnostic>, labelsDefined: map<string, int>, used0: set<LabelUse>)
    returns (diagnostics: seq<Diagnostic>, labelsUsed: set<LabelUse>)
    ensures ScanState(diagnostics, labelsDefined, labelsUsed)
            == InstructionStep(ScanState(diagnostics0, labelsDefined, used0), lineno, line, mnemonic, operands)
  {
    diagnostics, labelsUsed := diagnostics0, used0;
    var instr := Upper(mnemonic);
    if instr !in VALID_OPCODES {
      diagnostics := diagnostics + [MakeError(lineno, Find(line, instr), |line|, "Unknown instruction '" + instr + "'")];
      return;
    }
    var (fmt, expected) := VALID_OPCODES[instr];
    if |operands| != expected {
      diagnostics := diagnostics + [MakeError(lineno, Find(line, instr), |line|,
                                              "Instruction '" + instr + "' expects " + Decimal(expected) + " operands")];
      return;
    }
    TableWellFormed(instr);
    diagnostics := CheckOperands(lineno, line, instr, fmt, expected, operands, diagnostics, labelsDefined);
    labelsUsed := CollectLabelUses(lineno, line, operands, labelsUsed);
  }

  /** The checks by format of `validate_org_source`.  (The branch for a
      jump format expecting two operands is left out: no mnemonic has it.) */
  method CheckOperands(lineno: int, line: string, instr: string, fmt: Format, expected: nat, operands: seq<string>,
                       diagnostics0: seq<Diagnostic>, labelsDefined: map<string, int>)
    returns (diagnostics: seq<Diagnostic>)
    requires WellFormedEntry(fmt, expected) && |operands| == expected
    ensures diagnostics == diagnostics0 + OperandDiagnostics(lineno, line, instr, fmt, expected, operands, labelsDefined)
  {
    diagnostics := diagnostics0;
    if fmt == RRR || fmt == RR {
      for k := 0 to |operands|
        invariant diagnostics == diagnostics0 + RegisterErrors(lineno, line, operands[..k])
      {
        assert operands[..k + 1][..k] == operands[..k];
        if IsInvalidRegister(operands[k]) {
          diagnostics := diagnostics + [OperandError(lineno, line, operands[k], "Invalid register")];
        }
      }
      assert operands[..|operands|] == operands;
    } else if fmt == RI || fmt == MEM {
      if IsInvalidRegister(operands[0]) {
        diagnostics := diagnostics + [OperandError(lineno, line, operands[0], "Invalid register")];
      }
      if !IsImmediate(operands[1]) {
        var what := if fmt == RI then "Invalid immediate value" else "Invalid memory address";
        diagnostics := diagnostics + [OperandError(lineno, line, operands[1], what)];
      }
    } else if fmt == JMP {
      if expected == 1 && |operands| == 1 {
        if !IsImmediate(operands[0]) && operands[0] !in labelsDefined {
          diagnostics := diagnostics + [OperandError(lineno, line, operands[0], "Invalid jump address")];
        }
      }
    } else if fmt == R {
      if IsInvalidRegister(operands[0]) {
        diagnostics := diagnostics + [OperandError(lineno, line, operands[0], "Invalid register")];
      }
    }
  }

  /** The collection of label operands at the end of a line of
      `validate_org_source`. */
  method CollectLabelUses(lineno: int, line: string, operands: seq<string>, used0: set<LabelUse>)
    returns (labelsUsed: set<LabelUse>)
    ensures labelsUsed == used0 + LabelScan(lineno, line, operands).0
  {
    labelsUsed := used0;
    var charStart, charEnd := -1, -1;
    for k := 0 to |operands|
      invariant LabelScan(lineno, line, operands[..k]).1 == charStart
      invariant LabelScan(lineno, line, operands[..k]).2 == charEnd
      invariant labelsUsed == used0 + LabelScan(lineno, line, operands[..k]).0
    {
      assert operands[..k + 1][..k] == operands[..k];
      var op := operands[k];
      if IsInvalidRegister(op) {
        continue;
      }
      if Upper(op) in VALID_REGISTERS {
        continue;
      }
      if IsImmediate(op) {
        continue;
      }
      var pos := Find(line, op);
      if pos != -1 {
        charStart := pos;
        charEnd := pos + |op|;
      }
      labelsUsed := labelsUsed + {LabelUse(op, lineno, charStart, charEnd)};
    }
    assert operands[..|operands|] == operands;
  }
}
