/** The linker of `tools/compiler.py`: `@define` constants, removal of the
    define lines, cropping of a segment that would run into the stack, the
    global label table, and `CompileMultiple`, which writes every segment's
    words into a 65536-word image of four-digit hexadecimal strings.
    Segments arrive as the lines `ReadFileLines` would return (stripped,
    comments removed, blank lines dropped) with their base address. */
module Linker {
  import opened Wrappers
  import opened Text
  import opened Labels
  import opened Assembler

  const DEFINE: string := "@define"

  /** `line.strip().startswith("@define")`. */
  predicate IsDefine(line: string) {
    DEFINE <= Strip(line)
  }

  // ---------------------------------------------------------------------
  // ParseConstants

  /** `t.split(maxsplit=2)` when it yields exactly three parts: two words
      and the rest of the (already stripped) line. */
  function DefineParts(t: string): (r: Option<(string, string, string)>)
    ensures r.Some? ==> |r.value.0| > 0 && All(r.value.0, x => !IsSpace(x))
    ensures r.Some? ==> |r.value.1| > 0 && All(r.value.1, x => !IsSpace(x))
    ensures r.Some? ==> |r.value.2| > 0 && !IsSpace(r.value.2[0])
  {
    var n1 := LeadingRun(t, x => !IsSpace(x));
    var r1 := t[n1..];
    var r1' := r1[LeadingRun(r1, IsSpace)..];
    var n2 := LeadingRun(r1', x => !IsSpace(x));
    var r2 := r1'[n2..];
    var value := r2[LeadingRun(r2, IsSpace)..];
    if n1 == 0 || n2 == 0 || value == [] then None else Some((t[..n1], r1'[..n2], value))
  }

  /** Two words and a remainder separated by single spaces are split back
      into exactly those three parts. */
  lemma DefinePartsOfLine(keyword: string, name: string, value: string)
    requires |keyword| > 0 && All(keyword, x => !IsSpace(x))
    requires |name| > 0 && All(name, x => !IsSpace(x))
    requires |value| > 0 && !IsSpace(value[0])
    ensures DefineParts(keyword + " " + name + " " + value) == Some((keyword, name, value))
  {
    var t := keyword + " " + name + " " + value;
    var n1 := LeadingRun(t, x => !IsSpace(x));
    RunEndsAtSpace(keyword, " " + name + " " + value);
    assert t == keyword + (" " + name + " " + value);
    var r1 := t[n1..];
    assert r1 == " " + name + " " + value;
    assert LeadingRun(r1, IsSpace) == 1 by {
      assert r1[1..] == name + " " + value;
      assert !IsSpace(r1[1]);
    }
    var r1' := r1[1..];
    assert r1' == name + (" " + value);
    RunEndsAtSpace(name, " " + value);
    var r2 := r1'[|name|..];
    assert r2 == " " + value;
    assert LeadingRun(r2, IsSpace) == 1 by {
      assert r2[1..] == value;
    }
  }

  /** The run of non-space characters at the start of `w + rest` is `w`
      when `rest` starts with a space. */
  lemma RunEndsAtSpace(w: string, rest: string)
    requires All(w, x => !IsSpace(x)) && |rest| > 0 && IsSpace(rest[0])
    ensures LeadingRun(w + rest, x => !IsSpace(x)) == |w|
  {
    var s := w + rest;
    assert forall i :: 0 <= i < |w| ==> s[i] == w[i];
    assert s[|w|] == rest[0];
  }

  /** The value of a `@define`: `0x` and `0b` literals (checked on the
      lower-cased text), then a previously defined constant, then a
      decimal literal; `None` where `int` raises `ValueError`. */
  function ConstantValue(value: string, constants: map<string, int>): (r: Option<int>)
    ensures "0x" <= Lower(value) ==> r == PyInt(Lower(value), 16)
    ensures !("0x" <= Lower(value)) && "0b" <= Lower(value) ==> r == PyInt(Lower(value), 2)
  {
    var lower := Lower(value);
    if "0x" <= lower then PyInt(lower, 16)
    else if "0b" <= lower then PyInt(lower, 2)
    else if Upper(value) in constants then Some(constants[Upper(value)])
    else PyInt(lower, 10)
  }

  /** A decimal literal that is not itself the name of a constant defines
      its value. */
  lemma DecimalConstant(value: string, constants: map<string, int>)
    requires IsDigitsIn(value, 10) && Upper(value) !in constants
    ensures ConstantValue(value, constants) == Some(ValueOf(DigitsOf(value), 10))
  {
    var lower := Lower(value);
    assert lower == value by {
      forall i | 0 <= i < |value|
        ensures lower[i] == value[i]
      {
        assert DigitValue(value[i]) < 10;
      }
    }
    assert !("0x" <= lower) by {
      if |value| >= 2 {
        assert DigitValue(value[1]) < 10;
      }
    }
    PyIntOfDigits(value, 10);
  }

  /** A value starting with a letter that names a constant defined before
      takes that constant's value. */
  lemma ReferenceConstant(value: string, constants: map<string, int>)
    requires |value| > 0 && IsAsciiLetter(value[0]) && Upper(value) in constants
    ensures ConstantValue(value, constants) == Some(constants[Upper(value)])
  {
    assert Lower(value)[0] != '0';
  }

  /** One line of `ParseConstants`: a well-formed `@define` with a valid
      value adds (or replaces) its upper-cased name; anything else leaves
      the table as it is. */
  function DefineStep(constants: map<string, int>, line: string): map<string, int> {
    StrippedStep(constants, Strip(line))
  }

  /** The step on the stripped text of the line. */
  function StrippedStep(constants: map<string, int>, t: string): map<string, int> {
    if !(DEFINE <= t) then constants
    else match DefineParts(t)
      case None => constants
      case Some(parts) => DefineValue(constants, parts)
  }

  /** A split `@define` line whose value reads enters the table under its
      upper-cased name; one whose value does not read leaves it alone. */
  function DefineValue(constants: map<string, int>, parts: (string, string, string)): map<string, int> {
    match ConstantValue(parts.2, constants)
    case None => constants
    case Some(v) => constants[Upper(parts.1) := v]
  }

  /** The table after all of `lines`. */
  function ConstantsOf(lines: seq<string>): map<string, int> {
    if lines == [] then map[]
    else DefineStep(ConstantsOf(lines[..|lines| - 1]), lines[|lines| - 1])
  }

  /** `ParseConstants(lines)`. */
  method ParseConstants(lines: seq<string>) returns (constants: map<string, int>)
    ensures constants == ConstantsOf(lines)
  {
    constants := map[];
    var i := 0;
    while i < |lines|
      invariant 0 <= i <= |lines|
      invariant constants == ConstantsOf(lines[..i])
    {
      ghost var before := constants;
      constants := ParseDefine(constants, lines[i]);
      ConstantsOfNext(lines, i, before, constants);
      i := i + 1;
    }
    assert lines[..|lines|] == lines;
  }

  /** The body of the `ParseConstants` loop for one line: a well-formed
      `@define` whose value reads as a number or names an earlier constant
      enters the table under its upper-cased name. */
  method ParseDefine(constants: map<string, int>, rawLine: string) returns (result: map<string, int>)
    ensures result == DefineStep(constants, rawLine)
  {
    result := constants;
    var line := Strip(rawLine);
    if DEFINE <= line {
      var parts := DefineParts(line);
      if parts.Some? {
        var name, value := parts.value.1, parts.value.2;
        var val := ConstantValue(value, constants);
        if val.Some? {
          result := constants[Upper(name) := val.value];
        }
        DefineStepParsed(constants, rawLine, parts.value);
      }
    }
  }

  /** On a `@define` line that splits into its three parts, the step is
      `DefineValue` of those parts. */
  lemma DefineStepParsed(constants: map<string, int>, line: string, parts: (string, string, string))
    requires DEFINE <= Strip(line) && DefineParts(Strip(line)) == Some(parts)
    ensures DefineStep(constants, line) == DefineValue(constants, parts)
  {
    StrippedParsed(constants, Strip(line), parts);
  }

  lemma StrippedParsed(constants: map<string, int>, t: string, parts: (string, string, string))
    requires DEFINE <= t && DefineParts(t) == Some(parts)
    ensures StrippedStep(constants, t) == DefineValue(constants, parts)
  {
  }

  /** One more line is one more `DefineStep`. */
  lemma ConstantsOfNext(lines: seq<string>, i: nat, before: map<string, int>, after: map<string, int>)
    requires i < |lines| && before == ConstantsOf(lines[..i]) && after == DefineStep(before, lines[i])
    ensures after == ConstantsOf(lines[..i + 1])
  {
    assert lines[..i + 1][..i] == lines[..i];
  }

  /** Every constant comes from a `@define` line that names it. */
  lemma {:induction false} ConstantsComeFromDefines(lines: seq<string>, name: string)
    requires name in ConstantsOf(lines)
    ensures exists i :: 0 <= i < |lines| && IsDefine(lines[i])
                        && DefineParts(Strip(lines[i])).Some?
                        && Upper(DefineParts(Strip(lines[i])).value.1) == name
    decreases |lines|
  {
    var n := |lines| - 1;
    var prefix := lines[..n];
    if name in ConstantsOf(prefix) && (ConstantsOf(lines) == ConstantsOf(prefix) || !IsNamed(lines[n], name)) {
      ConstantsComeFromDefines(prefix, name);
      var i :| 0 <= i < |prefix| && IsDefine(prefix[i]) && DefineParts(Strip(prefix[i])).Some?
               && Upper(DefineParts(Strip(prefix[i])).value.1) == name;
      assert prefix[i] == lines[i];
    } else {
      assert IsNamed(lines[n], name);
    }
  }

  predicate IsNamed(line: string, name: string) {
    IsDefine(line) && DefineParts(Strip(line)).Some? && Upper(DefineParts(Strip(line)).value.1) == name
  }

  /** Lines that are not `@define` lines leave the table unchanged. */
  lemma OtherLinesKeepConstants(lines: seq<string>, line: string)
    requires !IsDefine(line)
    ensures ConstantsOf(lines + [line]) == ConstantsOf(lines)
  {
    assert (lines + [line])[..|lines|] == lines;
  }

  // ---------------------------------------------------------------------
  // Segment preparation

  /** `[line for line in lines if not line.strip().startswith("@define")]`. */
  function WithoutDefines(lines: seq<string>): (r: seq<string>)
    ensures forall k :: 0 <= k < |r| ==> r[k] in lines && !IsDefine(r[k])
    ensures forall k :: 0 <= k < |lines| && !IsDefine(lines[k]) ==> lines[k] in r
    ensures |r| <= |lines|
  {
    if lines == [] then []
    else
      var rest := WithoutDefines(lines[1..]);
      assert forall k :: 1 <= k < |lines| ==> lines[k] == lines[1..][k - 1];
      if IsDefine(lines[0]) then rest else [lines[0]] + rest
  }

  /** The filter works line by line and keeps the order: the lines kept
      from `a + b` are those kept from `a` followed by those kept from `b`,
      and a single line is dropped exactly when it is a `@define`.  The two
      together fix the result for every list, multiplicities included. */
  lemma {:induction false} WithoutDefinesAppend(a: seq<string>, b: seq<string>)
    ensures WithoutDefines(a + b) == WithoutDefines(a) + WithoutDefines(b)
    ensures |a| == 1 ==> WithoutDefines(a) == if IsDefine(a[0]) then [] else a
  {
    if a == [] {
      assert a + b == b;
    } else {
      assert (a + b)[1..] == a[1..] + b;
      WithoutDefinesAppend(a[1..], b);
    }
  }

  /** The lines kept by the cropping loop: labels are always kept, an
      instruction line is kept while the words used, each line's as
      `count` gives them, stay within `maxInstr`, and the first line that
      would exceed it ends the loop. */
  function CropFrom(lines: seq<string>, maxInstr: int, used: int, count: string -> nat): (r: seq<string>)
    ensures r <= lines
    decreases |lines|
  {
    if lines == [] then []
    else
      assert lines == [lines[0]] + lines[1..];
      if IsLabel(lines[0]) then [lines[0]] + CropFrom(lines[1..], maxInstr, used, count)
      else
        var n := count(lines[0]);
        if used + n > maxInstr then []
        else [lines[0]] + CropFrom(lines[1..], maxInstr, used + n, count)
  }

  /** The words of a line list, counted from the front. */
  lemma WordsOfFront(lines: seq<string>, count: string -> nat)
    requires lines != []
    ensures WordsOf(lines, count) == (if IsLabel(lines[0]) then 0 else count(lines[0])) + WordsOf(lines[1..], count)
  {
    assert lines == [lines[0]] + lines[1..];
    WordsOfAppend([lines[0]], lines[1..], count);
    assert [lines[0]][..0] == [];
  }

  /** The cropped lines never take more words than the room left, and
      cropping stops only at an instruction line that would not fit. */
  lemma CropBound(lines: seq<string>, maxInstr: int, used: int, count: string -> nat)
    requires used <= maxInstr
    ensures used + WordsOf(CropFrom(lines, maxInstr, used, count), count) <= maxInstr
    ensures var r := CropFrom(lines, maxInstr, used, count);
            |r| < |lines| ==>
              !IsLabel(lines[|r|])
              && used + WordsOf(r, count) + count(lines[|r|]) > maxInstr
  {
    CropFits(lines, maxInstr, used, count);
    CropStops(lines, maxInstr, used, count);
  }

  /** The first half of `CropBound`: the kept lines fit. */
  lemma {:induction false} CropFits(lines: seq<string>, maxInstr: int, used: int, count: string -> nat)
    requires used <= maxInstr
    ensures used + WordsOf(CropFrom(lines, maxInstr, used, count), count) <= maxInstr
    decreases |lines|
  {
    if lines != [] {
      var r := CropFrom(lines, maxInstr, used, count);
      var n := count(lines[0]);
      if IsLabel(lines[0]) || used + n <= maxInstr {
        var now := if IsLabel(lines[0]) then used else used + n;
        var rest := CropFrom(lines[1..], maxInstr, now, count);
        assert r == [lines[0]] + rest;
        CropFits(lines[1..], maxInstr, now, count);
        WordsOfCons(lines[0], rest, count);
        assert used + WordsOf(r, count) == now + WordsOf(rest, count);
      } else {
        assert r == [];
      }
    }
  }

  /** The second half of `CropBound`: cropping stops only at an instruction
      line that would not fit. */
  lemma {:induction false} CropStops(lines: seq<string>, maxInstr: int, used: int, count: string -> nat)
    ensures var r := CropFrom(lines, maxInstr, used, count);
            |r| < |lines| ==>
              !IsLabel(lines[|r|])
              && used + WordsOf(r, count) + count(lines[|r|]) > maxInstr
    decreases |lines|
  {
    if lines != [] {
      var r := CropFrom(lines, maxInstr, used, count);
      var n := count(lines[0]);
      if IsLabel(lines[0]) || used + n <= maxInstr {
        var now := if IsLabel(lines[0]) then used else used + n;
        var rest := CropFrom(lines[1..], maxInstr, now, count);
        assert r == [lines[0]] + rest;
        CropStops(lines[1..], maxInstr, now, count);
        if |r| < |lines| {
          assert lines[|r|] == lines[1..][|rest|];
          WordsOfCons(lines[0], rest, count);
          assert used + WordsOf(r, count) == now + WordsOf(rest, count);
        }
      }
    }
  }

  /** The words of a line put in front of a list. */
  lemma WordsOfCons(line: string, rest: seq<string>, count: string -> nat)
    ensures WordsOf([line] + rest, count) == (if IsLabel(line) then 0 else count(line)) + WordsOf(rest, count)
  {
    WordsOfFront([line] + rest, count);
    assert ([line] + rest)[1..] == rest;
  }

  /** The cropping loop of `CompileMultiple`, each line taking the words
      `count` gives it (`InstructionWordCount` there). */
  method Crop(lines: seq<string>, maxInstr: int, count: string -> nat) returns (newLines: seq<string>)
    ensures newLines == CropFrom(lines, maxInstr, 0, count)
  {
    newLines := [];
    var wordsUsed := 0;
    var i := 0;
    while i < |lines|
      invariant 0 <= i <= |lines|
      invariant newLines == lines[..i]
      invariant CropEnd(lines, maxInstr, i, wordsUsed, count) == CropEnd(lines, maxInstr, 0, 0, count)
    {
      if IsLabel(lines[i]) {
        newLines := newLines + [lines[i]];
        i := i + 1;
        continue;
      }
      var wordCount := count(lines[i]);
      if wordsUsed + wordCount > maxInstr {
        break;
      }
      newLines := newLines + [lines[i]];
      wordsUsed := wordsUsed + wordCount;
      i := i + 1;
    }
    CropFromEnd(lines, maxInstr, 0, 0, count);
    assert lines[0..] == lines;
  }

  /** The index at which the cropping loop, at line `i` with `used` words
      used, stops: the end of the lines, or the first instruction line that
      would not fit. */
  function CropEnd(lines: seq<string>, maxInstr: int, i: int, used: int, count: string -> nat): (end: int)
    requires 0 <= i <= |lines|
    ensures i <= end <= |lines|
    decreases |lines| - i
  {
    if i == |lines| then i
    else if IsLabel(lines[i]) then CropEnd(lines, maxInstr, i + 1, used, count)
    else if used + count(lines[i]) > maxInstr then i
    else CropEnd(lines, maxInstr, i + 1, used + count(lines[i]), count)
  }

  /** The lines the loop keeps from line `i` on are those `CropFrom` keeps
      of the rest. */
  lemma {:induction false} CropFromEnd(lines: seq<string>, maxInstr: int, i: int, used: int, count: string -> nat)
    requires 0 <= i <= |lines|
    ensures CropFrom(lines[i..], maxInstr, used, count) == lines[i..CropEnd(lines, maxInstr, i, used, count)]
    decreases |lines| - i
  {
    if i < |lines| {
      assert lines[i..][1..] == lines[i + 1..];
      if IsLabel(lines[i]) || used + count(lines[i]) <= maxInstr {
        var now := if IsLabel(lines[i]) then used else used + count(lines[i]);
        CropFromEnd(lines, maxInstr, i + 1, now, count);
        var e := CropEnd(lines, maxInstr, i + 1, now, count);
        assert lines[i..e] == [lines[i]] + lines[i + 1..e];
      }
    }
  }

  /** One entry of `file_lines`: the kept lines, the base address and the
      segment's own constants. */
  datatype Segment = Segment(lines: seq<string>, base: int)
  datatype Prepared = Prepared(lines: seq<string>, base: int, constants: map<string, int>)

  /** The first loop of `CompileMultiple` for one segment: `None` when
      the segment starts in the stack region and is skipped. */
  function Prepare(seg: Segment): (r: Option<Prepared>)
    ensures r.Some? <==> seg.base < STACK_START
    ensures r.Some? ==> r.value.base == seg.base && r.value.constants == ConstantsOf(seg.lines)
    ensures r.Some? ==> r.value.lines <= WithoutDefines(seg.lines)
    ensures r.Some? ==> seg.base + WordsOf(r.value.lines, InstructionWordCount) <= STACK_START
    ensures r.Some? && seg.base + WordsOf(WithoutDefines(seg.lines), InstructionWordCount) <= STACK_START ==>
              r.value.lines == WithoutDefines(seg.lines)
  {
    var constants := ConstantsOf(seg.lines);
    var lines := WithoutDefines(seg.lines);
    var instrCount := WordsOf(lines, InstructionWordCount);
    var maxInstr := STACK_START - seg.base;
    if seg.base >= STACK_START then None
    else if instrCount > maxInstr then
      CropBound(lines, maxInstr, 0, InstructionWordCount);
      Some(Prepared(CropFrom(lines, maxInstr, 0, InstructionWordCount), seg.base, constants))
    else Some(Prepared(lines, seg.base, constants))
  }

  /** `file_lines` after the first loop. */
  function PreparedOf(segments: seq<Segment>): seq<Prepared> {
    if segments == [] then []
    else
      var ps := PreparedOf(segments[..|segments| - 1]);
      match Prepare(segments[|segments| - 1])
      case None => ps
      case Some(p) => ps + [p]
  }

  /** Every kept segment starts below the stack and fits below it. */
  lemma {:induction false} PreparedFit(segments: seq<Segment>)
    ensures forall k :: 0 <= k < |PreparedOf(segments)| ==>
              PreparedOf(segments)[k].base < STACK_START
              && PreparedOf(segments)[k].base + WordsOf(PreparedOf(segments)[k].lines, InstructionWordCount) <= STACK_START
              && exists j :: 0 <= j < |segments| && segments[j].base == PreparedOf(segments)[k].base
    decreases |segments|
  {
    if segments != [] {
      var n := |segments| - 1;
      PreparedFit(segments[..n]);
      var ps := PreparedOf(segments[..n]);
      forall k | 0 <= k < |PreparedOf(segments)|
        ensures exists j :: 0 <= j < |segments| && segments[j].base == PreparedOf(segments)[k].base
      {
        if k < |ps| {
          var j :| 0 <= j < n && segments[..n][j].base == ps[k].base;
          assert segments[j] == segments[..n][j];
        } else {
          assert segments[n].base == PreparedOf(segments)[k].base;
        }
      }
    }
  }

  /** `global_labels` after the first loop: `dict.update` in segment
      order, so a label defined again in a later segment takes the later
      address. */
  function GlobalLabels(ps: seq<Prepared>): map<string, int> {
    if ps == [] then map[]
    else
      var last := ps[|ps| - 1];
      GlobalLabels(ps[..|ps| - 1]) + LabelsOf(last.lines, last.base, InstructionWordCount)
  }

  /** A label of the last segment that defines it wins. */
  lemma LaterSegmentWins(ps: seq<Prepared>, name: string)
    requires ps != []
    ensures var last := ps[|ps| - 1];
            var own := LabelsOf(last.lines, last.base, InstructionWordCount);
            (name in own ==> GlobalLabels(ps)[name] == own[name])
            && (name !in own ==> (name in GlobalLabels(ps) <==> name in GlobalLabels(ps[..|ps| - 1])))
  {
  }

  // ---------------------------------------------------------------------
  // The image

  /** `["0000"] * 65536`. */
  function BlankImage(): (mem: seq<string>)
    ensures |mem| == MAX_MEMORY && forall a :: 0 <= a < MAX_MEMORY ==> mem[a] == "0000"
  {
    seq(MAX_MEMORY, _ => "0000")
  }

  /** Four lowercase hexadecimal digits. */
  predicate IsHexWord(s: string) {
    |s| == 4 && forall i :: 0 <= i < 4 ==> IsLowerHexDigit(s[i])
  }

  predicate WellFormedImage(mem: seq<string>) {
    |mem| == MAX_MEMORY && forall a :: 0 <= a < MAX_MEMORY ==> IsHexWord(mem[a])
  }

  /** The list index Python uses for `memory[addr]`: a negative index
      counts from the end; `None` where the assignment raises
      `IndexError`. */
  function ListIndex(addr: int): (index: Option<int>)
    ensures index.Some? ==> 0 <= index.value < MAX_MEMORY
    ensures 0 <= addr ==> (index.Some? <==> addr < MAX_MEMORY) && (index.Some? ==> index.value == addr)
  {
    var i := if addr < 0 then addr + MAX_MEMORY else addr;
    if 0 <= i < MAX_MEMORY then Some(i) else None
  }

  /** `BinToHex(b)` for each 16-bit word `b` of a line. */
  function HexWords(words: seq<string>): (hexes: seq<string>)
    requires forall k :: 0 <= k < |words| ==> IsBitField(words[k], 16)
    ensures |hexes| == |words|
    decreases |words|
  {
    if words == [] then []
    else
      assert IsBitField(words[0], 16);
      [BinToHex(words[0])] + HexWords(words[1..])
  }

  /** Word `k` of `HexWords(words)` is `BinToHex(words[k])`. */
  lemma {:induction false} HexWordAt(words: seq<string>, k: int)
    requires forall j :: 0 <= j < |words| ==> IsBitField(words[j], 16)
    requires 0 <= k < |words|
    ensures IsBitField(words[k], 16) && HexWords(words)[k] == BinToHex(words[k])
    decreases k
  {
    if k > 0 {
      HexWordAt(words[1..], k - 1);
      assert words[1..][k - 1] == words[k];
    }
  }

  /** A 16-bit word in hexadecimal is four lowercase digits holding its
      value. */
  lemma HexOfWord(w: string)
    requires IsBitField(w, 16)
    ensures IsHexWord(BinToHex(w)) && ParseDigits(BinToHex(w), 16) == Some(BinaryValue(w))
  {
    WordToHex(w);
  }

  /** Every word of `HexWords(words)` is four lowercase hexadecimal digits
      holding the value of its 16-bit word. */
  lemma HexWordsWellFormed(words: seq<string>)
    requires forall k :: 0 <= k < |words| ==> IsBitField(words[k], 16)
    ensures forall k :: 0 <= k < |words| ==>
              IsHexWord(HexWords(words)[k]) && ParseDigits(HexWords(words)[k], 16) == Some(BinaryValue(words[k]))
  {
    forall k | 0 <= k < |words|
      ensures IsHexWord(HexWords(words)[k]) && ParseDigits(HexWords(words)[k], 16) == Some(BinaryValue(words[k]))
    {
      HexWordAt(words, k);
      HexOfWord(words[k]);
    }
  }

  /** `memory[addr] = h` for each hexadecimal word `h`, from `addr` on. */
  function EmitWords(mem: seq<string>, hexes: seq<string>, addr: int): (r: Result<seq<string>>)
    requires |mem| == MAX_MEMORY
    ensures r.Success? ==> |r.value| == MAX_MEMORY
    decreases |hexes|
  {
    if hexes == [] then Success(mem)
    else match ListIndex(addr)
      case None => Failure("list assignment index out of range")
      case Some(i) => EmitWords(mem[i := hexes[0]], hexes[1..], addr + 1)
  }

  /** Writing hexadecimal words keeps every word of the image four
      lowercase hexadecimal digits. */
  lemma {:induction false} EmitWordsWellFormed(mem: seq<string>, hexes: seq<string>, addr: int)
    requires WellFormedImage(mem)
    requires forall k :: 0 <= k < |hexes| ==> IsHexWord(hexes[k])
    requires EmitWords(mem, hexes, addr).Success?
    ensures WellFormedImage(EmitWords(mem, hexes, addr).value)
    decreases |hexes|
  {
    if hexes != [] {
      var i := ListIndex(addr).value;
      assert IsHexWord(hexes[0]);
      EmitWordsWellFormed(mem[i := hexes[0]], hexes[1..], addr + 1);
    }
  }

  /** Words written from a non-negative address land in
      `[addr, addr + |hexes|)`, which lies inside the image, and are the
      words given, in order. */
  lemma {:induction false} EmitWordsFrame(mem: seq<string>, hexes: seq<string>, addr: int)
    requires |mem| == MAX_MEMORY && 0 <= addr
    requires EmitWords(mem, hexes, addr).Success?
    ensures hexes != [] ==> addr + |hexes| <= MAX_MEMORY
    ensures forall k :: 0 <= k < |hexes| ==> EmitWords(mem, hexes, addr).value[addr + k] == hexes[k]
    ensures SameOutside(EmitWords(mem, hexes, addr).value, mem, addr, addr + |hexes|)
    decreases |hexes|
  {
    if hexes != [] {
      var m := mem[addr := hexes[0]];
      EmitWordsFrame(m, hexes[1..], addr + 1);
      var r := EmitWords(mem, hexes, addr).value;
      forall k | 0 <= k < |hexes|
        ensures r[addr + k] == hexes[k]
      {
        if k > 0 {
          assert hexes[1..][k - 1] == hexes[k];
        }
      }
    }
  }

  /** A line translator: the words of a line in the hexadecimal form they
      are stored in (`LineToBinary` with the labels and constants in force
      for one segment, then `BinToHex` on each word). */
  type Translator = string -> Result<seq<string>>

  /** Every word a translator produces is four lowercase hexadecimal digits. */
  ghost predicate ProducesHexWords(translate: Translator) {
    forall line :: translate(line).Success? ==>
      forall k :: 0 <= k < |translate(line).value| ==> IsHexWord(translate(line).value[k])
  }

  /** A translator never produces more words for a line than `count` gives. */
  ghost predicate WithinCount(translate: Translator, count: string -> nat) {
    forall line :: translate(line).Success? ==> |translate(line).value| <= count(line)
  }

  /** `LineToBinary(line, global_labels, constants)` with every word passed
      through `BinToHex`: it fails exactly when `LineToBinary` does, and
      otherwise gives one hexadecimal word per 16-bit word, holding that
      word's value. */
  function HexLine(line: string, globals: map<string, int>, constants: map<string, int>,
                   evaluate: string -> Option<int>): (r: Result<seq<string>>)
    ensures var bits := LineToBinary(line, globals, constants, evaluate);
            (r.Failure? <==> bits.Failure?)
            && (r.Failure? ==> r.error == bits.error)
            && (r.Success? ==>
                  |r.value| == |bits.value|
                  && forall k :: 0 <= k < |r.value| ==>
                       IsHexWord(r.value[k]) && ParseDigits(r.value[k], 16) == Some(BinaryValue(bits.value[k])))
  {
    match LineToBinary(line, globals, constants, evaluate)
    case Failure(e) => Failure(e)
    case Success(ws) =>
      HexWordsWellFormed(ws);
      Success(HexWords(ws))
  }

  /** `HexLine` as a translator. */
  function LineTranslator(globals: map<string, int>, constants: map<string, int>,
                          evaluate: string -> Option<int>): (translate: Translator)
    ensures ProducesHexWords(translate) && WithinCount(translate, InstructionWordCount)
    ensures forall line :: translate(line) == HexLine(line, globals, constants, evaluate)
  {
    LineToBinaryTranslates(globals, constants, evaluate);
    line => HexLine(line, globals, constants, evaluate)
  }

  /** `LineToBinary` produces 16-bit words, no more of them than the first
      pass counted. */
  lemma LineToBinaryTranslates(globals: map<string, int>, constants: map<string, int>,
                               evaluate: string -> Option<int>)
    ensures forall line :: LineToBinary(line, globals, constants, evaluate).Success? ==>
              |LineToBinary(line, globals, constants, evaluate).value| <= InstructionWordCount(line)
  {
    forall line | LineToBinary(line, globals, constants, evaluate).Success?
      ensures |LineToBinary(line, globals, constants, evaluate).value| <= InstructionWordCount(line)
    {
      WordCountOfLine(line, globals, constants, evaluate);
    }
  }

  // ---------------------------------------------------------------------
  // ReplaceLabelsAndConstants

  /** `ReplaceLabelsAndConstants(line, label_map, constants_map)`: when the
      immediate names a label, every occurrence of its text in the line,
      wherever it stands, becomes the label's address as `0x` and four
      uppercase hexadecimal digits; otherwise, when it names a constant,
      every occurrence becomes the constant's decimal value.  A line whose
      immediate names neither, or that has none, is left as it is, and only
      a line counted for two words is ever rewritten. */
  function ReplaceLabelsAndConstants(line: string, labels: map<string, int>, constants: map<string, int>): (r: string)
    ensures var imm := ParseLine(line).imm;
            (imm.None? ==> r == line)
            && (imm.Some? && Upper(imm.value) !in labels && Upper(imm.value) !in constants ==> r == line)
            && (imm.Some? && (forall i :: !OccursAt(line, imm.value, i)) ==> r == line)
    ensures r != line ==> InstructionWordCount(line) == 2
  {
    var imm := ParseLine(line).imm;
    if imm.None? then line
    else
      var key := Upper(imm.value);
      if key in labels then ReplaceAll(line, imm.value, AddressLiteral(labels[key]))
      else if key in constants then ReplaceAll(line, imm.value, Decimal(constants[key]))
      else line
  }

  /** What the rewrite produces when the immediate's text occurs in the line
      only where the operand stands, between `before` and `after`: that one
      occurrence becomes the label's address, or else the constant's value. */
  lemma RewrittenOperand(line: string, labels: map<string, int>, constants: map<string, int>,
                         before: string, after: string)
    requires ParseLine(line).imm.Some?
    requires line == before + ParseLine(line).imm.value + after
    requires forall i :: OccursAt(line, ParseLine(line).imm.value, i) ==> i == |before|
    ensures var key := Upper(ParseLine(line).imm.value);
            var r := ReplaceLabelsAndConstants(line, labels, constants);
            (key in labels ==> r == before + AddressLiteral(labels[key]) + after)
            && (key !in labels && key in constants ==> r == before + Decimal(constants[key]) + after)
  {
    var imm := ParseLine(line).imm.value;
    var key := Upper(imm);
    if key in labels {
      ReplaceOnce(before, imm, after, AddressLiteral(labels[key]));
    } else if key in constants {
      ReplaceOnce(before, imm, after, Decimal(constants[key]));
    }
  }

  /** The translation `CompileMultiple` applies to an instruction line:
      `ReplaceLabelsAndConstants`, then `LineToBinary` and `BinToHex`.  A
      rewritten line had an immediate, so it still gets no more words than
      the first pass counted for the line as written. */
  function WrittenLine(line: string, globals: map<string, int>, constants: map<string, int>,
                       evaluate: string -> Option<int>): (r: Result<seq<string>>)
    ensures ReplaceLabelsAndConstants(line, globals, constants) == line ==> r == HexLine(line, globals, constants, evaluate)
    ensures r.Success? ==> |r.value| <= InstructionWordCount(line)
  {
    LineToBinaryTranslates(globals, constants, evaluate);
    HexLine(ReplaceLabelsAndConstants(line, globals, constants), globals, constants, evaluate)
  }

  /** `WrittenLine` as a translator. */
  function WrittenTranslator(globals: map<string, int>, constants: map<string, int>,
                             evaluate: string -> Option<int>): (translate: Translator)
    ensures ProducesHexWords(translate) && WithinCount(translate, InstructionWordCount)
    ensures forall line :: translate(line) == WrittenLine(line, globals, constants, evaluate)
  {
    line => WrittenLine(line, globals, constants, evaluate)
  }

  /** The translator of one segment: the lines as `CompileMultiple` writes
      them (`asWritten`), or with every immediate looked up directly, which
      is what the textual replacement is evidently meant to amount to. */
  function SegmentTranslator(globals: map<string, int>, constants: map<string, int>,
                             evaluate: string -> Option<int>, asWritten: bool): (translate: Translator)
    ensures ProducesHexWords(translate) && WithinCount(translate, InstructionWordCount)
    ensures asWritten ==> forall line :: translate(line) == WrittenLine(line, globals, constants, evaluate)
    ensures !asWritten ==> forall line :: translate(line) == HexLine(line, globals, constants, evaluate)
  {
    if asWritten then WrittenTranslator(globals, constants, evaluate) else LineTranslator(globals, constants, evaluate)
  }

  /** The second loop of `CompileMultiple` for one segment: label lines are
      skipped, every other line is translated and its words written from
      the running address on. */
  function EmitLines(mem: seq<string>, lines: seq<string>, addr: int, translate: Translator): (r: Result<seq<string>>)
    requires |mem| == MAX_MEMORY && ProducesHexWords(translate)
    ensures r.Success? ==> |r.value| == MAX_MEMORY
    ensures r.Success? && WellFormedImage(mem) ==> WellFormedImage(r.value)
    decreases |lines|
  {
    if lines == [] then Success(mem)
    else if IsLabel(lines[0]) then EmitLines(mem, lines[1..], addr, translate)
    else match translate(lines[0])
      case Failure(e) => Failure(e)
      case Success(hexes) =>
        match EmitWords(mem, hexes, addr)
        case Failure(e) => Failure(e)
        case Success(m) =>
          assert WellFormedImage(mem) ==> WellFormedImage(m) by {
            if WellFormedImage(mem) {
              EmitWordsWellFormed(mem, hexes, addr);
            }
          }
          EmitLines(m, lines[1..], addr + |hexes|, translate)
  }

  /** A segment written from a non-negative address changes only the words
      its lines were counted for. */
  lemma {:induction false} EmitLinesFrame(mem: seq<string>, lines: seq<string>, addr: int, translate: Translator,
                                          count: string -> nat)
    requires |mem| == MAX_MEMORY && 0 <= addr && ProducesHexWords(translate) && WithinCount(translate, count)
    requires EmitLines(mem, lines, addr, translate).Success?
    ensures var m := EmitLines(mem, lines, addr, translate).value;
            SameOutside(m, mem, addr, addr + WordsOf(lines, count))
    decreases |lines|, 1
  {
    if lines != [] {
      if IsLabel(lines[0]) {
        LabelLineFrame(mem, lines, addr, translate, count);
      } else {
        InstructionLineFrame(mem, lines, addr, translate, count);
      }
    }
  }

  /** `EmitLinesFrame` for a segment that starts with a label. */
  lemma {:induction false} LabelLineFrame(mem: seq<string>, lines: seq<string>, addr: int, translate: Translator,
                                          count: string -> nat)
    requires |mem| == MAX_MEMORY && 0 <= addr && ProducesHexWords(translate) && WithinCount(translate, count)
    requires lines != [] && IsLabel(lines[0])
    requires EmitLines(mem, lines, addr, translate).Success?
    ensures var m := EmitLines(mem, lines, addr, translate).value;
            SameOutside(m, mem, addr, addr + WordsOf(lines, count))
    decreases |lines|, 0
  {
    WordsOfFront(lines, count);
    EmitLinesFrame(mem, lines[1..], addr, translate, count);
  }

  /** `EmitLinesFrame` for a segment that starts with an instruction. */
  lemma {:induction false} InstructionLineFrame(mem: seq<string>, lines: seq<string>, addr: int, translate: Translator,
                                                count: string -> nat)
    requires |mem| == MAX_MEMORY && 0 <= addr && ProducesHexWords(translate) && WithinCount(translate, count)
    requires lines != [] && !IsLabel(lines[0])
    requires EmitLines(mem, lines, addr, translate).Success?
    ensures var m := EmitLines(mem, lines, addr, translate).value;
            SameOutside(m, mem, addr, addr + WordsOf(lines, count))
    decreases |lines|, 0
  {
    EmitLinesFront(mem, lines, addr, translate);
    var hexes := translate(lines[0]).value;
    var m := EmitWords(mem, hexes, addr).value;
    var final := EmitLines(m, lines[1..], addr + |hexes|, translate).value;
    EmitLinesFrame(m, lines[1..], addr + |hexes|, translate, count);
    EmitWordsFrame(mem, hexes, addr);
    WordsOfFront(lines, count);
    FramesCompose(mem, m, final, addr, |hexes|, count(lines[0]), WordsOf(lines[1..], count));
  }

  /** `x` and `y` are images that agree outside `[lo, hi)`. */
  ghost predicate SameOutside(x: seq<string>, y: seq<string>, lo: int, hi: int)
    requires |x| == |y| == MAX_MEMORY
  {
    forall a :: 0 <= a < MAX_MEMORY && (a < lo || hi <= a) ==> x[a] == y[a]
  }

  /** A write confined to `[addr, addr + n)` followed by one confined to
      `[addr + n, addr + n + rest)` is confined to `[addr, addr + count + rest)`
      when `n <= count`. */
  lemma FramesCompose(mem: seq<string>, m: seq<string>, final: seq<string>, addr: int, n: int, count: int, rest: int)
    requires |mem| == |m| == |final| == MAX_MEMORY && 0 <= n <= count && 0 <= rest
    requires SameOutside(m, mem, addr, addr + n)
    requires SameOutside(final, m, addr + n, addr + n + rest)
    ensures SameOutside(final, mem, addr, addr + count + rest)
  {
  }

  /** The second loop over all kept segments, in order. */
  function EmitAll(mem: seq<string>, ps: seq<Prepared>, globals: map<string, int>,
                   evaluate: string -> Option<int>, asWritten: bool): (r: Result<seq<string>>)
    requires |mem| == MAX_MEMORY
    ensures r.Success? ==> |r.value| == MAX_MEMORY
    ensures r.Success? && WellFormedImage(mem) ==> WellFormedImage(r.value)
    decreases |ps|
  {
    if ps == [] then Success(mem)
    else match EmitLines(mem, ps[0].lines, ps[0].base, SegmentTranslator(globals, ps[0].constants, evaluate, asWritten))
      case Failure(e) => Failure(e)
      case Success(m) => EmitAll(m, ps[1..], globals, evaluate, asWritten)
  }

  /** `CompileMultiple(segments, output_file)` up to the file output: the
      image, or the error that aborts the run; `asWritten` chooses the
      translation of `SegmentTranslator`. */
  function Compile(segments: seq<Segment>, evaluate: string -> Option<int>, asWritten: bool): (r: Result<seq<string>>)
    ensures r.Success? ==> WellFormedImage(r.value)
  {
    var ps := PreparedOf(segments);
    BlankWellFormed();
    EmitAll(BlankImage(), ps, GlobalLabels(ps), evaluate, asWritten)
  }

  lemma BlankWellFormed()
    ensures WellFormedImage(BlankImage())
  {
  }

  /** Segments written from non-negative addresses below the stack leave
      the region `[lo, MAX_MEMORY)` as it was, whatever they contain. */
  lemma {:induction false} EmitAllFrame(mem: seq<string>, ps: seq<Prepared>, globals: map<string, int>,
                                        evaluate: string -> Option<int>, asWritten: bool, lo: int)
    requires |mem| == MAX_MEMORY && 0 <= lo
    requires forall k :: 0 <= k < |ps| ==> 0 <= ps[k].base && ps[k].base + WordsOf(ps[k].lines, InstructionWordCount) <= lo
    requires EmitAll(mem, ps, globals, evaluate, asWritten).Success?
    ensures forall a :: lo <= a < MAX_MEMORY ==> EmitAll(mem, ps, globals, evaluate, asWritten).value[a] == mem[a]
    decreases |ps|
  {
    if ps != [] {
      var translate := SegmentTranslator(globals, ps[0].constants, evaluate, asWritten);
      var m := EmitLines(mem, ps[0].lines, ps[0].base, translate).value;
      EmitLinesFrame(mem, ps[0].lines, ps[0].base, translate, InstructionWordCount);
      assert forall k :: 0 <= k < |ps[1..]| ==> ps[1..][k] == ps[k + 1];
      EmitAllFrame(m, ps[1..], globals, evaluate, asWritten, lo);
    }
  }

  /** When every base address is non-negative, a successful link leaves the
      whole stack region `[0xF000, 0x10000)` at `"0000"`, and every word of
      the image is four lowercase hexadecimal digits. */
  lemma StackRegionStaysBlank(segments: seq<Segment>, evaluate: string -> Option<int>, asWritten: bool)
    requires forall j :: 0 <= j < |segments| ==> segments[j].base >= 0
    requires Compile(segments, evaluate, asWritten).Success?
    ensures WellFormedImage(Compile(segments, evaluate, asWritten).value)
    ensures forall a :: STACK_START <= a < MAX_MEMORY ==> Compile(segments, evaluate, asWritten).value[a] == "0000"
  {
    var ps := PreparedOf(segments);
    PreparedFit(segments);
    EmitAllFrame(BlankImage(), ps, GlobalLabels(ps), evaluate, asWritten, STACK_START);
  }


  // ---------------------------------------------------------------------
  // Where the words land

  /** `words` are the entries of `image` from address `at` on. */
  ghost predicate WordsAt(image: seq<string>, at: int, words: seq<string>) {
    forall k :: 0 <= k < |words| ==> EntryIs(image, at + k, words[k])
  }

  /** Address `a` of `image` exists and holds `w`. */
  ghost predicate EntryIs(image: seq<string>, a: int, w: string) {
    0 <= a < |image| && image[a] == w
  }

  /** `translate` accepts `line`. */
  predicate Translates(translate: Translator, line: string) {
    translate(line).Success?
  }

  /** The words `translate` gives `line`, none when it fails. */
  function LineWords(translate: Translator, line: string): (words: seq<string>)
    ensures Translates(translate, line) ==> words == translate(line).value
  {
    if translate(line).Success? then translate(line).value else []
  }

  /** `count` gives each line the number of words `translate` gives it. */
  ghost predicate ExactCount(translate: Translator, count: string -> nat) {
    forall line :: translate(line).Success? ==> count(line) == |translate(line).value|
  }

  /** The number of words `translate` gives a line, none when it fails:
      how far the second loop's `addr` moves past the line. */
  function Emitted(translate: Translator): (count: string -> nat)
    ensures ExactCount(translate, count) && WithinCount(translate, count)
    ensures forall line :: translate(line).Failure? ==> count(line) == 0
  {
    line => if translate(line).Success? then |translate(line).value| else 0
  }

  /** The address the second loop of `CompileMultiple` has reached when it
      comes to line `i` of a segment written from `base`. */
  function Reached(lines: seq<string>, i: int, base: int, translate: Translator): int
    requires 0 <= i <= |lines|
  {
    base + WordsOf(lines[..i], Emitted(translate))
  }

  /** `p` starts at a non-negative address and its counted words lie wholly
      before or wholly after those of `q`. */
  predicate Apart(p: Prepared, q: Prepared) {
    0 <= p.base
    && (p.base + WordsOf(p.lines, InstructionWordCount) <= q.base
        || q.base + WordsOf(q.lines, InstructionWordCount) <= p.base)
  }

  /** Each instruction line before line `i` took the words the first pass
      counted for it. */
  ghost predicate CountedExactly(lines: seq<string>, i: int, translate: Translator)
    requires 0 <= i <= |lines|
  {
    forall h :: 0 <= h < i && !IsLabel(lines[h]) ==>
      translate(lines[h]).Success? && |translate(lines[h]).value| == InstructionWordCount(lines[h])
  }

  // ---------------------------------------------------------------------
  // The imperative linker

  /** `memory[addr] = BinToHex(b); addr += 1` for each word, given the
      words already in hexadecimal. */
  method WriteWords(memory: array<string>, hexes: seq<string>, addr: int) returns (r: Result<()>)
    requires memory.Length == MAX_MEMORY
    modifies memory
    ensures r.Success? ==> EmitWords(old(memory[..]), hexes, addr) == Success(memory[..])
    ensures r.Failure? ==> EmitWords(old(memory[..]), hexes, addr) == Failure(r.error)
  {
    var k := 0;
    while k < |hexes|
      invariant 0 <= k <= |hexes|
      invariant EmitWords(old(memory[..]), hexes, addr) == EmitWords(memory[..], hexes[k..], addr + k)
    {
      EmitWordsStep(memory[..], hexes, addr, k);
      var index := ListIndex(addr + k);
      if index.None? {
        return Failure("list assignment index out of range");
      }
      ghost var before := memory[..];
      memory[index.value] := hexes[k];
      assert memory[..] == before[index.value := hexes[k]];
      k := k + 1;
    }
    assert hexes[k..] == [];
    return Success(());
  }

  /** One iteration of the word-writing loop, in terms of `EmitWords`. */
  lemma EmitWordsStep(mem: seq<string>, hexes: seq<string>, addr: int, k: int)
    requires |mem| == MAX_MEMORY && 0 <= k < |hexes|
    ensures ListIndex(addr + k).None? ==>
              EmitWords(mem, hexes[k..], addr + k) == Failure("list assignment index out of range")
    ensures ListIndex(addr + k).Some? ==>
              EmitWords(mem, hexes[k..], addr + k)
              == EmitWords(mem[ListIndex(addr + k).value := hexes[k]], hexes[k + 1..], addr + k + 1)
  {
    assert hexes[k..][1..] == hexes[k + 1..];
  }

  /** The second loop of `CompileMultiple` for one kept segment, whose
      lines `translate` turns into words (`LineToBinary` with the global
      labels and the segment's constants). */
  method WriteSegment(memory: array<string>, p: Prepared, translate: Translator) returns (r: Result<()>)
    requires memory.Length == MAX_MEMORY && ProducesHexWords(translate)
    modifies memory
    ensures r.Success? ==> EmitLines(old(memory[..]), p.lines, p.base, translate) == Success(memory[..])
    ensures r.Failure? ==> EmitLines(old(memory[..]), p.lines, p.base, translate) == Failure(r.error)
  {
    var addr := p.base;
    var i := 0;
    while i < |p.lines|
      invariant 0 <= i <= |p.lines|
      invariant EmitLines(old(memory[..]), p.lines, p.base, translate)
                == EmitLines(memory[..], p.lines[i..], addr, translate)
    {
      assert p.lines[i..][1..] == p.lines[i + 1..];
      var next := WriteLine(memory, p.lines[i..], addr, translate);
      if next.Failure? {
        return Failure(next.error);
      }
      addr := next.value;
      i := i + 1;
    }
    assert p.lines[i..] == [];
    return Success(());
  }

  /** One pass of the segment loop, on the first of `lines`: a label is
      skipped, an instruction line is translated and its words written at
      `addr`; the result is the address after them. */
  method WriteLine(memory: array<string>, lines: seq<string>, addr: int, translate: Translator) returns (r: Result<int>)
    requires memory.Length == MAX_MEMORY && ProducesHexWords(translate) && lines != []
    modifies memory
    ensures r.Failure? ==> EmitLines(old(memory[..]), lines, addr, translate) == Failure(r.error)
    ensures r.Success? ==>
              EmitLines(old(memory[..]), lines, addr, translate) == EmitLines(memory[..], lines[1..], r.value, translate)
  {
    EmitLinesFront(memory[..], lines, addr, translate);
    if IsLabel(lines[0]) {
      return Success(addr);
    }
    var hexes := translate(lines[0]);
    if hexes.Failure? {
      return Failure(hexes.error);
    }
    var written := WriteWords(memory, hexes.value, addr);
    if written.Failure? {
      return Failure(written.error);
    }
    return Success(addr + |hexes.value|);
  }

  /** `EmitLines` on its first line. */
  lemma EmitLinesFront(mem: seq<string>, lines: seq<string>, addr: int, translate: Translator)
    requires |mem| == MAX_MEMORY && ProducesHexWords(translate) && lines != []
    ensures IsLabel(lines[0]) ==> EmitLines(mem, lines, addr, translate) == EmitLines(mem, lines[1..], addr, translate)
    ensures !IsLabel(lines[0]) && translate(lines[0]).Failure? ==>
              EmitLines(mem, lines, addr, translate) == Failure(translate(lines[0]).error)
    ensures !IsLabel(lines[0]) && translate(lines[0]).Success? ==>
              var hexes := translate(lines[0]).value;
              var written := EmitWords(mem, hexes, addr);
              (written.Failure? ==> EmitLines(mem, lines, addr, translate) == Failure(written.error))
              && (written.Success? ==>
                    EmitLines(mem, lines, addr, translate) == EmitLines(written.value, lines[1..], addr + |hexes|, translate))
  {
  }

  /** `CompileMultiple`: the first loop gathers constants, crops and
      labels per segment; the second writes the words into the image. */
  method CompileMultiple(segments: seq<Segment>, evaluate: string -> Option<int>) returns (r: Result<seq<string>>)
    ensures r == Compile(segments, evaluate, true)
  {
    var fileLines, globalLabels := PrepareAll(segments);
    var memory := NewImage();
    var written := WriteAll(memory, fileLines, globalLabels, evaluate);
    if written.Failure? {
      return Failure(written.error);
    }
    return Success(memory[..]);
  }

  /** `memory = ["0000"] * MAX_MEMORY`. */
  method NewImage() returns (memory: array<string>)
    ensures fresh(memory) && memory[..] == BlankImage()
  {
    memory := new string[MAX_MEMORY](_ => "0000");
    assert memory[..] == BlankImage();
  }

  /** The first loop of `CompileMultiple`: the kept segments, in order, and
      the labels of all of them. */
  method PrepareAll(segments: seq<Segment>) returns (fileLines: seq<Prepared>, globalLabels: map<string, int>)
    ensures fileLines == PreparedOf(segments) && globalLabels == GlobalLabels(fileLines)
  {
    globalLabels := map[];
    fileLines := [];
    var i := 0;
    while i < |segments|
      invariant 0 <= i <= |segments|
      invariant fileLines == PreparedOf(segments[..i])
      invariant globalLabels == GlobalLabels(fileLines)
    {
      assert segments[..i + 1][..i] == segments[..i];
      var prepared := PrepareSegment(segments[i]);
      if prepared.Some? {
        var p := prepared.value;
        var labelMap := Assembler.FirstPass(p.lines, p.base);
        assert (fileLines + [p])[..|fileLines|] == fileLines;
        globalLabels := globalLabels + labelMap;
        fileLines := fileLines + [p];
      }
      i := i + 1;
    }
    assert segments[..|segments|] == segments;
  }

  /** The body of the first loop for one segment, before its labels are
      collected. */
  method PrepareSegment(seg: Segment) returns (r: Option<Prepared>)
    ensures r == Prepare(seg)
  {
    var constants := ParseConstants(seg.lines);
    var lines := WithoutDefines(seg.lines);
    var instrCount := WordsOf(lines, InstructionWordCount);
    var maxInstr := STACK_START - seg.base;
    if seg.base >= STACK_START {
      PreparedSkipped(seg);
      return None;
    }
    if instrCount > maxInstr {
      lines := Crop(lines, maxInstr, InstructionWordCount);
      PreparedCropped(seg, lines);
    } else {
      PreparedWhole(seg);
    }
    return Some(Prepared(lines, seg.base, constants));
  }

  /** `Prepare` of a segment that starts in the stack region. */
  lemma PreparedSkipped(seg: Segment)
    requires seg.base >= STACK_START
    ensures Prepare(seg) == None
  {
  }

  /** `Prepare` of a segment too long for the space below the stack. */
  lemma PreparedCropped(seg: Segment, lines: seq<string>)
    requires seg.base < STACK_START
    requires WordsOf(WithoutDefines(seg.lines), InstructionWordCount) > STACK_START - seg.base
    requires lines == CropFrom(WithoutDefines(seg.lines), STACK_START - seg.base, 0, InstructionWordCount)
    ensures Prepare(seg) == Some(Prepared(lines, seg.base, ConstantsOf(seg.lines)))
  {
    CropBound(WithoutDefines(seg.lines), STACK_START - seg.base, 0, InstructionWordCount);
  }

  /** `Prepare` of a segment that fits below the stack. */
  lemma PreparedWhole(seg: Segment)
    requires seg.base < STACK_START
    requires WordsOf(WithoutDefines(seg.lines), InstructionWordCount) <= STACK_START - seg.base
    ensures Prepare(seg) == Some(Prepared(WithoutDefines(seg.lines), seg.base, ConstantsOf(seg.lines)))
  {
  }

  /** The second loop of `CompileMultiple`: every kept segment written in
      order, stopping at the first error. */
  method WriteAll(memory: array<string>, fileLines: seq<Prepared>, globalLabels: map<string, int>,
                  evaluate: string -> Option<int>) returns (r: Result<()>)
    requires memory.Length == MAX_MEMORY
    modifies memory
    ensures r.Success? ==> EmitAll(old(memory[..]), fileLines, globalLabels, evaluate, true) == Success(memory[..])
    ensures r.Failure? ==> EmitAll(old(memory[..]), fileLines, globalLabels, evaluate, true) == Failure(r.error)
  {
    var j := 0;
    while j < |fileLines|
      invariant 0 <= j <= |fileLines|
      invariant EmitAll(old(memory[..]), fileLines, globalLabels, evaluate, true)
                == EmitAll(memory[..], fileLines[j..], globalLabels, evaluate, true)
    {
      assert fileLines[j..][0] == fileLines[j] && fileLines[j..][1..] == fileLines[j + 1..];
      EmitAllFront(memory[..], fileLines[j..], globalLabels, evaluate, true);
      var translate := WrittenTranslator(globalLabels, fileLines[j].constants, evaluate);
      var written := WriteSegment(memory, fileLines[j], translate);
      if written.Failure? {
        return Failure(written.error);
      }
      j := j + 1;
    }
    assert fileLines[j..] == [];
    return Success(());
  }

  /** `EmitAll` on its first segment. */
  lemma EmitAllFront(mem: seq<string>, ps: seq<Prepared>, globals: map<string, int>, evaluate: string -> Option<int>,
                     asWritten: bool)
    requires |mem| == MAX_MEMORY && ps != []
    ensures var first := EmitLines(mem, ps[0].lines, ps[0].base, SegmentTranslator(globals, ps[0].constants, evaluate, asWritten));
            (first.Failure? ==> EmitAll(mem, ps, globals, evaluate, asWritten) == Failure(first.error))
            && (first.Success? ==> EmitAll(mem, ps, globals, evaluate, asWritten) == EmitAll(first.value, ps[1..], globals, evaluate, asWritten))
  {
  }
}
