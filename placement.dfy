/** Where `CompileMultiple` puts the words of each instruction line: a
    line's words are in the image from the address the second loop reached
    at that line, and, when the lines before it took the words the first
    pass counted for them, from the address the first pass gave it. */
module Placement {
  import opened Wrappers
  import opened Text
  import opened Labels
  import opened Assembler
  import opened Linker

  /** An instruction line takes its words after those of the lines before it. */
  lemma WordsOfPrefix(lines: seq<string>, i: int, count: string -> nat)
    requires 0 <= i < |lines| && !IsLabel(lines[i])
    ensures WordsOf(lines[..i], count) + count(lines[i]) <= WordsOf(lines, count)
  {
    WordsOfAppend(lines[..i + 1], lines[i + 1..], count);
    assert lines[..i + 1] + lines[i + 1..] == lines;
    assert lines[..i + 1][..i] == lines[..i];
  }

  /** Written from a non-negative address, an instruction line of a
      successful segment was translated, and its words are the entries
      from the address reached after the words of the lines before it. */
  lemma {:induction false} EmitLinesPlacement(mem: seq<string>, lines: seq<string>, addr: int, translate: Translator,
                                              count: string -> nat, i: int)
    requires |mem| == MAX_MEMORY && 0 <= addr && ProducesHexWords(translate) && ExactCount(translate, count)
    requires EmitLines(mem, lines, addr, translate).Success?
    requires 0 <= i < |lines| && !IsLabel(lines[i])
    ensures translate(lines[i]).Success?
    ensures WordsAt(EmitLines(mem, lines, addr, translate).value, addr + WordsOf(lines[..i], count), translate(lines[i]).value)
    decreases |lines|, 1
  {
    if IsLabel(lines[0]) {
      LabelLinePlacement(mem, lines, addr, translate, count, i);
    } else if i == 0 {
      FirstLinePlacement(mem, lines, addr, translate, count);
    } else {
      LaterLinePlacement(mem, lines, addr, translate, count, i);
    }
  }

  /** `EmitLinesPlacement` when the segment starts with a label. */
  lemma {:induction false} LabelLinePlacement(mem: seq<string>, lines: seq<string>, addr: int, translate: Translator,
                                              count: string -> nat, i: int)
    requires |mem| == MAX_MEMORY && 0 <= addr && ProducesHexWords(translate) && ExactCount(translate, count)
    requires EmitLines(mem, lines, addr, translate).Success?
    requires 0 <= i < |lines| && !IsLabel(lines[i]) && IsLabel(lines[0])
    ensures translate(lines[i]).Success?
    ensures WordsAt(EmitLines(mem, lines, addr, translate).value, addr + WordsOf(lines[..i], count), translate(lines[i]).value)
    decreases |lines|, 0
  {
    EmitLinesFront(mem, lines, addr, translate);
    EmitLinesPlacement(mem, lines[1..], addr, translate, count, i - 1);
    WordsOfFront(lines[..i], count);
    assert lines[..i][1..] == lines[1..][..i - 1];
  }

  /** `EmitLinesPlacement` for the first line, an instruction. */
  lemma FirstLinePlacement(mem: seq<string>, lines: seq<string>, addr: int, translate: Translator, count: string -> nat)
    requires |mem| == MAX_MEMORY && 0 <= addr && ProducesHexWords(translate) && ExactCount(translate, count)
    requires EmitLines(mem, lines, addr, translate).Success?
    requires lines != [] && !IsLabel(lines[0])
    ensures translate(lines[0]).Success?
    ensures WordsAt(EmitLines(mem, lines, addr, translate).value, addr, translate(lines[0]).value)
  {
    EmitLinesFront(mem, lines, addr, translate);
    var hexes := translate(lines[0]).value;
    var m := EmitWords(mem, hexes, addr).value;
    EmitWordsFrame(mem, hexes, addr);
    EmitLinesFrame(m, lines[1..], addr + |hexes|, translate, count);
  }

  /** `EmitLinesPlacement` for a later line after a first instruction. */
  lemma {:induction false} LaterLinePlacement(mem: seq<string>, lines: seq<string>, addr: int, translate: Translator,
                                              count: string -> nat, i: int)
    requires |mem| == MAX_MEMORY && 0 <= addr && ProducesHexWords(translate) && ExactCount(translate, count)
    requires EmitLines(mem, lines, addr, translate).Success?
    requires 0 < i < |lines| && !IsLabel(lines[i]) && !IsLabel(lines[0])
    ensures translate(lines[i]).Success?
    ensures WordsAt(EmitLines(mem, lines, addr, translate).value, addr + WordsOf(lines[..i], count), translate(lines[i]).value)
    decreases |lines|, 0
  {
    EmitLinesFront(mem, lines, addr, translate);
    var hexes := translate(lines[0]).value;
    var m := EmitWords(mem, hexes, addr).value;
    EmitLinesPlacement(m, lines[1..], addr + |hexes|, translate, count, i - 1);
    WordsOfFront(lines[..i], count);
    assert lines[..i][1..] == lines[1..][..i - 1];
  }

  /** Segments that each start at a non-negative address and whose counted
      words all lie before or after the address `a` leave that entry as it
      was. */
  lemma {:induction false} EmitAllKeeps(mem: seq<string>, ps: seq<Prepared>, globals: map<string, int>,
                                        evaluate: string -> Option<int>, asWritten: bool, a: int)
    requires |mem| == MAX_MEMORY && 0 <= a < MAX_MEMORY
    requires forall k :: 0 <= k < |ps| ==>
               0 <= ps[k].base && (a < ps[k].base || ps[k].base + WordsOf(ps[k].lines, InstructionWordCount) <= a)
    requires EmitAll(mem, ps, globals, evaluate, asWritten).Success?
    ensures EmitAll(mem, ps, globals, evaluate, asWritten).value[a] == mem[a]
    decreases |ps|
  {
    if ps != [] {
      var translate := SegmentTranslator(globals, ps[0].constants, evaluate, asWritten);
      var m := EmitLines(mem, ps[0].lines, ps[0].base, translate).value;
      EmitLinesFrame(mem, ps[0].lines, ps[0].base, translate, InstructionWordCount);
      assert forall k :: 0 <= k < |ps[1..]| ==> ps[1..][k] == ps[k + 1];
      EmitAllKeeps(m, ps[1..], globals, evaluate, asWritten, a);
    }
  }

  /** After all segments are written, the words of an instruction line of
      segment `p`, the `j`th, are in the image from the address its
      segment's loop reached, unless a later segment overlaps it. */
  lemma {:induction false} EmitAllPlacement(mem: seq<string>, ps: seq<Prepared>, globals: map<string, int>,
                                            evaluate: string -> Option<int>, asWritten: bool, j: int, p: Prepared, i: int)
    requires |mem| == MAX_MEMORY && 0 <= j < |ps| && p == ps[j] && 0 <= p.base
    requires forall k :: j < k < |ps| ==> Apart(ps[k], p)
    requires 0 <= i < |p.lines| && !IsLabel(p.lines[i])
    requires EmitAll(mem, ps, globals, evaluate, asWritten).Success?
    ensures Translates(SegmentTranslator(globals, p.constants, evaluate, asWritten), p.lines[i])
    ensures WordsAt(EmitAll(mem, ps, globals, evaluate, asWritten).value,
                    Reached(p.lines, i, p.base, SegmentTranslator(globals, p.constants, evaluate, asWritten)),
                    LineWords(SegmentTranslator(globals, p.constants, evaluate, asWritten), p.lines[i]))
    decreases |ps|, 1
  {
    if j == 0 {
      FirstSegmentPlacement(mem, ps, globals, evaluate, asWritten, i);
    } else {
      LaterSegmentPlacement(mem, ps, globals, evaluate, asWritten, j, p, i);
    }
  }

  /** `EmitAllPlacement` for a segment after the first: the rest of the
      segments, written over the first one's image, place it. */
  lemma {:induction false} LaterSegmentPlacement(mem: seq<string>, ps: seq<Prepared>, globals: map<string, int>,
                                                 evaluate: string -> Option<int>, asWritten: bool, j: int, p: Prepared, i: int)
    requires |mem| == MAX_MEMORY && 0 < j < |ps| && p == ps[j] && 0 <= p.base
    requires forall k :: j < k < |ps| ==> Apart(ps[k], p)
    requires 0 <= i < |p.lines| && !IsLabel(p.lines[i])
    requires EmitAll(mem, ps, globals, evaluate, asWritten).Success?
    ensures Translates(SegmentTranslator(globals, p.constants, evaluate, asWritten), p.lines[i])
    ensures WordsAt(EmitAll(mem, ps, globals, evaluate, asWritten).value,
                    Reached(p.lines, i, p.base, SegmentTranslator(globals, p.constants, evaluate, asWritten)),
                    LineWords(SegmentTranslator(globals, p.constants, evaluate, asWritten), p.lines[i]))
    decreases |ps|, 0
  {
    var m := EmitAllHead(mem, ps, globals, evaluate, asWritten);
    assert forall k :: j - 1 < k < |ps[1..]| ==> Apart(ps[1..][k], p) by {
      assert forall k :: 0 <= k < |ps[1..]| ==> ps[1..][k] == ps[k + 1];
    }
    EmitAllPlacement(m, ps[1..], globals, evaluate, asWritten, j - 1, p, i);
  }

  /** `EmitAllPlacement` for the first segment: the later ones leave its
      words in place. */
  lemma FirstSegmentPlacement(mem: seq<string>, ps: seq<Prepared>, globals: map<string, int>,
                              evaluate: string -> Option<int>, asWritten: bool, i: int)
    requires |mem| == MAX_MEMORY && ps != [] && 0 <= ps[0].base
    requires forall k :: 0 < k < |ps| ==> Apart(ps[k], ps[0])
    requires 0 <= i < |ps[0].lines| && !IsLabel(ps[0].lines[i])
    requires EmitAll(mem, ps, globals, evaluate, asWritten).Success?
    ensures Translates(SegmentTranslator(globals, ps[0].constants, evaluate, asWritten), ps[0].lines[i])
    ensures WordsAt(EmitAll(mem, ps, globals, evaluate, asWritten).value,
                    Reached(ps[0].lines, i, ps[0].base, SegmentTranslator(globals, ps[0].constants, evaluate, asWritten)),
                    LineWords(SegmentTranslator(globals, ps[0].constants, evaluate, asWritten), ps[0].lines[i]))
  {
    var translate := SegmentTranslator(globals, ps[0].constants, evaluate, asWritten);
    var m := EmitAllHead(mem, ps, globals, evaluate, asWritten);
    EmittedWithin(ps[0].lines, translate);
    LaterSegmentsKeep(m, ps, globals, evaluate, asWritten, ps[0].base + WordsOf(ps[0].lines, Emitted(translate)));
    SegmentKept(mem, m, EmitAll(mem, ps, globals, evaluate, asWritten).value, ps[0].lines, ps[0].base, translate, i);
  }

  /** A successful `EmitAll` wrote its first segment successfully, into the
      image the rest were then written over. */
  lemma EmitAllHead(mem: seq<string>, ps: seq<Prepared>, globals: map<string, int>,
                    evaluate: string -> Option<int>, asWritten: bool) returns (m: seq<string>)
    requires |mem| == MAX_MEMORY && ps != []
    requires EmitAll(mem, ps, globals, evaluate, asWritten).Success?
    ensures EmitLines(mem, ps[0].lines, ps[0].base, SegmentTranslator(globals, ps[0].constants, evaluate, asWritten)) == Success(m)
    ensures EmitAll(m, ps[1..], globals, evaluate, asWritten) == EmitAll(mem, ps, globals, evaluate, asWritten)
  {
    EmitAllFront(mem, ps, globals, evaluate, asWritten);
    m := EmitLines(mem, ps[0].lines, ps[0].base, SegmentTranslator(globals, ps[0].constants, evaluate, asWritten)).value;
  }

  /** The words of an instruction line stay where `EmitLines` put them in
      an image that agrees with its result over the words it wrote. */
  lemma SegmentKept(mem: seq<string>, m: seq<string>, final: seq<string>, lines: seq<string>, base: int,
                    translate: Translator, i: int)
    requires |mem| == |final| == MAX_MEMORY && 0 <= base && ProducesHexWords(translate)
    requires EmitLines(mem, lines, base, translate) == Success(m)
    requires forall a :: base <= a < base + WordsOf(lines, Emitted(translate)) && a < MAX_MEMORY ==> final[a] == m[a]
    requires 0 <= i < |lines| && !IsLabel(lines[i])
    ensures Translates(translate, lines[i])
    ensures WordsAt(final, Reached(lines, i, base, translate), LineWords(translate, lines[i]))
  {
    WordsStayPlaced(mem, m, final, lines, base, translate, Emitted(translate), i);
  }

  /** A translator that keeps within the first pass's count writes no more
      words for a segment than the first pass counted. */
  lemma EmittedWithin(lines: seq<string>, translate: Translator)
    requires WithinCount(translate, InstructionWordCount)
    ensures WordsOf(lines, Emitted(translate)) <= WordsOf(lines, InstructionWordCount)
  {
    WordsOfBounded(lines, Emitted(translate), InstructionWordCount);
  }

  /** The words of an instruction line stay where `EmitLines` put them in
      an image that agrees with its result over the segment's words. */
  lemma WordsStayPlaced(mem: seq<string>, m: seq<string>, final: seq<string>, lines: seq<string>, base: int,
                        translate: Translator, count: string -> nat, i: int)
    requires |mem| == |final| == MAX_MEMORY && 0 <= base && ProducesHexWords(translate) && ExactCount(translate, count)
    requires EmitLines(mem, lines, base, translate) == Success(m)
    requires forall a :: base <= a < base + WordsOf(lines, count) && a < MAX_MEMORY ==> final[a] == m[a]
    requires 0 <= i < |lines| && !IsLabel(lines[i])
    ensures translate(lines[i]).Success?
    ensures WordsAt(final, base + WordsOf(lines[..i], count), translate(lines[i]).value)
  {
    EmitLinesPlacement(mem, lines, base, translate, count, i);
    WordsOfPrefix(lines, i, count);
    WordsAtAgree(m, final, base + WordsOf(lines[..i], count), translate(lines[i]).value, base, base + WordsOf(lines, count));
  }

  /** Words in place in `m` are in place in any image that agrees with `m`
      over a range holding them. */
  lemma WordsAtAgree(m: seq<string>, final: seq<string>, at: int, words: seq<string>, lo: int, hi: int)
    requires |m| == |final| && WordsAt(m, at, words) && 0 <= lo <= at && at + |words| <= hi
    requires forall a :: lo <= a < hi && a < |m| ==> final[a] == m[a]
    ensures WordsAt(final, at, words)
  {
    forall k | 0 <= k < |words|
      ensures EntryIs(final, at + k, words[k])
    {
      assert EntryIs(m, at + k, words[k]);
    }
  }

  /** The segments after the first leave the first segment's counted words
      as they were. */
  lemma LaterSegmentsKeep(m: seq<string>, ps: seq<Prepared>, globals: map<string, int>,
                          evaluate: string -> Option<int>, asWritten: bool, hi: int)
    requires |m| == MAX_MEMORY && ps != [] && 0 <= ps[0].base
    requires hi <= ps[0].base + WordsOf(ps[0].lines, InstructionWordCount)
    requires forall k :: 0 < k < |ps| ==> Apart(ps[k], ps[0])
    requires EmitAll(m, ps[1..], globals, evaluate, asWritten).Success?
    ensures forall a :: ps[0].base <= a < hi && a < MAX_MEMORY ==>
              EmitAll(m, ps[1..], globals, evaluate, asWritten).value[a] == m[a]
  {
    forall a | ps[0].base <= a < hi && a < MAX_MEMORY
      ensures EmitAll(m, ps[1..], globals, evaluate, asWritten).value[a] == m[a]
    {
      assert forall k :: 0 <= k < |ps[1..]| ==> ps[1..][k] == ps[k + 1];
      EmitAllKeeps(m, ps[1..], globals, evaluate, asWritten, a);
    }
  }


  /** The words of an instruction line of kept segment `j` are in the
      linked image from the address the second loop reached at that line,
      which is the address the first pass reached there (`LabelBeforeLine`:
      where a label just before the line points),
      provided no later segment overlaps segment `j` and each instruction
      line before it took the words the first pass counted for it. */
  lemma CompilePlacement(segments: seq<Segment>, evaluate: string -> Option<int>, asWritten: bool,
                         ps: seq<Prepared>, j: int, i: int)
    requires ps == PreparedOf(segments) && 0 <= j < |ps| && 0 <= ps[j].base
    requires forall k :: j < k < |ps| ==> Apart(ps[k], ps[j])
    requires 0 <= i < |ps[j].lines| && !IsLabel(ps[j].lines[i])
    requires CountedExactly(ps[j].lines, i, SegmentTranslator(GlobalLabels(ps), ps[j].constants, evaluate, asWritten))
    requires Compile(segments, evaluate, asWritten).Success?
    ensures Translates(SegmentTranslator(GlobalLabels(ps), ps[j].constants, evaluate, asWritten), ps[j].lines[i])
    ensures Reached(ps[j].lines, i, ps[j].base, SegmentTranslator(GlobalLabels(ps), ps[j].constants, evaluate, asWritten))
            == ps[j].base + WordsOf(ps[j].lines[..i], InstructionWordCount)
    ensures WordsAt(Compile(segments, evaluate, asWritten).value,
                    Reached(ps[j].lines, i, ps[j].base, SegmentTranslator(GlobalLabels(ps), ps[j].constants, evaluate, asWritten)),
                    LineWords(SegmentTranslator(GlobalLabels(ps), ps[j].constants, evaluate, asWritten), ps[j].lines[i]))
  {
    CompileEmits(segments, evaluate, asWritten);
    EmitAllPlacement(BlankImage(), ps, GlobalLabels(ps), evaluate, asWritten, j, ps[j], i);
    ReachedAsCounted(ps[j].lines, i, ps[j].base, SegmentTranslator(GlobalLabels(ps), ps[j].constants, evaluate, asWritten));
  }

  /** `Compile` is `EmitAll` over the kept segments from a blank image. */
  lemma CompileEmits(segments: seq<Segment>, evaluate: string -> Option<int>, asWritten: bool)
    ensures Compile(segments, evaluate, asWritten)
            == EmitAll(BlankImage(), PreparedOf(segments), GlobalLabels(PreparedOf(segments)), evaluate, asWritten)
  {
  }

  /** With every immediate looked up directly, an accepted instruction line
      with at most one register takes the words the first pass counted for
      it (a line with two or three registers and an immediate takes one word
      where two were counted). */
  lemma CountedWithOneRegister(lines: seq<string>, i: int, globals: map<string, int>, constants: map<string, int>,
                               evaluate: string -> Option<int>)
    requires 0 <= i <= |lines|
    requires forall h :: 0 <= h < i && !IsLabel(lines[h]) ==>
               HexLine(lines[h], globals, constants, evaluate).Success? && |ParseLine(lines[h]).regs| <= 1
    ensures CountedExactly(lines, i, SegmentTranslator(globals, constants, evaluate, false))
  {
    var translate := SegmentTranslator(globals, constants, evaluate, false);
    forall h | 0 <= h < i && !IsLabel(lines[h])
      ensures translate(lines[h]).Success? && |translate(lines[h]).value| == InstructionWordCount(lines[h])
    {
      WordCountOfLine(lines[h], globals, constants, evaluate);
    }
  }

  /** When the lines before line `i` took the words they were counted for,
      the second loop reaches line `i` at the address the first pass did. */
  lemma ReachedAsCounted(lines: seq<string>, i: int, base: int, translate: Translator)
    requires 0 <= i <= |lines| && CountedExactly(lines, i, translate)
    ensures Reached(lines, i, base, translate) == base + WordsOf(lines[..i], InstructionWordCount)
  {
    assert forall h :: 0 <= h < i ==> lines[..i][h] == lines[h];
    WordsOfAgree(lines[..i], Emitted(translate), InstructionWordCount);
  }

  /** A label line just before line `i` is given the address the first
      pass has reached at line `i`. */
  lemma LabelBeforeLine(lines: seq<string>, i: int, base: int)
    requires 0 <= i <= |lines|
    ensures i > 0 && IsLabel(lines[i - 1]) ==>
              LabelsOf(lines[..i], base, InstructionWordCount)[LabelName(lines[i - 1])]
              == base + WordsOf(lines[..i], InstructionWordCount)
  {
    if i > 0 && IsLabel(lines[i - 1]) {
      assert lines[..i][..i - 1] == lines[..i - 1];
      assert lines[..i][i - 1] == lines[i - 1];
    }
  }
}
