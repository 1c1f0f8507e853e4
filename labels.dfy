/** Labels and the first assembler pass, identical in the linker
    (`tools/compiler.py`) and in the older assembler (`main.py`); the two
    differ only in how many words an instruction line takes, so the word
    count is a parameter here. */
module Labels {
  import opened Text

  /** `IsLabel`: a whole (stripped) line of the form `name:` where the name
      is an identifier. */
  predicate IsLabel(line: string) {
    |line| >= 1 && line[|line| - 1] == ':' && IsIdentifier(line[..|line| - 1])
  }

  /** `line[:-1].upper()`: the upper-cased name a label line defines. */
  function LabelName(line: string): (name: string)
    requires IsLabel(line)
    ensures |name| == |line| - 1 && ':' !in name
  {
    Upper(line[..|line| - 1])
  }

  /** The words the non-label lines of `lines` take, each as `count` says. */
  function WordsOf(lines: seq<string>, count: string -> nat): nat {
    if lines == [] then 0
    else
      var last := lines[|lines| - 1];
      WordsOf(lines[..|lines| - 1], count) + (if IsLabel(last) then 0 else count(last))
  }

  /** The label table the first pass builds: each label line maps its name
      to the address reached so far; a later definition overwrites an
      earlier one, as a Python dictionary assignment does. */
  function LabelsOf(lines: seq<string>, start: int, count: string -> nat): map<string, int> {
    if lines == [] then map[]
    else
      var prefix := lines[..|lines| - 1];
      var last := lines[|lines| - 1];
      var table := LabelsOf(prefix, start, count);
      if IsLabel(last) then table[LabelName(last) := start + WordsOf(prefix, count)] else table
  }

  /** `FirstPass(lines, start_address)`. */
  method FirstPass(lines: seq<string>, start: int, count: string -> nat) returns (labels: map<string, int>)
    ensures labels == LabelsOf(lines, start, count)
  {
    labels := map[];
    var address := start;
    var i := 0;
    while i < |lines|
      invariant 0 <= i <= |lines|
      invariant labels == LabelsOf(lines[..i], start, count)
      invariant address == start + WordsOf(lines[..i], count)
    {
      assert lines[..i + 1][..i] == lines[..i];
      if IsLabel(lines[i]) {
        labels := labels[LabelName(lines[i]) := address];
      } else {
        address := address + count(lines[i]);
      }
      i := i + 1;
    }
    assert lines[..|lines|] == lines;
  }

  /** `name` is defined by the label line at index `i` and by none after it. */
  predicate LastDefinition(lines: seq<string>, name: string, i: int) {
    0 <= i < |lines| && IsLabel(lines[i]) && LabelName(lines[i]) == name
    && forall j :: i < j < |lines| && IsLabel(lines[j]) ==> LabelName(lines[j]) != name
  }

  /** A name is in the table exactly when some label line defines it, and
      then its address is the start plus the words of every non-label line
      before its last definition. */
  lemma {:induction false} LabelAddress(lines: seq<string>, start: int, count: string -> nat, name: string)
    ensures name in LabelsOf(lines, start, count) <==>
            exists i :: 0 <= i < |lines| && IsLabel(lines[i]) && LabelName(lines[i]) == name
    ensures name in LabelsOf(lines, start, count) ==>
            exists i :: LastDefinition(lines, name, i)
                        && LabelsOf(lines, start, count)[name] == start + WordsOf(lines[..i], count)
    decreases |lines|
  {
    if lines != [] {
      var n := |lines| - 1;
      var prefix := lines[..n];
      LabelAddress(prefix, start, count, name);
      assert forall i :: 0 <= i < n ==> prefix[i] == lines[i];
      if IsLabel(lines[n]) && LabelName(lines[n]) == name {
        assert LastDefinition(lines, name, n);
        assert lines[..n] == prefix;
      } else if name in LabelsOf(prefix, start, count) {
        var i :| LastDefinition(prefix, name, i)
                 && LabelsOf(prefix, start, count)[name] == start + WordsOf(prefix[..i], count);
        assert LastDefinition(lines, name, i);
        assert prefix[..i] == lines[..i];
      }
    }
  }

  /** The words of a list are those of its halves together. */
  lemma {:induction false} WordsOfAppend(a: seq<string>, b: seq<string>, count: string -> nat)
    ensures WordsOf(a + b, count) == WordsOf(a, count) + WordsOf(b, count)
    decreases |b|
  {
    if b == [] {
      assert a + b == a;
    } else {
      var n := |b| - 1;
      assert (a + b)[..|a + b| - 1] == a + b[..n];
      WordsOfAppend(a, b[..n], count);
    }
  }

  /** Two word counts that agree on every line give the same words. */
  lemma {:induction false} WordsOfSameCount(lines: seq<string>, c1: string -> nat, c2: string -> nat)
    requires forall line :: c1(line) == c2(line)
    ensures WordsOf(lines, c1) == WordsOf(lines, c2)
    decreases |lines|
  {
    if lines != [] {
      WordsOfSameCount(lines[..|lines| - 1], c1, c2);
    }
  }

  /** A count no larger on any instruction line gives no more words. */
  lemma {:induction false} WordsOfBounded(lines: seq<string>, c1: string -> nat, c2: string -> nat)
    requires forall j :: 0 <= j < |lines| && !IsLabel(lines[j]) ==> c1(lines[j]) <= c2(lines[j])
    ensures WordsOf(lines, c1) <= WordsOf(lines, c2)
    decreases |lines|
  {
    if lines != [] {
      var n := |lines| - 1;
      assert forall j :: 0 <= j < n ==> lines[..n][j] == lines[j];
      WordsOfBounded(lines[..n], c1, c2);
    }
  }

  /** Two counts that agree on the instruction lines give the same words. */
  lemma WordsOfAgree(lines: seq<string>, c1: string -> nat, c2: string -> nat)
    requires forall j :: 0 <= j < |lines| && !IsLabel(lines[j]) ==> c1(lines[j]) == c2(lines[j])
    ensures WordsOf(lines, c1) == WordsOf(lines, c2)
  {
    WordsOfBounded(lines, c1, c2);
    WordsOfBounded(lines, c2, c1);
  }

  /** Two word counts that agree on every line give the same labels. */
  lemma {:induction false} LabelsOfSameCount(lines: seq<string>, start: int, c1: string -> nat, c2: string -> nat)
    requires forall line :: c1(line) == c2(line)
    ensures LabelsOf(lines, start, c1) == LabelsOf(lines, start, c2)
    decreases |lines|
  {
    if lines != [] {
      LabelsOfSameCount(lines[..|lines| - 1], start, c1, c2);
      WordsOfSameCount(lines[..|lines| - 1], c1, c2);
    }
  }
}
