/** The string operations of Python that the toolchain relies on: the
    whitespace classes of `str.split()` and `\s`, `strip`, `split`, `find`,
    upper-casing, and the positional notations of `bin`, `hex`, `int(s, b)`
    and `zfill`.  Letters are upper-cased in ASCII only. */
module Text {
  import opened Wrappers

  // ---------------------------------------------------------------------
  // Characters

  /** `str.isspace()`, which is also what `\s` and `str.split()` treat as
      whitespace. */
  predicate IsSpace(c: char) {
    c == ' ' || c == '\t' || c == '\n' || c == '\r' || c == '\U{0B}' || c == '\U{0C}'
    || ('\U{1C}' <= c <= '\U{1F}') || c == '\U{85}' || c == '\U{A0}' || c == '\U{1680}'
    || ('\U{2000}' <= c <= '\U{200A}') || c == '\U{2028}' || c == '\U{2029}'
    || c == '\U{202F}' || c == '\U{205F}' || c == '\U{3000}'
  }

  /** The class `[,\s]`. */
  predicate IsCommaOrSpace(c: char) {
    c == ',' || IsSpace(c)
  }

  predicate IsAsciiDigit(c: char) { '0' <= c <= '9' }

  predicate IsAsciiLetter(c: char) { 'a' <= c <= 'z' || 'A' <= c <= 'Z' }

  function UpperChar(c: char): char {
    if 'a' <= c <= 'z' then (c as int - 32) as char else c
  }

  function LowerChar(c: char): char {
    if 'A' <= c <= 'Z' then (c as int + 32) as char else c
  }

  /** `str.upper()`. */
  function Upper(s: string): (r: string)
    ensures |r| == |s| && forall i :: 0 <= i < |s| ==> r[i] == UpperChar(s[i])
  {
    seq(|s|, i requires 0 <= i < |s| => UpperChar(s[i]))
  }

  /** `str.lower()`. */
  function Lower(s: string): (r: string)
    ensures |r| == |s| && forall i :: 0 <= i < |s| ==> r[i] == LowerChar(s[i])
  {
    seq(|s|, i requires 0 <= i < |s| => LowerChar(s[i]))
  }

  /** Every character of `s` satisfies `p`. */
  predicate All(s: string, p: char -> bool) {
    forall i :: 0 <= i < |s| ==> p(s[i])
  }

  /** `str.isdigit()` for ASCII digits. */
  predicate IsDigits(s: string) {
    |s| > 0 && All(s, IsAsciiDigit)
  }

  /** The regular expression `^[A-Za-z_][A-Za-z0-9_]*$` (an identifier). */
  predicate IsIdentifier(s: string) {
    |s| > 0 && (IsAsciiLetter(s[0]) || s[0] == '_')
    && forall i :: 1 <= i < |s| ==> IsAsciiLetter(s[i]) || IsAsciiDigit(s[i]) || s[i] == '_'
  }

  // ---------------------------------------------------------------------
  // Trimming and splitting

  /** The length of the longest prefix of `s` whose characters satisfy `p`. */
  function LeadingRun(s: string, p: char -> bool): (n: nat)
    ensures n <= |s|
    ensures forall i :: 0 <= i < n ==> p(s[i])
    ensures n < |s| ==> !p(s[n])
  {
    if s == [] || !p(s[0]) then 0 else 1 + LeadingRun(s[1..], p)
  }

  /** The length of the longest suffix of `s` whose characters satisfy `p`. */
  function TrailingRun(s: string, p: char -> bool): (n: nat)
    ensures n <= |s|
    ensures forall i :: |s| - n <= i < |s| ==> p(s[i])
    ensures n < |s| ==> !p(s[|s| - n - 1])
  {
    if s == [] || !p(s[|s| - 1]) then 0 else 1 + TrailingRun(s[..|s| - 1], p)
  }

  /** `s.strip(chars)`: drops the characters satisfying `p` at both ends. */
  function Trim(s: string, p: char -> bool): (r: string)
    ensures |r| <= |s|
    ensures |r| > 0 ==> !p(r[0]) && !p(r[|r| - 1])
    ensures r == [] <==> All(s, p)
    // `r` is what follows the leading run, with a run of `p` characters cut off the end
    ensures var k := LeadingRun(s, p);
            k + |r| <= |s| && r == s[k..k + |r|] && All(s[k + |r|..], p)
  {
    var t := s[LeadingRun(s, p)..];
    t[..|t| - TrailingRun(t, p)]
  }

  /** `s.strip()`. */
  function Strip(s: string): string {
    Trim(s, IsSpace)
  }

  /** `s.split(c)[0]`: everything before the first `c`. */
  function BeforeFirst(s: string, c: char): (r: string)
    ensures r <= s && c !in r
    ensures |r| < |s| ==> s[|r|] == c
  {
    s[..LeadingRun(s, x => x != c)]
  }

  /** `s` with the characters satisfying `sep` removed. */
  function Removed(s: string, sep: char -> bool): (r: string)
    ensures |r| <= |s|
  {
    if s == [] then "" else (if sep(s[0]) then "" else [s[0]]) + Removed(s[1..], sep)
  }

  /** The strings of `ts` one after the other. */
  function Concat(ts: seq<string>): string {
    if ts == [] then "" else ts[0] + Concat(ts[1..])
  }

  /** Removing from a concatenation removes from each part. */
  lemma {:induction false} RemovedAppend(a: string, b: string, sep: char -> bool)
    ensures Removed(a + b, sep) == Removed(a, sep) + Removed(b, sep)
  {
    if a != [] {
      assert (a + b)[1..] == a[1..] + b;
      RemovedAppend(a[1..], b, sep);
    } else {
      assert a + b == b;
    }
  }

  /** A string without separators loses nothing. */
  lemma {:induction false} RemovedNone(s: string, sep: char -> bool)
    requires All(s, x => !sep(x))
    ensures Removed(s, sep) == s
  {
    if s != [] {
      RemovedNone(s[1..], sep);
      assert s == [s[0]] + s[1..];
    }
  }

  /** The maximal runs of characters outside `sep`, in order.  With
      `IsSpace` this is `s.split()`; with `IsCommaOrSpace` it is
      `re.split(r'[,\s]+', s)` with the empty pieces dropped. */
  function Tokens(s: string, sep: char -> bool): (ts: seq<string>)
    ensures forall k :: 0 <= k < |ts| ==> |ts[k]| > 0 && All(ts[k], x => !sep(x))
    // read one after the other, the tokens are `s` without its separators
    ensures Concat(ts) == Removed(s, sep)
    decreases |s|
  {
    if s == [] then []
    else if sep(s[0]) then Tokens(s[1..], sep)
    else
      var n := LeadingRun(s, x => !sep(x));
      TokensStep(s, n, sep);
      [s[..n]] + Tokens(s[n..], sep)
  }

  /** A leading separator starts no token. */
  lemma TokensSkip(c: char, s: string, sep: char -> bool)
    requires sep(c)
    ensures Tokens([c] + s, sep) == Tokens(s, sep)
  {
    assert ([c] + s)[1..] == s;
  }

  /** What follows a prefix `a` of `a + b + c`. */
  lemma AfterFirst(a: string, b: string, c: string)
    ensures (a + b + c)[|a|..] == b + c
  {
  }

  /** The removal law for one token: a separator-free prefix of `s` is kept
      whole. */
  lemma TokensStep(s: string, n: nat, sep: char -> bool)
    requires n <= |s| && All(s[..n], x => !sep(x))
    ensures Removed(s, sep) == s[..n] + Removed(s[n..], sep)
  {
    assert s == s[..n] + s[n..];
    RemovedAppend(s[..n], s[n..], sep);
    RemovedNone(s[..n], sep);
  }

  /** `" ".join(ts)`. */
  function JoinSpace(ts: seq<string>): (r: string)
    ensures |ts| > 0 ==> |r| >= |ts[0]|
  {
    if ts == [] then "" else if |ts| == 1 then ts[0] else ts[0] + " " + JoinSpace(ts[1..])
  }

  /** A string without separators is its own single token. */
  lemma {:induction false} TokensOfWord(s: string, sep: char -> bool)
    requires |s| > 0 && All(s, x => !sep(x))
    ensures Tokens(s, sep) == [s]
  {
    var n := LeadingRun(s, x => !sep(x));
    assert n == |s|;
    assert s[n..] == [];
    assert s[..n] == s;
  }

  /** Splitting words joined by spaces gives the words back, when space is
      a separator and no word is empty or holds a separator. */
  lemma {:induction false} TokensOfJoin(ws: seq<string>, sep: char -> bool)
    requires sep(' ')
    requires forall k :: 0 <= k < |ws| ==> |ws[k]| > 0 && All(ws[k], x => !sep(x))
    ensures Tokens(JoinSpace(ws), sep) == ws
  {
    if |ws| == 1 {
      TokensOfWord(ws[0], sep);
    } else if |ws| > 1 {
      var w, rest := ws[0], JoinSpace(ws[1..]);
      var s := w + " " + rest;
      assert LeadingRun(s, x => !sep(x)) == |w| by {
        LeadingRunOfWord(w, " " + rest, sep);
        assert s == w + (" " + rest);
      }
      assert s[..|w|] == w;
      assert s[|w|..] == " " + rest;
      assert (" " + rest)[1..] == rest;
      TokensOfJoin(ws[1..], sep);
    }
  }

  /** The characters of `" ".join(ts)` are spaces or characters of the
      words. */
  lemma {:induction false} JoinSpaceChars(ts: seq<string>, p: char -> bool)
    requires p(' ') && forall k :: 0 <= k < |ts| ==> All(ts[k], p)
    ensures All(JoinSpace(ts), p)
  {
    if |ts| > 1 {
      var w, rest := ts[0], JoinSpace(ts[1..]);
      JoinSpaceChars(ts[1..], p);
      assert All(w, p) && All(rest, p);
      forall i | 0 <= i < |w + " " + rest|
        ensures p((w + " " + rest)[i])
      {
        if i < |w| {
          assert (w + " " + rest)[i] == w[i];
        } else if i > |w| {
          assert (w + " " + rest)[i] == rest[i - |w| - 1];
        }
      }
    }
  }

  /** `" ".join(ts)` of non-empty words ends with the last character of the
      last word. */
  lemma {:induction false} JoinSpaceLast(ts: seq<string>)
    requires |ts| > 0 && forall k :: 0 <= k < |ts| ==> |ts[k]| > 0
    ensures var r := JoinSpace(ts);
            |r| > 0 && r[|r| - 1] == ts[|ts| - 1][|ts[|ts| - 1]| - 1]
  {
    if |ts| > 1 {
      JoinSpaceLast(ts[1..]);
      assert ts[1..][|ts[1..]| - 1] == ts[|ts| - 1];
    }
  }

  /** The separator-free run at the start of `w + t` is `w`, when `t` starts
      with a separator. */
  lemma {:induction false} LeadingRunOfWord(w: string, t: string, sep: char -> bool)
    requires All(w, x => !sep(x)) && |t| > 0 && sep(t[0])
    ensures LeadingRun(w + t, x => !sep(x)) == |w|
  {
    if w != [] {
      assert (w + t)[1..] == w[1..] + t;
      LeadingRunOfWord(w[1..], t, sep);
    }
  }

  // ---------------------------------------------------------------------
  // Searching

  /** `sub` occurs in `s` at position `i`. */
  predicate OccursAt(s: string, sub: string, i: int) {
    0 <= i && i + |sub| <= |s| && s[i..i + |sub|] == sub
  }

  /** `s.find(sub, start)`: the first occurrence at or after `start`, or -1. */
  function FindFrom(s: string, sub: string, start: nat): (i: int)
    ensures i == -1 || (start <= i && OccursAt(s, sub, i))
    ensures i == -1 ==> forall j :: start <= j ==> !OccursAt(s, sub, j)
    ensures i != -1 ==> forall j :: start <= j < i ==> !OccursAt(s, sub, j)
    decreases |s| + 1 - start
  {
    if start + |sub| > |s| then -1
    else if s[start..start + |sub|] == sub then start
    else FindFrom(s, sub, start + 1)
  }

  /** `s.find(sub)`. */
  function Find(s: string, sub: string): int {
    FindFrom(s, sub, 0)
  }

  /** `s.replace(target, replacement)`: every occurrence of `target`, found
      left to right without overlapping, replaced by `replacement`. */
  function ReplaceAll(s: string, target: string, replacement: string): (r: string)
    requires |target| > 0
    ensures (forall i :: !OccursAt(s, target, i)) ==> r == s
    decreases |s|
  {
    if |s| < |target| then s
    else if s[..|target|] == target then
      assert OccursAt(s, target, 0);
      replacement + ReplaceAll(s[|target|..], target, replacement)
    else
      var rest := ReplaceAll(s[1..], target, replacement);
      assert forall i :: OccursAt(s[1..], target, i) ==> OccursAt(s, target, i + 1) by {
        forall i | OccursAt(s[1..], target, i)
          ensures OccursAt(s, target, i + 1)
        {
          assert s[1..][i..i + |target|] == s[i + 1..i + 1 + |target|];
        }
      }
      [s[0]] + rest
  }

  /** When `target` occurs in `a + target + b` only between `a` and `b`,
      `ReplaceAll` puts `replacement` there and keeps the rest. */
  lemma {:induction false} ReplaceOnce(a: string, target: string, b: string, replacement: string)
    requires |target| > 0
    requires forall i :: OccursAt(a + target + b, target, i) ==> i == |a|
    ensures ReplaceAll(a + target + b, target, replacement) == a + replacement + b
    decreases |a|
  {
    if a == [] {
      assert a + target + b == target + b && a + replacement + b == replacement + b;
      ReplaceAtStart(target, b, replacement);
    } else {
      ShiftedOccurrences(a, target, b);
      ReplaceOnce(a[1..], target, b, replacement);
      ReplaceStep(a, target, b, replacement);
    }
  }

  /** The base case: `target` at the start and nowhere else. */
  lemma ReplaceAtStart(target: string, b: string, replacement: string)
    requires |target| > 0
    requires forall i :: OccursAt(target + b, target, i) ==> i == 0
    ensures ReplaceAll(target + b, target, replacement) == replacement + b
  {
    NothingAfter(target, b);
    var s := target + b;
    assert s[..|target|] == target && s[|target|..] == b;
  }

  /** The step: a first character before the only occurrence is kept. */
  lemma ReplaceStep(a: string, target: string, b: string, replacement: string)
    requires |target| > 0 && |a| > 0 && !OccursAt(a + target + b, target, 0)
    requires ReplaceAll(a[1..] + target + b, target, replacement) == a[1..] + replacement + b
    ensures ReplaceAll(a + target + b, target, replacement) == a + replacement + b
  {
    ConsSplit(a, target, b);
    ConsSplit(a, replacement, b);
    ReplaceSkips(a[0], a[1..] + target + b, target, replacement);
  }

  lemma ConsSplit(a: string, x: string, b: string)
    requires |a| > 0
    ensures a + x + b == [a[0]] + (a[1..] + x + b)
  {
  }

  /** An occurrence in `b` is one in `p + b`, `|p|` further on. */
  lemma OccursAfter(p: string, b: string, sub: string, i: int)
    requires OccursAt(b, sub, i)
    ensures OccursAt(p + b, sub, i + |p|)
  {
    assert (p + b)[i + |p|..i + |p| + |sub|] == b[i..i + |sub|];
  }

  /** When `target` occurs in `target + b` only at the start, it does not
      occur in `b`. */
  lemma NothingAfter(target: string, b: string)
    requires |target| > 0
    requires forall i :: OccursAt(target + b, target, i) ==> i == 0
    ensures forall i :: !OccursAt(b, target, i)
  {
    forall i | OccursAt(b, target, i)
      ensures false
    {
      OccursAfter(target, b, target, i);
    }
  }

  /** Dropping the first character of `a` moves the only occurrence of
      `target` one place earlier. */
  lemma ShiftedOccurrences(a: string, target: string, b: string)
    requires |a| > 0
    requires forall i :: OccursAt(a + target + b, target, i) ==> i == |a|
    ensures forall i :: OccursAt(a[1..] + target + b, target, i) ==> i == |a| - 1
  {
    forall i | OccursAt(a[1..] + target + b, target, i)
      ensures i == |a| - 1
    {
      OccursAfter([a[0]], a[1..] + target + b, target, i);
      assert [a[0]] + (a[1..] + target + b) == a + target + b;
    }
  }

  /** `ReplaceAll` keeps a first character where `target` does not start. */
  lemma ReplaceSkips(c: char, rest: string, target: string, replacement: string)
    requires |target| > 0 && !OccursAt([c] + rest, target, 0)
    ensures ReplaceAll([c] + rest, target, replacement) == [c] + ReplaceAll(rest, target, replacement)
  {
    var s := [c] + rest;
    assert s[0] == c && s[1..] == rest;
    if |s| >= |target| {
      assert s[0..|target|] == s[..|target|];
    }
  }

  /** `f"0x{address:04X}"`: four uppercase hexadecimal digits at least, with
      the sign inside the width for a negative address. */
  function AddressLiteral(address: int): string {
    "0x" + (if address >= 0 then ZFill(HexUpper(address), 4) else "-" + ZFill(HexUpper(-address), 3))
  }

  // ---------------------------------------------------------------------
  // Positional notation

  /** The bases the toolchain converts in.  Lemmas over digits are stated
      for these: with a literal base the arithmetic stays linear. */
  predicate IsBase(base: nat) {
    base == 2 || base == 10 || base == 16
  }

  function Pow(b: nat, k: nat): nat {
    if k == 0 then 1 else b * Pow(b, k - 1)
  }

  /** The digits of `v` in base `base`, most significant first, without
      leading zeros (a single 0 for zero). */
  function ToDigits(v: nat, base: nat): (ds: seq<nat>)
    requires base >= 2
    ensures |ds| >= 1
    ensures forall i :: 0 <= i < |ds| ==> ds[i] < base
    decreases v
  {
    if v < base then [v] else QuotientSmaller(v, base); ToDigits(v / base, base) + [v % base]
  }

  /** Dividing by a base of at least two makes a positive number smaller. */
  lemma QuotientSmaller(v: nat, base: nat)
    requires base >= 2 && v >= base
    ensures v / base < v
  {
    var q := v / base;
    assert q * base <= v;
    assert q * 2 <= q * base;
  }

  /** The number a digit sequence denotes, most significant first. */
  function ValueOf(ds: seq<nat>, base: nat): nat {
    if ds == [] then 0 else ValueOf(ds[..|ds| - 1], base) * base + ds[|ds| - 1]
  }

  /** Reading back the digits of `v` gives `v`. */
  lemma {:induction false} DigitsRoundTrip(v: nat, base: nat)
    requires IsBase(base)
    ensures ValueOf(ToDigits(v, base), base) == v
    decreases v
  {
    if v >= base {
      LastDigit(v, base);
      DigitsRoundTrip(v / base, base);
    }
  }

  /** One step of `ToDigits`: the last digit is `v % base` and the rest
      are the digits of `v / base`. */
  lemma LastDigit(v: nat, base: nat)
    requires IsBase(base) && v >= base
    ensures v / base < v
    ensures ValueOf(ToDigits(v / base, base), base) == v / base ==> ValueOf(ToDigits(v, base), base) == v
  {
    var qs := ToDigits(v / base, base);
    assert ToDigits(v, base) == qs + [v % base];
    ValueOfSnoc(qs, v % base, base);
    if base == 2 {
      assert v == (v / 2) * 2 + v % 2;
    } else if base == 10 {
      assert v == (v / 10) * 10 + v % 10;
    } else {
      assert v == (v / 16) * 16 + v % 16;
    }
  }

  /** `v` has at most `k` digits exactly when it is below `base^k`. */
  lemma {:induction false} DigitsFit(v: nat, base: nat, k: nat)
    requires IsBase(base) && k >= 1
    ensures |ToDigits(v, base)| <= k <==> v < Pow(base, k)
    decreases v
  {
    PowAtLeastBase(base, k);
    if v >= base && k > 1 {
      DigitsFit(v / base, base, k - 1);
      assert Pow(base, k) == base * Pow(base, k - 1);
      QuotientBelow(v, base, Pow(base, k - 1));
    }
  }

  /** Appending a digit multiplies by the base and adds the digit. */
  lemma ValueOfSnoc(ds: seq<nat>, d: nat, base: nat)
    ensures ValueOf(ds + [d], base) == ValueOf(ds, base) * base + d
  {
    assert (ds + [d])[..|ds|] == ds;
  }

  /** `v / base < p` exactly when `v < p * base`. */
  lemma QuotientBelow(v: nat, base: nat, p: nat)
    requires IsBase(base)
    ensures v / base < p <==> v < base * p
  {
    if v / base < p {
      assert v / base + 1 <= p;
      assert (v / base + 1) * base <= p * base;
    } else {
      assert (v / base) * base >= p * base;
    }
  }

  lemma {:induction false} PowAtLeastBase(base: nat, k: nat)
    requires base >= 2 && k >= 1
    ensures Pow(base, k) >= base
  {
    if k > 1 {
      PowAtLeastBase(base, k - 1);
    }
  }

  function Zeros(n: nat): seq<nat> {
    seq(n, _ => 0)
  }

  /** Leading zero digits do not change the value. */
  lemma {:induction false} LeadingZerosValue(n: nat, ds: seq<nat>, base: nat)
    ensures ValueOf(Zeros(n) + ds, base) == ValueOf(ds, base)
    decreases |ds|, n
  {
    if ds == [] {
      assert Zeros(n) + ds == Zeros(n);
      if n > 0 {
        assert Zeros(n)[..n - 1] == Zeros(n - 1);
        LeadingZerosValue(n - 1, [], base);
        assert Zeros(n - 1) + [] == Zeros(n - 1);
      }
    } else {
      var all := Zeros(n) + ds;
      assert all[..|all| - 1] == Zeros(n) + ds[..|ds| - 1];
      LeadingZerosValue(n, ds[..|ds| - 1], base);
    }
  }

  const LOWER_HEX: string := "0123456789abcdef"
  const UPPER_HEX: string := "0123456789ABCDEF"

  /** The digit a character stands for in `int(s, base)` (ASCII letters in
      either case); 99 for a character that is no digit. */
  function DigitValue(c: char): nat {
    if '0' <= c <= '9' then c as int - '0' as int
    else if 'a' <= c <= 'z' then c as int - 'a' as int + 10
    else if 'A' <= c <= 'Z' then c as int - 'A' as int + 10
    else 99
  }

  /** Writes digits with the characters of `alphabet`. */
  function Render(ds: seq<nat>, alphabet: string): (s: string)
    requires forall i :: 0 <= i < |ds| ==> ds[i] < |alphabet|
    ensures |s| == |ds|
  {
    seq(|ds|, i requires 0 <= i < |ds| => alphabet[ds[i]])
  }

  /** `bin(v)[2:]`. */
  function Bin(v: nat): string {
    Render(ToDigits(v, 2), "01")
  }

  /** `hex(v)[2:]`. */
  function Hex(v: nat): string {
    Render(ToDigits(v, 16), LOWER_HEX)
  }

  /** `f"{v:X}"`. */
  function HexUpper(v: nat): string {
    Render(ToDigits(v, 16), UPPER_HEX)
  }

  /** `str(v)`: the decimal digits of `v`, after a minus sign when it is
      negative. */
  function Decimal(v: int): (r: string)
    ensures |r| > 0 && (r[0] == '-' <==> v < 0)
  {
    var digits := Render(ToDigits(if v < 0 then -v else v, 10), UPPER_HEX);
    assert digits[0] == UPPER_HEX[ToDigits(if v < 0 then -v else v, 10)[0]];
    if v < 0 then "-" + digits else digits
  }

  /** `s.zfill(n)` for a string without a sign. */
  function ZFill(s: string, n: nat): (r: string)
    ensures |r| == if |s| >= n then |s| else n
    ensures s <= r[|r| - |s|..] && r[|r| - |s|..] == s
  {
    if |s| >= n then s else seq(n - |s|, _ => '0') + s
  }

  /** The digit values of a string. */
  function DigitsOf(s: string): (ds: seq<nat>)
    ensures |ds| == |s|
  {
    seq(|s|, i requires 0 <= i < |s| => DigitValue(s[i]))
  }

  /** The digits `int(s, base)` accepts once the sign and prefix are gone:
      at least one, each below the base. */
  predicate IsDigitsIn(s: string, base: nat) {
    |s| > 0 && forall i :: 0 <= i < |s| ==> DigitValue(s[i]) < base
  }

  /** The value of a digit string in `base`. */
  function ParseDigits(s: string, base: nat): Option<nat> {
    if IsDigitsIn(s, base) then Some(ValueOf(DigitsOf(s), base)) else None
  }

  /** The value `int(s, 2)` gives a string of 0s and 1s. */
  function BinaryValue(s: string): nat {
    ValueOf(DigitsOf(s), 2)
  }

  predicate IsBits(s: string) {
    forall i :: 0 <= i < |s| ==> s[i] == '0' || s[i] == '1'
  }

  /** `n` binary digits. */
  predicate IsBitField(s: string, n: nat) {
    |s| == n && IsBits(s)
  }

  /** The characters with a digit value below 2 are exactly 0 and 1. */
  lemma BinaryDigitsAreBits(s: string)
    ensures IsDigitsIn(s, 2) ==> IsBits(s)
    ensures IsBits(s) && |s| > 0 ==> IsDigitsIn(s, 2)
  {
  }

  /** A bit string read in two parts: the high part is shifted by the width
      of the low part. */
  lemma BinaryValueConcat(a: string, b: string)
    ensures BinaryValue(a + b) == BinaryValue(a) * Pow(2, |b|) + BinaryValue(b)
  {
    DigitsOfConcat(a, b);
    BinaryDigitsConcat(DigitsOf(a), DigitsOf(b));
  }

  lemma DigitsOfConcat(a: string, b: string)
    ensures DigitsOf(a + b) == DigitsOf(a) + DigitsOf(b)
  {
    var ab, ds := a + b, DigitsOf(a) + DigitsOf(b);
    forall i | 0 <= i < |ab|
      ensures DigitsOf(ab)[i] == ds[i]
    {
      if i < |a| {
        assert ab[i] == a[i];
      } else {
        assert ab[i] == b[i - |a|];
      }
    }
  }

  lemma {:induction false} BinaryDigitsConcat(x: seq<nat>, y: seq<nat>)
    ensures ValueOf(x + y, 2) == ValueOf(x, 2) * Pow(2, |y|) + ValueOf(y, 2)
    decreases |y|
  {
    if y == [] {
      assert x + y == x;
    } else {
      var n := |y| - 1;
      var y' := y[..n];
      assert x + y == (x + y') + [y[n]];
      assert y == y' + [y[n]];
      ValueOfSnoc(x + y', y[n], 2);
      ValueOfSnoc(y', y[n], 2);
      BinaryDigitsConcat(x, y');
      Distribute(ValueOf(x, 2), Pow(2, n), ValueOf(y', 2), y[n]);
    }
  }

  lemma Distribute(x: nat, p: nat, v: nat, d: nat)
    ensures (x * p + v) * 2 + d == x * (2 * p) + (v * 2 + d)
  {
  }


  /** An alphabet writes each digit below `base` with a character that
      reads back as that digit, zero first. */
  predicate IsAlphabet(alphabet: string, base: nat) {
    0 < base <= |alphabet| && alphabet[0] == '0'
    && forall d :: 0 <= d < base ==> DigitValue(alphabet[d]) == d
  }

  /** `bin`, `hex` and `:X` write digits this way. */
  lemma Alphabets()
    ensures IsAlphabet("01", 2) && IsAlphabet(LOWER_HEX, 16) && IsAlphabet(UPPER_HEX, 16)
  {
    forall d | 0 <= d < 16
      ensures DigitValue(LOWER_HEX[d]) == d && DigitValue(UPPER_HEX[d]) == d
    {
      if d < 10 {
        assert LOWER_HEX[d] == UPPER_HEX[d] == ('0' as int + d) as char;
      } else {
        assert LOWER_HEX[d] == ('a' as int + d - 10) as char;
        assert UPPER_HEX[d] == ('A' as int + d - 10) as char;
      }
    }
  }

  /** Rendering digits and reading the string back gives the digits. */
  lemma RenderThenRead(ds: seq<nat>, alphabet: string, base: nat)
    requires IsAlphabet(alphabet, base)
    requires forall i :: 0 <= i < |ds| ==> ds[i] < base
    ensures DigitsOf(Render(ds, alphabet)) == ds
  {
  }

  /** Zero characters in front add zero digits in front. */
  lemma ZeroCharsDigits(n: nat, r: string)
    ensures DigitsOf(seq(n, _ => '0') + r) == Zeros(n) + DigitsOf(r)
  {
    var s := seq(n, _ => '0') + r;
    forall i | 0 <= i < |s|
      ensures DigitsOf(s)[i] == (Zeros(n) + DigitsOf(r))[i]
    {
      if i >= n {
        assert s[i] == r[i - n];
      }
    }
  }

  lemma DigitsBelowBase(s: string, ds: seq<nat>, base: nat)
    requires DigitsOf(s) == ds && |ds| > 0
    requires forall i :: 0 <= i < |ds| ==> ds[i] < base
    ensures IsDigitsIn(s, base)
  {
    forall i | 0 <= i < |s|
      ensures DigitValue(s[i]) < base
    {
      assert DigitValue(s[i]) == ds[i];
    }
  }

  /** A zero-filled rendering of `v` in `width` digits: exactly `width`
      characters when `v` fits, and it reads back as `v` in every case. */
  lemma ZFilledDigits(v: nat, base: nat, alphabet: string, width: nat)
    requires (base == 2 || base == 16) && IsAlphabet(alphabet, base)
    requires width >= 1
    ensures var s := ZFill(Render(ToDigits(v, base), alphabet), width);
            IsDigitsIn(s, base) && ValueOf(DigitsOf(s), base) == v
            && (|s| == width <==> v < Pow(base, width))
  {
    var ds := ToDigits(v, base);
    assert ValueOf(ds, base) == v by {
      DigitsRoundTrip(v, base);
    }
    assert |ds| <= width <==> v < Pow(base, width) by {
      DigitsFit(v, base, width);
    }
    ZFilledRendering(ds, v, base, alphabet, width);
  }

  /** `ZFilledDigits` for any digit sequence of `v` that fits the base. */
  lemma ZFilledRendering(ds: seq<nat>, v: nat, base: nat, alphabet: string, width: nat)
    requires (base == 2 || base == 16) && IsAlphabet(alphabet, base)
    requires |ds| > 0 && forall i :: 0 <= i < |ds| ==> ds[i] < base
    requires ValueOf(ds, base) == v
    ensures var s := ZFill(Render(ds, alphabet), width);
            IsDigitsIn(s, base) && ValueOf(DigitsOf(s), base) == v
            && (|s| == width <==> |ds| <= width)
  {
    var r := Render(ds, alphabet);
    var s := ZFill(r, width);
    var n := |s| - |r|;
    var zs := Zeros(n) + ds;
    assert DigitsOf(s) == zs by {
      assert s == seq(n, _ => '0') + r;
      RenderThenRead(ds, alphabet, base);
      ZeroCharsDigits(n, r);
    }
    assert ValueOf(DigitsOf(s), base) == v by {
      LeadingZerosValue(n, ds, base);
    }
    assert IsDigitsIn(s, base) by {
      forall i | 0 <= i < |zs|
        ensures zs[i] < base
      {
        if i >= n {
          assert zs[i] == ds[i - n];
        }
      }
      DigitsBelowBase(s, zs, base);
    }
  }

  /** The powers the word formats use. */
  lemma WordPowers()
    ensures Pow(2, 3) == 8 && Pow(2, 4) == 16 && Pow(2, 16) == 0x1_0000 && Pow(16, 4) == 0x1_0000
  {
    assert Pow(2, 4) == 16;
    assert Pow(2, 8) == 256 by {
      assert Pow(2, 6) == 64;
    }
    assert Pow(2, 12) == 4096 by {
      assert Pow(2, 10) == 1024;
    }
    assert Pow(2, 16) == 0x1_0000 by {
      assert Pow(2, 14) == 0x4000;
    }
    assert Pow(16, 4) == 0x1_0000 by {
      assert Pow(16, 2) == 256;
    }
  }

  predicate IsLowerHexDigit(c: char) {
    '0' <= c <= '9' || 'a' <= c <= 'f'
  }

  /** `hex(v)[2:].zfill(4)`: lowercase hexadecimal digits that read back as
      `v`, exactly four of them when `v` fits in sixteen bits. */
  lemma HexWord(v: nat)
    ensures var hex := ZFill(Hex(v), 4);
            ParseDigits(hex, 16) == Some(v)
            && (|hex| == 4 <==> v < 0x1_0000)
            && forall i :: 0 <= i < |hex| ==> IsLowerHexDigit(hex[i])
  {
    var hex := ZFill(Hex(v), 4);
    Alphabets();
    ZFilledDigits(v, 16, LOWER_HEX, 4);
    WordPowers();
    LowerHexRendering(ToDigits(v, 16));
    forall i | 0 <= i < |hex|
      ensures IsLowerHexDigit(hex[i])
    {
      if i >= |hex| - |Hex(v)| {
        assert hex[i] == Hex(v)[i - (|hex| - |Hex(v)|)];
      }
    }
  }

  lemma LowerHexRendering(ds: seq<nat>)
    requires forall i :: 0 <= i < |ds| ==> ds[i] < 16
    ensures forall i :: 0 <= i < |ds| ==> IsLowerHexDigit(Render(ds, LOWER_HEX)[i])
  {
    forall i | 0 <= i < |ds|
      ensures IsLowerHexDigit(Render(ds, LOWER_HEX)[i])
    {
      assert Render(ds, LOWER_HEX)[i] == LOWER_HEX[ds[i]];
      assert forall d :: 0 <= d < 16 ==> IsLowerHexDigit(LOWER_HEX[d]);
    }
  }

  /** `bin(v)[2:].zfill(16)` for a value below `2^16`: sixteen binary
      digits that read back as `v`. */
  lemma BinWord(v: nat)
    requires v < 0x1_0000
    ensures var bits := ZFill(Bin(v), 16);
            |bits| == 16 && IsBits(bits) && BinaryValue(bits) == v
  {
    Alphabets();
    ZFilledDigits(v, 2, "01", 16);
    WordPowers();
    BinaryDigitsAreBits(ZFill(Bin(v), 16));
  }

  /** A three-character bit string is read as 4, 2 and 1 times its bits. */
  lemma ThreeBits(s: string)
    requires |s| == 3
    ensures BinaryValue(s) == DigitValue(s[0]) * 4 + DigitValue(s[1]) * 2 + DigitValue(s[2])
  {
    var ds := DigitsOf(s);
    assert ds[..1][..0] == [];
    assert ds[..2][..1] == ds[..1];
    assert ds[..3] == ds;
    assert ds[..3][..2] == ds[..2];
    assert ValueOf(ds[..1], 2) == ds[0];
    assert ValueOf(ds[..2], 2) == ds[0] * 2 + ds[1];
  }

  /** A bit string of length `n` denotes less than `2^n`. */
  lemma {:induction false} BinaryBelow(bits: string)
    requires IsBits(bits)
    ensures BinaryValue(bits) < Pow(2, |bits|)
    decreases |bits|
  {
    if bits != [] {
      var n := |bits| - 1;
      var ds := DigitsOf(bits);
      assert ds[..n] == DigitsOf(bits[..n]);
      assert ds[n] <= 1;
      BinaryBelow(bits[..n]);
      assert BinaryValue(bits) == BinaryValue(bits[..n]) * 2 + ds[n];
    }
  }

  /** `ParseDigits` undoes `Render` for the three alphabets. */
  lemma ParseRendered(v: nat, base: nat, alphabet: string)
    requires (base == 2 || base == 16) && IsAlphabet(alphabet, base)
    ensures ParseDigits(Render(ToDigits(v, base), alphabet), base) == Some(v)
  {
    RenderThenRead(ToDigits(v, base), alphabet, base);
    DigitsRoundTrip(v, base);
  }

  /** Python's `int(s, base)` for bases 2, 10 and 16: surrounding
      whitespace, an optional sign, the `0b` or `0x` prefix of the base,
      then at least one digit of the base. */
  function PyInt(s: string, base: nat): (r: Option<int>)
    requires base == 2 || base == 10 || base == 16
    ensures r.Some? ==> |Strip(s)| > 0
  {
    var t := Strip(s);
    var negative := |t| > 0 && t[0] == '-';
    match ParseDigits(WithoutPrefix(Unsigned(t), base), base)
    case None => None
    case Some(v) =>
      var n: int := if negative then 0 - v as int else v as int;
      Some(n)
  }

  /** The text after an optional sign. */
  function Unsigned(t: string): (u: string)
    ensures |u| <= |t|
  {
    if |t| > 0 && (t[0] == '-' || t[0] == '+') then t[1..] else t
  }

  /** The text after the optional `0x` (base 16) or `0b` (base 2) prefix. */
  function WithoutPrefix(u: string, base: nat): string {
    if base == 16 && |u| >= 2 && u[0] == '0' && (u[1] == 'x' || u[1] == 'X') then u[2..]
    else if base == 2 && |u| >= 2 && u[0] == '0' && (u[1] == 'b' || u[1] == 'B') then u[2..]
    else u
  }

  /** Digits of the base never look like a prefix. */
  lemma DigitsHaveNoPrefix(s: string, base: nat)
    requires (base == 2 || base == 10 || base == 16) && IsDigitsIn(s, base)
    ensures WithoutPrefix(s, base) == s
  {
    if |s| >= 2 {
      assert DigitValue(s[1]) < base;
    }
  }

  /** A string whose first and last characters are not whitespace is its
      own `strip()`. */
  lemma StripUnspaced(s: string)
    requires |s| > 0 && !IsSpace(s[0]) && !IsSpace(s[|s| - 1])
    ensures Strip(s) == s
  {
    assert LeadingRun(s, IsSpace) == 0;
    assert s[0..] == s;
    assert TrailingRun(s, IsSpace) == 0;
  }

  /** `int(s, base)` of a plain digit string is its value. */
  lemma PyIntOfDigits(s: string, base: nat)
    requires (base == 2 || base == 10 || base == 16) && IsDigitsIn(s, base)
    ensures PyInt(s, base) == Some(ValueOf(DigitsOf(s), base))
  {
    StripUnspaced(s);
    assert Unsigned(s) == s;
    DigitsHaveNoPrefix(s, base);
  }

  /** `int("-" + s, base)` is the negated value of the digits. */
  lemma PyIntOfNegative(s: string, base: nat)
    requires (base == 2 || base == 10 || base == 16) && IsDigitsIn(s, base)
    ensures PyInt("-" + s, base) == Some(0 - ValueOf(DigitsOf(s), base))
  {
    var t := "-" + s;
    NotSpaceDigit(s[|s| - 1], base);
    StripUnspaced(t);
    assert Unsigned(t) == s;
    DigitsHaveNoPrefix(s, base);
    assert ParseDigits(s, base) == Some(ValueOf(DigitsOf(s), base));
  }

  lemma NotSpaceDigit(c: char, base: nat)
    requires base <= 16 && DigitValue(c) < base
    ensures !IsSpace(c)
  {
  }

  /** `int("0x" + s, 16)` and `int("0b" + s, 2)`: the prefix of the base is
      accepted and skipped. */
  lemma PyIntOfPrefixed(s: string, base: nat)
    requires (base == 2 || base == 16) && IsDigitsIn(s, base)
    ensures PyInt((if base == 16 then "0x" else "0b") + s, base) == Some(ValueOf(DigitsOf(s), base))
  {
    var t := (if base == 16 then "0x" else "0b") + s;
    StripUnspaced(t);
    assert Unsigned(t) == t;
    assert WithoutPrefix(t, base) == s;
  }
}
