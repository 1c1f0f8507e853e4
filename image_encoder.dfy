/** The image encoder `tools/image_encoder.py`: packs 8-bit RGB colours
    into sixteen-bit pixel words and writes a 128 x 128 picture as lines
    of hexadecimal words, ready to be loaded into the screen region of the
    RAM.

    `v >> k` on a Python integer is `v / 2^k` rounded down, which is what
    Dafny's `/` gives for a positive divisor, and `v & (2^k - 1)` is
    `v % 2^k`; so the packers below agree with the source for every
    integer, not only for channels in 0..255.  The shifted fields of a
    format never share a bit, so their `|` is their sum. */
module ImageEncoder {
  import opened Words
  import opened Wrappers
  import opened Text
  import Memory

  // ---------------------------------------------------------------------
  // Pixel formats

  /** `(v >> 3) & 0x1F`: the top five bits of a channel. */
  function Top5(v: int): nat { (v / 8) % 32 }

  /** `(v >> 2) & 0x3F`: the top six bits of a channel. */
  function Top6(v: int): nat { (v / 4) % 64 }

  /** `rgb_to_rgb565`: red in bits 15-11, green in bits 10-5, blue in
      bits 4-0. */
  function Rgb565(r: int, g: int, b: int): Word {
    Top5(r) * 0x800 + Top6(g) * 0x20 + Top5(b)
  }

  /** `rgb_to_rgb555`: red in bits 14-10, green in bits 9-5, blue in
      bits 4-0. */
  function Rgb555(r: int, g: int, b: int): Word {
    Top5(r) * 0x400 + Top5(g) * 0x20 + Top5(b)
  }

  /** The alpha bit `rgb_to_argb1555` always sets. */
  const OPAQUE: nat := 1

  /** `rgb_to_argb1555`: the alpha bit in bit 15, then the fields of
      `rgb_to_rgb555`. */
  function Argb1555(r: int, g: int, b: int): Word {
    OPAQUE * 0x8000 + Top5(r) * 0x400 + Top5(g) * 0x20 + Top5(b)
  }

  /** The fields the RAM reads from a word to paint a screen pixel are the
      top bits of the channels `Rgb565` packed. */
  lemma Rgb565Decodes(r: int, g: int, b: int)
    ensures var p := Rgb565(r, g, b);
            Memory.Red5(p) == Top5(r) && Memory.Green6(p) == Top6(g) && Memory.Blue5(p) == Top5(b)
  {
    var p := Rgb565(r, g, b);
    var low := Top6(g) * 0x20 + Top5(b);
    assert p / 0x800 == Top5(r) by {
      assert p == Top5(r) * 0x800 + low && low < 0x800;
    }
    assert p / 0x20 == Top5(r) * 64 + Top6(g) by {
      assert p == (Top5(r) * 64 + Top6(g)) * 0x20 + Top5(b);
    }
  }

  /** Every word is the `Rgb565` packing of some colour: the one whose
      channels are the word's fields shifted back into place. */
  lemma Rgb565Covers(w: Word)
    ensures Rgb565(Memory.Red5(w) * 8, Memory.Green6(w) * 4, Memory.Blue5(w) * 8) == w
  {
    Memory.FieldsRebuildWord(w);
  }

  /** Two colours pack to the same `Rgb565` word exactly when they agree
      in the bits the format keeps. */
  lemma Rgb565SameWord(r1: int, g1: int, b1: int, r2: int, g2: int, b2: int)
    ensures Rgb565(r1, g1, b1) == Rgb565(r2, g2, b2)
            <==> Top5(r1) == Top5(r2) && Top6(g1) == Top6(g2) && Top5(b1) == Top5(b2)
  {
    Rgb565Decodes(r1, g1, b1);
    Rgb565Decodes(r2, g2, b2);
  }

  /** `Rgb555` leaves bit 15 clear and keeps each channel's top five bits
      in its own field. */
  lemma Rgb555Fields(r: int, g: int, b: int)
    ensures var p := Rgb555(r, g, b);
            p < 0x8000 && p / 0x400 == Top5(r) && (p / 0x20) % 32 == Top5(g) && p % 32 == Top5(b)
  {
    var p := Rgb555(r, g, b);
    assert p / 0x400 == Top5(r) by {
      assert p == Top5(r) * 0x400 + (Top5(g) * 0x20 + Top5(b));
    }
    assert p / 0x20 == Top5(r) * 32 + Top5(g) by {
      assert p == (Top5(r) * 32 + Top5(g)) * 0x20 + Top5(b);
    }
  }

  /** Every word with bit 15 clear is the `Rgb555` packing of some colour. */
  lemma Rgb555Covers(w: Word)
    requires w < 0x8000
    ensures Rgb555((w / 0x400) * 8, ((w / 0x20) % 32) * 8, (w % 32) * 8) == w
  {
    var hi, lo := w / 0x400, w % 0x400;
    var mid := lo / 0x20;
    assert w == hi * 0x400 + lo && lo == mid * 0x20 + lo % 0x20;
    assert w / 0x20 == hi * 32 + mid && mid < 32;
    assert (w / 0x20) % 32 == mid;
    assert w % 32 == lo % 0x20;
    Top5Inverse(hi);
    Top5Inverse(mid);
    Top5Inverse(lo % 0x20);
    assert Rgb555(hi * 8, mid * 8, (lo % 0x20) * 8) == hi * 0x400 + mid * 0x20 + lo % 0x20;
  }

  /** `Top5` undoes a shift left by three of a five-bit value. */
  lemma Top5Inverse(x: int)
    requires 0 <= x < 32
    ensures Top5(x * 8) == x
  {
  }

  /** `Argb1555` is `Rgb555` with bit 15 set. */
  lemma Argb1555Opaque(r: int, g: int, b: int)
    ensures var p := Argb1555(r, g, b);
            p >= 0x8000 && p / 0x8000 == OPAQUE && p % 0x8000 == Rgb555(r, g, b)
  {
    Rgb555Fields(r, g, b);
  }

  /** The formats `--format` offers. */
  datatype PixelFormat = RGB565 | RGB555 | ARGB1555 | GRAY16

  /** The format a lower-cased `--format` value names, if any. */
  function FormatNamed(name: string): (f: Option<PixelFormat>)
    ensures f == Some(RGB565) <==> name == "rgb565"
    ensures f == Some(RGB555) <==> name == "rgb555"
    ensures f == Some(ARGB1555) <==> name == "argb1555"
    ensures f == Some(GRAY16) <==> name == "gray16"
  {
    if name == "rgb565" then Some(RGB565)
    else if name == "rgb555" then Some(RGB555)
    else if name == "argb1555" then Some(ARGB1555)
    else if name == "gray16" then Some(GRAY16)
    else None
  }

  /** `gray16`, which weighs the channels in floating point, is a
      parameter: for channels in 0..255 it gives a sixteen-bit word. */
  type GrayConverter = (int, int, int) -> Word

  /** An 8-bit-per-channel colour, as `getpixel` returns it. */
  datatype Rgb = Rgb(r: int, g: int, b: int)

  /** The pixel word of a colour in a format. */
  function PixelWord(f: PixelFormat, gray16: GrayConverter, c: Rgb): Word {
    match f
    case RGB565 => Rgb565(c.r, c.g, c.b)
    case RGB555 => Rgb555(c.r, c.g, c.b)
    case ARGB1555 => Argb1555(c.r, c.g, c.b)
    case GRAY16 => gray16(c.r, c.g, c.b)
  }

  // ---------------------------------------------------------------------
  // Text

  /** `f"{pixel:04X}"` for a word. */
  function Hex4(w: Word): string {
    ZFill(HexUpper(w), 4)
  }

  predicate IsUpperHexDigit(c: char) {
    '0' <= c <= '9' || 'A' <= c <= 'F'
  }

  /** `Hex4` writes exactly four uppercase hexadecimal digits, and reading
      them back in base 16 gives the word. */
  lemma Hex4ReadsBack(w: Word)
    ensures var s := Hex4(w);
            |s| == 4 && ParseDigits(s, 16) == Some(w as nat)
            && forall i :: 0 <= i < 4 ==> IsUpperHexDigit(s[i])
  {
    Hex4Value(w);
    Hex4Characters(w);
  }

  /** The length and the value read back of `Hex4`. */
  lemma Hex4Value(w: Word)
    ensures var s := Hex4(w);
            |s| == 4 && ParseDigits(s, 16) == Some(w as nat)
  {
    Alphabets();
    ZFilledDigits(w, 16, UPPER_HEX, 4);
    WordPowers();
  }

  /** The characters of `Hex4`: zero padding, then the digits. */
  lemma Hex4Characters(w: Word)
    ensures var s := Hex4(w);
            forall i :: 0 <= i < |s| ==> IsUpperHexDigit(s[i])
  {
    var s := Hex4(w);
    var h := HexUpper(w);
    UpperHexRendering(ToDigits(w, 16));
    forall i | 0 <= i < |s|
      ensures IsUpperHexDigit(s[i])
    {
      if i >= |s| - |h| {
        assert s[i] == h[i - (|s| - |h|)];
      }
    }
  }

  lemma UpperHexRendering(ds: seq<nat>)
    requires forall i :: 0 <= i < |ds| ==> ds[i] < 16
    ensures forall i :: 0 <= i < |ds| ==> IsUpperHexDigit(Render(ds, UPPER_HEX)[i])
  {
    forall i | 0 <= i < |ds|
      ensures IsUpperHexDigit(Render(ds, UPPER_HEX)[i])
    {
      assert Render(ds, UPPER_HEX)[i] == UPPER_HEX[ds[i]];
      assert forall d :: 0 <= d < 16 ==> IsUpperHexDigit(UPPER_HEX[d]);
    }
  }

  /** `" ".join(hex_values[i:i+16])` for `i` in `range(0, len(hex_values),
      16)`: the lines of the output, sixteen words to a line and fewer on
      the last. */
  function Rows(vals: seq<string>): (rows: seq<string>)
    ensures |rows| == (|vals| + 15) / 16
  {
    seq((|vals| + 15) / 16, j requires 0 <= j < (|vals| + 15) / 16 =>
      JoinSpace(vals[16 * j .. if 16 * j + 16 <= |vals| then 16 * j + 16 else |vals|]))
  }

  /** The file contents: each line followed by a newline. */
  function Written(lines: seq<string>): string {
    if lines == [] then "" else Written(lines[..|lines| - 1]) + lines[|lines| - 1] + "\n"
  }

  /** Four-character words joined by spaces: word `k` at `5 * k`, a space
      after each but the last. */
  lemma {:induction false} JoinWords(ts: seq<string>)
    requires |ts| > 0 && forall i :: 0 <= i < |ts| ==> |ts[i]| == 4
    ensures var r := JoinSpace(ts);
            |r| == 5 * |ts| - 1
            && forall k :: 0 <= k < |ts| ==> r[5 * k .. 5 * k + 4] == ts[k] && (k + 1 < |ts| ==> r[5 * k + 4] == ' ')
  {
    var r := JoinSpace(ts);
    if |ts| > 1 {
      var rest := JoinSpace(ts[1..]);
      JoinWords(ts[1..]);
      assert r == ts[0] + " " + rest;
      forall k | 0 <= k < |ts|
        ensures r[5 * k .. 5 * k + 4] == ts[k] && (k + 1 < |ts| ==> r[5 * k + 4] == ' ')
      {
        if k > 0 {
          assert r[5 * k .. 5 * k + 4] == rest[5 * (k - 1) .. 5 * (k - 1) + 4];
          assert ts[1..][k - 1] == ts[k];
        }
      }
    }
  }

  /** Lines of 79 characters, each with its newline: line `j` at `80 * j`. */
  lemma {:induction false} WrittenLines(lines: seq<string>)
    requires forall j :: 0 <= j < |lines| ==> |lines[j]| == 79
    ensures var text := Written(lines);
            |text| == 80 * |lines|
            && forall j :: 0 <= j < |lines| ==> text[80 * j .. 80 * j + 79] == lines[j] && text[80 * j + 79] == '\n'
    decreases |lines|
  {
    if lines != [] {
      var n := |lines| - 1;
      var front := Written(lines[..n]);
      WrittenLines(lines[..n]);
      var text := Written(lines);
      assert text == front + lines[n] + "\n";
      forall j | 0 <= j < |lines|
        ensures text[80 * j .. 80 * j + 79] == lines[j] && text[80 * j + 79] == '\n'
      {
        if j < n {
          assert lines[..n][j] == lines[j];
          assert text[80 * j .. 80 * j + 79] == front[80 * j .. 80 * j + 79];
        }
      }
    }
  }

  /** Each full line of `Rows` holds sixteen words at multiples of five. */
  lemma RowLayout(vals: seq<string>, j: nat)
    requires |vals| % 16 == 0 && j < |vals| / 16
    requires forall i :: 0 <= i < |vals| ==> |vals[i]| == 4
    ensures var row := Rows(vals)[j];
            |row| == 79
            && forall k :: 0 <= k < 16 ==> row[5 * k .. 5 * k + 4] == vals[16 * j + k] && (k < 15 ==> row[5 * k + 4] == ' ')
  {
    var ts := vals[16 * j .. 16 * j + 16];
    assert Rows(vals)[j] == JoinSpace(ts);
    JoinWords(ts);
    assert forall k :: 0 <= k < 16 ==> ts[k] == vals[16 * j + k];
  }

  /** The written text of four-character words, sixteen to a line: word
      `p` at `5 * p`, followed by a newline after every sixteenth word and
      a space after the others. */
  lemma TextLayout(vals: seq<string>)
    requires |vals| % 16 == 0
    requires forall i :: 0 <= i < |vals| ==> |vals[i]| == 4
    ensures var text := Written(Rows(vals));
            |text| == 5 * |vals|
            && forall p :: 0 <= p < |vals| ==>
                 text[5 * p .. 5 * p + 4] == vals[p] && text[5 * p + 4] == (if p % 16 == 15 then '\n' else ' ')
  {
    var rows := Rows(vals);
    RowLengths(vals);
    WrittenLines(rows);
    var text := Written(rows);
    FullRows(|vals|);
    forall p | 0 <= p < |vals|
      ensures text[5 * p .. 5 * p + 4] == vals[p] && text[5 * p + 4] == (if p % 16 == 15 then '\n' else ' ')
    {
      assert p / 16 < |rows|;
      WordAt(vals, text, p);
    }
  }

  /** A count of words divisible by sixteen fills its lines. */
  lemma FullRows(n: nat)
    requires n % 16 == 0
    ensures (n + 15) / 16 == n / 16 && 80 * (n / 16) == 5 * n
    ensures forall p :: 0 <= p < n ==> p / 16 < n / 16
  {
    assert n == 16 * (n / 16);
  }

  /** Word `p` of the written rows, from the line that holds it. */
  lemma WordAt(vals: seq<string>, text: string, p: nat)
    requires |vals| % 16 == 0 && p < |vals|
    requires forall i :: 0 <= i < |vals| ==> |vals[i]| == 4
    requires 80 * (p / 16) + 80 <= |text|
    requires text[80 * (p / 16) .. 80 * (p / 16) + 79] == Rows(vals)[p / 16] && text[80 * (p / 16) + 79] == '\n'
    ensures text[5 * p .. 5 * p + 4] == vals[p] && text[5 * p + 4] == (if p % 16 == 15 then '\n' else ' ')
  {
    RowLayout(vals, p / 16);
    WordInText(text, Rows(vals)[p / 16], vals, p);
  }

  /** Every line of `Rows` is 79 characters long. */
  lemma RowLengths(vals: seq<string>)
    requires |vals| % 16 == 0
    requires forall i :: 0 <= i < |vals| ==> |vals[i]| == 4
    ensures forall j :: 0 <= j < |Rows(vals)| ==> |Rows(vals)[j]| == 79
  {
    forall j | 0 <= j < |Rows(vals)|
      ensures |Rows(vals)[j]| == 79
    {
      RowLayout(vals, j);
    }
  }

  /** Word `p` of a text, from the line that holds it. */
  lemma WordInText(text: string, row: string, vals: seq<string>, p: nat)
    requires |vals| % 16 == 0 && p < |vals| && 80 * (p / 16) + 80 <= |text|
    requires text[80 * (p / 16) .. 80 * (p / 16) + 79] == row && text[80 * (p / 16) + 79] == '\n'
    requires |row| == 79
    requires forall k :: 0 <= k < 16 ==> row[5 * k .. 5 * k + 4] == vals[16 * (p / 16) + k] && (k < 15 ==> row[5 * k + 4] == ' ')
    ensures text[5 * p .. 5 * p + 4] == vals[p] && text[5 * p + 4] == (if p % 16 == 15 then '\n' else ' ')
  {
    var j, k := p / 16, p % 16;
    assert p == 16 * j + k && 5 * p == 80 * j + 5 * k;
    var word, inRow := text[5 * p .. 5 * p + 4], row[5 * k .. 5 * k + 4];
    forall i | 0 <= i < 4
      ensures word[i] == inRow[i]
    {
      assert row[5 * k + i] == text[80 * j .. 80 * j + 79][5 * k + i];
    }
    assert word == inRow;
    if k < 15 {
      assert text[5 * p + 4] == row[5 * k + 4];
    }
  }

  // ---------------------------------------------------------------------
  // convert

  /** A decoded picture: row by row, pixel `(x, y)` at `y * width + x`. */
  datatype Picture = Picture(width: nat, height: nat, pixels: seq<Rgb>) {
    predicate Valid() {
      |pixels| == width * height
    }
  }

  /** The image dimension `convert` accepts. */
  const SIDE: nat := 128

  /** What `convert` does: prints the size error and writes nothing,
      raises `ValueError` for an unknown format and writes nothing, or
      writes the text to the output file. */
  datatype Outcome = WrongSize | UnknownFormat(name: string) | Saved(text: string)

  /** The hexadecimal words of the pixels in a format, in order. */
  function HexValues(pixels: seq<Rgb>, f: PixelFormat, gray16: GrayConverter): (vals: seq<string>)
    ensures |vals| == |pixels|
  {
    seq(|pixels|, i requires 0 <= i < |pixels| => Hex4(PixelWord(f, gray16, pixels[i])))
  }

  /** `convert(img_path, out_path, fmt)` on the decoded picture. */
  function Converted(pic: Picture, fmt: string, gray16: GrayConverter): (o: Outcome)
    requires pic.Valid()
    ensures o.WrongSize? <==> pic.width != SIDE || pic.height != SIDE
    ensures o.Saved? <==> pic.width == SIDE && pic.height == SIDE && FormatNamed(Lower(fmt)).Some?
    ensures o.UnknownFormat? ==> o.name == Lower(fmt)
  {
    if pic.width != pic.height || pic.width != SIDE then WrongSize
    else
      var name := Lower(fmt);
      match FormatNamed(name)
      case None => UnknownFormat(name)
      case Some(f) => Saved(Written(Rows(HexValues(pic.pixels, f, gray16))))
  }

  /** `convert`, with the picture already decoded and the file contents
      returned instead of written. */
  method Convert(pic: Picture, fmt: string, gray16: GrayConverter) returns (outcome: Outcome)
    requires pic.Valid()
    ensures outcome == Converted(pic, fmt, gray16)
  {
    if pic.width != pic.height || pic.width != SIDE {
      return WrongSize;
    }
    var name := Lower(fmt);
    var hexValues: seq<string> := [];
    for y := 0 to pic.height
      invariant |hexValues| == y * SIDE
      invariant forall i :: 0 <= i < |hexValues| ==>
                  FormatNamed(name).Some? && hexValues[i] == Hex4(PixelWord(FormatNamed(name).value, gray16, pic.pixels[i]))
    {
      for x := 0 to pic.width
        invariant |hexValues| == y * SIDE + x
        invariant forall i :: 0 <= i < |hexValues| ==>
                    FormatNamed(name).Some? && hexValues[i] == Hex4(PixelWord(FormatNamed(name).value, gray16, pic.pixels[i]))
      {
        var c := pic.pixels[y * SIDE + x];
        var pixel: Word;
        match FormatNamed(name) {
          case None =>
            return UnknownFormat(name);
          case Some(f) =>
            pixel := PixelWord(f, gray16, c);
        }
        hexValues := hexValues + [Hex4(pixel)];
      }
    }
    assert |hexValues| == SIDE * SIDE;
    assert FormatNamed(name).Some? by {
      assert hexValues[0] == hexValues[0];
    }
    assert hexValues == HexValues(pic.pixels, FormatNamed(name).value, gray16);
    var text := WriteLines(hexValues);
    return Saved(text);
  }

  /** The writing loop of `convert`: the values sixteen to a line. */
  method WriteLines(hexValues: seq<string>) returns (text: string)
    ensures text == Written(Rows(hexValues))
  {
    text := "";
    var i := 0;
    ghost var rows := Rows(hexValues);
    while i < |hexValues|
      invariant 0 <= i && i % 16 == 0 && i <= |hexValues| + 15
      invariant text == Written(rows[..i / 16])
    {
      var end := if i + 16 <= |hexValues| then i + 16 else |hexValues|;
      var line := JoinSpace(hexValues[i..end]);
      assert rows[..i / 16 + 1][..i / 16] == rows[..i / 16];
      text := text + line + "\n";
      i := i + 16;
    }
    assert rows[..i / 16] == rows;
  }

  /** A saved text holds the pixels in order, row after row: pixel `p`
      as four uppercase hexadecimal digits at `5 * p` that read back as
      its word in the chosen format, then a newline after every sixteenth
      pixel and a space after the others. */
  lemma SavedLayout(pic: Picture, fmt: string, gray16: GrayConverter)
    requires pic.Valid() && Converted(pic, fmt, gray16).Saved?
    ensures var text := Converted(pic, fmt, gray16).text;
            var f := FormatNamed(Lower(fmt)).value;
            |text| == 5 * SIDE * SIDE
            && forall p :: 0 <= p < |pic.pixels| ==>
                 var digits := text[5 * p .. 5 * p + 4];
                 ParseDigits(digits, 16) == Some(PixelWord(f, gray16, pic.pixels[p]) as nat)
                 && (forall i :: 0 <= i < 4 ==> IsUpperHexDigit(digits[i]))
                 && text[5 * p + 4] == (if p % 16 == 15 then '\n' else ' ')
  {
    var f := FormatNamed(Lower(fmt)).value;
    var vals := HexValues(pic.pixels, f, gray16);
    assert pic.width == SIDE && pic.height == SIDE;
    assert |vals| == SIDE * SIDE;
    var text := Written(Rows(vals));
    assert Converted(pic, fmt, gray16).text == text;
    forall i | 0 <= i < |vals|
      ensures |vals[i]| == 4
    {
      Hex4ReadsBack(PixelWord(f, gray16, pic.pixels[i]));
    }
    TextLayout(vals);
    forall p | 0 <= p < |pic.pixels|
      ensures var digits := text[5 * p .. 5 * p + 4];
              ParseDigits(digits, 16) == Some(PixelWord(f, gray16, pic.pixels[p]) as nat)
              && (forall i :: 0 <= i < 4 ==> IsUpperHexDigit(digits[i]))
    {
      var w := PixelWord(f, gray16, pic.pixels[p]);
      Hex4ReadsBack(w);
      assert text[5 * p .. 5 * p + 4] == vals[p] == Hex4(w);
    }
  }
}
