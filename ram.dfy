/** The RAM: 65536 sixteen-bit words, of which 0x8000..0xBFFF is also
    the 128 x 128 screen, one RGB565 pixel per word. */
module Memory {
  import opened Words
  import opened Wrappers

  /** `ADDRESS_SPACE`: the number of words. */
  const ADDRESS_SPACE: nat := 0x1_0000

  /** `GetScreenDim()`, a foreign function of the user interface that
      returns (128, 128). */
  const SCREEN_WIDTH: nat := 128
  const SCREEN_HEIGHT: nat := 128

  /** The memory-mapped screen, `[SCREEN_BASE, SCREEN_END)`. */
  const SCREEN_BASE: nat := 0x8000
  const SCREEN_END: nat := 0xC000

  /** A RAM image: exactly one word per address. */
  type Image = s: seq<Word> | |s| == ADDRESS_SPACE witness seq(ADDRESS_SPACE, _ => 0)

  /** The all-zero RAM. */
  const ZEROS: Image := seq(ADDRESS_SPACE, i => 0)

  /** An 8-bit-per-channel colour (`QColor(r, g, b, 255)`). */
  datatype Color = Color(r: int, g: int, b: int, alpha: int)

  /** The pixel a screen write paints (`SetScreenPixel(x, y, color)`). */
  datatype Pixel = Pixel(x: int, y: int, color: Color)

  predicate InScreen(address: Word) {
    SCREEN_BASE <= address < SCREEN_END
  }

  /** The RGB565 fields of a word: red in bits 15-11, green in bits 10-5,
      blue in bits 4-0. */
  function Red5(data: Word): nat { (data / 0x800) % 32 }
  function Green6(data: Word): nat { (data / 0x20) % 64 }
  function Blue5(data: Word): nat { data % 32 }

  /** A field of `bits` levels scaled to 0..255 with integer division. */
  function Scale(v: nat, top: nat): nat
    requires 0 < top
  {
    (v * 255) / top
  }

  /** The three fields take the whole word: no bit is lost or shared. */
  lemma {:induction false} FieldsRebuildWord(data: Word)
    ensures Red5(data) < 32 && Green6(data) < 64 && Blue5(data) < 32
    ensures data == Red5(data) * 0x800 + Green6(data) * 0x20 + Blue5(data)
  {
    var hi := data / 0x800;
    assert hi < 32;
    assert data == hi * 0x800 + data % 0x800;
    var lo := data % 0x800;
    assert lo == (lo / 0x20) * 0x20 + lo % 0x20;
    assert lo / 0x20 == (data / 0x20) % 64 by {
      assert data / 0x20 == hi * 64 + lo / 0x20;
    }
    assert lo % 0x20 == data % 32 by {
      assert data == (hi * 64 + lo / 0x20) * 0x20 + lo % 0x20;
    }
  }

  /** A product with a factor of at least 1 is at least the other factor. */
  lemma AtLeastOnce(x: int, d: nat)
    ensures x >= 1 ==> x * d >= d
  {
    if x >= 1 {
      assert x * d == (x - 1) * d + d;
    }
  }

  /** Integer division by a positive number keeps the order. */
  lemma {:induction false} DivMonotone(a: nat, b: nat, d: nat)
    requires 0 < d && a <= b
    ensures a / d <= b / d
  {
    var x := a / d - b / d;
    assert x * d == (a - a % d) - (b - b % d);
    AtLeastOnce(x, d);
  }

  /** A scaled channel lies in 0..255, is 0 for level 0 and 255 for the top
      level, and never decreases as the level grows. */
  lemma {:induction false} ScaleBounds(v: nat, w: nat, top: nat)
    requires 0 < top && v <= w <= top
    ensures Scale(v, top) <= Scale(w, top) <= 255
    ensures Scale(0, top) == 0 && Scale(top, top) == 255
  {
    assert v * 255 <= w * 255 <= top * 255;
    DivMonotone(v * 255, w * 255, top);
    DivMonotone(w * 255, top * 255, top);
    assert top * 255 == 255 * top;
    assert (255 * top) / top == 255;
  }

  /** The pixel painted by a write of `data` at screen address `address`. */
  function PixelFor(address: Word, data: Word): (p: Pixel)
    requires InScreen(address)
    ensures 0 <= p.x < SCREEN_WIDTH && 0 <= p.y < SCREEN_HEIGHT
    ensures address == SCREEN_BASE + p.y * SCREEN_WIDTH + p.x
    ensures 0 <= p.color.r <= 255 && 0 <= p.color.g <= 255 && 0 <= p.color.b <= 255 && p.color.alpha == 255
    // each channel is its field's level scaled to 0..255, rounded down
    ensures p.color.r * 31 <= Red5(data) * 255 < p.color.r * 31 + 31
    ensures p.color.g * 63 <= Green6(data) * 255 < p.color.g * 63 + 63
    ensures p.color.b * 31 <= Blue5(data) * 255 < p.color.b * 31 + 31
  {
    var relative := address - SCREEN_BASE;
    FieldsRebuildWord(data);
    ScaleBounds(Red5(data), 31, 31);
    ScaleBounds(Green6(data), 63, 63);
    ScaleBounds(Blue5(data), 31, 31);
    Pixel(relative % SCREEN_WIDTH, relative / SCREEN_WIDTH,
          Color(Scale(Red5(data), 31), Scale(Green6(data), 63), Scale(Blue5(data), 31), 255))
  }

  /** Scaling the 5- and 6-bit fields to 0..255 is strictly increasing: a
      higher level never rounds down to the same channel value. */
  lemma {:induction false} ScaleStrict(v: nat, w: nat, top: nat)
    requires top == 31 || top == 63
    requires v < w <= top
    ensures Scale(v, top) < Scale(w, top)
  {
    if top == 31 {
      assert (v * 255) / 31 < (w * 255) / 31;
    } else {
      assert (v * 255) / 63 < (w * 255) / 63;
    }
  }

  /** The colour drawn determines the word written: distinct words paint
      distinct colours, so no screen write is lost to rounding. */
  lemma {:induction false} PixelColorDeterminesWord(address: Word, d1: Word, d2: Word)
    requires InScreen(address)
    ensures PixelFor(address, d1).color == PixelFor(address, d2).color <==> d1 == d2
  {
    FieldsRebuildWord(d1);
    FieldsRebuildWord(d2);
    if Red5(d1) != Red5(d2) {
      if Red5(d1) < Red5(d2) { ScaleStrict(Red5(d1), Red5(d2), 31); } else { ScaleStrict(Red5(d2), Red5(d1), 31); }
    } else if Green6(d1) != Green6(d2) {
      if Green6(d1) < Green6(d2) { ScaleStrict(Green6(d1), Green6(d2), 63); } else { ScaleStrict(Green6(d2), Green6(d1), 63); }
    } else if Blue5(d1) != Blue5(d2) {
      if Blue5(d1) < Blue5(d2) { ScaleStrict(Blue5(d1), Blue5(d2), 31); } else { ScaleStrict(Blue5(d2), Blue5(d1), 31); }
    }
  }

  /** Two screen addresses paint the same position only if they are equal:
      the screen range covers the canvas one word per pixel. */
  lemma {:induction false} PixelPositionsDistinct(a1: Word, a2: Word, d1: Word, d2: Word)
    requires InScreen(a1) && InScreen(a2)
    ensures PixelFor(a1, d1).x == PixelFor(a2, d2).x && PixelFor(a1, d1).y == PixelFor(a2, d2).y <==> a1 == a2
  {
    var p1, p2 := PixelFor(a1, d1), PixelFor(a2, d2);
    if p1.x == p2.x && p1.y == p2.y {
      calc {
        a1;
        SCREEN_BASE + p1.y * SCREEN_WIDTH + p1.x;
        SCREEN_BASE + p2.y * SCREEN_WIDTH + p2.x;
        a2;
      }
    }
  }

  /** The event a write emits: a pixel exactly when it is clocked and lands
      on the screen. */
  function WriteEvent(address: Word, data: Word, clockSignal: bool): (e: Option<Pixel>)
    ensures e.Some? <==> clockSignal && InScreen(address)
  {
    if clockSignal && InScreen(address) then Some(PixelFor(address, data)) else None
  }

  /** The RAM contents after `Write(address, data, clockSignal)`. */
  function Store(mem: Image, address: Word, data: Word, clockSignal: bool): (m: Image)
    ensures !clockSignal ==> m == mem
    ensures clockSignal ==> m[address] == data && forall a | 0 <= a < ADDRESS_SPACE && a != address :: m[a] == mem[a]
  {
    if clockSignal then mem[address := data] else mem
  }

  /** The RAM (`RAM`): the array reference is fixed, its words change. */
  class Ram {
    const memory: array<Word>

    /** A new RAM is all zeros. */
    constructor ()
      ensures fresh(memory) && memory.Length == ADDRESS_SPACE
      ensures memory[..] == ZEROS
    {
      memory := new Word[ADDRESS_SPACE](_ => 0);
    }

    /** `Read`: every 16-bit address is inside the address space, so the
        out-of-range error cannot occur. */
    function Read(address: Word): Word
      requires memory.Length == ADDRESS_SPACE
      reads memory
    {
      memory[address]
    }

    /** `Write`: a clocked write stores the word and, on the screen, paints
        its pixel; an unclocked one does nothing. */
    method Write(address: Word, data: Word, clockSignal: bool) returns (pixel: Option<Pixel>)
      requires memory.Length == ADDRESS_SPACE
      modifies memory
      ensures memory[..] == Store(old(memory[..]), address, data, clockSignal)
      ensures pixel == WriteEvent(address, data, clockSignal)
    {
      pixel := None;
      if clockSignal {
        memory[address] := data;
        if SCREEN_BASE <= address < SCREEN_END {
          pixel := Some(PixelFor(address, data));
        }
      }
    }

    /** `Reset`: every word is set to 0. */
    method Reset()
      requires memory.Length == ADDRESS_SPACE
      modifies memory
      ensures memory[..] == ZEROS
    {
      var i := 0;
      while i < memory.Length
        invariant 0 <= i <= memory.Length
        invariant forall j | 0 <= j < i :: memory[j] == 0
      {
        memory[i] := 0;
        i := i + 1;
      }
    }

    /** `Load`: the first `ADDRESS_SPACE` words of `vec` are copied in
        order; later words are ignored. */
    method Load(vec: seq<Word>)
      requires memory.Length == ADDRESS_SPACE && |vec| >= ADDRESS_SPACE
      modifies memory
      ensures memory[..] == vec[..ADDRESS_SPACE]
    {
      var i := 0;
      while i < memory.Length
        invariant 0 <= i <= memory.Length
        invariant forall j | 0 <= j < i :: memory[j] == vec[j]
      {
        memory[i] := vec[i];
        i := i + 1;
      }
    }
  }
}
