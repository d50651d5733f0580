/**
 * The plugin's bitmap-font renderer (`_draw_bdf_text`, FreeType path): each
 * character's glyph is a 1-bit bitmap, rows of `pitch` bytes, most significant
 * bit first; metrics are 26.6 fixed point; pixels outside the canvas are clipped.
 * The glyph table is plain data in place of the FreeType face.
 */
module Glyphs {
  import opened Wrappers

  /** An RGB fill colour as the plugin passes it to the drawing calls. */
  datatype Color = Color(r: int, g: int, b: int)

  /** A monochrome glyph bitmap: `rows` rows of `width` pixels, `pitch` bytes apart. */
  datatype Bitmap = Bitmap(rows: nat, width: nat, pitch: int, buffer: seq<bv8>)

  /** A loaded glyph: bitmap, its offsets from the pen position, and the 26.6 horizontal advance. */
  datatype Glyph = Glyph(bitmap: Bitmap, left: int, top: int, advanceX: int)

  /** A face: the 26.6 ascender (None when reading it fails) and the glyph of each character. */
  datatype Face = Face(ascender: Option<int>, glyphOf: char -> Glyph)

  /** `v >> 6`: a 26.6 fixed-point value in whole pixels, rounded down. */
  function Shift6(v: int): (r: int)
    ensures 64 * r <= v < 64 * r + 64
  {
    v / 64
  }

  /** The baseline offset from the top of the text: the ascender in pixels, 0 when unavailable. */
  function AscenderPx(face: Face): int {
    match face.ascender
    case Some(a) => Shift6(a)
    case None => 0
  }

  /**
   * `buffer[index]` behind the guard `index < len(buffer)`: a negative index
   * counts from the end as in Python, and one before the start raises
   * IndexError, which skips the pixel (None).
   */
  function ByteAt(buffer: seq<bv8>, index: int): (r: Option<bv8>)
    ensures 0 <= index < |buffer| ==> r == Some(buffer[index])
    ensures index >= |buffer| || index < -|buffer| ==> r == None
  {
    if index >= |buffer| then None
    else if index >= 0 then Some(buffer[index])
    else if index >= -|buffer| then Some(buffer[|buffer| + index])
    else None
  }

  /** Bit `k` of a byte counted from the most significant end: `byte & (1 << (7 - k))`. */
  predicate BitSet(b: bv8, k: nat)
    requires k < 8
  {
    b & ((1 as bv8) << (7 - k)) != 0
  }

  /** Whether pixel (i, j) of the bitmap is set. */
  predicate BitOf(bm: Bitmap, i: int, j: nat) {
    match ByteAt(bm.buffer, i * bm.pitch + j / 8)
    case Some(b) => BitSet(b, j % 8)
    case None => false
  }

  /**
   * Whether drawing `g` with pen position `penX` on baseline `baseline`
   * plots canvas pixel (px, py): the pixel is the image of a set bit.
   */
  function GlyphInks(g: Glyph, penX: int, baseline: int, px: int, py: int): (inks: bool)
    ensures inks ==> penX + g.left <= px < penX + g.left + g.bitmap.width
    ensures inks ==> baseline - g.top <= py < baseline - g.top + g.bitmap.rows
  {
    var i := py - baseline + g.top;
    var j := px - penX - g.left;
    0 <= i < g.bitmap.rows && 0 <= j < g.bitmap.width && BitOf(g.bitmap, i, j)
  }

  /** Bit (i, j) of a glyph lands on pixel (penX + left + j, baseline - top + i), and only bits do. */
  lemma GlyphInksAt(g: Glyph, penX: int, baseline: int, i: int, j: int)
    requires 0 <= i < g.bitmap.rows && 0 <= j < g.bitmap.width
    ensures GlyphInks(g, penX, baseline, penX + g.left + j, baseline - g.top + i) <==> BitOf(g.bitmap, i, j)
  {
  }

  /** A bitmap whose rows are packed without gaps never has a pixel skipped. */
  lemma PackedBitmapHasEveryByte(bm: Bitmap, i: int, j: nat)
    requires bm.pitch * 8 >= bm.width && |bm.buffer| >= bm.rows * bm.pitch
    requires 0 <= i < bm.rows && j < bm.width
    ensures ByteAt(bm.buffer, i * bm.pitch + j / 8).Some?
  {
    assert j / 8 < bm.pitch;
    assert i * bm.pitch + bm.pitch == (i + 1) * bm.pitch;
    assert (i + 1) * bm.pitch <= bm.rows * bm.pitch;
  }

  /** Whether pixel (px, py) of the glyph is plotted before loop position (i, j) is reached. */
  predicate InkedBefore(g: Glyph, penX: int, baseline: int, px: int, py: int, i: int, j: int) {
    var gi := py - baseline + g.top;
    var gj := px - penX - g.left;
    GlyphInks(g, penX, baseline, px, py) && (gi < i || (gi == i && gj < j))
  }

  lemma InkedBeforeNextColumn(g: Glyph, penX: int, baseline: int, px: int, py: int, i: int, j: int)
    requires 0 <= i < g.bitmap.rows && 0 <= j < g.bitmap.width
    ensures InkedBefore(g, penX, baseline, px, py, i, j + 1) <==>
      InkedBefore(g, penX, baseline, px, py, i, j)
      || (px == penX + g.left + j && py == baseline - g.top + i && BitOf(g.bitmap, i, j))
  {
  }

  lemma InkedBeforeNextRow(g: Glyph, penX: int, baseline: int, px: int, py: int, i: int)
    ensures InkedBefore(g, penX, baseline, px, py, i, g.bitmap.width) <==>
      InkedBefore(g, penX, baseline, px, py, i + 1, 0)
  {
  }

  lemma InkedBeforeAll(g: Glyph, penX: int, baseline: int, px: int, py: int)
    ensures InkedBefore(g, penX, baseline, px, py, g.bitmap.rows, 0) <==> GlyphInks(g, penX, baseline, px, py)
  {
  }

  /** The body of the inner loop: fetch the byte, test the bit, plot the pixel if it is on the canvas. */
  method PlotBit(canvas: array2<Color>, g: Glyph, penX: int, baseline: int, i: int, j: int, color: Color)
    requires 0 <= i < g.bitmap.rows && 0 <= j < g.bitmap.width
    modifies canvas
    ensures forall px, py :: 0 <= px < canvas.Length0 && 0 <= py < canvas.Length1 ==>
      canvas[px, py] ==
        if px == penX + g.left + j && py == baseline - g.top + i && BitOf(g.bitmap, i, j) then color
        else old(canvas[px, py])
  {
    var bm := g.bitmap;
    var byteIndex := i * bm.pitch + j / 8;
    var on := false;
    if byteIndex < |bm.buffer| && byteIndex >= -|bm.buffer| {
      var b := if byteIndex >= 0 then bm.buffer[byteIndex] else bm.buffer[|bm.buffer| + byteIndex];
      assert ByteAt(bm.buffer, byteIndex) == Some(b);
      on := BitSet(b, j % 8);
    }
    assert on == BitOf(bm, i, j);
    var px := penX + g.left + j;
    var py := baseline - g.top + i;
    if on && 0 <= px < canvas.Length0 && 0 <= py < canvas.Length1 {
      canvas[px, py] := color;
    }
  }

  /** The two loops over one glyph's rows and columns. */
  method DrawGlyph(canvas: array2<Color>, g: Glyph, penX: int, baseline: int, color: Color)
    modifies canvas
    ensures forall px, py :: 0 <= px < canvas.Length0 && 0 <= py < canvas.Length1 ==>
      canvas[px, py] == if GlyphInks(g, penX, baseline, px, py) then color else old(canvas[px, py])
  {
    for i := 0 to g.bitmap.rows
      invariant forall px, py :: 0 <= px < canvas.Length0 && 0 <= py < canvas.Length1 ==>
        canvas[px, py] == if InkedBefore(g, penX, baseline, px, py, i, 0) then color else old(canvas[px, py])
    {
      for j := 0 to g.bitmap.width
        invariant forall px, py :: 0 <= px < canvas.Length0 && 0 <= py < canvas.Length1 ==>
          canvas[px, py] == if InkedBefore(g, penX, baseline, px, py, i, j) then color else old(canvas[px, py])
      {
        PlotBit(canvas, g, penX, baseline, i, j, color);
        forall px, py | 0 <= px < canvas.Length0 && 0 <= py < canvas.Length1 {
          InkedBeforeNextColumn(g, penX, baseline, px, py, i, j);
        }
      }
      forall px, py | 0 <= px < canvas.Length0 && 0 <= py < canvas.Length1 {
        InkedBeforeNextRow(g, penX, baseline, px, py, i);
      }
    }
    forall px, py | 0 <= px < canvas.Length0 && 0 <= py < canvas.Length1 {
      InkedBeforeAll(g, penX, baseline, px, py);
    }
  }

  /** The pen offset after a text: the sum of its glyphs' advances in whole pixels. */
  function Advance(face: Face, text: string): (advance: int)
  {
    if text == [] then 0
    else Advance(face, text[..|text| - 1]) + Shift6(face.glyphOf(text[|text| - 1]).advanceX)
  }

  /** Whether drawing `text` from pen position `x` on `baseline` plots pixel (px, py). */
  predicate TextInks(face: Face, text: string, x: int, baseline: int, px: int, py: int) {
    if text == [] then false
    else
      var init := text[..|text| - 1];
      TextInks(face, init, x, baseline, px, py)
      || GlyphInks(face.glyphOf(text[|text| - 1]), x + Advance(face, init), baseline, px, py)
  }

  /** `_draw_bdf_text(draw, face, text, x, y, color)`: the character loop with its pen position. */
  method DrawText(canvas: array2<Color>, face: Face, text: string, x: int, y: int, color: Color)
    modifies canvas
    ensures forall px, py :: 0 <= px < canvas.Length0 && 0 <= py < canvas.Length1 ==>
      canvas[px, py] == if TextInks(face, text, x, y + AscenderPx(face), px, py) then color else old(canvas[px, py])
  {
    var baseline := y + AscenderPx(face);
    var currentX := x;
    for k := 0 to |text|
      invariant currentX == x + Advance(face, text[..k])
      invariant forall px, py :: 0 <= px < canvas.Length0 && 0 <= py < canvas.Length1 ==>
        canvas[px, py] == if TextInks(face, text[..k], x, baseline, px, py) then color else old(canvas[px, py])
    {
      var g := face.glyphOf(text[k]);
      DrawGlyph(canvas, g, currentX, baseline, color);
      assert text[..k + 1][..k] == text[..k];
      currentX := currentX + Shift6(g.advanceX);
    }
    assert text[..|text|] == text;
  }

  lemma {:induction false} AdvanceConcat(face: Face, a: string, b: string)
    ensures Advance(face, a + b) == Advance(face, a) + Advance(face, b)
    decreases |b|
  {
    if b != [] {
      var b' := b[..|b| - 1];
      assert (a + b)[..|a + b| - 1] == a + b';
      AdvanceConcat(face, a, b');
    } else {
      assert a + b == a;
    }
  }

  /** Whether the k-th glyph of `text`, drawn at its pen position, plots pixel (px, py). */
  predicate GlyphOfTextInks(face: Face, text: string, k: int, x: int, baseline: int, px: int, py: int)
    requires 0 <= k < |text|
  {
    GlyphInks(face.glyphOf(text[k]), x + Advance(face, text[..k]), baseline, px, py)
  }

  /** A glyph of a prefix of the text is drawn where it is drawn in the whole text. */
  lemma GlyphOfPrefixInks(face: Face, text: string, n: int, k: int, x: int, baseline: int, px: int, py: int)
    requires 0 <= k < n <= |text|
    ensures GlyphOfTextInks(face, text[..n], k, x, baseline, px, py) == GlyphOfTextInks(face, text, k, x, baseline, px, py)
  {
    assert text[..n][k] == text[k];
    assert text[..n][..k] == text[..k];
  }

  /** A pixel the text plots is plotted by one of its glyphs, drawn at its pen position. */
  lemma {:induction false} TextInksSomeGlyph(face: Face, text: string, x: int, baseline: int, px: int, py: int)
    requires TextInks(face, text, x, baseline, px, py)
    ensures exists k :: 0 <= k < |text| && GlyphOfTextInks(face, text, k, x, baseline, px, py)
    decreases |text|
  {
    var n := |text| - 1;
    if TextInks(face, text[..n], x, baseline, px, py) {
      TextInksSomeGlyph(face, text[..n], x, baseline, px, py);
      var k :| 0 <= k < n && GlyphOfTextInks(face, text[..n], k, x, baseline, px, py);
      GlyphOfPrefixInks(face, text, n, k, x, baseline, px, py);
    } else {
      assert GlyphOfTextInks(face, text, n, x, baseline, px, py);
    }
  }

  /**
   * Drawing `a + b` plots what drawing `a` plots and what drawing `b` from
   * the pen position after `a` plots, and nothing else.
   */
  lemma {:induction false} TextInksConcat(face: Face, a: string, b: string, x: int, baseline: int, px: int, py: int)
    ensures TextInks(face, a + b, x, baseline, px, py)
      <==> TextInks(face, a, x, baseline, px, py) || TextInks(face, b, x + Advance(face, a), baseline, px, py)
    decreases |b|
  {
    if b != [] {
      var b' := b[..|b| - 1];
      assert (a + b)[..|a + b| - 1] == a + b';
      assert (a + b)[|a + b| - 1] == b[|b| - 1];
      TextInksConcat(face, a, b', x, baseline, px, py);
      AdvanceConcat(face, a, b');
    } else {
      assert a + b == a;
    }
  }
}
