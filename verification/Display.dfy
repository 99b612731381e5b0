/** The physical frame buffer: a linear array of pixels, `stride` to a scan line, and the
    loops that draw on it. */
module Display {

  const GLYPH_WIDTH: nat := 8
  const GLYPH_HEIGHT: nat := 16
  const BLACK: int := 0x00000000
  const WHITE: int := 0x00FFFFFF

  type Byte = b: int | 0 <= b < 256

  /** A font: does glyph `code` light the pixel at (row, col) of its cell? */
  type Font = (int, int, int) -> bool

  /** font8x16 has 128 glyphs; other bytes are drawn as '?'. */
  predicate Lit(font: Font, c: Byte, row: int, col: int) {
    font(if c > 127 then 63 else c, row, col)
  }

  predicate InCell(x: int, y: int, px: int, py: int) {
    x <= px < x + GLYPH_WIDTH && y <= py < y + GLYPH_HEIGHT
  }

  lemma {:induction false} Lines(n: nat, stride: nat)
    requires n >= 1
    ensures n * stride >= stride
  {
    if n > 1 { Lines(n - 1, stride); }
    assert n * stride == (n - 1) * stride + stride;
  }

  /** Different pixels have different addresses. */
  lemma LinesApart(stride: nat, x1: nat, y1: nat, x2: nat, y2: nat)
    requires x1 < stride && x2 < stride
    requires y1 * stride + x1 == y2 * stride + x2
    ensures x1 == x2 && y1 == y2
  {
    if y1 < y2 {
      Lines(y2 - y1, stride);
    } else if y2 < y1 {
      Lines(y1 - y2, stride);
    }
  }

  lemma LineFits(stride: nat, height: nat, x: nat, y: nat)
    requires x < stride && y < height
    ensures y * stride + x < height * stride
  {
    Lines(height - y, stride);
    assert height * stride == y * stride + (height - y) * stride;
  }

  class Screen {
    const pixels: array<int>
    const width: nat
    const height: nat
    const stride: nat
    const font: Font

    ghost predicate Valid()
      reads this
    {
      width <= stride && height * stride <= pixels.Length
    }

    ghost predicate Inside(x: int, y: int)
      reads this
    {
      0 <= x < width && 0 <= y < height
    }

    ghost function Pixel(x: int, y: int): int
      requires Valid() && Inside(x, y)
      reads this, pixels
    {
      LineFits(stride, height, x, y);
      pixels[y * stride + x]
    }

    constructor (pixels: array<int>, width: nat, height: nat, stride: nat, font: Font)
      requires width <= stride && height * stride <= pixels.Length
      ensures Valid() && this.pixels == pixels && this.width == width && this.height == height && this.font == font
    {
      this.pixels, this.width, this.height, this.stride, this.font := pixels, width, height, stride, font;
    }

    method Set(x: nat, y: nat, color: int)
      requires Valid() && Inside(x, y)
      modifies pixels
      ensures forall px, py :: Inside(px, py) ==>
                Pixel(px, py) == if px == x && py == y then color else old(Pixel(px, py))
    {
      LineFits(stride, height, x, y);
      pixels[y * stride + x] := color;
      forall px, py | Inside(px, py)
        ensures Pixel(px, py) == if px == x && py == y then color else old(Pixel(px, py))
      {
        LineFits(stride, height, px, py);
        if py * stride + px == y * stride + x { LinesApart(stride, px, py, x, y); }
      }
    }

    method Get(x: nat, y: nat) returns (color: int)
      requires Valid() && Inside(x, y)
      ensures color == Pixel(x, y)
    {
      LineFits(stride, height, x, y);
      color := pixels[y * stride + x];
    }

    /** A rectangle of one color: draw_cursor, erase_cursor, clear_screen and the blank
        line under the scroll indicator. */
    method Fill(x: nat, y: nat, w: nat, h: nat, color: int)
      requires Valid() && x + w <= width && y + h <= height
      modifies pixels
      ensures forall px, py :: Inside(px, py) ==>
                Pixel(px, py) == if x <= px < x + w && y <= py < y + h then color else old(Pixel(px, py))
    {
      for row := 0 to h
        invariant forall px, py :: Inside(px, py) ==>
                    Pixel(px, py) == if x <= px < x + w && y <= py < y + row then color else old(Pixel(px, py))
      {
        for col := 0 to w
          invariant forall px, py :: Inside(px, py) ==>
                      Pixel(px, py) == if x <= px < x + w && (y <= py < y + row || (py == y + row && px < x + col))
                                       then color else old(Pixel(px, py))
        {
          Set(x + col, y + row, color);
        }
      }
    }

    /** draw_char: only the lit pixels of the glyph are written. */
    method DrawChar(x: nat, y: nat, c: Byte, color: int)
      requires Valid() && x + GLYPH_WIDTH <= width && y + GLYPH_HEIGHT <= height
      modifies pixels
      ensures forall px, py :: Inside(px, py) ==>
                Pixel(px, py) == if InCell(x, y, px, py) && Lit(font, c, py - y, px - x) then color
                                 else old(Pixel(px, py))
    {
      var code := if c > 127 then 63 else c;
      for row := 0 to GLYPH_HEIGHT
        invariant forall px, py :: Inside(px, py) ==>
                    Pixel(px, py) == if InCell(x, y, px, py) && py < y + row && Lit(font, c, py - y, px - x) then color
                                     else old(Pixel(px, py))
      {
        for col := 0 to GLYPH_WIDTH
          invariant forall px, py :: Inside(px, py) ==>
                      Pixel(px, py) == if InCell(x, y, px, py) && (py < y + row || (py == y + row && px < x + col)) &&
                                          Lit(font, c, py - y, px - x) then color
                                       else old(Pixel(px, py))
        {
          if font(code, row, col) { Set(x + col, y + row, color); }
        }
      }
    }

    /** scroll_up: one text line, in place, and the freed pixel lines blank. */
    method ScrollUp()
      requires Valid()
      modifies pixels
      ensures forall px, py :: Inside(px, py) ==>
                Pixel(px, py) == if py + GLYPH_HEIGHT < height then old(Pixel(px, py + GLYPH_HEIGHT)) else BLACK
    {
      var y := 0;
      while y + GLYPH_HEIGHT < height
        invariant 0 <= y && (y == 0 || y + GLYPH_HEIGHT <= height)
        invariant forall px, py :: Inside(px, py) ==>
                    Pixel(px, py) == if py < y then old(Pixel(px, py + GLYPH_HEIGHT)) else old(Pixel(px, py))
      {
        for x := 0 to width
          invariant forall px, py :: Inside(px, py) ==>
                      Pixel(px, py) == if py < y || (py == y && px < x) then old(Pixel(px, py + GLYPH_HEIGHT))
                                       else old(Pixel(px, py))
        {
          var color := Get(x, y + GLYPH_HEIGHT);
          Set(x, y, color);
        }
        y := y + 1;
      }
      while y < height
        invariant 0 <= y && height <= y + GLYPH_HEIGHT && (y <= height || y == 0)
        invariant forall px, py :: Inside(px, py) ==>
                    Pixel(px, py) == if py + GLYPH_HEIGHT < height then old(Pixel(px, py + GLYPH_HEIGHT))
                                     else if py < y then BLACK else old(Pixel(px, py))
      {
        for x := 0 to width
          invariant forall px, py :: Inside(px, py) ==>
                      Pixel(px, py) == if py + GLYPH_HEIGHT < height then old(Pixel(px, py + GLYPH_HEIGHT))
                                       else if py < y || (py == y && px < x) then BLACK else old(Pixel(px, py))
        {
          Set(x, y, BLACK);
        }
        y := y + 1;
      }
    }
  }
}
