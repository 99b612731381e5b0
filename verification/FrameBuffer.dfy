/** src/c/framebuffer.c: four virtual buffers, each with its text in a ring of rows inside
    one shared area, drawing incrementally on one physical screen. */
module FrameBuffer {
  import opened Display
  import Console

  type Row = Console.Row
  type Terminal = Console.Terminal

  /** The row arithmetic `base + index` is 32 bits wide. */
  const MAX_HIST_ROWS: nat := 0x8000_0000

  lemma RingPosition(base: nat, i: nat, size: nat)
    requires base < size && i <= size
    ensures (base + i) % size == Slot(base, i, size)
  {
    var x := base + i;
    var q := x / size;
    assert x == q * size + x % size;
    if q >= 2 {
      Lines(q - 1, size);
    } else if q == 1 {
      assert q * size == size;
    } else {
      assert q * size == 0;
    }
  }

  /** Where logical row `i` is in a ring of `size` rows. */
  function Slot(base: nat, i: nat, size: nat): int {
    if base + i < size then base + i else base + i - size
  }

  /** The ring holds the last `count` rows of `log`, in order, from row `base` on. */
  ghost predicate Retains(ring: seq<Row>, base: nat, count: nat, log: seq<Row>) {
    && base < |ring| && count <= |ring| && count <= |log|
    && (forall i :: 0 <= i < count ==> 0 <= Slot(base, i, |ring|) < |ring|)
    && (forall i {:trigger Slot(base, i, |ring|)} :: 0 <= i < count ==>
       ring[Slot(base, i, |ring|)] == log[|log| - count + i])
  }

  /** Appending a row to a ring with room: it goes into the next free slot. */
  lemma GrowRing(ring: seq<Row>, base: nat, count: nat, log: seq<Row>, row: Row)
    requires Retains(ring, base, count, log) && count < |ring|
    ensures 0 <= Slot(base, count, |ring|) < |ring|
    ensures Retains(ring[Slot(base, count, |ring|) := row], base, count + 1, log + [row])
  {
  }

  /** Appending a row to a full ring: it goes over the oldest row, and the ring turns by one. */
  lemma TurnRing(ring: seq<Row>, base: nat, count: nat, log: seq<Row>, row: Row)
    requires Retains(ring, base, count, log) && 0 < count == |ring|
    ensures 0 <= Slot(base, 1, |ring|) < |ring|
    ensures Slot(Slot(base, 1, |ring|), count - 1, |ring|) == base
    ensures Retains(ring[base := row], Slot(base, 1, |ring|), count, log + [row])
  {
    var turned := Slot(base, 1, |ring|);
    forall i | 0 <= i < count - 1 ensures Slot(turned, i, |ring|) == Slot(base, i + 1, |ring|) {
    }
  }

  /** Changing a kept row changes the same row of the list. */
  lemma UpdateRing(ring: seq<Row>, base: nat, count: nat, log: seq<Row>, i: nat, row: Row)
    requires Retains(ring, base, count, log) && i < count
    ensures Retains(ring[Slot(base, i, |ring|) := row], base, count, log[|log| - count + i := row])
  {
  }

  /** A block of rows of `cols` cells inside a shared area. */
  class Grid {
    const area: array<Byte>
    const start: nat
    const cols: nat
    const size: nat
    ghost var ring: seq<Row>

    ghost predicate Placed()
      reads this
    {
      cols >= 1 && start + size * cols <= area.Length
    }

    ghost predicate Valid()
      reads this, area
    {
      && Placed() && |ring| == size
      && (forall r :: 0 <= r < size ==> |ring[r]| == cols)
      && (forall r, c :: 0 <= r < size && 0 <= c < cols ==>
            0 <= At(r, c) < area.Length && area[At(r, c)] == ring[r][c])
    }

    function At(r: int, c: int): int
    {
      start + r * cols + c
    }

    /** The cells of this block are the ones from `start` on; others' cells are as they were. */
    ghost predicate Elsewhere(before: seq<Byte>)
      reads this, area
    {
      |before| == area.Length &&
      forall j :: 0 <= j < area.Length && !(start <= j < start + size * cols) ==> area[j] == before[j]
    }

    /** What happens to other blocks of the area does not matter to this one. */
    twostate lemma Untouched()
      requires old(Valid()) && ring == old(ring)
      requires forall j :: start <= j < start + size * cols <= area.Length ==> area[j] == old(area[j])
      ensures Valid()
    {
      forall r, c | 0 <= r < size && 0 <= c < cols
        ensures 0 <= At(r, c) < area.Length && area[At(r, c)] == ring[r][c]
      {
        AtInside(r, c);
      }
    }

    constructor (area: array<Byte>, start: nat, cols: nat, size: nat)
      requires cols >= 1 && start + size * cols <= area.Length
      modifies area
      ensures Valid() && Elsewhere(old(area[..]))
      ensures this.area == area && this.start == start && this.cols == cols && this.size == size
      ensures ring == seq(size, _ => Console.Blank(cols))
    {
      this.area, this.start, this.cols, this.size := area, start, cols, size;
      ring := seq(size, _ => Console.Blank(cols));
      new;
      for n := 0 to size * cols
        invariant ring == seq(size, _ => Console.Blank(cols))
        invariant forall j :: start <= j < start + n ==> area[j] == 0
        invariant forall j :: 0 <= j < area.Length && !(start <= j < start + n) ==> area[j] == old(area[..])[j]
      {
        area[start + n] := 0;
      }
      forall r, c | 0 <= r < size && 0 <= c < cols
        ensures 0 <= At(r, c) < area.Length && area[At(r, c)] == ring[r][c]
      {
        AtInside(r, c);
      }
    }

    lemma AtInside(r: nat, c: nat)
      requires Placed() && r < size && c < cols
      ensures start <= At(r, c) < start + size * cols <= area.Length
    {
      LineFits(cols, size, c, r);
    }

    lemma AtApart(r: nat, c: nat, q: nat, d: nat)
      requires Placed() && r < size && q < size && c < cols && d < cols && At(r, c) == At(q, d)
      ensures r == q && c == d
    {
      LinesApart(cols, c, r, d, q);
    }

    method Get(r: nat, c: nat) returns (b: Byte)
      requires Valid() && r < size && c < cols
      ensures b == ring[r][c]
    {
      b := area[At(r, c)];
    }

    method Put(r: nat, c: nat, b: Byte)
      requires Valid() && r < size && c < cols
      modifies this`ring, area
      ensures Valid() && Elsewhere(old(area[..]))
      ensures var row: Row := old(ring)[r][c := b]; ring == old(ring)[r := row]
    {
      AtInside(r, c);
      area[At(r, c)] := b;
      var row: Row := ring[r][c := b];
      ring := ring[r := row];
      forall q, d | 0 <= q < size && 0 <= d < cols
        ensures 0 <= At(q, d) < area.Length && area[At(q, d)] == ring[q][d]
      {
        if At(q, d) == At(r, c) { AtApart(q, d, r, c); }
      }
    }

    /** clear_logical_row */
    method ClearRow(r: nat)
      requires Valid() && r < size
      modifies this`ring, area
      ensures Valid() && Elsewhere(old(area[..]))
      ensures ring == old(ring)[r := Console.Blank(cols)]
    {
      for col := 0 to cols
        invariant Valid() && Elsewhere(old(area[..]))
        invariant forall q :: 0 <= q < size && q != r ==> ring[q] == old(ring)[q]
        invariant forall c :: 0 <= c < col ==> ring[r][c] == 0
      {
        Put(r, col, 0);
      }
      assert ring[r] == Console.Blank(cols);
      assert ring == old(ring)[r := Console.Blank(cols)];
    }
  }

  /** One virtual buffer. `term` is the simple terminal it stands for. */
  class VirtualBuffer {
    const screen: Screen
    const grid: Grid
    const cols: nat
    const rows: nat
    const histRows: nat
    var base: nat
    var count: nat
    var viewOffset: nat
    var curX: nat
    var curY: nat
    ghost var term: Terminal

    constructor (screen: Screen, grid: Grid)
      requires screen.Valid() && grid.Valid() && Console.BlankGlyph(screen.font)
      requires 1 <= grid.cols == screen.width / GLYPH_WIDTH
               && 1 <= screen.height / GLYPH_HEIGHT <= grid.size <= MAX_HIST_ROWS
      requires grid.ring == seq(grid.size, _ => Console.Blank(grid.cols))
      ensures this.screen == screen && this.grid == grid
      ensures Valid() && term == Console.Fresh(screen.width / GLYPH_WIDTH, screen.height / GLYPH_HEIGHT, grid.size)
    {
      this.screen, this.grid := screen, grid;
      cols, rows, histRows := grid.cols, screen.height / GLYPH_HEIGHT, grid.size;
      base, count, viewOffset, curX, curY := 0, screen.height / GLYPH_HEIGHT, 0, 0, 0;
      term := Console.Fresh(screen.width / GLYPH_WIDTH, screen.height / GLYPH_HEIGHT, grid.size);
    }

    /** What construction fixes. */
    ghost predicate Fixed()
      reads this, screen
    {
      && screen.Valid() && Console.BlankGlyph(screen.font)
      && 1 <= cols == grid.cols == screen.width / GLYPH_WIDTH
      && 1 <= rows == screen.height / GLYPH_HEIGHT <= histRows == grid.size <= MAX_HIST_ROWS
    }

    /** The ring holds the last rows of the terminal's list, and the fields its state. */
    ghost predicate Holds(t: Terminal)
      reads this, screen, grid, grid.area
    {
      && Fixed() && grid.Valid() && t.Shaped()
      && Retains(grid.ring, base, count, t.log) && rows <= count
      && t.cols == cols && t.rows == rows && t.capacity == histRows && t.kept == count
      && t.x == curX && t.y == curY && t.offset == viewOffset
    }

    ghost predicate Valid()
      reads this, screen, grid, grid.area
    {
      Holds(term) && term.Ok()
    }

    ghost predicate Shows(t: Terminal)
      reads this, screen, screen.pixels
    {
      screen.Valid() && t.Shaped() &&
      forall px, py :: screen.Inside(px, py) ==> screen.Pixel(px, py) == Console.Color(screen.font, t, px, py)
    }

    ghost predicate ShowsText(t: Terminal)
      reads this, screen, screen.pixels
    {
      screen.Valid() && t.Shaped() &&
      forall px, py :: screen.Inside(px, py) ==> screen.Pixel(px, py) == Console.TextColor(screen.font, t, px, py)
    }

    twostate lemma StillShows()
      requires old(Shows(term)) && term == old(term) && screen.pixels[..] == old(screen.pixels[..])
      ensures Shows(term)
    {
      forall px, py | screen.Inside(px, py)
        ensures screen.Pixel(px, py) == old(screen.Pixel(px, py))
      {
        LineFits(screen.stride, screen.height, px, py);
        var at := py * screen.stride + px;
        assert screen.pixels[..][at] == old(screen.pixels[..])[at];
      }
    }

    // ------------------------------------------------------------- the history

    /** os_vbuf_max_view_offset */
    method MaxViewOffset() returns (n: nat)
      requires Holds(term)
      ensures n == term.MaxOffset()
    {
      n := count - rows;
    }

    /** os_vbuf_visible_row: the ring row shown at a screen row, None when there is none. */
    method VisibleRow(screenRow: nat) returns (r: Console.Place)
      requires Holds(term)
      ensures r.Nowhere? <==> screenRow >= rows
      ensures r.At? ==> r.row < histRows && grid.ring[r.row] == term.InView(screenRow)
    {
      if screenRow >= rows { return Console.Nowhere; }
      var top := count - rows - viewOffset;
      RingPosition(base, top + screenRow, histRows);
      r := Console.At((base + (top + screenRow)) % histRows);
    }

    /** content_scroll_up */
    method ContentScrollUp(ghost log: seq<Row>)
      requires Fixed() && grid.Valid() && Retains(grid.ring, base, count, log) && count > 0
      modifies this`base, this`count, grid`ring, grid.area
      ensures grid.Valid() && grid.Elsewhere(old(grid.area[..]))
      ensures Retains(grid.ring, base, count, log + [Console.Blank(cols)])
      ensures count == if old(count) < histRows then old(count) + 1 else old(count)
    {
      ghost var slot := if count < histRows then Slot(base, count, histRows) else base;
      ghost var ring := grid.ring;
      if count < histRows {
        GrowRing(ring, base, count, log, Console.Blank(cols));
        count := count + 1;
      } else {
        TurnRing(ring, base, count, log, Console.Blank(cols));
        RingPosition(base, 1, histRows);
        base := (base + 1) % histRows;
      }
      RingPosition(base, count - 1, histRows);
      assert Retains(ring[slot := Console.Blank(cols)], base, count, log + [Console.Blank(cols)]);
      grid.ClearRow((base + (count - 1)) % histRows);
      assert grid.ring == ring[slot := Console.Blank(cols)];
    }

    /** content_put: always into the last screenful. */
    method ContentPut(col: nat, row: nat, c: Byte, ghost log: seq<Row>)
      requires Fixed() && grid.Valid() && Retains(grid.ring, base, count, log) && rows <= count
      requires forall i :: 0 <= i < |log| ==> |log[i]| == cols
      modifies grid`ring, grid.area
      ensures grid.Valid() && grid.Elsewhere(old(grid.area[..]))
      ensures if row < rows && col < cols then
                var line: Row := log[|log| - rows + row][col := c];
                Retains(grid.ring, base, count, log[|log| - rows + row := line])
              else grid.ring == old(grid.ring)
    {
      if row >= rows || col >= cols { return; }
      var index := count - rows + row;
      RingPosition(base, index, histRows);
      ghost var line: Row := log[|log| - rows + row][col := c];
      UpdateRing(grid.ring, base, count, log, index, line);
      grid.Put((base + index) % histRows, col, c);
    }

    // ------------------------------------------------------------- drawing

    method DrawCursor()
      requires Valid() && (viewOffset == 0 ==> ShowsText(term))
      modifies screen.pixels
      ensures viewOffset == 0 ==> Shows(term)
      ensures viewOffset != 0 ==> screen.pixels[..] == old(screen.pixels[..])
    {
      if viewOffset != 0 { return; }
      screen.Fill(curX * GLYPH_WIDTH, curY * GLYPH_HEIGHT, GLYPH_WIDTH, GLYPH_HEIGHT, WHITE);
    }

    method EraseCursor()
      requires Valid() && viewOffset == 0 && Shows(term)
      modifies screen.pixels
      ensures ShowsText(term)
    {
      screen.Fill(curX * GLYPH_WIDTH, curY * GLYPH_HEIGHT, GLYPH_WIDTH, GLYPH_HEIGHT, BLACK);
      forall px, py | screen.Inside(px, py)
        ensures screen.Pixel(px, py) == Console.TextColor(screen.font, term, px, py)
      {
        if px / GLYPH_WIDTH == term.x && py / GLYPH_HEIGHT == term.y {
          Console.CursorCellIsBlank(screen.font, term, px, py);
        }
      }
    }

    /** The text of the indicator; the 64-byte buffer is large enough for any two numbers. */
    method IndicatorText() returns (text: seq<Byte>)
      requires Valid()
      ensures text == Console.Indicator(term) && |text| <= 63
    {
      text := IndicatorPutUint(Console.PREFIX, viewOffset);
      Console.DigitsShort(viewOffset);
      text := text + [47];
      text := IndicatorPutUint(text, count - rows);
      Console.DigitsShort(count - rows);
      text := text + Console.SUFFIX;
    }

    /** draw_scroll_indicator: straight onto the screen, never into the content. */
    method DrawScrollIndicator()
      requires Valid() && viewOffset != 0 && ShowsText(term)
      modifies screen.pixels
      ensures Shows(term)
    {
      var text := IndicatorText();
      var y := (rows - 1) * GLYPH_HEIGHT;
      screen.Fill(0, y, screen.width, GLYPH_HEIGHT, BLACK);
      var i := 0;
      while i < |text| && i < cols
        invariant 0 <= i <= |text| && i <= cols
        invariant forall px, py :: screen.Inside(px, py) ==>
                    screen.Pixel(px, py) ==
                    if py / GLYPH_HEIGHT == rows - 1 then
                      if px / GLYPH_WIDTH < i && Lit(screen.font, text[px / GLYPH_WIDTH], py % GLYPH_HEIGHT,
                          px % GLYPH_WIDTH)
                      then WHITE else BLACK
                    else Console.TextColor(screen.font, term, px, py)
      {
        screen.DrawChar(i * GLYPH_WIDTH, y, text[i], WHITE);
        i := i + 1;
      }
    }

    /** render_frame_buffer: the full redraw. */
    method Render()
      requires Valid()
      modifies screen.pixels
      ensures Shows(term)
    {
      screen.Fill(0, 0, screen.width, screen.height, BLACK);
      for y := 0 to rows
        invariant forall px, py :: screen.Inside(px, py) ==>
                    screen.Pixel(px, py) == if py / GLYPH_HEIGHT < y then Console.TextColor(screen.font, term, px, py)
                        else BLACK
      {
        var place := VisibleRow(y);
        for x := 0 to cols
          invariant forall px, py :: screen.Inside(px, py) ==>
                      screen.Pixel(px, py) ==
                      if py / GLYPH_HEIGHT < y || (py / GLYPH_HEIGHT == y && px / GLYPH_WIDTH < x)
                      then Console.TextColor(screen.font, term, px, py) else BLACK
        {
          var c := grid.Get(place.row, x);
          if c != 0 { screen.DrawChar(x * GLYPH_WIDTH, y * GLYPH_HEIGHT, c, WHITE); }
        }
      }
      if viewOffset != 0 { DrawScrollIndicator(); } else { DrawCursor(); }
    }

    // ------------------------------------------------------------- scrolling

    /** os_vbuf_scroll on the buffer in view; at either end nothing is drawn again. */
    method ScrollBy(delta: int)
      requires Valid() && Shows(term)
      modifies this`viewOffset, this`term, screen.pixels
      ensures Valid() && Shows(term) && term == old(term).Scroll(delta)
    {
      var max := MaxViewOffset();
      var next: int := viewOffset - delta;
      if next < 0 { next := 0; }
      if next > max { next := max; }
      if next == viewOffset { return; }
      term.ScrollOk(delta);
      viewOffset, term := next, term.Scroll(delta);
      Render();
    }

    /** os_vbuf_scroll_to_bottom */
    method ScrollToBottom() returns (moved: bool)
      requires Valid() && Shows(term)
      modifies this`viewOffset, this`term, screen.pixels
      ensures Valid() && Shows(term) && term == old(term).(offset := 0)
      ensures moved <==> old(term).offset != 0
    {
      moved := viewOffset != 0;
      if moved {
        viewOffset, term := 0, term.(offset := 0);
        Render();
      }
    }

    // ------------------------------------------------------------- output

    /** newline, with `t` the terminal before it */
    method Newline(active: bool, ghost t: Terminal)
      requires Holds(t) && t.offset == 0 && t.y < rows && (active ==> ShowsText(t))
      modifies this`base, this`count, this`curX, this`curY, grid`ring, grid.area, screen.pixels
      ensures grid.Valid() && grid.Elsewhere(old(grid.area[..]))
      ensures Holds(t.Newline())
      ensures if active then ShowsText(t.Newline()) else screen.pixels[..] == old(screen.pixels[..])
    {
      curX := 0;
      curY := curY + 1;
      if curY >= rows {
        ContentScrollUp(t.log);
        if active { ScrollScreen(t); }
        curY := curY - 1;
      }
    }

    /** scroll_up, seen as a redraw of the terminal with one more row. */
    method ScrollScreen(ghost t: Terminal)
      requires Fixed() && ShowsText(t) && t.rows == rows && t.y + 1 == rows && t.offset == 0
      modifies screen.pixels
      ensures ShowsText(t.Newline())
    {
      screen.ScrollUp();
      assert t.Newline().Shaped();
      forall px, py | screen.Inside(px, py)
        ensures screen.Pixel(px, py) == Console.TextColor(screen.font, t.Newline(), px, py)
      {
        Console.ScrolledText(screen.font, t, screen.height, px, py);
      }
    }

    /** The start of write_char: output brings the view back to the bottom. */
    method SnapToBottom(active: bool)
      requires Valid() && (active ==> Shows(term))
      modifies this`viewOffset, this`term, screen.pixels
      ensures Valid() && viewOffset == 0 && term == old(term).(offset := 0)
      ensures if active then Shows(term) else screen.pixels[..] == old(screen.pixels[..])
    {
      if viewOffset != 0 {
        viewOffset := 0;
        term := term.(offset := 0);
        if active { Render(); }
      }
    }

    /** write_char; `active` is is_active(self). Both of its branches end with the cursor. */
    method WriteChar(c: Byte, active: bool)
      requires Valid() && (active ==> Shows(term))
      modifies this, grid`ring, grid.area, screen.pixels
      ensures Valid() && grid.Elsewhere(old(grid.area[..]))
      ensures term == old(term).Write(c)
      ensures if active then Shows(term) else screen.pixels[..] == old(screen.pixels[..])
    {
      term.WriteSnaps(c);
      term.WriteOk(c);
      ghost var after := term.Write(c);
      SnapToBottom(active);
      if active { EraseCursor(); }
      Advance(c, active);
      term := after;
      if active { DrawCursor(); }
    }

    /** The two branches of write_char between erasing and drawing the cursor. */
    method Advance(c: Byte, active: bool)
      requires Valid() && viewOffset == 0 && (active ==> ShowsText(term))
      modifies this`base, this`count, this`curX, this`curY, grid`ring, grid.area, screen.pixels
      ensures grid.Valid() && grid.Elsewhere(old(grid.area[..]))
      ensures Holds(term.Write(c))
      ensures if active then ShowsText(term.Write(c)) else screen.pixels[..] == old(screen.pixels[..])
    {
      if c == Console.NEWLINE {
        Newline(active, term);
      } else {
        PutGlyph(c, active);
        if curX >= cols { Newline(active, term.Put(c)); }
      }
    }

    /** The middle of write_char: the character goes into the content and onto the screen. */
    method PutGlyph(c: Byte, active: bool)
      requires Valid() && viewOffset == 0 && (active ==> ShowsText(term))
      modifies this`curX, grid`ring, grid.area, screen.pixels
      ensures grid.Valid() && grid.Elsewhere(old(grid.area[..]))
      ensures Holds(term.Put(c))
      ensures if active then ShowsText(term.Put(c)) else screen.pixels[..] == old(screen.pixels[..])
    {
      if active { DrawGlyph(c); }
      StoreGlyph(c);
    }

    method StoreGlyph(c: Byte)
      requires Valid() && viewOffset == 0
      modifies this`curX, grid`ring, grid.area
      ensures grid.Valid() && grid.Elsewhere(old(grid.area[..])) && Holds(term.Put(c))
    {
      ContentPut(curX, curY, c, term.log);
      curX := curX + 1;
      assert term.Put(c).Shaped();
    }

    /** draw_char at the cursor, seen as a redraw of the terminal with the character in it. */
    method DrawGlyph(c: Byte)
      requires Valid() && viewOffset == 0 && ShowsText(term)
      modifies screen.pixels
      ensures ShowsText(term.Put(c))
    {
      screen.DrawChar(curX * GLYPH_WIDTH, curY * GLYPH_HEIGHT, c, WHITE);
      forall px, py | screen.Inside(px, py)
        ensures term.Put(c).Shaped()
        ensures screen.Pixel(px, py) == Console.TextColor(screen.font, term.Put(c), px, py)
      {
        Console.PutChangesOneCell(screen.font, term, c, px, py);
      }
      assert term.Put(c).Shaped();
    }
  }

  function Reversed(s: seq<Byte>): (r: seq<Byte>)
    ensures |r| == |s|
  {
    if s == [] then [] else [s[|s| - 1]] + Reversed(s[..|s| - 1])
  }

  /** indicator_put_uint: the decimal digits, least significant first, then reversed. */
  method IndicatorPutUint(text: seq<Byte>, value: nat) returns (out: seq<Byte>)
    requires value < 0x1_0000_0000 && |text| + 10 <= 63
    ensures out == text + Console.Digits(value)
  {
    var tmp: seq<Byte> := [];
    var v: nat := value;
    Console.DigitsShort(value);
    if v == 0 { tmp := [48]; }
    assert value == 0 ==> Reversed(tmp) == [48];
    while v > 0 && |tmp| < 12
      invariant Console.Digits(value) == Rest(v) + Reversed(tmp)
      decreases v
    {
      DigitMoves(value, v, tmp);
      tmp := tmp + [48 + v % 10];
      v := v / 10;
    }
    out := PushReversed(text, tmp);
  }

  /** The second loop of indicator_put_uint. */
  method PushReversed(text: seq<Byte>, tmp: seq<Byte>) returns (out: seq<Byte>)
    requires |text| + |tmp| <= 63
    ensures out == text + Reversed(tmp)
  {
    out := text;
    var n := |tmp|;
    assert tmp[..n] == tmp;
    while n > 0 && |out| < 63
      invariant 0 <= n <= |tmp| && |out| == |text| + |tmp| - n
      invariant out + Reversed(tmp[..n]) == text + Reversed(tmp)
    {
      n := n - 1;
      assert tmp[..n + 1] == tmp[..n] + [tmp[n]];
      ReversedSnoc(tmp[..n], tmp[n]);
      out := out + [tmp[n]];
    }
    assert Reversed(tmp[..0]) == [];
  }

  /** The digits still to come when `v` is left. */
  function Rest(v: nat): seq<Byte> { if v == 0 then [] else Console.Digits(v) }

  /** One round of the digit loop: the last digit to come is the next one taken. */
  lemma DigitMoves(value: nat, v: nat, tmp: seq<Byte>)
    requires v > 0 && Console.Digits(value) == Rest(v) + Reversed(tmp)
    ensures Console.Digits(value) == Rest(v / 10) + Reversed(tmp + [48 + v % 10])
  {
    var digit: Byte := 48 + v % 10;
    ReversedSnoc(tmp, digit);
    Regroup(Rest(v / 10), digit, Reversed(tmp));
  }

  lemma Regroup(a: seq<Byte>, digit: Byte, b: seq<Byte>)
    ensures a + [digit] + b == a + ([digit] + b)
  {
  }

  lemma ReversedSnoc(s: seq<Byte>, b: Byte)
    ensures Reversed(s + [b]) == [b] + Reversed(s)
  {
    assert (s + [b])[..|s|] == s;
  }
}
