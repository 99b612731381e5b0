/** The simple terminal: output appends to an unbounded list of rows, and the whole screen
    is drawn from the rows in view. src/c/framebuffer.c is proved against it. */
module Console {
  import opened Display

  type Row = seq<Byte>

  const NEWLINE: Byte := 10

  function Blank(cols: nat): Row { seq(cols, _ => 0) }

  predicate BlankFrom(line: Row, x: nat) {
    forall c :: x <= c < |line| ==> line[c] == 0
  }

  /** `log` holds every row ever, `kept` says how many of the last ones can still be seen;
      (x, y) is the cursor in the last screenful and `offset` how far the view is scrolled
      back. */
  datatype Terminal = Terminal(cols: nat, rows: nat, capacity: nat, log: seq<Row>, kept: nat, x: nat, y: nat,
      offset: nat)
  {
    /** The dimensions fit: the rows have `cols` cells and the view lies in the kept rows. */
    ghost predicate Shaped() {
      && 1 <= cols && 1 <= rows <= kept <= capacity && kept <= |log| && offset <= kept - rows
      && (forall i :: 0 <= i < |log| ==> |log[i]| == cols)
    }

    ghost predicate Ok() {
      && Shaped() && x < cols && y < rows
      && BlankFrom(log[|log| - rows + y], x)
      && (forall i :: |log| - rows + y < i < |log| ==> log[i] == Blank(cols))
    }

    /** Row `r` of the last screenful, shifted back by `offset`. */
    function InView(r: nat): Row
      requires rows <= kept <= |log| && offset <= kept - rows && r < rows
    {
      log[|log| - rows - offset + r]
    }

    function Newline(): Terminal
      requires rows >= 1
    {
      if y + 1 < rows then this.(x := 0, y := y + 1)
      else this.(x := 0, log := log + [Blank(cols)], kept := if kept < capacity then kept + 1 else kept)
    }

    /** The character under the cursor, and the cursor one cell on. */
    function Put(c: Byte): Terminal
      requires 1 <= rows <= |log| && y < rows
      requires x < |log[|log| - rows + y]|
    {
      var at := |log| - rows + y;
      var row: Row := log[at][x := c];
      this.(log := log[at := row], x := x + 1)
    }

    /** One character of output; it first brings the view back to the bottom. */
    function Write(c: Byte): Terminal
      requires Ok()
    {
      var t := this.(offset := 0);
      if c == NEWLINE then t.Newline()
      else
        var u := t.Put(c);
        if u.x >= cols then u.Newline() else u
    }

    function MaxOffset(): int { kept - rows }

    function Clamp(wanted: int): int
    {
      if wanted < 0 then 0 else if wanted > MaxOffset() then MaxOffset() else wanted
    }

    /** Scroll by `delta` rows, negative into the past. */
    function Scroll(delta: int): Terminal
      requires Ok()
    {
      this.(offset := Clamp(offset - delta))
    }

    lemma NewlineOk()
      requires rows >= 1 && 1 <= cols && rows <= kept <= capacity && kept <= |log| && y < rows && offset == 0
      requires forall i :: 0 <= i < |log| ==> |log[i]| == cols
      requires forall i :: |log| - rows + y < i < |log| ==> log[i] == Blank(cols)
      ensures Newline().Ok()
    {
      var t := Newline();
      if y + 1 < rows {
        assert t.log[|t.log| - rows + t.y] == Blank(cols);
      } else {
        assert t.log[|t.log| - rows + t.y] == Blank(cols);
      }
    }

    /** The cells at and behind the cursor stay blank, the cursor on the screen and the view
        among the kept rows. */
    lemma WriteOk(c: Byte)
      requires Ok()
      ensures Write(c).Ok()
    {
      var t := this.(offset := 0);
      if c == NEWLINE {
        t.NewlineOk();
      } else {
        var u := t.Put(c);
        forall i | 0 <= i < |u.log| ensures |u.log[i]| == cols {
        }
        if u.x >= cols { u.NewlineOk(); }
      }
    }

    lemma WriteSnaps(c: Byte)
      requires Ok()
      ensures this.(offset := 0).Ok() && this.(offset := 0).Write(c) == Write(c)
    {
    }

    lemma ScrollOk(delta: int)
      requires Ok()
      ensures Scroll(delta).Ok()
    {
    }
  }

  datatype Place = Nowhere | At(row: nat)

  /** A terminal before any output: one blank screenful. */
  function Fresh(cols: nat, rows: nat, capacity: nat): Terminal {
    Terminal(cols, rows, capacity, seq(rows, _ => Blank(cols)), rows, 0, 0, 0)
  }

  // ---------------------------------------------------------------- the full redraw

  function Digits(n: nat): seq<Byte> {
    if n < 10 then [48 + n] else Digits(n / 10) + [48 + n % 10]
  }

  function Power10(n: nat): nat { if n == 0 then 1 else 10 * Power10(n - 1) }

  /** A 32-bit number has at most ten decimal digits. */
  lemma DigitsShort(n: nat)
    requires n < 0x1_0000_0000
    ensures |Digits(n)| <= 10
  {
    DigitsBound(n, 10);
  }

  lemma DigitsBound(n: nat, k: nat)
    requires k >= 1 && n < Power10(k)
    ensures |Digits(n)| <= k
    decreases k
  {
    if n >= 10 { DigitsBound(n / 10, k - 1); }
  }

  function DecimalValue(digits: seq<Byte>): int {
    if digits == [] then 0 else 10 * DecimalValue(digits[..|digits| - 1]) + (digits[|digits| - 1] as int - 48)
  }

  /** The digits of a number, the first one first and no zero in front. */
  lemma {:induction false} DigitsRead(n: nat)
    ensures DecimalValue(Digits(n)) == n
    ensures forall i :: 0 <= i < |Digits(n)| ==> 48 <= Digits(n)[i] <= 57
    ensures n > 0 ==> Digits(n)[0] != 48
  {
    if n < 10 {
      assert Digits(n)[..0] == [];
    } else {
      DigitsRead(n / 10);
      assert Digits(n)[..|Digits(n)| - 1] == Digits(n / 10);
    }
  }

  const PREFIX: seq<Byte> := [45, 45, 32, 83, 67, 82, 79, 76, 76, 32]   // "-- SCROLL "
  const SUFFIX: seq<Byte> := [32, 45, 45]                               // " --"

  function Indicator(t: Terminal): seq<Byte>
    requires t.rows <= t.kept
  {
    PREFIX + Digits(t.offset) + [47] + Digits(t.kept - t.rows) + SUFFIX
  }

  function Text(bytes: seq<Byte>): string { seq(|bytes|, i requires 0 <= i < |bytes| => bytes[i] as char) }

  lemma TextJoins(a: seq<Byte>, b: seq<Byte>)
    ensures Text(a + b) == Text(a) + Text(b)
  {
  }

  /** The indicator tells how many rows back the view is, and how many it can be. */
  lemma IndicatorTells(t: Terminal)
    requires t.rows <= t.kept
    ensures Text(Indicator(t)) == "-- SCROLL " + Text(Digits(t.offset)) + "/" + Text(Digits(t.kept - t.rows)) + " --"
  {
    var a, b := Digits(t.offset), Digits(t.kept - t.rows);
    TextJoins(PREFIX, a);
    TextJoins(PREFIX + a, [47]);
    TextJoins(PREFIX + a + [47], b);
    TextJoins(PREFIX + a + [47] + b, SUFFIX);
    assert Text(PREFIX) == "-- SCROLL " && Text([47]) == "/" && Text(SUFFIX) == " --";
  }

  /** Scrolling by a negative number of rows goes into the past: the text moves down by as many rows,
      until the oldest row that is kept is the first one in view. */
  lemma ScrollsIntoThePast(t: Terminal, back: int, r: nat)
    requires t.Ok() && r < t.rows && back >= 0
    ensures var u := t.Scroll(-back);
            && u.Shaped()
            && (t.offset + back <= t.kept - t.rows && back <= r ==> u.InView(r) == t.InView(r - back))
            && (t.offset + back >= t.kept - t.rows ==> u.InView(0) == t.log[|t.log| - t.kept])
  {
  }

  /** A positive number goes forward, until the newest row is the last one in view. */
  lemma ScrollsForward(t: Terminal, on: nat, r: nat)
    requires t.Ok() && r < t.rows
    ensures var u := t.Scroll(on);
            && u.Shaped()
            && (on <= t.offset && r + on < t.rows ==> u.InView(r) == t.InView(r + on))
            && (on >= t.offset ==> u.InView(t.rows - 1) == t.log[|t.log| - 1])
  {
  }

  function GlyphColor(font: Font, c: Byte, row: int, col: int): int {
    if c != 0 && Lit(font, c, row, col) then WHITE else BLACK
  }

  /** The color of pixel (px, py) when the rows in view are drawn on black. */
  ghost function TextColor(font: Font, t: Terminal, px: nat, py: nat): int
    requires t.Shaped()
  {
    var col, row := px / GLYPH_WIDTH, py / GLYPH_HEIGHT;
    if col < t.cols && row < t.rows then GlyphColor(font, t.InView(row)[col], py % GLYPH_HEIGHT, px % GLYPH_WIDTH)
    else BLACK
  }

  /** The color of pixel (px, py) in a full redraw: the text, with the cursor block or, when
      scrolled back, the indicator in place of the last line. */
  ghost function Color(font: Font, t: Terminal, px: nat, py: nat): int
    requires t.Shaped()
  {
    var col, row := px / GLYPH_WIDTH, py / GLYPH_HEIGHT;
    if t.offset == 0 then
      if col == t.x && row == t.y then WHITE else TextColor(font, t, px, py)
    else if row == t.rows - 1 then
      if col < t.cols && col < |Indicator(t)| && Lit(font, Indicator(t)[col], py % GLYPH_HEIGHT, px % GLYPH_WIDTH)
      then WHITE else BLACK
    else TextColor(font, t, px, py)
  }

  /** Glyph 0 of the font is empty: a cell that holds 0 looks like a drawn 0. */
  ghost predicate BlankGlyph(font: Font) {
    forall row, col :: !font(0, row, col)
  }

  /** Erasing the cursor block shows the text, since the cell under it is blank. */
  lemma CursorCellIsBlank(font: Font, t: Terminal, px: nat, py: nat)
    requires t.Ok() && t.offset == 0 && px / GLYPH_WIDTH == t.x && py / GLYPH_HEIGHT == t.y
    ensures TextColor(font, t, px, py) == BLACK
  {
  }

  /** Drawing a glyph over a blank cell is redrawing the text with that character in it. */
  lemma PutChangesOneCell(font: Font, t: Terminal, c: Byte, px: nat, py: nat)
    requires t.Ok() && t.offset == 0 && BlankGlyph(font)
    ensures t.Put(c).Shaped()
    ensures TextColor(font, t.Put(c), px, py) ==
            if px / GLYPH_WIDTH == t.x && py / GLYPH_HEIGHT == t.y && Lit(font, c, py % GLYPH_HEIGHT, px % GLYPH_WIDTH)
            then WHITE else TextColor(font, t, px, py)
  {
  }

  /** Moving the picture up by one line is redrawing it after a row was appended, on a
      screen whose height need not be a whole number of lines. */
  lemma ScrolledText(font: Font, t: Terminal, height: nat, px: nat, py: nat)
    requires t.Shaped() && t.offset == 0 && t.y + 1 == t.rows && height / GLYPH_HEIGHT == t.rows && py < height
    ensures t.Newline().Shaped()
    ensures TextColor(font, t.Newline(), px, py) ==
            if py + GLYPH_HEIGHT < height then TextColor(font, t, px, py + GLYPH_HEIGHT) else BLACK
  {
    var u := t.Newline();
    var row := py / GLYPH_HEIGHT;
    assert (py + GLYPH_HEIGHT) / GLYPH_HEIGHT == row + 1;
    assert (py + GLYPH_HEIGHT) % GLYPH_HEIGHT == py % GLYPH_HEIGHT;
    if row + 1 < t.rows {
      assert u.InView(row) == t.InView(row + 1);
    } else if row < t.rows {
      assert u.InView(row) == Blank(t.cols);
    }
  }
}
