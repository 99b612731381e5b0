/** src/c/framebuffer.c as its callers see it: four virtual buffers over one screen and one
    content area, and any run of output, scrolling and switching. */
module Screens {
  import opened Display
  import opened FrameBuffer
  import Console

  const VBUF_COUNT: nat := 4

  // ---------------------------------------------------------------- the simple picture

  /** Four independent terminals, one of them in view. */
  datatype Desk = Desk(terms: seq<Terminal>, active: nat)
  {
    ghost predicate Ok() {
      |terms| == VBUF_COUNT && active < VBUF_COUNT && forall i :: 0 <= i < VBUF_COUNT ==> terms[i].Ok()
    }

    function WithTerm(i: nat, t: Terminal): Desk
      requires i < |terms|
    {
      this.(terms := terms[i := t])
    }
  }

  datatype Command = Output(buffer: nat, c: Byte) | Scroll(delta: int) | Bottom | Switch(index: nat)

  predicate Possible(command: Command) { command.Output? ==> command.buffer < VBUF_COUNT }

  function Obey(desk: Desk, command: Command): (after: Desk)
    requires desk.Ok() && Possible(command)
    ensures after.Ok()
  {
    var active := desk.terms[desk.active];
    match command
    case Output(buffer, c) =>
      desk.terms[buffer].WriteOk(c);
      desk.WithTerm(buffer, desk.terms[buffer].Write(c))
    case Scroll(delta) =>
      active.ScrollOk(delta);
      desk.WithTerm(desk.active, active.Scroll(delta))
    case Bottom =>
      active.ScrollOk(active.offset);
      desk.WithTerm(desk.active, active.(offset := 0))
    case Switch(index) => if index < VBUF_COUNT then desk.(active := index) else desk
  }

  function ObeyAll(desk: Desk, commands: seq<Command>): (after: Desk)
    requires desk.Ok() && forall k :: 0 <= k < |commands| ==> Possible(commands[k])
    ensures after.Ok()
  {
    if commands == [] then desk
    else Obey(ObeyAll(desk, commands[..|commands| - 1]), commands[|commands| - 1])
  }

  /** What is written to one buffer over a run. */
  function Written(buffer: nat, commands: seq<Command>): seq<Byte> {
    if commands == [] then []
    else
      var rest := Written(buffer, commands[..|commands| - 1]);
      match commands[|commands| - 1]
      case Output(b, c) => if b == buffer then rest + [c] else rest
      case _ => rest
  }

  function WriteAll(t: Terminal, s: seq<Byte>): (after: Terminal)
    requires t.Ok()
    ensures after.Ok()
  {
    if s == [] then t
    else
      var rest := WriteAll(t, s[..|s| - 1]);
      rest.WriteOk(s[|s| - 1]);
      rest.Write(s[|s| - 1])
  }

  /** Two terminals that differ at most in how far back they are scrolled. */
  predicate SameText(t: Terminal, u: Terminal) { t.(offset := 0) == u.(offset := 0) }

  /** The text of a buffer depends on nothing but the characters written to it: not on the
      other buffers, on scrolling or on which buffer was in view. */
  lemma {:induction false} BuffersAreIndependent(desk: Desk, commands: seq<Command>, i: nat)
    requires desk.Ok() && i < VBUF_COUNT && forall k :: 0 <= k < |commands| ==> Possible(commands[k])
    ensures SameText(ObeyAll(desk, commands).terms[i], WriteAll(desk.terms[i], Written(i, commands)))
  {
    if commands != [] {
      var front, last := commands[..|commands| - 1], commands[|commands| - 1];
      BuffersAreIndependent(desk, front, i);
      var t, u := ObeyAll(desk, front).terms[i], WriteAll(desk.terms[i], Written(i, front));
      if last.Output? && last.buffer == i {
        var s := Written(i, commands);
        assert s[..|s| - 1] == Written(i, front);
        t.WriteSnaps(last.c);
        u.WriteSnaps(last.c);
      }
    }
  }

  /** Rows that have left the cursor behind are never changed, and rows only get added. */
  lemma WrittenRowsStay(t: Terminal, c: Byte)
    requires t.Ok()
    ensures |t.log| <= |t.Write(c).log| <= |t.log| + 1
    ensures t.Write(c).log[..|t.log| - t.rows + t.y] == t.log[..|t.log| - t.rows + t.y]
    ensures t.Write(c).kept == t.kept + (|t.Write(c).log| - |t.log|) || t.Write(c).kept == t.capacity
  {
    assert t.(offset := 0).log == t.log;
  }

  // ---------------------------------------------------------------- the buffers

  /** os_vbuf_effective_hist_rows: never fewer than one screenful. */
  function EffectiveHistRows(height: nat, histRows: nat): (n: nat)
    ensures n >= height / GLYPH_HEIGHT && n >= histRows
    ensures n == height / GLYPH_HEIGHT || n == histRows
  {
    var rows := height / GLYPH_HEIGHT;
    if histRows < rows then rows else histRows
  }

  /** os_vbuf_content_bytes */
  function ContentBytes(width: nat, height: nat, histRows: nat): nat {
    (width / GLYPH_WIDTH) * EffectiveHistRows(height, histRows) * VBUF_COUNT
  }

  lemma BlocksFit(i: nat, block: nat)
    requires i < VBUF_COUNT
    ensures 0 <= i * block && i * block + block <= block * VBUF_COUNT
  {
    assert i == 0 || i == 1 || i == 2 || i == 3;
  }

  lemma BlocksApart(i: nat, j: nat, block: nat)
    requires i < j
    ensures i * block + block <= j * block
  {
    Lines(j - i, block);
    assert j * block == i * block + (j - i) * block;
  }

  class VirtualScreens {
    const screen: Screen
    const area: array<Byte>
    const histRows: nat
    const buffers: seq<VirtualBuffer>
    const grids: seq<Grid>
    var active: nat

    /** The buffers use the same screen and different blocks of the same area. */
    ghost predicate Placed()
    {
      && |buffers| == |grids| == VBUF_COUNT
      && (forall i :: 0 <= i < VBUF_COUNT ==> buffers[i].grid == grids[i] && InPlace(buffers[i], i))
      && (forall i, j :: 0 <= i < j < VBUF_COUNT ==> buffers[i] != buffers[j] && grids[i] != grids[j])
    }

    ghost predicate InPlace(b: VirtualBuffer, i: nat)
    {
      && b.screen == screen && b.grid.area == area
      && b.grid.cols == screen.width / GLYPH_WIDTH && b.grid.size == histRows
      && b.grid.start == i * (histRows * (screen.width / GLYPH_WIDTH))
    }

    ghost predicate Valid()
      reads this, buffers, grids, screen, area
    {
      Placed() && active < VBUF_COUNT && FirstValid(VBUF_COUNT)
    }

    ghost predicate FirstValid(n: nat)
      requires n <= |buffers|
      reads buffers, grids, screen, area
      requires Placed()
    {
      n == 0 || (FirstValid(n - 1) && buffers[n - 1].Valid())
    }

    lemma {:induction false} EachValid(n: nat, i: nat)
      requires Placed() && i < n <= VBUF_COUNT && FirstValid(n)
      ensures buffers[i].Valid()
    {
      if i < n - 1 { EachValid(n - 1, i); }
    }

    lemma {:induction false} AllValid(n: nat)
      requires Placed() && n <= VBUF_COUNT && forall i :: 0 <= i < n ==> buffers[i].Valid()
      ensures FirstValid(n)
    {
      if n > 0 { AllValid(n - 1); }
    }

    ghost function Terms(): (terms: seq<Terminal>)
      requires |buffers| == VBUF_COUNT
      reads buffers
      ensures |terms| == VBUF_COUNT && forall i :: 0 <= i < VBUF_COUNT ==> terms[i] == buffers[i].term
    {
      [buffers[0].term, buffers[1].term, buffers[2].term, buffers[3].term]
    }

    ghost function State(): (desk: Desk)
      requires Valid()
      reads this, buffers, grids, screen, area
      ensures desk.Ok()
    {
      EachValid(VBUF_COUNT, 0);
      EachValid(VBUF_COUNT, 1);
      EachValid(VBUF_COUNT, 2);
      EachValid(VBUF_COUNT, 3);
      Desk(Terms(), active)
    }

    /** The screen shows what a full redraw of the active buffer would. */
    ghost predicate Drawn()
      reads this, buffers, grids, screen, screen.pixels, area
    {
      Valid() && buffers[active].Shows(buffers[active].term)
    }

    /** Nothing a buffer's validity depends on has changed. */
    twostate predicate Kept(b: VirtualBuffer)
      reads b, b.grid, b.grid.area
    {
      && b.base == old(b.base) && b.count == old(b.count) && b.viewOffset == old(b.viewOffset)
      && b.curX == old(b.curX) && b.curY == old(b.curY) && b.term == old(b.term)
      && b.grid.ring == old(b.grid.ring)
      && forall j :: b.grid.start <= j < b.grid.start + b.grid.size * b.grid.cols <= b.grid.area.Length ==>
           b.grid.area[j] == old(b.grid.area[j])
    }

    /** Writing inside one block leaves the other buffers as they were. */
    twostate lemma OthersUntouched(i: nat)
      requires Placed() && i < VBUF_COUNT && old(FirstValid(VBUF_COUNT)) && buffers[i].Valid()
      requires buffers[i].grid.Elsewhere(old(area[..]))
      requires forall j :: 0 <= j < VBUF_COUNT && j != i ==>
                 unchanged(buffers[j]) && buffers[j].grid.ring == old(buffers[j].grid.ring)
      ensures FirstValid(VBUF_COUNT)
      ensures Terms() == old(Terms())[i := buffers[i].term]
    {
      forall j | 0 <= j < VBUF_COUNT && j != i
        ensures Kept(buffers[j])
      {
        assert InPlace(buffers[i], i) && InPlace(buffers[j], j);
        if i < j {
          BlocksApart(i, j, histRows * (screen.width / GLYPH_WIDTH));
        } else {
          BlocksApart(j, i, histRows * (screen.width / GLYPH_WIDTH));
        }
      }
      FirstKept(VBUF_COUNT);
    }

    twostate lemma FirstKept(n: nat)
      requires n <= VBUF_COUNT && Placed() && old(FirstValid(n))
      requires forall j :: 0 <= j < n ==> Kept(buffers[j]) || buffers[j].Valid()
      ensures FirstValid(n)
    {
      if n > 0 {
        FirstKept(n - 1);
        if Kept(buffers[n - 1]) { buffers[n - 1].grid.Untouched(); }
      }
    }

    /** initialize_virtual_buffers: nothing is drawn yet. */
    constructor (screen: Screen, area: array<Byte>, histRows: nat)
      requires screen.Valid() && Console.BlankGlyph(screen.font)
      requires screen.width >= GLYPH_WIDTH && screen.height >= GLYPH_HEIGHT
      requires EffectiveHistRows(screen.height, histRows) <= MAX_HIST_ROWS
      requires ContentBytes(screen.width, screen.height, histRows) <= area.Length
      modifies area
      ensures Valid() && this.screen == screen && this.area == area
      ensures forall i :: 0 <= i < VBUF_COUNT ==> fresh(buffers[i]) && fresh(grids[i])
      ensures this.histRows == EffectiveHistRows(screen.height, histRows) && active == 0
      ensures forall i :: 0 <= i < VBUF_COUNT ==> buffers[i].term == FreshTerm()
    {
      var n := EffectiveHistRows(screen.height, histRows);
      var made, blocks := MakeBuffers(screen, area, screen.width / GLYPH_WIDTH, n);
      this.screen, this.area, this.histRows, buffers, grids, active := screen, area, n, made, blocks, 0;
      new;
      AllValid(VBUF_COUNT);
    }

    /** A terminal of the size of the screen, before any output. */
    ghost function FreshTerm(): Terminal
      reads this
    {
      Console.Fresh(screen.width / GLYPH_WIDTH, screen.height / GLYPH_HEIGHT, histRows)
    }

    /** The first drawing, after initialization: clear_screen and draw_cursor. */
    method Start()
      requires Valid() && active == 0 && buffers[0].term == FreshTerm()
      modifies screen.pixels
      ensures Drawn() && State() == old(State())
    {
      var b := buffers[active];
      EachValid(VBUF_COUNT, active);
      assert InPlace(b, active);
      screen.Fill(0, 0, screen.width, screen.height, BLACK);
      assert b.ShowsText(b.term);
      b.DrawCursor();
    }

    /** write_char on any buffer */
    method WriteChar(i: nat, c: Byte)
      requires Drawn() && i < VBUF_COUNT
      modifies buffers, grids, screen.pixels, area
      ensures Drawn() && State() == Obey(old(State()), Output(i, c))
    {
      var b := buffers[i];
      EachValid(VBUF_COUNT, i);
      assert InPlace(b, i);
      b.WriteChar(c, i == active);
      OthersUntouched(i);
      if i != active { buffers[active].StillShows(); }
    }

    /** os_vbuf_scroll */
    method ScrollActive(delta: int)
      requires Drawn()
      modifies buffers, screen.pixels
      ensures Drawn() && State() == Obey(old(State()), Scroll(delta))
    {
      var b := buffers[active];
      EachValid(VBUF_COUNT, active);
      assert InPlace(b, active);
      b.ScrollBy(delta);
      OthersUntouched(active);
    }

    /** os_vbuf_scroll_to_bottom */
    method ScrollToBottom() returns (moved: bool)
      requires Drawn()
      modifies buffers, screen.pixels
      ensures Drawn() && Terms() == old(Terms())[active := old(buffers[active].term).(offset := 0)]
      ensures moved <==> old(buffers[active].term.offset) != 0
    {
      var b := buffers[active];
      EachValid(VBUF_COUNT, active);
      assert InPlace(b, active);
      moved := b.ScrollToBottom();
      OthersUntouched(active);
    }

    /** switch_active_frame_buffer */
    method SwitchTo(index: nat)
      requires Drawn()
      modifies this`active, screen.pixels
      ensures Drawn() && Terms() == old(Terms()) && active == if index < VBUF_COUNT then index else old(active)
    {
      if index >= VBUF_COUNT || index == active { return; }
      active := index;
      EachValid(VBUF_COUNT, index);
      assert InPlace(buffers[index], index);
      buffers[index].Render();
    }

    method Perform(command: Command)
      requires Drawn() && Possible(command)
      modifies this`active, buffers, grids, screen.pixels, area
      ensures Drawn() && State() == Obey(old(State()), command)
    {
      match command
      case Output(i, c) => WriteChar(i, c);
      case Scroll(delta) => ScrollActive(delta);
      case Bottom => var moved := ScrollToBottom();
      case Switch(index) => SwitchTo(index);
    }

    /** Any run keeps the screen equal to a full redraw of the terminal in view. */
    method Run(commands: seq<Command>)
      requires Drawn() && forall k :: 0 <= k < |commands| ==> Possible(commands[k])
      modifies this`active, buffers, grids, screen.pixels, area
      ensures Drawn() && State() == ObeyAll(old(State()), commands)
      decreases |commands|
    {
      if commands != [] {
        Run(commands[..|commands| - 1]);
        Perform(commands[|commands| - 1]);
      }
    }
  }

  /** The grid of block n; the buffers of the blocks before it stay as they are. */
  method NextGrid(area: array<Byte>, n: nat, block: nat, cols: nat, histRows: nat, ghost made: seq<VirtualBuffer>,
                  ghost grids: seq<Grid>)
    returns (grid: Grid)
    requires 1 <= cols && 1 <= histRows && |made| == |grids| == n
    requires block == histRows * cols && n * block + block <= area.Length
    requires forall i :: 0 <= i < n ==>
               && made[i].grid == grids[i] && made[i].Valid() && grids[i].area == area
               && grids[i].cols == cols && grids[i].size == histRows && grids[i].start == i * block
    modifies area
    ensures fresh(grid) && grid.Valid() && grid.ring == seq(histRows, _ => Console.Blank(cols))
    ensures grid.area == area && grid.start == n * block && grid.cols == cols && grid.size == histRows
    ensures forall i :: 0 <= i < n ==> made[i].Valid()
  {
    label before:
    grid := new Grid(area, n * block, cols, histRows);
    forall i | 0 <= i < n ensures made[i].Valid() {
      BlocksApart(i, n, block);
      grids[i].Untouched@before();
    }
  }

  method MakeBuffers(screen: Screen, area: array<Byte>, cols: nat, histRows: nat)
    returns (made: seq<VirtualBuffer>, grids: seq<Grid>)
    requires screen.Valid() && Console.BlankGlyph(screen.font)
    requires 1 <= cols == screen.width / GLYPH_WIDTH && 1 <= screen.height / GLYPH_HEIGHT <= histRows <= MAX_HIST_ROWS
    requires VBUF_COUNT * (histRows * cols) <= area.Length
    modifies area
    ensures |made| == |grids| == VBUF_COUNT
    ensures forall i :: 0 <= i < VBUF_COUNT ==>
              && fresh(made[i]) && fresh(grids[i]) && made[i].grid == grids[i] && made[i].screen == screen
                 && grids[i].area == area
              && grids[i].cols == cols && grids[i].size == histRows && grids[i].start == i * (histRows * cols)
              && made[i].Valid() && made[i].term == Console.Fresh(cols, screen.height / GLYPH_HEIGHT, histRows)
    ensures forall i, j :: 0 <= i < j < VBUF_COUNT ==> made[i] != made[j] && grids[i] != grids[j]
  {
    made, grids := [], [];
    for n := 0 to VBUF_COUNT
      invariant |made| == |grids| == n
      invariant forall i :: 0 <= i < n ==>
                  && fresh(made[i]) && fresh(grids[i]) && made[i].grid == grids[i] && made[i].screen == screen
                     && grids[i].area == area
                  && grids[i].cols == cols && grids[i].size == histRows && grids[i].start == i * (histRows * cols)
                  && made[i].Valid() && made[i].term == Console.Fresh(cols, screen.height / GLYPH_HEIGHT, histRows)
      invariant forall i, j :: 0 <= i < j < n ==> made[i] != made[j] && grids[i] != grids[j]
    {
      BlocksFit(n, histRows * cols);
      var grid := NextGrid(area, n, histRows * cols, cols, histRows, made, grids);
      var b := new VirtualBuffer(screen, grid);
      made, grids := made + [b], grids + [grid];
    }
  }
}
