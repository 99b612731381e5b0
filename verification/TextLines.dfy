/** What output leaves on a terminal, told from the text alone: its lines. */
module TextLines {
  import opened Display
  import opened Console
  import Screens

  type Line = seq<Byte>

  // ---------------------------------------------------------------- the lines of a text

  /** The lines that are over, and the unfinished one behind them. */
  datatype Cut = Cut(over: seq<Line>, last: Line)

  /** The text from position `i` on, behind `head`, cut at each newline and whenever a line has `cols`
      characters. */
  function Lines(head: Line, text: seq<Byte>, i: nat, cols: nat): (cut: Cut)
    requires |head| < cols && i <= |text|
    ensures |cut.last| < cols && forall k :: 0 <= k < |cut.over| ==> |cut.over[k]| <= cols
    decreases |text| - i
  {
    if i == |text| then Cut([], head)
    else if text[i] == NEWLINE then Behind(head, Lines([], text, i + 1, cols))
    else
      var line := head + [text[i]];
      if |line| == cols then Behind(line, Lines([], text, i + 1, cols)) else Lines(line, text, i + 1, cols)
  }

  function Behind(line: Line, cut: Cut): Cut { cut.(over := [line] + cut.over) }

  /** Nothing is lost or added: the lines one after another are the text without its newlines. */
  function Joined(lines: seq<Line>): seq<Byte> { if lines == [] then [] else lines[0] + Joined(lines[1..]) }

  function Printed(text: seq<Byte>, i: nat): seq<Byte>
    requires i <= |text|
    decreases |text| - i
  {
    if i == |text| then [] else (if text[i] == NEWLINE then [] else [text[i]]) + Printed(text, i + 1)
  }

  lemma {:induction false} LinesJoin(head: Line, text: seq<Byte>, i: nat, cols: nat)
    requires |head| < cols && i <= |text|
    ensures var cut := Lines(head, text, i, cols); Joined(cut.over) + cut.last == head + Printed(text, i)
    decreases |text| - i
  {
    if i == |text| {
      assert [] + head == head + [];
    } else if text[i] == NEWLINE {
      LinesJoin([], text, i + 1, cols);
      JoinBehind(head, Lines([], text, i + 1, cols), Printed(text, i + 1));
      assert [] + Printed(text, i + 1) == Printed(text, i + 1);
    } else {
      var line := head + [text[i]];
      LinesJoin(if |line| == cols then [] else line, text, i + 1, cols);
      if |line| == cols { JoinBehind(line, Lines([], text, i + 1, cols), Printed(text, i + 1)); }
      Associative(head, [text[i]], Printed(text, i + 1));
    }
  }

  lemma Associative(a: seq<Byte>, b: seq<Byte>, c: seq<Byte>)
    ensures (a + b) + c == a + (b + c)
  {
  }

  lemma JoinBehind(line: Line, cut: Cut, printed: seq<Byte>)
    requires Joined(cut.over) + cut.last == [] + printed
    ensures Joined(Behind(line, cut).over) + cut.last == line + printed
  {
    assert ([line] + cut.over)[1..] == cut.over;
    assert (line + Joined(cut.over)) + cut.last == line + (Joined(cut.over) + cut.last);
  }

  /** One more character: it ends the last line, goes to its end, or fills it. */
  function Extended(cut: Cut, c: Byte, cols: nat): Cut {
    if c == NEWLINE then Cut(cut.over + [cut.last], [])
    else if |cut.last| + 1 == cols then Cut(cut.over + [cut.last + [c]], [])
    else cut.(last := cut.last + [c])
  }

  lemma {:induction false} LinesMore(head: Line, text: seq<Byte>, c: Byte, i: nat, cols: nat)
    requires |head| < cols && i <= |text|
    ensures Lines(head, text + [c], i, cols) == Extended(Lines(head, text, i, cols), c, cols)
    decreases |text| - i
  {
    if i == |text| {
      assert Lines([], text + [c], i + 1, cols) == Cut([], []);
      assert forall line: Line :: [] + [line] == [line] + [];
    } else {
      var line := head + if text[i] == NEWLINE then [] else [text[i]];
      var ends := text[i] == NEWLINE || |line| == cols;
      LinesMore(if ends then [] else line, text, c, i + 1, cols);
      if ends { ExtendedBehind(line, Lines([], text, i + 1, cols), c, cols); }
      assert head + [] == head;
    }
  }

  lemma ExtendedBehind(line: Line, cut: Cut, c: Byte, cols: nat)
    ensures Extended(Behind(line, cut), c, cols) == Behind(line, Extended(cut, c, cols))
  {
    assert ([line] + cut.over) + [cut.last] == [line] + (cut.over + [cut.last]);
    assert ([line] + cut.over) + [cut.last + [c]] == [line] + (cut.over + [cut.last + [c]]);
  }

  // ---------------------------------------------------------------- what a terminal shows

  function Pad(line: Line, cols: nat): (row: Row)
    requires |line| <= cols
    ensures |row| == cols
  {
    line + seq(cols - |line|, _ => 0)
  }

  /** The row of the log the cursor is in. */
  function CursorRow(t: Terminal): int { |t.log| - t.rows + t.y }

  /** What is written in the cursor's row already. */
  function Begun(t: Terminal): (head: Line)
    requires t.Ok()
    ensures |head| == t.x
  {
    t.log[CursorRow(t)][..t.x]
  }

  function Padded(lines: seq<Line>, cols: nat): (rows: seq<Row>)
    requires forall i :: 0 <= i < |lines| ==> |lines[i]| <= cols
    ensures |rows| == |lines| && forall i :: 0 <= i < |lines| ==> rows[i] == Pad(lines[i], cols)
  {
    seq(|lines|, i requires 0 <= i < |lines| => Pad(lines[i], cols))
  }

  function Blanks(cols: nat, n: int): seq<Row> { seq(if n < 0 then 0 else n, _ => Blank(cols)) }

  ghost predicate Narrow(cut: Cut, cols: nat) {
    |cut.last| <= cols && forall k :: 0 <= k < |cut.over| ==> |cut.over[k]| <= cols
  }

  /** The terminal with these lines in place of the cursor's row and what is below it, and the cursor
      behind the last one. Rows are added only when the lines do not fit on the screen. */
  ghost function Laid(t: Terminal, cut: Cut): Terminal
    requires 1 <= t.rows <= |t.log| && t.y < t.rows && Narrow(cut, t.cols)
    requires CursorRow(t) + |cut.over| + 1 + t.rows >= |t.log|
  {
    var at := CursorRow(t);
    var below := Blanks(t.cols, |t.log| - at - |cut.over| - 1);
    var log := t.log[..at] + Padded(cut.over, t.cols) + [Pad(cut.last, t.cols)] + below;
    var kept := t.kept + (|log| - |t.log|);
    t.(log := log, kept := if kept > t.capacity then t.capacity else kept,
       x := |cut.last|, y := t.rows - 1 - |below|, offset := 0)
  }

  /** A newline, typed or because a line is full, begins a line. */
  lemma NewlineLays(t: Terminal, cut: Cut)
    requires t.Ok() && Narrow(cut, t.cols)
    ensures Laid(t, cut).Newline() == Laid(t, Cut(cut.over + [cut.last], []))
  {
    var u, v := Laid(t, cut), Laid(t, Cut(cut.over + [cut.last], []));
    assert Pad([], t.cols) == Blank(t.cols);
    assert Padded(cut.over + [cut.last], t.cols) == Padded(cut.over, t.cols) + [Pad(cut.last, t.cols)];
    assert u.Newline().log == v.log;
  }

  lemma PutLays(t: Terminal, cut: Cut, c: Byte)
    requires t.Ok() && Narrow(cut, t.cols) && |cut.last| < t.cols && Laid(t, cut).Ok()
    ensures Laid(t, cut).Put(c) == Laid(t, cut.(last := cut.last + [c]))
  {
    var u, v := Laid(t, cut), Laid(t, cut.(last := cut.last + [c]));
    assert Pad(cut.last, t.cols)[|cut.last| := c] == Pad(cut.last + [c], t.cols);
    assert u.Put(c).log == v.log;
  }

  lemma WriteLays(t: Terminal, cut: Cut, c: Byte)
    requires t.Ok() && Narrow(cut, t.cols) && |cut.last| < t.cols && Laid(t, cut).Ok()
    ensures Narrow(Extended(cut, c, t.cols), t.cols)
    ensures Laid(t, cut).Write(c) == Laid(t, Extended(cut, c, t.cols))
  {
    if c == NEWLINE {
      NewlineLays(t, cut);
    } else {
      PutLays(t, cut, c);
      NewlineLays(t, cut.(last := cut.last + [c]));
    }
  }

  lemma NothingLays(t: Terminal)
    requires t.Ok()
    ensures Laid(t, Cut([], Begun(t))) == t.(offset := 0)
  {
    assert t.log[CursorRow(t)] == Pad(Begun(t), t.cols);
    assert Laid(t, Cut([], Begun(t))).log == t.log;
  }

  /** Main result: the rows from the cursor's on are the lines of the text, the first one behind what
      was there, each padded with zeros, and the cursor stands behind the last, unfinished line. */
  lemma {:induction false} TextIsItsLines(t: Terminal, text: seq<Byte>)
    requires t.Ok()
    ensures Screens.WriteAll(t, text).(offset := 0) == Laid(t, Lines(Begun(t), text, 0, t.cols))
    ensures text != [] ==> Screens.WriteAll(t, text).offset == 0
    decreases |text|
  {
    if text == [] {
      NothingLays(t);
    } else {
      var front, c := text[..|text| - 1], text[|text| - 1];
      TextIsItsLines(t, front);
      OneMoreCharacter(t, front, c, text);
    }
  }

  lemma OneMoreCharacter(t: Terminal, front: seq<Byte>, c: Byte, text: seq<Byte>)
    requires t.Ok() && Screens.WriteAll(t, front).(offset := 0) == Laid(t, Lines(Begun(t), front, 0, t.cols))
    requires text == front + [c]
    ensures Screens.WriteAll(t, text) == Laid(t, Lines(Begun(t), text, 0, t.cols))
    ensures Screens.WriteAll(t, text).offset == 0
  {
    var u := Screens.WriteAll(t, front);
    assert text[..|text| - 1] == front;
    u.WriteSnaps(c);
    LinesMore(Begun(t), front, c, 0, t.cols);
    WriteLays(t, Lines(Begun(t), front, 0, t.cols), c);
  }

  /** After any run each buffer shows the lines of what was written to it. */
  lemma EachBufferShowsItsLines(desk: Screens.Desk, commands: seq<Screens.Command>, i: nat)
    requires desk.Ok() && i < Screens.VBUF_COUNT && forall k :: 0 <= k < |commands| ==> Screens.Possible(commands[k])
    ensures var t := desk.terms[i];
            Screens.ObeyAll(desk, commands).terms[i].(offset := 0)
            == Laid(t, Lines(Begun(t), Screens.Written(i, commands), 0, t.cols))
  {
    Screens.BuffersAreIndependent(desk, commands, i);
    TextIsItsLines(desk.terms[i], Screens.Written(i, commands));
  }
}
