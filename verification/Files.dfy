/** What a 9P file stream means without any buffering: a file, a position in it, and the answers
    to reads, previews, writes and repositioning (src/c/stream.c, src/c/stream_lisp.c). */
module Files {
  type Byte = x: int | 0 <= x < 256

  const WRITE_BUF: nat := 512

  function Zeros(n: nat): (s: seq<Byte>)
    ensures |s| == n
  {
    seq(n, _ => 0)
  }

  /** The file after one byte is written; a gap in front of it reads as zeros. */
  function PutByte(file: seq<Byte>, offset: nat, b: Byte): (after: seq<Byte>)
    ensures |after| == if |file| <= offset then offset + 1 else |file|
    ensures forall i :: 0 <= i < |after| ==> after[i] == if i == offset then b else if i < |file| then file[i] else 0
  {
    if offset < |file| then file[offset := b] else file + Zeros(offset - |file|) + [b]
  }

  function Overlay(file: seq<Byte>, offset: nat, data: seq<Byte>): (after: seq<Byte>)
    ensures data == [] ==> after == file
    ensures data != [] ==> |after| == if |file| < offset + |data| then offset + |data| else |file|
    ensures forall i :: 0 <= i < |after| ==>
              after[i] == if offset <= i < offset + |data| then data[i - offset] else if i < |file| then file[i] else 0
  {
    if data == [] then file
    else PutByte(Overlay(file, offset, data[..|data| - 1]), offset + |data| - 1, data[|data| - 1])
  }

  lemma {:induction false} OverlayMore(file: seq<Byte>, offset: nat, data: seq<Byte>, more: seq<Byte>)
    ensures Overlay(file, offset, data + more) == Overlay(Overlay(file, offset, data), offset + |data|, more)
  {
    if more == [] {
      assert data + more == data;
    } else {
      assert (data + more)[..|data + more| - 1] == data + more[..|more| - 1];
      OverlayMore(file, offset, data, more[..|more| - 1]);
    }
  }

  lemma OverlayOne(file: seq<Byte>, offset: nat, b: Byte)
    ensures Overlay(file, offset, [b]) == PutByte(file, offset, b)
  {
    assert [b][..0] == [];
  }

  lemma OverlayFirst(file: seq<Byte>, offset: nat, data: seq<Byte>)
    requires data != []
    ensures Overlay(PutByte(file, offset, data[0]), offset + 1, data[1..]) == Overlay(file, offset, data)
  {
    OverlayOne(file, offset, data[0]);
    OverlayMore(file, offset, [data[0]], data[1..]);
    assert [data[0]] + data[1..] == data;
  }

  // ---------------------------------------------------------------- one stream

  /** peeked: the byte at pos has been previewed and not yet read. pending: bytes accepted since the
      last transfer to the server; they already count as part of content. */
  datatype View =
    | Reader(file: seq<Byte>, pos: nat, peeked: bool, atEnd: bool, closed: bool)
    | Writer(content: seq<Byte>, pos: nat, pending: nat, closed: bool)
  {
    ghost predicate Ok() {
      match this
      case Reader(file, pos, peeked, atEnd, closed) => (peeked ==> pos < |file|) && (atEnd ==> |file| <= pos)
      case Writer(content, pos, pending, closed) =>
        pending < WRITE_BUF && pending <= pos && (pending > 0 ==> pos <= |content|)
    }
  }

  datatype Request = Read | Preview | Write(b: Byte) | Finish | Close | Position | SetPosition(z: int)
  datatype Answer = Got(b: Byte) | At(n: nat) | Yes | No

  function Magnitude(z: int): nat { if z < 0 then -z else z }

  /** Moving a writer while bytes are pending is not described here: see Streams.MovedBytes. */
  ghost predicate Legal(view: View, request: Request) {
    view.Writer? && request.SetPosition? ==> view.pending == 0
  }

  function Obey(view: View, request: Request): (after: (View, Answer))
    requires view.Ok() && Legal(view, request)
    ensures after.0.Ok() && after.0.Reader? == view.Reader?
    ensures view.Reader? ==> after.0.file == view.file
  {
    match view
    case Reader(file, pos, peeked, atEnd, closed) =>
      (match request
       case Read =>
         if closed || atEnd then (view, No)
         else if pos < |file| then (view.(pos := pos + 1, peeked := false), Got(file[pos]))
         else (view.(atEnd := true), No)
       case Preview =>
         if peeked then (view, Got(file[pos]))
         else if closed || atEnd then (view, No)
         else if pos < |file| then (view.(peeked := true), Got(file[pos]))
         else (view.(atEnd := true), No)
       case Write(_) => (view, No)
       case Finish => (view, Yes)
       case Close => (Reader(file, pos, peeked, atEnd, true), Yes)
       case Position => (view, At(pos))
       case SetPosition(z) => (view.(pos := Magnitude(z), peeked := false, atEnd := false), Yes))
    case Writer(content, pos, pending, closed) =>
      match request
      case Read => (view, No)
      case Preview => (view, No)
      case Write(b) =>
        if closed then (view, No)
        else (Writer(PutByte(content, pos, b), pos + 1, (pending + 1) % WRITE_BUF, closed), Yes)
      case Finish => (view.(pending := 0), Yes)
      case Close => (view.(pending := 0, closed := true), Yes)
      case Position => (view, At(pos))
      case SetPosition(z) => (Writer(content, Magnitude(z), pending, closed), Yes)
  }

  ghost predicate AllLegal(view: View, requests: seq<Request>)
    requires view.Ok()
    decreases |requests|
  {
    requests == [] || (Legal(view, requests[0]) && AllLegal(Obey(view, requests[0]).0, requests[1..]))
  }

  function ObeyAll(view: View, requests: seq<Request>): (after: (View, seq<Answer>))
    requires view.Ok() && AllLegal(view, requests)
    ensures after.0.Ok() && |after.1| == |requests|
    decreases |requests|
  {
    if requests == [] then (view, [])
    else
      var first := Obey(view, requests[0]);
      var rest := ObeyAll(first.0, requests[1..]);
      (rest.0, [first.1] + rest.1)
  }

  // ---------------------------------------------------------------- what a whole file gives

  function Bytes(s: seq<Byte>): (gots: seq<Answer>)
    ensures |gots| == |s| && forall i :: 0 <= i < |s| ==> gots[i] == Got(s[i])
  {
    seq(|s|, i requires 0 <= i < |s| => Got(s[i]))
  }

  function Writes(s: seq<Byte>): (requests: seq<Request>)
    ensures |requests| == |s| && forall i :: 0 <= i < |s| ==> requests[i] == Write(s[i])
  {
    seq(|s|, i requires 0 <= i < |s| => Write(s[i]))
  }

  function Reads(n: nat): (requests: seq<Request>)
    ensures |requests| == n && forall i :: 0 <= i < n ==> requests[i] == Read
  {
    seq(n, _ => Read)
  }

  /** Reads from a position give the rest of the file in order, then the end. */
  lemma {:induction false} ReadsInOrder(view: View, n: nat)
    requires view.Ok() && view.Reader? && !view.closed && !view.atEnd && view.pos + n <= |view.file|
    ensures AllLegal(view, Reads(n))
    ensures ObeyAll(view, Reads(n)).1 == Bytes(view.file[view.pos..view.pos + n])
    ensures n > 0 ==> ObeyAll(view, Reads(n)).0 == view.(pos := view.pos + n, peeked := false)
    ensures view.pos + n == |view.file| ==> Obey(ObeyAll(view, Reads(n)).0, Read).1 == No
    decreases n
  {
    if n > 0 {
      var next := Obey(view, Read).0;
      assert Reads(n)[1..] == Reads(n - 1);
      ReadsInOrder(next, n - 1);
      assert view.file[view.pos..view.pos + n] == [view.file[view.pos]] + view.file[view.pos + 1..view.pos + n];
    }
  }

  function Accepted(n: nat): (answers: seq<Answer>)
    ensures |answers| == n && forall i :: 0 <= i < n ==> answers[i] == Yes
  {
    seq(n, _ => Yes)
  }

  function AfterWrites(view: View, s: seq<Byte>): View
    requires view.Ok() && view.Writer?
  {
    Writer(Overlay(view.content, view.pos, s), view.pos + |s|, (view.pending + |s|) % WRITE_BUF, view.closed)
  }

  lemma AfterFirst(view: View, s: seq<Byte>)
    requires view.Ok() && view.Writer? && !view.closed && s != []
    ensures AfterWrites(Obey(view, Write(s[0])).0, s[1..]) == AfterWrites(view, s)
  {
    OverlayFirst(view.content, view.pos, s);
    PendingFirst(view.pending, |s|);
    assert Obey(view, Write(s[0])).0
           == Writer(PutByte(view.content, view.pos, s[0]), view.pos + 1, (view.pending + 1) % WRITE_BUF, false);
  }

  lemma PendingFirst(pending: nat, n: nat)
    requires n > 0
    ensures ((pending + 1) % WRITE_BUF + (n - 1)) % WRITE_BUF == (pending + n) % WRITE_BUF
  {
  }

  /** Bytes written one after another are the file's bytes from there on. */
  lemma {:induction false} WritesInOrder(view: View, s: seq<Byte>)
    requires view.Ok() && view.Writer? && !view.closed
    ensures AllLegal(view, Writes(s))
    ensures ObeyAll(view, Writes(s)) == (AfterWrites(view, s), Accepted(|s|))
    decreases |s|
  {
    if s != [] {
      assert Writes(s)[1..] == Writes(s[1..]);
      AfterFirst(view, s);
      WritesInOrder(Obey(view, Write(s[0])).0, s[1..]);
      assert Accepted(|s|) == [Yes] + Accepted(|s| - 1);
    }
  }

  /** A file written byte by byte and closed reads back as those bytes. */
  lemma WrittenReadsBack(s: seq<Byte>)
    ensures AllLegal(Writer([], 0, 0, false), Writes(s))
    ensures var after := ObeyAll(Writer([], 0, 0, false), Writes(s)).0;
            && Obey(after, Close).0 == Writer(s, |s|, 0, true)
            && AllLegal(Reader(after.content, 0, false, false, false), Reads(|s|))
            && ObeyAll(Reader(after.content, 0, false, false, false), Reads(|s|)).1 == Bytes(s)
  {
    WritesInOrder(Writer([], 0, 0, false), s);
    assert Overlay([], 0, s) == s;
    assert s[0..|s|] == s;
    ReadsInOrder(Reader(s, 0, false, false, false), |s|);
  }

  /** A preview gives what the next read gives, and changes nothing else. */
  lemma PreviewReadsAhead(view: View)
    requires view.Ok() && view.Reader? && !view.closed
    ensures var (after, answer) := Obey(view, Preview);
            && answer == Obey(view, Read).1 && Obey(after, Read) == Obey(view, Read)
            && Obey(after, Position).1 == Obey(view, Position).1
  {
  }

  /** After a move the position is where the move went, and what is read is the file from there on. */
  lemma MovedReads(view: View, z: int, n: nat)
    requires view.Ok() && view.Reader? && !view.closed && Magnitude(z) + n <= |view.file|
    ensures var after := Obey(view, SetPosition(z)).0;
            && Obey(after, Position).1 == At(if z < 0 then -z else z)
            && AllLegal(after, Reads(n))
            && ObeyAll(after, Reads(n)).1 == Bytes(view.file[Magnitude(z)..Magnitude(z) + n])
            && Obey(ObeyAll(after, Reads(n)).0, Position).1 == At(Magnitude(z) + n)
  {
    ReadsInOrder(Obey(view, SetPosition(z)).0, n);
  }

  // ---------------------------------------------------------------- several streams at once

  datatype Order = Order(stream: nat, request: Request)

  ghost predicate AllOk(views: seq<View>) { forall i :: 0 <= i < |views| ==> views[i].Ok() }

  ghost predicate Orderly(views: seq<View>, orders: seq<Order>)
    requires AllOk(views)
    decreases |orders|
  {
    orders == [] || (
      && orders[0].stream < |views| && Legal(views[orders[0].stream], orders[0].request)
      && Orderly(views[orders[0].stream := Obey(views[orders[0].stream], orders[0].request).0], orders[1..]))
  }

  /** Each stream has a position and a file of its own. */
  ghost function Interleave(views: seq<View>, orders: seq<Order>): (after: (seq<View>, seq<Answer>))
    requires AllOk(views) && Orderly(views, orders)
    ensures AllOk(after.0) && |after.0| == |views| && |after.1| == |orders|
    decreases |orders|
  {
    if orders == [] then (views, [])
    else
      var first := Obey(views[orders[0].stream], orders[0].request);
      var rest := Interleave(views[orders[0].stream := first.0], orders[1..]);
      (rest.0, [first.1] + rest.1)
  }

  function RequestsTo(i: nat, orders: seq<Order>): seq<Request> {
    if orders == [] then []
    else (if orders[0].stream == i then [orders[0].request] else []) + RequestsTo(i, orders[1..])
  }

  function AnswersTo(i: nat, orders: seq<Order>, answers: seq<Answer>): seq<Answer>
    requires |orders| == |answers|
  {
    if orders == [] then []
    else (if orders[0].stream == i then [answers[0]] else []) + AnswersTo(i, orders[1..], answers[1..])
  }

  /** However the streams are interleaved, each behaves as if it were alone. */
  lemma {:induction false} StreamsAreIndependent(views: seq<View>, orders: seq<Order>, i: nat)
    requires AllOk(views) && Orderly(views, orders) && i < |views|
    ensures AllLegal(views[i], RequestsTo(i, orders))
    ensures var after := Interleave(views, orders);
            (after.0[i], AnswersTo(i, orders, after.1)) == ObeyAll(views[i], RequestsTo(i, orders))
    decreases |orders|
  {
    if orders != [] {
      var first := Obey(views[orders[0].stream], orders[0].request);
      var next := views[orders[0].stream := first.0];
      StreamsAreIndependent(next, orders[1..], i);
      var rest := Interleave(next, orders[1..]);
      assert ([first.1] + rest.1)[1..] == rest.1;
      if orders[0].stream == i {
        assert RequestsTo(i, orders) == [orders[0].request] + RequestsTo(i, orders[1..]);
        assert RequestsTo(i, orders)[1..] == RequestsTo(i, orders[1..]);
      } else {
        assert RequestsTo(i, orders) == RequestsTo(i, orders[1..]);
        assert AnswersTo(i, orders, [first.1] + rest.1) == AnswersTo(i, orders[1..], rest.1);
      }
    }
  }
}
