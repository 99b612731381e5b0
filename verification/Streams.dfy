/** The buffered 9P file streams of src/c/stream.c over the one receive buffer of src/c/virtio9p.c. */
module Streams {
  import opened Files

  const MSIZE: nat := 8192
  const READ_CHUNK: nat := 1024
  const RREAD_DATA: nat := 11

  datatype Kind = FileRead | FileWrite

  // ---------------------------------------------------------------- the server's side

  /** The session with the server. Every exchange overwrites rx. steady: the server answers every
      request and takes every byte of a write. */
  class Session {
    const rx: array<Byte>
    var files: map<nat, seq<Byte>>
    const steady: bool

    ghost predicate Valid() { rx.Length == MSIZE }

    constructor (files: map<nat, seq<Byte>>, steady: bool)
      ensures Valid() && fresh(rx) && this.files == files && this.steady == steady
    {
      rx := new Byte[MSIZE];
      this.files, this.steady := files, steady;
    }

    /** os_virtio9p_read_chunk: any non-empty part of what was asked for, nothing only at the end. */
    method ReadChunk(fid: nat, offset: nat, want: nat) returns (ok: bool, count: nat)
      requires Valid() && fid in files && 0 < want <= MSIZE - 64
      modifies rx
      ensures steady ==> ok
      ensures ok ==> count <= want && (count == 0 <==> |files[fid]| <= offset)
      ensures ok && count > 0 ==> offset + count <= |files[fid]|
      ensures ok && count > 0 ==> rx[RREAD_DATA..RREAD_DATA + count] == files[fid][offset..offset + count]
    {
      count := 0;
      ok := *;
      ok := ok || steady;
      var file := files[fid];
      if ok && offset < |file| {
        var most := if |file| - offset < want then |file| - offset else want;
        count :| 0 < count <= most;
        for i := 0 to count
          invariant rx[RREAD_DATA..RREAD_DATA + i] == file[offset..offset + i]
        {
          rx[RREAD_DATA + i] := file[offset + i];
        }
      } else {
        rx[0] := *;
      }
    }

    /** os_virtio9p_write_chunk: the server takes a prefix of the data. */
    method WriteChunk(fid: nat, offset: nat, data: seq<Byte>) returns (ok: bool, written: nat)
      requires Valid() && fid in files
      modifies this`files, rx
      ensures written <= |data| && (!ok ==> written == 0) && (steady ==> ok && written == |data|)
      ensures files == old(files)[fid := Overlay(old(files)[fid], offset, data[..written])]
    {
      ok := *;
      written := 0;
      if ok { written :| written <= |data|; }
      if steady { ok, written := true, |data|; }
      files := files[fid := Overlay(files[fid], offset, data[..written])];
      rx[0] := *;
    }

    /** os_virtio9p_close: the outcome does not matter to a stream. */
    method Clunk() returns (ok: bool)
      requires Valid()
      modifies rx
      ensures steady ==> ok
    {
      ok := *;
      ok := ok || steady;
      rx[0] := *;
    }

    /** The reading loop of os_virtio9p_load_file, once the file is open. */
    method LoadFile(fid: nat, result: array<Byte>) returns (ok: bool, total: nat)
      requires Valid() && fid in files && result != rx
      modifies rx, result
      ensures steady ==> ok
      ensures ok ==> total == if |files[fid]| < result.Length then |files[fid]| else result.Length
      ensures ok ==> result[..total] == files[fid][..total]
      ensures forall i :: |files[fid]| <= i < result.Length ==> result[i] == old(result[i])
    {
      total := 0;
      ok := true;
      while total < result.Length
        invariant total <= result.Length && total <= |files[fid]|
        invariant result[..total] == files[fid][..total]
        invariant forall i :: total <= i < result.Length ==> result[i] == old(result[i])
        decreases result.Length - total
      {
        var most := if MSIZE - 64 < result.Length - total then MSIZE - 64 else result.Length - total;
        var count;
        ok, count := ReadChunk(fid, total, most);
        if !ok {
          var closed := Clunk();
          return;
        }
        if count == 0 { break; }
        label copying:
        for i := 0 to count
          invariant result[..total] == files[fid][..total]
          invariant forall k :: total <= k < total + i ==> result[k] == rx[RREAD_DATA + (k - total)]
          invariant forall k :: total + i <= k < result.Length ==> result[k] == old(result[k])
          invariant rx[..] == old@copying(rx[..])
        {
          result[total + i] := rx[RREAD_DATA + i];
        }
        Joined(result[..], files[fid], total, count, rx[RREAD_DATA..RREAD_DATA + count]);
        total := total + count;
      }
      ok := Clunk();
    }
  }

  lemma Joined(result: seq<Byte>, file: seq<Byte>, total: nat, count: nat, chunk: seq<Byte>)
    requires total + count <= |result| && total + count <= |file| && |chunk| == count
    requires result[..total] == file[..total] && chunk == file[total..total + count]
    requires forall k :: total <= k < total + count ==> result[k] == chunk[k - total]
    ensures result[..total + count] == file[..total + count]
  {
    forall i | 0 <= i < total + count
      ensures result[i] == file[i]
    {
      if i < total {
        assert result[..total][i] == file[..total][i];
      } else {
        assert chunk[i - total] == file[total..total + count][i - total];
      }
    }
  }

  // ---------------------------------------------------------------- one stream

  class Stream {
    const session: Session
    const kind: Kind
    const fid: nat
    var nextOffset: nat
    const bufData: array<Byte>
    var bufCount: nat
    var bufPos: nat
    const writeBuf: array<Byte>
    var writeBufLen: nat
    var hasLookahead: bool
    var lookahead: Byte
    var eof: bool
    var error: bool
    var closed: bool

    ghost predicate Shape()
      reads this, session, bufData, writeBuf
    {
      && session.Valid() && fid in session.files
      && bufData.Length == READ_CHUNK && writeBuf.Length == WRITE_BUF
      && bufData != writeBuf && bufData != session.rx && writeBuf != session.rx
      && match kind
         case FileRead => ReaderValid(session.files[fid])
         case FileWrite => writeBufLen <= WRITE_BUF && !hasLookahead && !eof
    }

    /** Between operations there is room in the write buffer. */
    ghost predicate Valid()
      reads this, session, bufData, writeBuf
    {
      Shape() && (kind == FileWrite ==> writeBufLen < WRITE_BUF)
    }

    /** What has been fetched is the stretch of the file that ends at nextOffset. */
    ghost predicate ReaderValid(file: seq<Byte>)
      requires bufData.Length == READ_CHUNK
      reads this, bufData
    {
      && bufPos <= bufCount <= READ_CHUNK && bufCount <= nextOffset
      && (bufCount > 0 ==> nextOffset <= |file|)
      && (forall k :: 0 <= k < bufCount ==> bufData[k] == file[nextOffset - bufCount + k])
      && (hasLookahead ==> 0 < bufPos && lookahead == bufData[bufPos - 1] && !eof && !error)
      && (eof ==> bufPos == bufCount && |file| <= nextOffset)
    }

    /** cc_file_position */
    function FilePosition(): (pos: nat)
      requires Valid()
      reads this, session, bufData, writeBuf
    {
      match kind
      case FileRead => nextOffset - (bufCount - bufPos) - (if hasLookahead then 1 else 0)
      case FileWrite => nextOffset + writeBufLen
    }

    ghost function View(): (view: View)
      requires Valid()
      reads this, session, bufData, writeBuf
      ensures view.Ok()
    {
      match kind
      case FileRead => Reader(session.files[fid], FilePosition(), hasLookahead, eof, closed)
      case FileWrite =>
        Writer(Overlay(session.files[fid], nextOffset, writeBuf[..writeBufLen]), FilePosition(), writeBufLen, closed)
    }

    /** stream_init_common, after the file has been opened */
    constructor (session: Session, kind: Kind, fid: nat)
      requires session.Valid() && fid in session.files
      ensures Valid() && this.session == session && this.kind == kind && this.fid == fid
      ensures fresh(bufData) && fresh(writeBuf) && !error
      ensures View() == match kind
                        case FileRead => Reader(session.files[fid], 0, false, false, false)
                        case FileWrite => Writer(session.files[fid], 0, 0, false)
    {
      this.session, this.kind, this.fid := session, kind, fid;
      bufData := new Byte[READ_CHUNK];
      writeBuf := new Byte[WRITE_BUF];
      nextOffset, bufCount, bufPos, writeBufLen := 0, 0, 0, 0;
      hasLookahead, lookahead, eof, error, closed := false, 0, false, false, false;
    }

    /** The chunk is copied out of the shared buffer. */
    method CopyChunk(count: nat)
      requires bufData != session.rx && count <= bufData.Length && RREAD_DATA + count <= session.rx.Length
      modifies bufData
      ensures forall k :: 0 <= k < count ==> bufData[k] == session.rx[RREAD_DATA..RREAD_DATA + count][k]
    {
      for i := 0 to count
        invariant forall k :: 0 <= k < i ==> bufData[k] == session.rx[RREAD_DATA..RREAD_DATA + count][k]
      {
        bufData[i] := session.rx[RREAD_DATA + i];
      }
    }

    /** The refill of os_stream_read_char */
    method Refill() returns (more: bool)
      requires Valid() && kind == FileRead && bufPos == bufCount && !hasLookahead && !eof && !error && !closed
      modifies this`nextOffset, this`bufCount, this`bufPos, this`eof, this`error, bufData, session.rx
      ensures Valid() && (session.steady ==> !error)
      ensures error ==> !more && View() == old(View())
      ensures more ==> !error && bufPos < bufCount && !eof && View() == old(View())
      ensures !more && !error ==>
                |session.files[fid]| <= old(FilePosition()) && eof && Obey(old(View()), Read) == (View(), No)
    {
      var ok, count := session.ReadChunk(fid, nextOffset, READ_CHUNK);
      if !ok {
        error := true;
        return false;
      }
      CopyChunk(count);
      bufCount := count;
      bufPos := 0;
      nextOffset := nextOffset + bufCount;
      if bufCount == 0 {
        eof := true;
        return false;
      }
      more := true;
    }

    /** The last step of os_stream_read_char: one byte out of the stream's own buffer. */
    method Take() returns (b: Byte)
      requires Valid() && kind == FileRead && bufPos < bufCount && !hasLookahead && !eof && !closed
      modifies this`bufPos
      ensures Valid() && 0 < bufPos && b == bufData[bufPos - 1]
      ensures (View(), Got(b)) == Obey(old(View()), Read)
    {
      b := bufData[bufPos];
      assert bufData[..bufCount][bufPos] == session.files[fid][FilePosition()];
      bufPos := bufPos + 1;
    }

    /** os_stream_read_char */
    method ReadChar() returns (ok: bool, b: Byte)
      requires Valid()
      modifies this`nextOffset, this`bufCount, this`bufPos, this`hasLookahead, this`eof, this`error, bufData, session.rx
      ensures Valid() && (old(error) ==> error) && (session.steady ==> error == old(error))
      ensures error ==> !ok && View() == old(View())
      ensures !error ==> (View(), if ok then Got(b) else No) == Obey(old(View()), Read)
      ensures ok ==> kind == FileRead && !eof && !hasLookahead && 0 < bufPos && b == bufData[bufPos - 1]
    {
      ok, b := false, 0;
      if !closed && !eof && !error {
        if hasLookahead {
          ok, b := true, lookahead;
          hasLookahead := false;
        } else if kind == FileRead {
          var more := bufPos != bufCount;
          if !more { more := Refill(); }
          if more {
            ok := true;
            b := Take();
          }
        }
      }
    }

    /** The last step of os_stream_preview_char: the byte just read is read again. */
    method Hold(b: Byte)
      requires Valid() && kind == FileRead && !hasLookahead && !eof && !error && 0 < bufPos && b == bufData[bufPos - 1]
      modifies this`hasLookahead, this`lookahead
      ensures Valid() && 0 < old(FilePosition())
      ensures View() == Reader(session.files[fid], old(FilePosition()) - 1, true, false, closed)
    {
      hasLookahead, lookahead := true, b;
    }

    /** os_stream_preview_char */
    method PreviewChar() returns (ok: bool, b: Byte)
      requires Valid()
      modifies this`nextOffset, this`bufCount, this`bufPos, this`hasLookahead, this`lookahead, this`eof, this`error,
               bufData, session.rx
      ensures Valid() && (old(error) ==> error) && (session.steady ==> error == old(error))
      ensures error ==> !ok && View() == old(View())
      ensures !error ==> (View(), if ok then Got(b) else No) == Obey(old(View()), Preview)
    {
      if hasLookahead {
        ok, b := true, lookahead;
      } else {
        ok, b := ReadChar();
        if ok { Hold(b); }
      }
    }

    /** The server took this much of what was pending, and nothing is pending any more. */
    ghost predicate Flushed(before: map<nat, seq<Byte>>, offset: nat, data: seq<Byte>)
      requires fid in before
      reads this, session
    {
      && offset <= nextOffset <= offset + |data| && writeBufLen == 0
      && session.files == before[fid := Overlay(before[fid], offset, data[..nextOffset - offset])]
    }

    /** flush_write_buf_9p: whatever the server did not take is dropped. */
    method Flush()
      requires Shape() && kind == FileWrite
      modifies this`nextOffset, this`writeBufLen, this`error, session`files, session.rx
      ensures Valid() && Flushed(old(session.files), old(nextOffset), old(writeBuf[..writeBufLen]))
      ensures session.steady ==> nextOffset == old(nextOffset + writeBufLen) && error == old(error)
      ensures (error ==> old(error) || nextOffset == old(nextOffset)) && (old(error) ==> error)
    {
      assert writeBuf[..writeBufLen][..0] == [];
      assert session.files == session.files[fid := session.files[fid]];
      if writeBufLen == 0 { return; }
      var ok, written := session.WriteChunk(fid, nextOffset, writeBuf[..writeBufLen]);
      if !ok {
        error := true;
        writeBufLen := 0;
        return;
      }
      nextOffset := nextOffset + written;
      writeBufLen := 0;
    }

    method Append(b: Byte)
      requires Valid() && kind == FileWrite && !closed
      modifies this`writeBufLen, writeBuf
      ensures Shape() && writeBufLen == old(writeBufLen) + 1
              && writeBuf[..writeBufLen] == old(writeBuf[..writeBufLen]) + [b]
      ensures Overlay(session.files[fid], nextOffset, writeBuf[..writeBufLen])
              == PutByte(old(View()).content, nextOffset + old(writeBufLen), b)
    {
      ghost var pending := writeBuf[..writeBufLen];
      writeBuf[writeBufLen] := b;
      writeBufLen := writeBufLen + 1;
      assert writeBuf[..writeBufLen] == pending + [b];
      OverlayMore(session.files[fid], nextOffset, pending, [b]);
      OverlayOne(Overlay(session.files[fid], nextOffset, pending), nextOffset + |pending|, b);
    }

    /** os_stream_write_char. Bytes are lost only if the buffer is full and the server cuts the
        transfer short: then nothing is pending and the position tells how many it took. */
    method WriteChar(b: Byte) returns (ok: bool)
      requires Valid()
      modifies this`nextOffset, this`writeBufLen, this`error, session`files, session.rx, writeBuf
      ensures Valid() && (old(error) ==> error) && (session.steady ==> error == old(error))
      ensures ok == (!error && Obey(old(View()), Write(b)).1.Yes?)
      ensures View() == Obey(old(View()), Write(b)).0 || (
                && FilePosition() < Obey(old(View()), Write(b)).0.pos && old(writeBufLen) + 1 == WRITE_BUF
                   && !session.steady
                && Flushed(old(session.files), old(nextOffset), old(writeBuf[..writeBufLen]) + [b]))
      ensures session.files == old(session.files)[fid := session.files[fid]]
    {
      assert session.files == session.files[fid := session.files[fid]];
      ok := false;
      if !closed && kind == FileWrite {
        ghost var pending := writeBuf[..writeBufLen];
        ghost var whole := PutByte(View().content, View().pos, b);
        Append(b);
        if writeBufLen == WRITE_BUF {
          Flush();
          assert (pending + [b])[..WRITE_BUF] == pending + [b];
          assert nextOffset == old(nextOffset) + WRITE_BUF ==> session.files[fid] == whole;
        }
        assert FilePosition() == old(FilePosition()) + 1 ==>
               View() == Writer(whole, FilePosition(), writeBufLen, closed);
        ok := !error;
      }
    }

    /** os_stream_finish_output: all that was written is in the file, or the position says how much
        of it is. */
    method FinishOutput()
      requires Valid()
      modifies this`nextOffset, this`writeBufLen, this`error, session`files, session.rx
      ensures Valid() && (old(error) ==> error) && (session.steady ==> error == old(error))
      ensures View() == Obey(old(View()), Finish).0 <==> FilePosition() == old(FilePosition())
      ensures session.steady ==> FilePosition() == old(FilePosition())
      ensures kind == FileWrite ==> Flushed(old(session.files), old(nextOffset), old(writeBuf[..writeBufLen]))
      ensures session.files == old(session.files)[fid := session.files[fid]]
    {
      assert session.files == session.files[fid := session.files[fid]];
      if kind == FileWrite {
        ghost var pending := writeBuf[..writeBufLen];
        Flush();
        assert pending[..|pending|] == pending;
      }
    }

    /** os_stream_close */
    method Close()
      requires Valid()
      modifies this`nextOffset, this`writeBufLen, this`error, this`closed, session`files, session.rx
      ensures Valid() && (old(error) ==> error) && (session.steady ==> error == old(error))
      ensures FilePosition() == old(FilePosition()) ==> View() == Obey(old(View()), Request.Close).0
      ensures session.steady ==> FilePosition() == old(FilePosition())
      ensures kind == FileWrite ==> Flushed(old(session.files), old(nextOffset), old(writeBuf[..writeBufLen]))
      ensures session.files == old(session.files)[fid := session.files[fid]]
    {
      FinishOutput();
      Shut();
    }

    /** The server is told, and whatever it says the stream is closed. */
    method Shut()
      requires Valid()
      modifies this`closed, session.rx
      ensures Valid() && View() == old(View()).(closed := true)
    {
      var ok := session.Clunk();
      closed := true;
    }

    /** cc_set_file_position: bytes still pending move along to the new position. */
    method SetFilePosition(z: int)
      requires Valid()
      modifies this`nextOffset, this`bufCount, this`bufPos, this`hasLookahead, this`eof
      ensures Valid()
      ensures Legal(old(View()), SetPosition(z)) ==> View() == Obey(old(View()), SetPosition(z)).0
      ensures FilePosition() == Magnitude(z) <==> kind == FileRead || writeBufLen == 0
      ensures kind == FileWrite ==>
                View().content == Overlay(session.files[fid], Magnitude(z), writeBuf[..writeBufLen])
                    && View().pending == old(View()).pending
    {
      hasLookahead := false;
      eof := false;
      nextOffset := Magnitude(z);
      bufPos := 0;
      bufCount := 0;
    }

    /** Any other stream's work leaves this one as it is. */
    twostate lemma Undisturbed()
      requires old(Valid()) && unchanged(this, bufData, writeBuf)
      requires fid in session.files && session.files[fid] == old(session.files[fid])
      ensures Valid() && View() == old(View())
    {
      assert bufData[..] == old(bufData[..]) && writeBuf[..] == old(writeBuf[..]);
    }

    method Serve(request: Request) returns (answer: Answer)
      requires Valid() && !error && session.steady && Legal(View(), request)
      modifies this, bufData, writeBuf, session, session.rx
      ensures Valid() && !error && (View(), answer) == Obey(old(View()), request)
      ensures session.files == old(session.files)[fid := session.files[fid]]
    {
      assert session.files == session.files[fid := session.files[fid]];
      match request
      case Read =>
        var ok, b := ReadChar();
        answer := if ok then Got(b) else No;
      case Preview =>
        var ok, b := PreviewChar();
        answer := if ok then Got(b) else No;
      case Write(b) =>
        var ok := WriteChar(b);
        answer := if ok then Yes else No;
      case Finish =>
        FinishOutput();
        answer := Yes;
      case Close =>
        Close();
        answer := Yes;
      case Position => answer := At(FilePosition());
      case SetPosition(z) =>
        SetFilePosition(z);
        answer := Yes;
    }
  }

  // ---------------------------------------------------------------- several streams at once

  ghost predicate Different(s: Stream, t: Stream) {
    && s != t && s.fid != t.fid
    && s.bufData != t.bufData && s.bufData != t.writeBuf && s.writeBuf != t.bufData && s.writeBuf != t.writeBuf
  }

  ghost predicate Distinct(session: Session, streams: seq<Stream>) {
    && (forall i :: 0 <= i < |streams| ==> streams[i].session == session)
    && forall i, j :: 0 <= i < |streams| && 0 <= j < |streams| && i != j ==> Different(streams[i], streams[j])
  }

  /** Any number of streams, each on a file of its own, over one session. */
  class OpenFiles {
    const session: Session
    const streams: seq<Stream>

    constructor (session: Session, streams: seq<Stream>)
      requires session.steady && Distinct(session, streams)
      requires forall i :: 0 <= i < |streams| ==> streams[i].Valid() && !streams[i].error
      ensures Valid() && this.session == session && this.streams == streams
    {
      this.session, this.streams := session, streams;
      new;
      AllReady(|streams|);
    }

    ghost predicate Apart() { Distinct(session, streams) }

    ghost function Buffers(): set<array<Byte>> {
      (set s | s in streams :: s.bufData) + (set s | s in streams :: s.writeBuf)
    }

    ghost predicate Ready(n: nat)
      requires Apart() && n <= |streams|
      reads session, streams, Buffers()
    {
      n == 0 || (Ready(n - 1) && streams[n - 1].Valid() && !streams[n - 1].error)
    }

    ghost predicate Valid()
      reads session, streams, Buffers()
    {
      Apart() && Ready(|streams|) && session.steady
    }

    lemma {:induction false} AllReady(n: nat)
      requires Apart() && n <= |streams| && forall i :: 0 <= i < |streams| ==> streams[i].Valid() && !streams[i].error
      ensures Ready(n)
    {
      if n > 0 { AllReady(n - 1); }
    }

    lemma {:induction false} ReadyAt(n: nat, i: nat)
      requires Apart() && i < n <= |streams| && Ready(n)
      ensures streams[i].Valid() && !streams[i].error
      decreases n
    {
      if i < n - 1 { ReadyAt(n - 1, i); }
    }

    ghost function Views(n: nat): (views: seq<View>)
      requires Apart() && n <= |streams| && Ready(n)
      reads session, streams, Buffers()
      ensures AllOk(views) && |views| == n
    {
      if n == 0 then [] else Views(n - 1) + [streams[n - 1].View()]
    }

    lemma {:induction false} ViewAt(n: nat, i: nat)
      requires Apart() && i < n <= |streams| && Ready(n)
      ensures streams[i].Valid() && Views(n)[i] == streams[i].View()
      decreases n
    {
      if i < n - 1 { ViewAt(n - 1, i); }
    }

    twostate predicate Same(s: Stream)
      reads s, s.bufData, s.writeBuf, session
    {
      && unchanged(s, s.bufData, s.writeBuf)
      && s.fid in session.files && s.fid in old(session.files) && session.files[s.fid] == old(session.files[s.fid])
    }

    twostate lemma StillReady(n: nat)
      requires n <= |streams| && Apart() && old(Ready(n))
      requires forall j :: 0 <= j < n ==> Same(streams[j]) || (streams[j].Valid() && !streams[j].error)
      ensures Ready(n)
      ensures forall j :: 0 <= j < n && Same(streams[j]) ==> Views(n)[j] == old(Views(n))[j]
    {
      if n > 0 {
        StillReady(n - 1);
        if Same(streams[n - 1]) { streams[n - 1].Undisturbed(); }
      }
    }

    method Serve(i: nat, request: Request) returns (answer: Answer)
      requires Valid() && i < |streams| && Legal(Views(|streams|)[i], request)
      modifies session, session.rx, streams, Buffers()
      ensures Valid()
      ensures Views(|streams|) == old(Views(|streams|))[i := Obey(old(Views(|streams|))[i], request).0]
      ensures answer == Obey(old(Views(|streams|))[i], request).1
    {
      ghost var all := Views(|streams|);
      forall j | 0 <= j < |streams|
        ensures streams[j].Valid()
      {
        ReadyAt(|streams|, j);
      }
      ReadyAt(|streams|, i);
      ViewAt(|streams|, i);
      var s := streams[i];
      answer := s.Serve(request);
      forall j | 0 <= j < |streams| && j != i
        ensures Same(streams[j])
      {
        assert Different(streams[j], s);
      }
      StillReady(|streams|);
      ViewAt(|streams|, i);
      assert Views(|streams|) == all[i := s.View()];
    }

    method Run(orders: seq<Order>) returns (answers: seq<Answer>)
      requires Valid() && Orderly(Views(|streams|), orders)
      modifies session, session.rx, streams, Buffers()
      ensures Valid() && (Views(|streams|), answers) == Interleave(old(Views(|streams|)), orders)
    {
      answers := [];
      ghost var start := Views(|streams|);
      ghost var now := start;
      assert orders[0..] == orders;
      assert [] + Interleave(start, orders).1 == Interleave(start, orders).1;
      for k := 0 to |orders|
        invariant Valid() && |answers| == k && now == Views(|streams|) && Orderly(now, orders[k..])
        invariant Interleave(start, orders) ==
                  (Interleave(now, orders[k..]).0, answers + Interleave(now, orders[k..]).1)
      {
        var answer := Serve(orders[k].stream, orders[k].request);
        FirstOrder(now, orders, k, answers);
        now := Views(|streams|);
        answers := answers + [answer];
      }
      assert orders[|orders|..] == [] && answers + [] == answers;
    }
  }

  lemma FirstOrder(views: seq<View>, orders: seq<Order>, k: nat, answers: seq<Answer>)
    requires AllOk(views) && k < |orders| && Orderly(views, orders[k..])
    ensures var (o, rest) := (orders[k], orders[k + 1..]);
            var first := Obey(views[o.stream], o.request);
            var next := views[o.stream := first.0];
            && Orderly(next, rest)
            && Interleave(views, orders[k..]).0 == Interleave(next, rest).0
            && answers + Interleave(views, orders[k..]).1 == (answers + [first.1]) + Interleave(next, rest).1
  {
    assert orders[k..][1..] == orders[k + 1..];
  }
}
