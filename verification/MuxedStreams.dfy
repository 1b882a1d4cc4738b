/** The MuxedStream object, the SharedBuffer it reads from and the chunk its writer works off, updated in place. */
module MuxedStreams {
  import opened Bytes
  import opened StreamModel
  import opened StreamInvariant

  /** A FIFO of bytes with an end. */
  class SharedBuffer {
    var buffer: Buffer
    var eof: bool

    constructor ()
      ensures buffer == [] && !eof
    {
      buffer, eof := [], false;
    }

    /**
      Read into a non-empty space of `space` bytes; a call that finds neither data nor the end waits until there is
      one.
     */
    method Read(space: nat) returns (p: Buffer, atEnd: bool)
      requires space > 0 && (buffer != [] || eof)
      modifies this`buffer
      ensures p + buffer == old(buffer) && |p| == Min(space, |old(buffer)|)
      ensures atEnd <==> eof && old(buffer) == []
    {
      if |buffer| == 0 {
        return [], true;
      }
      var n := if space < |buffer| then space else |buffer|;
      p, atEnd := buffer[..n], false;
      buffer := buffer[n..];
    }

    method Write(p: Buffer) returns (ok: bool)
      modifies this`buffer
      ensures ok == !eof
      ensures buffer == if ok then old(buffer) + p else old(buffer)
    {
      if eof {
        return false;
      }
      buffer := buffer + p;
      ok := true;
    }

    method Close()
      modifies this`eof
      ensures eof
    {
      if !eof {
        eof := true;
      }
    }
  }

  /** A reader on a buffer sees exactly what was written before the close, in order, and then the end. */
  method DrainAfterClose(b: SharedBuffer, space: nat) returns (all: Buffer)
    requires space > 0
    modifies b
    ensures all == old(b.buffer) && b.buffer == [] && b.eof
  {
    b.Close();
    all := [];
    var atEnd := false;
    while !atEnd
      invariant b.eof && all + b.buffer == old(b.buffer)
      invariant atEnd ==> b.buffer == []
      decreases |b.buffer|, !atEnd
    {
      var p;
      p, atEnd := b.Read(space);
      all := all + p;
    }
  }

  class StreamChunk {
    var windowUpdate: uint32
    var sendData: bool
    var eof: bool
    var buffer: Buffer
    var offset: nat

    ghost function View(): Chunk
      reads this
    {
      Chunk(windowUpdate, sendData, eof, buffer, offset)
    }

    constructor (windowUpdate: uint32, sendData: bool, eof: bool, buffer: Buffer)
      ensures View() == Chunk(windowUpdate, sendData, eof, buffer, 0)
    {
      this.windowUpdate, this.sendData, this.eof, this.buffer, offset := windowUpdate, sendData, eof, buffer, 0;
    }

    method NextDataFrame(frameSize0: nat) returns (payload: Buffer, endStream: bool)
      requires offset <= |buffer|
      modifies this`offset, this`sendData
      ensures (Data(payload, endStream), View()) == NextData(old(View()), frameSize0)
    {
      var frameSize, bytesLeft := frameSize0, |buffer| - offset;
      endStream := false;
      if frameSize > bytesLeft {
        frameSize := bytesLeft;
      }
      var nextOffset := offset + frameSize;
      payload := buffer[offset..nextOffset];
      offset := nextOffset;
      if offset == |buffer| {
        sendData := false;
        if eof {
          endStream := true;
        }
      }
    }
  }

  /** The frames writeStreamData writes for a chunk. */
  function FramesOf(c: Chunk, frameSize: nat): seq<Frame>
    requires c.offset <= |c.buffer| && frameSize > 0
    decreases c.windowUpdate, c.sendData, |c.buffer| - c.offset
  {
    if Spent(c) then []
    else
      var (f, rest) := NextFrame(c, frameSize);
      [f] + FramesOf(rest, frameSize)
  }

  /** The loop of writeStreamData over one chunk. */
  method WriteChunk(c: StreamChunk, frameSize: nat) returns (frames: seq<Frame>)
    requires c.offset <= |c.buffer| && frameSize > 0
    modifies c
    ensures frames == FramesOf(old(c.View()), frameSize)
  {
    frames := [];
    if c.windowUpdate > 0 {
      frames := [WindowUpdate(c.windowUpdate)];
      c.windowUpdate := 0;
    }
    ghost var start := FramesOf(old(c.View()), frameSize);
    assert frames + FramesOf(c.View(), frameSize) == start;
    hide FramesOf, NextData;
    while c.sendData
      invariant c.windowUpdate == 0 && c.offset <= |c.buffer|
      invariant frames + FramesOf(c.View(), frameSize) == start
      decreases c.sendData, |c.buffer| - c.offset
    {
      DataStep(c.View(), frameSize);
      var payload, sentEOF := c.NextDataFrame(frameSize);
      frames := frames + [Data(payload, sentEOF)];
    }
    NoMoreFrames(c.View(), frameSize);
  }

  lemma DataStep(c: Chunk, frameSize: nat)
    requires c.Valid() && frameSize > 0 && c.windowUpdate == 0 && c.sendData
    ensures var (f, rest) := NextData(c, frameSize);
            && rest.Valid() && rest.windowUpdate == 0 && |rest.buffer| == |c.buffer|
            && (rest.sendData ==> rest.offset > c.offset) && (!rest.sendData ==> FramesOf(rest, frameSize) == [])
            && FramesOf(c, frameSize) == [f] + FramesOf(rest, frameSize)
  {
  }

  lemma NoMoreFrames(c: Chunk, frameSize: nat)
    requires c.offset <= |c.buffer| && frameSize > 0 && Spent(c)
    ensures FramesOf(c, frameSize) == []
  {
  }

  /** Each data frame fits the frame size, and only the last one ends the stream, if the chunk does. */
  predicate WellFramed(fs: seq<Frame>, c: Chunk, frameSize: nat) {
    && (forall i :: 0 <= i < |fs| && fs[i].Data? ==> |fs[i].payload| <= frameSize)
    && (forall i :: 0 <= i < |fs| && fs[i].Data? ==> (fs[i].end <==> c.eof && i == |fs| - 1))
    && (c.sendData <==> fs != [] && fs[|fs| - 1].Data?)
  }

  /**
    The data frames of a chunk carry its bytes, each within the frame size; END_STREAM is set on the last one
    exactly when the chunk ends the stream, and on no other.
   */
  lemma {:induction false} FramesCarryChunk(c: Chunk, frameSize: nat)
    requires c.Valid() && frameSize > 0
    ensures PayloadOf(FramesOf(c, frameSize)) == c.Rest()
    ensures WellFramed(FramesOf(c, frameSize), c, frameSize)
    decreases c.windowUpdate, c.sendData, |c.buffer| - c.offset
  {
    if c.windowUpdate > 0 {
      FramesCarryChunk(c.(windowUpdate := 0), frameSize);
      CarryUpdate(c, frameSize);
    } else if c.sendData {
      DataStep(c, frameSize);
      FramesCarryChunk(NextData(c, frameSize).1, frameSize);
      CarryData(c, frameSize);
    }
  }

  lemma CarryUpdate(c: Chunk, frameSize: nat)
    requires c.Valid() && frameSize > 0 && c.windowUpdate > 0
    requires var rest := c.(windowUpdate := 0);
             && PayloadOf(FramesOf(rest, frameSize)) == rest.Rest()
             && WellFramed(FramesOf(rest, frameSize), rest, frameSize)
    ensures PayloadOf(FramesOf(c, frameSize)) == c.Rest() && WellFramed(FramesOf(c, frameSize), c, frameSize)
  {
    hide FramesOf;
    UpdateFirst(c, frameSize);
    var more := FramesOf(c.(windowUpdate := 0), frameSize);
    assert PayloadOf([WindowUpdate(c.windowUpdate)] + more) == PayloadOf(more);
  }

  lemma CarryData(c: Chunk, frameSize: nat)
    requires c.Valid() && frameSize > 0 && c.windowUpdate == 0 && c.sendData
    requires var rest := NextData(c, frameSize).1;
             && rest.Valid() && PayloadOf(FramesOf(rest, frameSize)) == rest.Rest()
             && WellFramed(FramesOf(rest, frameSize), rest, frameSize)
    ensures PayloadOf(FramesOf(c, frameSize)) == c.Rest() && WellFramed(FramesOf(c, frameSize), c, frameSize)
  {
    hide FramesOf, WellFramed;
    var (f, rest) := NextData(c, frameSize);
    DataStep(c, frameSize);
    var more := FramesOf(rest, frameSize);
    assert ([f] + more)[1..] == more;
    assert f.payload + rest.Rest() == c.Rest();
    FrameFirst(c, frameSize, more);
  }

  lemma UpdateFirst(c: Chunk, frameSize: nat)
    requires c.offset <= |c.buffer| && frameSize > 0 && c.windowUpdate > 0
    ensures FramesOf(c, frameSize) == [WindowUpdate(c.windowUpdate)] + FramesOf(c.(windowUpdate := 0), frameSize)
  {
  }

  lemma FrameFirst(c: Chunk, frameSize: nat, more: seq<Frame>)
    requires c.Valid() && frameSize > 0 && c.windowUpdate == 0 && c.sendData
    requires WellFramed(more, NextData(c, frameSize).1, frameSize)
    requires !NextData(c, frameSize).1.sendData ==> more == []
    ensures WellFramed([NextData(c, frameSize).0] + more, c, frameSize)
  {
  }

  datatype WriteStatus = Written | Waiting

  class MuxedStream {
    const windowMax: uint32
    const writeBufferMaxLen: nat
    const readBuffer: SharedBuffer
    var receiveWindow: uint32
    var currentMax: uint32
    var windowUpdate: uint32
    var writeBuffer: Buffer
    var hasSpace: bool
    var sendWindow: uint32
    var writeEOF: bool
    var sentEOF: bool
    var receivedEOF: bool
    /** Whether the stream has been signalled to the ready list since it was last picked. */
    var ready: bool

    ghost function View(): Stream
      reads this, readBuffer
    {
      Stream(receiveWindow, currentMax, windowMax, windowUpdate, readBuffer.buffer, readBuffer.eof,
             writeBuffer, writeBufferMaxLen, hasSpace, sendWindow, writeEOF, sentEOF, receivedEOF)
    }

    constructor (window: uint32, windowMax: uint32, maxLen: nat)
      ensures View() == StreamModel.NewStream(window, windowMax, maxLen) && fresh(readBuffer)
    {
      readBuffer := new SharedBuffer();
      this.windowMax, writeBufferMaxLen := windowMax, maxLen;
      receiveWindow, currentMax, windowUpdate, sendWindow := window, window, 0, window;
      writeBuffer, hasSpace, writeEOF, sentEOF, receivedEOF, ready := [], false, false, false, false, false;
    }

    /** Write from its `start`-th byte on, under the lock, until it is done or has to wait for space. */
    method WriteFrom(p: Buffer, start: nat) returns (totalWritten: nat, status: WriteStatus)
      requires start <= |p|
      modifies this`writeBuffer, this`ready
      ensures totalWritten == start + Room(old(View()), p[start..])
      ensures View() == Filled(old(View()), p[start..])
      ensures status == if totalWritten < |p| then Waiting else Written
      ensures ready == (old(ready) || totalWritten > start)
    {
      totalWritten := start;
      while totalWritten < |p|
        invariant start <= totalWritten <= |p|
        invariant writeBuffer == old(writeBuffer) + p[start..totalWritten]
        invariant totalWritten == start || totalWritten == start + Room(old(View()), p[start..])
        invariant ready == (old(ready) || totalWritten > start)
      {
        if writeBufferMaxLen <= |writeBuffer| {
          assert p[start..][..totalWritten - start] == p[start..totalWritten];
          return totalWritten, Waiting;
        }
        var amountToWrite := |p| - totalWritten;
        var spaceAvailable := writeBufferMaxLen - |writeBuffer|;
        if spaceAvailable < amountToWrite {
          amountToWrite := spaceAvailable;
        }
        writeBuffer := writeBuffer + p[totalWritten..totalWritten + amountToWrite];
        totalWritten := totalWritten + amountToWrite;
        ready := true;
      }
      status := Written;
      assert p[start..][..totalWritten - start] == p[start..totalWritten];
    }

    method CloseWrite() returns (ok: bool)
      modifies this`writeEOF, this`hasSpace, this`ready
      ensures ok == !old(writeEOF)
      ensures View() == WriteClosed(old(View()))
      ensures ready == (old(ready) || ok)
    {
      if writeEOF {
        return false;
      }
      writeEOF := true;
      hasSpace := true;
      ready := true;
      ok := true;
    }

    method ReplenishSendWindow(bytes: uint32)
      modifies this`sendWindow, this`ready
      ensures View() == Credited(old(View()), bytes) && ready
    {
      sendWindow := U32(sendWindow + bytes);
      ready := true;
    }

    method ConsumeReceiveWindow(bytes: uint32) returns (ok: bool)
      modifies this`receiveWindow, this`windowUpdate, this`currentMax, this`ready
      ensures ok == (bytes <= old(receiveWindow))
      ensures View() == if ok then Charge(old(View()), bytes) else old(View())
      ensures ready == (old(ready) || (ok && Exhausted(old(View()), old(receiveWindow) - bytes)))
      ensures receiveWindow == if ok then old(receiveWindow) - bytes else old(receiveWindow)
      ensures var grows := ok && 2 * (old(receiveWindow) - bytes + 1) <= old(currentMax) < windowMax;
              && ready == (old(ready) || grows)
              && (!grows ==> currentMax == old(currentMax) && windowUpdate == old(windowUpdate))
              && (grows && windowMax <= MAX_WINDOW ==> currentMax == Min(2 * old(currentMax), windowMax))
              && (grows && windowMax <= MAX_WINDOW && old(windowUpdate) <= MAX_WINDOW ==>
                    windowUpdate == old(windowUpdate) + (currentMax - old(currentMax)))
    {
      if receiveWindow < bytes {
        return false;
      }
      receiveWindow := receiveWindow - bytes;
      if receiveWindow < currentMax / 2 && currentMax < windowMax {
        var newMax := U32(2 * currentMax);
        if newMax > windowMax {
          newMax := windowMax;
        }
        windowUpdate := U32(windowUpdate + Sub32(newMax, currentMax));
        currentMax := newMax;
        ready := true;
      }
      ok := true;
    }

    method ReplenishReceiveWindow(bytes: uint32)
      modifies this`windowUpdate, this`ready
      ensures View() == old(View()).(windowUpdate := U32(old(windowUpdate) + bytes)) && ready
    {
      windowUpdate := U32(windowUpdate + bytes);
      ready := true;
    }

    /** What leaves the read buffer is given back to the window. */
    method Read(space: nat) returns (p: Buffer, atEnd: bool)
      requires 0 < space < TWO_32 && (readBuffer.buffer != [] || readBuffer.eof)
      modifies readBuffer`buffer, this`windowUpdate, this`ready
      ensures View() == Drained(old(View()), space) && p + readBuffer.buffer == old(readBuffer.buffer) && ready
      ensures atEnd <==> readBuffer.eof && old(readBuffer.buffer) == []
    {
      p, atEnd := readBuffer.Read(space);
      ReplenishReceiveWindow(|p|);
    }

    method ReceiveEOF() returns (closed: bool)
      modifies this`receivedEOF, readBuffer`eof
      ensures View() == EndReceived(old(View())) && closed == WriteDone(View())
    {
      receivedEOF := true;
      readBuffer.Close();
      closed := writeEOF && |writeBuffer| == 0;
    }

    /** At most sendWindow bytes are taken out of the write buffer, and a waiting Write is told of the space. */
    method TakeData() returns (buf: Buffer)
      modifies this`writeBuffer, this`sendWindow, this`hasSpace
      ensures buf + writeBuffer == old(writeBuffer) && |buf| == Min(old(sendWindow), |old(writeBuffer)|)
      ensures sendWindow == old(sendWindow) - |buf|
      ensures hasSpace == (old(hasSpace) || |writeBuffer| < writeBufferMaxLen)
    {
      var toCopy: nat := sendWindow;
      if toCopy > |writeBuffer| {
        toCopy := |writeBuffer|;
      }
      buf := writeBuffer[..toCopy];
      writeBuffer := writeBuffer[toCopy..];
      sendWindow := sendWindow - toCopy;
      if |writeBuffer| < writeBufferMaxLen {
        hasSpace := true;
      }
    }

    method GetChunk() returns (chunk: StreamChunk)
      modifies this`writeBuffer, this`sendWindow, this`hasSpace, this`receiveWindow, this`windowUpdate, this`sentEOF
      ensures fresh(chunk) && chunk.View() == ChunkOf(old(View()))
      ensures View() == AfterChunk(old(View())) && ready == old(ready)
    {
      ghost var s := View();
      var eof := writeEOF && U32(|writeBuffer|) <= sendWindow;
      var sendData := !sentEOF;
      var buf := TakeData();
      TakenIsPrefix(buf, writeBuffer, s.writeBuffer);
      chunk := new StreamChunk(windowUpdate, sendData, eof, buf);
      receiveWindow := U32(receiveWindow + windowUpdate);
      windowUpdate := 0;
      if sendData && eof {
        sentEOF := true;
      }
    }
  }

  lemma TakenIsPrefix(buf: Buffer, rest: Buffer, all: Buffer)
    requires buf + rest == all
    ensures buf == all[..|buf|] && rest == all[|buf|..]
  {
  }

  // ----- the reader and the writer over the map of streams -----

  class Muxer {
    var streams: map<uint32, MuxedStream>
    /** Stream errors raised and not yet reported to the peer. */
    var streamErrors: set<uint32>

    constructor ()
      ensures streams == map[] && streamErrors == {}
    {
      streams, streamErrors := map[], {};
    }

    /** receiveFrameData; `connectionError` is an error returned to the frame loop. */
    method ReceiveFrameData(sid: uint32, data: Buffer, end: bool) returns (connectionError: bool)
      requires |data| < TWO_32
      modifies this, if sid in streams then {streams[sid], streams[sid].readBuffer} else {}
      ensures connectionError == (sid !in old(streams) && sid == 0 && !end)
      ensures sid !in old(streams) ==>
                streams == old(streams) && streamErrors == old(streamErrors) + (if end || sid == 0 then {} else {sid})
      ensures sid in old(streams) ==>
                var m, s := old(streams[sid]), old(streams[sid].View());
                && m.View() == Received(s, data, end) && m.ready == (old(streams[sid].ready) || Grows(s, data, end))
                && streams == (if Leaves(s, data, end) then old(streams) - {sid} else old(streams))
                && streamErrors == old(streamErrors) + (if Fails(s, data, end) then {sid} else {})
      ensures sid in old(streams) ==>
                var s := old(streams[sid].View());
                var refused := data != [] && s.readClosed;
                && (sid in streamErrors <==> sid in old(streamErrors) || refused || (!end && s.receiveWindow < |data|))
                && (sid !in streams <==> end && !refused && s.writeEOF && s.writeBuffer == [])
                && old(streams[sid]).readBuffer.buffer == (if refused then s.readBuffer else s.readBuffer + data)
                && (end && !refused ==> old(streams[sid]).receivedEOF && old(streams[sid]).readBuffer.eof)
    {
      hide Charge;
      connectionError := false;
      if sid !in streams {
        if !end {
          if sid == 0 {
            return true;
          }
          streamErrors := streamErrors + {sid};
        }
        return;
      }
      var stream := streams[sid];
      if |data| > 0 {
        var ok := stream.readBuffer.Write(data);
        if !ok {
          streamErrors := streamErrors + {sid};
          return;
        }
      }
      assert stream.View() == Buffered(old(streams[sid].View()), data);
      if end {
        var closed := stream.ReceiveEOF();
        if closed {
          streams := streams - {sid};
        }
        return;
      }
      var ok := stream.ConsumeReceiveWindow(|data|);
      if !ok {
        streamErrors := streamErrors + {sid};
      }
    }

    /** updateStreamWindow: credit for a stream that is gone is ignored. */
    method UpdateStreamWindow(sid: uint32, increment: uint32) returns (connectionError: bool)
      modifies if sid in streams then {streams[sid]} else {}
      ensures connectionError == (sid !in streams && sid == 0)
      ensures sid in streams ==>
                streams[sid].View() == Credited(old(streams[sid].View()), increment) && streams[sid].ready
    {
      if sid !in streams {
        return sid == 0;
      }
      streams[sid].ReplenishSendWindow(increment);
      connectionError := false;
    }

    /**
      writeStreamData for a stream in the map: its chunk in frames, and after END_STREAM, if the read side is closed, a
      reset if the peer may still send, and the stream leaves the map.
     */
    method WriteStreamData(sid: uint32, frameSize: nat) returns (frames: seq<Frame>)
      requires sid in streams && frameSize > 0
      modifies this`streams, streams[sid]
      ensures var s := old(streams[sid].View());
              && old(streams[sid]).View() == AfterChunk(s)
              && ChunkOf(s).offset == 0 && frames == FramesOf(ChunkOf(s), frameSize) + AfterFrames(s)
              && streams == (if EndsStream(s) && s.readClosed then old(streams) - {sid} else old(streams))
      ensures var s := old(streams[sid].View());
              var ends := !s.sentEOF && s.writeEOF && |s.writeBuffer| <= s.sendWindow;
              |s.writeBuffer| < TWO_32 ==>
                && (frames != [] && frames[|frames| - 1] == Reset <==> ends && s.readClosed && !s.receivedEOF)
                && (sid !in streams <==> ends && s.readClosed)
    {
      hide FramesOf, ChunkOf, AfterChunk;
      var stream := streams[sid];
      ghost var s := stream.View();
      ChunkFacts(s);
      var chunk := stream.GetChunk();
      frames := WriteChunk(chunk, frameSize);
      EndIsLast(ChunkOf(s), frameSize);
      if |s.writeBuffer| < TWO_32 {
        EndsExactly(s);
      }
      NoResets(ChunkOf(s), frameSize);
      var sentEOF := |frames| > 0 && frames[|frames| - 1].Data? && frames[|frames| - 1].end;
      if sentEOF {
        if stream.readBuffer.eof {
          if !stream.receivedEOF {
            frames := frames + [Reset];
          }
          streams := streams - {sid};
        }
      }
    }
  }

  /** The chunk a stream has now carries END_STREAM. */
  predicate EndsStream(s: Stream) {
    ChunkOf(s).sendData && ChunkOf(s).eof
  }

  lemma EndsExactly(s: Stream)
    requires |s.writeBuffer| < TWO_32
    ensures EndsStream(s) <==> !s.sentEOF && s.writeEOF && |s.writeBuffer| <= s.sendWindow
  {
  }

  lemma {:induction false} NoResets(c: Chunk, frameSize: nat)
    requires c.offset <= |c.buffer| && frameSize > 0
    ensures forall i :: 0 <= i < |FramesOf(c, frameSize)| ==> FramesOf(c, frameSize)[i] != Reset
    decreases c.windowUpdate, c.sendData, |c.buffer| - c.offset
  {
    if !Spent(c) {
      NoResets(NextFrame(c, frameSize).1, frameSize);
    }
  }

  function AfterFrames(s: Stream): seq<Frame> {
    if EndsStream(s) && s.readClosed && !s.receivedEOF then [Reset] else []
  }

  lemma ChunkFacts(s: Stream)
    ensures ChunkOf(s).offset == 0
    ensures AfterChunk(s).readClosed == s.readClosed && AfterChunk(s).receivedEOF == s.receivedEOF
  {
  }

  /** The last frame ends the stream exactly if the chunk does. */
  lemma EndIsLast(c: Chunk, frameSize: nat)
    requires c.offset <= |c.buffer| && frameSize > 0
    ensures var fs := FramesOf(c, frameSize);
            (fs != [] && fs[|fs| - 1].Data? && fs[|fs| - 1].end) <==> c.sendData && c.eof
  {
    hide FramesOf;
    if c.sendData {
      FramesCarryChunk(c, frameSize);
    } else {
      NoMoreFrames(c.(windowUpdate := 0), frameSize);
      if c.windowUpdate > 0 {
        UpdateFirst(c, frameSize);
      }
    }
  }
}
