/** The invariant of a stream between two ends: flow-control credit, the bytes themselves, and END_STREAM. */
module StreamInvariant {
  import opened Bytes
  import opened StreamModel

  // ----- what a channel carries -----

  function PayloadOf(ch: seq<Frame>): Buffer {
    if ch == [] then [] else (if ch[0].Data? then ch[0].payload else []) + PayloadOf(ch[1..])
  }

  function CreditOf(ch: seq<Frame>): nat {
    if ch == [] then 0 else (if ch[0].WindowUpdate? then ch[0].increment else 0) + CreditOf(ch[1..])
  }

  predicate IsEnd(f: Frame) {
    f.Data? && f.end
  }

  function EndsOf(ch: seq<Frame>): nat {
    if ch == [] then 0 else (if IsEnd(ch[0]) then 1 else 0) + EndsOf(ch[1..])
  }

  predicate NoData(ch: seq<Frame>) {
    forall i :: 0 <= i < |ch| ==> !ch[i].Data?
  }

  /** Nothing follows END_STREAM. */
  predicate EndLast(ch: seq<Frame>) {
    forall i, j :: 0 <= i < j < |ch| && IsEnd(ch[i]) ==> !ch[j].Data?
  }

  predicate IncrementsOK(ch: seq<Frame>) {
    forall i :: 0 <= i < |ch| && ch[i].WindowUpdate? ==> 1 <= ch[i].increment <= MAX_WINDOW
  }

  lemma {:induction false} Appended(ch: seq<Frame>, f: Frame)
    ensures PayloadOf(ch + [f]) == PayloadOf(ch) + (if f.Data? then f.payload else [])
    ensures CreditOf(ch + [f]) == CreditOf(ch) + (if f.WindowUpdate? then f.increment else 0)
    ensures EndsOf(ch + [f]) == EndsOf(ch) + (if IsEnd(f) then 1 else 0)
  {
    if ch == [] {
      assert ch + [f] == [f];
    } else {
      assert (ch + [f])[1..] == ch[1..] + [f];
      Appended(ch[1..], f);
    }
  }

  lemma {:induction false} NoEnds(ch: seq<Frame>)
    ensures EndsOf(ch) == 0 <==> forall i :: 0 <= i < |ch| ==> !IsEnd(ch[i])
  {
    if ch != [] {
      NoEnds(ch[1..]);
      assert forall i :: 0 < i < |ch| ==> ch[i] == ch[1..][i - 1];
    }
  }

  lemma {:induction false} NoPayload(ch: seq<Frame>)
    requires NoData(ch)
    ensures PayloadOf(ch) == [] && EndsOf(ch) == 0
  {
    if ch != [] {
      NoPayload(ch[1..]);
    }
  }

  // ----- one end -----

  function PendingChunk(e: Endpoint): Chunk {
    if e.writing.Emitting? then e.writing.chunk else Chunk(0, false, false, [], 0)
  }

  function Rest(e: Endpoint): Buffer {
    var c := PendingChunk(e);
    if c.offset <= |c.buffer| then c.Rest() else []
  }

  predicate EndPending(e: Endpoint) {
    PendingChunk(e).sendData && PendingChunk(e).eof
  }

  predicate WindowsOK(e: Endpoint) {
    && 0 < e.s.currentMax <= e.s.windowMax <= MAX_WINDOW
    && e.s.receiveWindow + e.s.windowUpdate + |e.s.readBuffer| == e.s.currentMax + e.endBytes
    && e.endBytes <= e.s.currentMax && (e.endBytes > 0 ==> e.endSeen)
    && (e.s.receivedEOF ==> e.endSeen && e.s.readClosed)
    && (e.lost != [] ==> e.s.readClosed || !e.active)
    && (e.lostCredit > 0 ==> !e.active)
  }

  /** No lost wakeup: a waiting Write that could go on has a token to take. */
  predicate CallerOK(e: Endpoint) {
    && |e.s.writeBuffer| <= e.s.writeBufferMaxLen < TWO_32 && 0 < e.s.writeBufferMaxLen
    && (e.caller.Parked? ==> e.caller.rest != [])
    && (e.caller.Parked? && (|e.s.writeBuffer| < e.s.writeBufferMaxLen || e.s.writeEOF) ==> e.s.hasSpace)
    && (e.s.sentEOF ==> e.s.writeEOF && e.s.writeBuffer == [])
  }

  predicate ChunkOK(e: Endpoint) {
    e.writing.Emitting? ==>
      var c := e.writing.chunk;
      c.Valid() && !Spent(c) && c.windowUpdate <= MAX_WINDOW && (c.sendData ==> (c.eof <==> e.s.sentEOF))
  }

  /** Nothing to send, now or with the window there is. */
  predicate NothingToSend(s: Stream) {
    && s.windowUpdate == 0 && (s.writeBuffer == [] || s.sendWindow == 0)
    && (s.writeEOF && |s.writeBuffer| <= s.sendWindow ==> s.sentEOF)
  }

  /** No lost signal: a stream with something to send is in the ready list, or about to be looked at. */
  predicate SignalOK(e: Endpoint) {
    e.active && !e.ready && !e.writing.Fetching? ==> NothingToSend(e.s)
  }

  predicate EndpointOK(e: Endpoint) {
    WindowsOK(e) && CallerOK(e) && ChunkOK(e) && SignalOK(e)
  }

  // ----- one direction, from x to y -----

  /** Credit is conserved: the sender's window and everything on its way add up to the receiver's window. */
  predicate CreditOK(x: Endpoint, y: Endpoint, xy: seq<Frame>, yx: seq<Frame>) {
    && x.s.sendWindow + x.lostCredit + |Rest(x)| + |PayloadOf(xy)| + CreditOf(yx) + PendingChunk(y).windowUpdate
       + y.endBytes + |y.lost| == y.s.receiveWindow
    && IncrementsOK(yx)
  }

  /** Bytes are conserved, in order. */
  predicate BytesOK(x: Endpoint, y: Endpoint, xy: seq<Frame>) {
    x.accepted == y.taken + y.s.readBuffer + y.lost + PayloadOf(xy) + Rest(x) + x.s.writeBuffer
  }

  /** END_STREAM is on its way, or has arrived, exactly once after it was decided on, and nothing follows it. */
  predicate EndOK(x: Endpoint, y: Endpoint, xy: seq<Frame>) {
    && EndsOf(xy) + (if EndPending(x) then 1 else 0) + (if y.endSeen then 1 else 0) == (if x.s.sentEOF then 1 else 0)
    && EndLast(xy)
    && (y.endSeen ==> NoData(xy))
  }

  predicate DirectionOK(x: Endpoint, y: Endpoint, xy: seq<Frame>, yx: seq<Frame>) {
    CreditOK(x, y, xy, yx) && BytesOK(x, y, xy) && EndOK(x, y, xy)
  }

  predicate Inv(s: System) {
    && s.frameSize > 0
    && EndpointOK(s.a) && EndpointOK(s.b)
    && DirectionOK(s.a, s.b, s.ab, s.ba) && DirectionOK(s.b, s.a, s.ba, s.ab)
  }

  /** Both directions, seen from end `x`. */
  predicate BothOK(x: Endpoint, y: Endpoint, xy: seq<Frame>, yx: seq<Frame>) {
    EndpointOK(x) && DirectionOK(x, y, xy, yx) && DirectionOK(y, x, yx, xy)
  }
}
