/**
  A muxed stream between two ends, as a state machine: the MuxedStream of either end with the goroutines that
  drive it, and the two FIFO channels of frames between them.
 */
module StreamModel {
  import opened Bytes

  const MAX_WINDOW := 0x7fff_ffff

  function Sub32(a: uint32, b: uint32): uint32 {
    if a >= b then a - b else a + TWO_32 - b
  }

  datatype Frame = Data(payload: Buffer, end: bool) | WindowUpdate(increment: uint32) | Reset

  /** streamChunk: what MuxWriter has taken out of a stream and not yet put in frames. */
  datatype Chunk = Chunk(windowUpdate: uint32, sendData: bool, eof: bool, buffer: Buffer, offset: nat)
  {
    predicate Valid() {
      offset <= |buffer| && (!sendData ==> offset == |buffer|)
    }

    function Rest(): Buffer
      requires offset <= |buffer|
    {
      buffer[offset..]
    }
  }

  /** The fields of MuxedStream, with its SharedBuffer as `readBuffer` and `readClosed`. */
  datatype Stream = Stream(receiveWindow: uint32, currentMax: uint32, windowMax: uint32, windowUpdate: uint32,
                           readBuffer: Buffer, readClosed: bool,
                           writeBuffer: Buffer, writeBufferMaxLen: nat, hasSpace: bool, sendWindow: uint32,
                           writeEOF: bool, sentEOF: bool, receivedEOF: bool)

  /** What MuxWriter is doing with the stream. */
  datatype Writing = Free | Fetching | Emitting(chunk: Chunk)

  /** A call of MuxedStream.Write that waits for space. */
  datatype Caller = Idle | Parked(rest: Buffer)

  /**
    One end. `active` says the stream is in the activeStreamMap, `ready` that the ReadyList holds its ID, and
    `failed` that a stream error waits to be reported. The last six fields record history and are never
    consulted by a step.
   */
  datatype Endpoint = Endpoint(s: Stream, active: bool, ready: bool, failed: bool, writing: Writing, caller: Caller,
                               accepted: Buffer, taken: Buffer, lost: Buffer, endBytes: nat, endSeen: bool,
                               lostCredit: nat)

  function NewStream(window: uint32, windowMax: uint32, maxLen: nat): Stream {
    Stream(window, window, windowMax, 0, [], false, [], maxLen, false, window, false, false, false)
  }

  function NewEndpoint(window: uint32, windowMax: uint32, maxLen: nat): Endpoint {
    Endpoint(NewStream(window, windowMax, maxLen), true, true, false, Free, Idle, [], [], [], 0, false, 0)
  }

  // ----- MuxedStream -----

  /** How many bytes of `p` fit in the write buffer now. */
  function Room(s: Stream, p: Buffer): (n: nat)
    ensures n <= |p|
  {
    if s.writeBufferMaxLen <= |s.writeBuffer| then 0 else Min(s.writeBufferMaxLen - |s.writeBuffer|, |p|)
  }

  /** As much of `p` as fits goes into the write buffer. */
  function Filled(s: Stream, p: Buffer): Stream {
    s.(writeBuffer := s.writeBuffer + p[..Room(s, p)])
  }

  /** The write side closed, with a token for a Write that waits. */
  function WriteClosed(s: Stream): Stream {
    if s.writeEOF then s else s.(writeEOF := true, hasSpace := true)
  }

  /** At most `n` bytes taken out of the read buffer and owed to the window. */
  function Drained(s: Stream, n: nat): Stream {
    var m := Min(n, |s.readBuffer|);
    s.(readBuffer := s.readBuffer[m..], windowUpdate := U32(s.windowUpdate + m))
  }

  function Credited(s: Stream, n: uint32): Stream {
    s.(sendWindow := U32(s.sendWindow + n))
  }

  /** receiveEOF */
  function EndReceived(s: Stream): Stream {
    s.(receivedEOF := true, readClosed := true)
  }

  /** What receiveEOF reports. */
  predicate WriteDone(s: Stream) {
    s.writeEOF && s.writeBuffer == []
  }

  /** The part of Write that runs under the lock, up to its return or its next wait. */
  function WriteSome(e: Endpoint, p: Buffer): Endpoint {
    var n := Room(e.s, p);
    e.(s := Filled(e.s, p), accepted := e.accepted + p[..n], ready := e.ready || n > 0,
       caller := if n < |p| then Parked(p[n..]) else Idle)
  }

  function Write(e: Endpoint, p: Buffer): Endpoint {
    if e.s.writeEOF then e else WriteSome(e, p)
  }

  function Wake(e: Endpoint): Endpoint
    requires e.caller.Parked?
  {
    var f := e.(s := e.s.(hasSpace := false));
    if f.s.writeEOF then f.(caller := Idle) else WriteSome(f, f.caller.rest)
  }

  function CloseWrite(e: Endpoint): Endpoint {
    e.(s := WriteClosed(e.s), ready := e.ready || !e.s.writeEOF)
  }

  function CloseRead(e: Endpoint): Endpoint {
    e.(s := e.s.(readClosed := true))
  }

  /** Read of at most `n` bytes, when the buffer has some or is closed. */
  function Read(e: Endpoint, n: nat): Endpoint {
    e.(s := Drained(e.s, n), taken := e.taken + e.s.readBuffer[..Min(n, |e.s.readBuffer|)], ready := true)
  }

  function ReplenishSendWindow(e: Endpoint, n: uint32): Endpoint {
    e.(s := Credited(e.s, n), ready := true)
  }

  predicate Exhausted(s: Stream, receiveWindow: nat) {
    receiveWindow < s.currentMax / 2 && s.currentMax < s.windowMax
  }

  /** consumeReceiveWindow, when the window has the bytes: an exhausted window doubles, up to its limit. */
  function Charge(s: Stream, n: nat): Stream
    requires n <= s.receiveWindow
  {
    var left := s.receiveWindow - n;
    if !Exhausted(s, left) then s.(receiveWindow := left)
    else
      var newMax := Min(U32(2 * s.currentMax), s.windowMax);
      s.(receiveWindow := left, currentMax := newMax, windowUpdate := U32(s.windowUpdate + Sub32(newMax, s.currentMax)))
  }

  /** The read buffer is closed and refuses the data. */
  predicate Refuses(s: Stream, payload: Buffer) {
    payload != [] && s.readClosed
  }

  function Buffered(s: Stream, payload: Buffer): Stream {
    s.(readBuffer := s.readBuffer + payload)
  }

  /** A data frame for a stream in the map: END_STREAM spares the window, and too much data is not charged to it. */
  function Received(s: Stream, payload: Buffer, end: bool): Stream {
    if Refuses(s, payload) then s
    else if end then EndReceived(Buffered(s, payload))
    else if s.receiveWindow < |payload| then Buffered(s, payload)
    else Charge(Buffered(s, payload), |payload|)
  }

  /** The frame is a stream error. */
  predicate Fails(s: Stream, payload: Buffer, end: bool) {
    Refuses(s, payload) || (!end && s.receiveWindow < |payload|)
  }

  /** The frame takes the stream out of the map. */
  predicate Leaves(s: Stream, payload: Buffer, end: bool) {
    end && !Refuses(s, payload) && WriteDone(s)
  }

  /** The frame makes the receive window grow, which the writer is told. */
  predicate Grows(s: Stream, payload: Buffer, end: bool) {
    !end && !Fails(s, payload, end) && Exhausted(s, s.receiveWindow - |payload|)
  }

  /** getChunk */
  function ChunkOf(s: Stream): Chunk {
    Chunk(s.windowUpdate, !s.sentEOF, s.writeEOF && U32(|s.writeBuffer|) <= s.sendWindow,
          s.writeBuffer[..Min(s.sendWindow, |s.writeBuffer|)], 0)
  }

  function AfterChunk(s: Stream): Stream {
    var n := Min(s.sendWindow, |s.writeBuffer|);
    s.(writeBuffer := s.writeBuffer[n..], sendWindow := s.sendWindow - n,
       hasSpace := s.hasSpace || |s.writeBuffer| - n < s.writeBufferMaxLen,
       receiveWindow := U32(s.receiveWindow + s.windowUpdate), windowUpdate := 0,
       sentEOF := s.sentEOF || ChunkOf(s).eof)
  }

  // ----- MuxWriter -----

  /** nextDataFrame */
  function NextData(c: Chunk, frameSize: nat): (Frame, Chunk)
    requires c.offset <= |c.buffer|
  {
    var n := Min(frameSize, |c.buffer| - c.offset);
    var last := c.offset + n == |c.buffer|;
    (Data(c.buffer[c.offset..c.offset + n], last && c.eof), c.(offset := c.offset + n, sendData := c.sendData && !last))
  }

  /** One frame of writeStreamData: the window update first, then data frames until the chunk is used up. */
  function NextFrame(c: Chunk, frameSize: nat): (Frame, Chunk)
    requires c.offset <= |c.buffer| && (c.windowUpdate > 0 || c.sendData)
  {
    if c.windowUpdate > 0 then (WindowUpdate(c.windowUpdate), c.(windowUpdate := 0)) else NextData(c, frameSize)
  }

  predicate Spent(c: Chunk) {
    c.windowUpdate == 0 && !c.sendData
  }

  /** After END_STREAM, a stream whose read side is closed leaves the map, with a reset if the peer may still send. */
  function AfterEnd(e: Endpoint): (Endpoint, seq<Frame>) {
    if !e.s.readClosed then (e, [])
    else (e.(active := false), if e.s.receivedEOF then [] else [Reset])
  }

  function Emit(e: Endpoint, frameSize: nat): (Endpoint, seq<Frame>)
    requires e.writing.Emitting? && e.writing.chunk.Valid() && !Spent(e.writing.chunk)
  {
    var (f, c) := NextFrame(e.writing.chunk, frameSize);
    var e1 := e.(writing := if Spent(c) then Free else Emitting(c));
    if f.Data? && f.end then
      var (e2, more) := AfterEnd(e1);
      (e2, [f] + more)
    else (e1, [f])
  }

  /** The ready-stream case of run: a stream that left the map is skipped. */
  function Pick(e: Endpoint): Endpoint {
    e.(ready := false, writing := if e.active then Fetching else Free)
  }

  function Fetch(e: Endpoint): Endpoint {
    var c := ChunkOf(e.s);
    e.(s := AfterChunk(e.s), writing := if Spent(c) then Free else Emitting(c))
  }

  // ----- MuxReader -----

  /** Data that is not kept. */
  function Drop(e: Endpoint, payload: Buffer, end: bool): Endpoint {
    e.(lost := e.lost + payload, endSeen := e.endSeen || end)
  }

  /** receiveFrameData */
  function ReceiveData(e: Endpoint, payload: Buffer, end: bool): Endpoint {
    if !e.active then Drop(e, payload, end).(failed := e.failed || !end)
    else if Refuses(e.s, payload) then Drop(e, payload, end).(failed := true)
    else e.(s := Received(e.s, payload, end), active := !Leaves(e.s, payload, end),
            failed := e.failed || Fails(e.s, payload, end), ready := e.ready || Grows(e.s, payload, end),
            endBytes := e.endBytes + (if end then |payload| else 0), endSeen := e.endSeen || end)
  }

  function Receive(e: Endpoint, f: Frame): Endpoint {
    match f
    case Data(payload, end) => ReceiveData(e, payload, end)
    case WindowUpdate(n) => if e.active then ReplenishSendWindow(e, n) else e.(lostCredit := e.lostCredit + n)
    case Reset => if e.active then CloseRead(CloseWrite(e)).(active := false) else e
  }

  // ----- the system -----

  datatype System = System(a: Endpoint, b: Endpoint, ab: seq<Frame>, ba: seq<Frame>, frameSize: nat)
  {
    function Swap(): System {
      System(b, a, ba, ab, frameSize)
    }
  }

  /** What the application or one of the goroutines of an end does next. */
  datatype Action =
    | DoWrite(p: Buffer) | DoWake | DoCloseWrite | DoCloseRead | DoCloseStreamRead | DoRead(n: nat)
    | DoPick | DoFetch | DoEmit | DoReset | DoReceive

  datatype Event = ByA(action: Action) | ByB(action: Action)

  /** A step that is not possible now changes nothing. */
  predicate Enabled(e: Endpoint, incoming: seq<Frame>, act: Action) {
    match act
    case DoWrite(_) => e.caller.Idle?
    case DoWake => e.caller.Parked? && e.s.hasSpace
    case DoRead(n) => n > 0 && (e.s.readBuffer != [] || e.s.readClosed)
    case DoPick => e.ready && e.writing.Free?
    case DoFetch => e.writing.Fetching?
    case DoEmit => e.writing.Emitting? && e.writing.chunk.Valid() && !Spent(e.writing.chunk)
    case DoReset => e.failed
    case DoReceive => incoming != []
    case _ => true
  }

  function Act(e: Endpoint, incoming: seq<Frame>, act: Action, frameSize: nat): (Endpoint, seq<Frame>)
    requires Enabled(e, incoming, act)
  {
    match act
    case DoWrite(p) => (Write(e, p), [])
    case DoWake => (Wake(e), [])
    case DoCloseWrite => (CloseWrite(e), [])
    case DoCloseRead => (CloseRead(e), [])
    case DoCloseStreamRead => (CloseRead(e).(active := e.active && !e.s.writeEOF), [])
    case DoRead(n) => (Read(e, n), [])
    case DoPick => (Pick(e), [])
    case DoFetch => (Fetch(e), [])
    case DoEmit => Emit(e, frameSize)
    case DoReset => (e.(failed := false), [Reset])
    case DoReceive => (Receive(e, incoming[0]), [])
  }

  function StepA(s: System, act: Action): System {
    if !Enabled(s.a, s.ba, act) then s
    else
      var (a, sent) := Act(s.a, s.ba, act, s.frameSize);
      s.(a := a, ab := s.ab + sent, ba := if act.DoReceive? then s.ba[1..] else s.ba)
  }

  function Step(s: System, ev: Event): System {
    match ev
    case ByA(act) => StepA(s, act)
    case ByB(act) => StepA(s.Swap(), act).Swap()
  }

  function Run(s: System, evs: seq<Event>): System {
    if evs == [] then s else Step(Run(s, evs[..|evs| - 1]), evs[|evs| - 1])
  }

  /** Both ends are configured alike: 0 < DefaultWindowSize <= MaxWindowSize <= 2^31 - 1. */
  datatype Config = Config(window: uint32, windowMax: uint32, maxLen: nat, frameSize: nat)
  {
    predicate Valid() {
      0 < window <= windowMax <= MAX_WINDOW && 0 < maxLen < TWO_32 && 0 < frameSize
    }

    function Start(): System {
      var e := NewEndpoint(window, windowMax, maxLen);
      System(e, e, [], [], frameSize)
    }
  }
}
