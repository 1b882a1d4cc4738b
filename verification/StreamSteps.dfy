/** Each step of either end keeps the stream's invariant. */
module StreamSteps {
  import opened Bytes
  import opened StreamModel
  import opened StreamInvariant

  // ----- the application -----

  /** The fields the two directions speak of. */
  predicate SameForDirections(e: Endpoint, f: Endpoint) {
    && f.s.sendWindow == e.s.sendWindow && f.lostCredit == e.lostCredit && f.writing == e.writing
    && f.endBytes == e.endBytes && f.lost == e.lost && f.s.receiveWindow == e.s.receiveWindow
    && f.accepted == e.accepted && f.taken == e.taken && f.s.readBuffer == e.s.readBuffer
    && f.s.writeBuffer == e.s.writeBuffer && f.endSeen == e.endSeen && f.s.sentEOF == e.s.sentEOF
  }

  lemma DirectionsKept(e: Endpoint, f: Endpoint, y: Endpoint, xy: seq<Frame>, yx: seq<Frame>)
    requires DirectionOK(e, y, xy, yx) && DirectionOK(y, e, yx, xy) && SameForDirections(e, f)
    ensures DirectionOK(f, y, xy, yx) && DirectionOK(y, f, yx, xy)
  {
  }

  lemma WriteSomeKeeps(x: Endpoint, y: Endpoint, xy: seq<Frame>, yx: seq<Frame>, p: Buffer)
    requires EndpointOK(x.(caller := Idle)) && !x.s.writeEOF
    requires DirectionOK(x, y, xy, yx) && DirectionOK(y, x, yx, xy)
    ensures BothOK(WriteSome(x, p), y, xy, yx)
  {
    WriteSomeEndpoint(x, p);
    hide EndpointOK;
    Associate(y.taken + y.s.readBuffer + y.lost + PayloadOf(xy) + Rest(x), x.s.writeBuffer, p[..Room(x.s, p)]);
  }

  lemma WriteSomeEndpoint(x: Endpoint, p: Buffer)
    requires EndpointOK(x.(caller := Idle)) && !x.s.writeEOF
    ensures EndpointOK(WriteSome(x, p))
  {
    if Room(x.s, p) == 0 {
      assert x.s.writeBuffer + p[..0] == x.s.writeBuffer;
    }
  }

  lemma WriteKeeps(x: Endpoint, y: Endpoint, xy: seq<Frame>, yx: seq<Frame>, p: Buffer)
    requires BothOK(x, y, xy, yx) && x.caller.Idle?
    ensures BothOK(Write(x, p), y, xy, yx)
  {
    assert x.(caller := Idle) == x;
    if !x.s.writeEOF {
      WriteSomeKeeps(x, y, xy, yx, p);
    }
  }

  lemma WakeKeeps(x: Endpoint, y: Endpoint, xy: seq<Frame>, yx: seq<Frame>)
    requires BothOK(x, y, xy, yx) && x.caller.Parked?
    ensures BothOK(Wake(x), y, xy, yx)
  {
    var f := x.(s := x.s.(hasSpace := false));
    DirectionsKept(x, f, y, xy, yx);
    if x.s.writeEOF {
      DirectionsKept(x, Wake(x), y, xy, yx);
    } else {
      WriteSomeKeeps(f, y, xy, yx, x.caller.rest);
    }
  }

  lemma CloseWriteKeeps(x: Endpoint, y: Endpoint, xy: seq<Frame>, yx: seq<Frame>)
    requires BothOK(x, y, xy, yx)
    ensures BothOK(CloseWrite(x), y, xy, yx)
  {
    DirectionsKept(x, CloseWrite(x), y, xy, yx);
  }

  /** Closing the read side, and leaving the map, only switch things off. */
  lemma CloseReadKeeps(x: Endpoint, y: Endpoint, xy: seq<Frame>, yx: seq<Frame>, active: bool)
    requires BothOK(x, y, xy, yx) && (active ==> x.active)
    ensures BothOK(CloseRead(x).(active := active), y, xy, yx)
  {
    DirectionsKept(x, CloseRead(x).(active := active), y, xy, yx);
  }

  lemma ReadKeeps(x: Endpoint, y: Endpoint, xy: seq<Frame>, yx: seq<Frame>, n: nat)
    requires BothOK(x, y, xy, yx)
    ensures BothOK(Read(x, n), y, xy, yx)
  {
    var f, m := Read(x, n), Min(n, |x.s.readBuffer|);
    assert x.s.readBuffer[..m] + x.s.readBuffer[m..] == x.s.readBuffer;
    assert f.taken + f.s.readBuffer == x.taken + x.s.readBuffer;
  }

  // ----- the writer -----

  lemma PickKeeps(x: Endpoint, y: Endpoint, xy: seq<Frame>, yx: seq<Frame>)
    requires BothOK(x, y, xy, yx) && x.writing.Free?
    ensures BothOK(Pick(x), y, xy, yx)
  {
    assert PendingChunk(Pick(x)) == PendingChunk(x);
  }

  lemma FetchEndpoint(x: Endpoint)
    requires EndpointOK(x) && x.writing.Fetching? && x.s.windowUpdate <= MAX_WINDOW
    ensures EndpointOK(Fetch(x))
    ensures var n := Min(x.s.sendWindow, |x.s.writeBuffer|);
            && Rest(Fetch(x)) == x.s.writeBuffer[..n] && PendingChunk(Fetch(x)).windowUpdate == x.s.windowUpdate
            && EndPending(Fetch(x)) == (!x.s.sentEOF && Fetch(x).s.sentEOF)
            && Fetch(x).s.receiveWindow == x.s.receiveWindow + x.s.windowUpdate
  {
    var c, f := ChunkOf(x.s), Fetch(x);
    assert c.buffer[0..] == c.buffer;
    if x.s.sentEOF {
      assert x.s.writeBuffer == [];
    }
  }

  lemma FetchKeeps(x: Endpoint, y: Endpoint, xy: seq<Frame>, yx: seq<Frame>)
    requires BothOK(x, y, xy, yx) && x.writing.Fetching?
    ensures BothOK(Fetch(x), y, xy, yx)
  {
    hide EndpointOK, CreditOK, BytesOK, EndOK, Fetch;
    OwedFits(x, y, xy, yx);
    FetchEndpoint(x);
    FetchBytes(x, y, xy);
    FetchCredit(x, y, xy, yx);
    FetchEnds(x, y, xy, yx);
  }

  lemma OwedFits(x: Endpoint, y: Endpoint, xy: seq<Frame>, yx: seq<Frame>)
    requires EndpointOK(x) && CreditOK(y, x, yx, xy)
    ensures x.s.windowUpdate <= MAX_WINDOW
  {
  }

  lemma FetchCredit(x: Endpoint, y: Endpoint, xy: seq<Frame>, yx: seq<Frame>)
    requires CreditOK(x, y, xy, yx) && CreditOK(y, x, yx, xy) && x.writing.Fetching?
    requires var n := Min(x.s.sendWindow, |x.s.writeBuffer|);
             && Rest(Fetch(x)) == x.s.writeBuffer[..n] && PendingChunk(Fetch(x)).windowUpdate == x.s.windowUpdate
             && Fetch(x).s.receiveWindow == x.s.receiveWindow + x.s.windowUpdate
    ensures CreditOK(Fetch(x), y, xy, yx) && CreditOK(y, Fetch(x), yx, xy)
  {
    hide ChunkOf;
    assert PendingChunk(x).windowUpdate == 0 && Rest(x) == [];
  }

  lemma FetchEnds(x: Endpoint, y: Endpoint, xy: seq<Frame>, yx: seq<Frame>)
    requires EndOK(x, y, xy) && EndOK(y, x, yx) && BytesOK(y, x, yx) && x.writing.Fetching?
    requires EndPending(Fetch(x)) == (!x.s.sentEOF && Fetch(x).s.sentEOF)
    ensures EndOK(Fetch(x), y, xy) && EndOK(y, Fetch(x), yx) && BytesOK(y, Fetch(x), yx)
  {
    hide ChunkOf;
  }

  lemma FetchBytes(x: Endpoint, y: Endpoint, xy: seq<Frame>)
    requires BytesOK(x, y, xy) && x.writing.Fetching?
    requires Rest(Fetch(x)) == x.s.writeBuffer[..Min(x.s.sendWindow, |x.s.writeBuffer|)]
    ensures BytesOK(Fetch(x), y, xy)
  {
    var n := Min(x.s.sendWindow, |x.s.writeBuffer|);
    assert x.s.writeBuffer[..n] + x.s.writeBuffer[n..] == x.s.writeBuffer;
    var before := y.taken + y.s.readBuffer + y.lost + PayloadOf(xy);
    Associate(before, x.s.writeBuffer[..n], x.s.writeBuffer[n..]);
    assert before + [] == before;
  }

  /** A reset frame carries nothing. */
  lemma ResetKeeps(x: Endpoint, y: Endpoint, xy: seq<Frame>, yx: seq<Frame>)
    requires BothOK(x, y, xy, yx)
    ensures BothOK(x, y, xy + [Reset], yx)
  {
    Appended(xy, Reset);
  }

  lemma EmitUpdateKeeps(x: Endpoint, y: Endpoint, xy: seq<Frame>, yx: seq<Frame>, f: Endpoint)
    requires BothOK(x, y, xy, yx) && x.writing.Emitting? && x.writing.chunk.windowUpdate > 0
    requires var c := x.writing.chunk.(windowUpdate := 0); f == x.(writing := if Spent(c) then Free else Emitting(c))
    ensures BothOK(f, y, xy + [WindowUpdate(x.writing.chunk.windowUpdate)], yx)
  {
    Appended(xy, WindowUpdate(x.writing.chunk.windowUpdate));
    assert Rest(f) == Rest(x);
  }

  /** While a chunk still has data to send, END_STREAM is not on its way. */
  lemma NoEndYet(x: Endpoint, y: Endpoint, xy: seq<Frame>)
    requires EndOK(x, y, xy) && ChunkOK(x) && PendingChunk(x).sendData
    ensures EndsOf(xy) == 0 && !y.endSeen
  {
  }

  lemma EmitDataKeeps(x: Endpoint, y: Endpoint, xy: seq<Frame>, yx: seq<Frame>, n: nat, f: Endpoint)
    requires BothOK(x, y, xy, yx) && x.writing.Emitting?
    requires x.writing.chunk.windowUpdate == 0 && x.writing.chunk.sendData
    requires var c := x.writing.chunk;
             && c.offset + n <= |c.buffer| && (n > 0 || c.offset == |c.buffer|)
             && var last := c.offset + n == |c.buffer|;
                f == x.(writing := if last then Free else Emitting(c.(offset := c.offset + n)))
    ensures var c := x.writing.chunk;
            BothOK(f, y, xy + [Data(c.buffer[c.offset..c.offset + n], c.offset + n == |c.buffer| && c.eof)], yx)
  {
    hide EndpointOK, CreditOK, BytesOK, EndOK;
    var c := x.writing.chunk;
    var d := Data(c.buffer[c.offset..c.offset + n], c.offset + n == |c.buffer| && c.eof);
    EmitDataEndpoint(x, n, f);
    EmitDataBytes(x, y, xy, d, f);
    EmitDataEnds(x, y, xy, d, f);
    EmitDataCredit(x, y, xy, yx, d, f);
    EmitDataOther(x, y, yx, f);
  }

  lemma EmitDataEndpoint(x: Endpoint, n: nat, f: Endpoint)
    requires EndpointOK(x) && x.writing.Emitting? && x.writing.chunk.windowUpdate == 0 && x.writing.chunk.sendData
    requires var c := x.writing.chunk;
             && c.offset + n <= |c.buffer| && (n > 0 || c.offset == |c.buffer|)
             && f == x.(writing := if c.offset + n == |c.buffer| then Free else Emitting(c.(offset := c.offset + n)))
    ensures EndpointOK(f) && ChunkOK(x)
    ensures var c := x.writing.chunk; c.buffer[c.offset..c.offset + n] + Rest(f) == Rest(x)
  {
    hide NothingToSend;
    var c := x.writing.chunk;
    assert c.buffer[c.offset..] == c.buffer[c.offset..c.offset + n] + c.buffer[c.offset + n..];
    assert c.buffer[|c.buffer|..] == [];
  }

  lemma EmitDataCredit(x: Endpoint, y: Endpoint, xy: seq<Frame>, yx: seq<Frame>, d: Frame, f: Endpoint)
    requires CreditOK(x, y, xy, yx) && CreditOK(y, x, yx, xy) && d.Data? && d.payload + Rest(f) == Rest(x)
    requires f.s == x.s && f.lostCredit == x.lostCredit && f.endBytes == x.endBytes && f.lost == x.lost
    requires PendingChunk(f).windowUpdate == PendingChunk(x).windowUpdate
    ensures CreditOK(f, y, xy + [d], yx) && CreditOK(y, f, yx, xy + [d])
  {
    Appended(xy, d);
    assert |Rest(x)| == |d.payload| + |Rest(f)|;
  }

  lemma EmitDataOther(x: Endpoint, y: Endpoint, yx: seq<Frame>, f: Endpoint)
    requires BytesOK(y, x, yx) && EndOK(y, x, yx) && f.s == x.s && f.taken == x.taken && f.lost == x.lost
    requires f.endSeen == x.endSeen
    ensures BytesOK(y, f, yx) && EndOK(y, f, yx)
  {
  }

  lemma EmitDataBytes(x: Endpoint, y: Endpoint, xy: seq<Frame>, d: Frame, f: Endpoint)
    requires BytesOK(x, y, xy) && d.Data? && d.payload + Rest(f) == Rest(x)
    requires f.accepted == x.accepted && f.s.writeBuffer == x.s.writeBuffer
    ensures BytesOK(f, y, xy + [d])
  {
    Appended(xy, d);
    var before := y.taken + y.s.readBuffer + y.lost;
    Associate(before, PayloadOf(xy), d.payload);
    Associate(before + PayloadOf(xy), d.payload, Rest(f));
  }

  lemma EmitDataEnds(x: Endpoint, y: Endpoint, xy: seq<Frame>, d: Frame, f: Endpoint)
    requires EndOK(x, y, xy) && ChunkOK(x) && PendingChunk(x).sendData && d.Data? && f.s.sentEOF == x.s.sentEOF
    requires d.end ==> EndPending(x) && !EndPending(f)
    requires !d.end ==> EndPending(f) == EndPending(x)
    ensures EndOK(f, y, xy + [d])
  {
    Appended(xy, d);
    NoEndYet(x, y, xy);
    NoEnds(xy);
  }

  lemma AfterEndKeeps(x: Endpoint, y: Endpoint, xy: seq<Frame>, yx: seq<Frame>)
    requires BothOK(x, y, xy, yx)
    ensures var (e, more) := AfterEnd(x); BothOK(e, y, xy + more, yx)
  {
    hide BothOK;
    if x.s.readClosed {
      CloseReadKeeps(x, y, xy, yx, false);
      assert CloseRead(x).(active := false) == x.(active := false);
      ResetKeeps(x.(active := false), y, xy, yx);
    }
    assert xy + [] == xy;
  }

  lemma EmitKeeps(x: Endpoint, y: Endpoint, xy: seq<Frame>, yx: seq<Frame>, frameSize: nat)
    requires BothOK(x, y, xy, yx) && x.writing.Emitting? && frameSize > 0
    requires x.writing.chunk.Valid() && !Spent(x.writing.chunk)
    ensures var (e, sent) := Emit(x, frameSize); BothOK(e, y, xy + sent, yx)
  {
    hide BothOK;
    var (d, c) := NextFrame(x.writing.chunk, frameSize);
    var e := x.(writing := if Spent(c) then Free else Emitting(c));
    assert BothOK(e, y, xy + [d], yx) by {
      if x.writing.chunk.windowUpdate > 0 {
        EmitUpdateKeeps(x, y, xy, yx, e);
      } else {
        EmitDataKeeps(x, y, xy, yx, Min(frameSize, |x.writing.chunk.buffer| - x.writing.chunk.offset), e);
      }
    }
    if d.Data? && d.end {
      AfterEndKeeps(e, y, xy + [d], yx);
      var more := AfterEnd(e).1;
      assert xy + [d] + more == xy + ([d] + more);
    }
  }

  // ----- the reader -----

  /** The credit law bounds what may arrive. */
  lemma ArrivingFits(x: Endpoint, y: Endpoint, xy: seq<Frame>, yx: seq<Frame>)
    requires CreditOK(y, x, yx, xy) && yx != []
    ensures yx[0].Data? ==> |yx[0].payload| <= x.s.receiveWindow
  {
  }

  /** Bytes the reader does not keep. */
  lemma DropKeeps(x: Endpoint, y: Endpoint, xy: seq<Frame>, yx: seq<Frame>, failed: bool)
    requires BothOK(x, y, xy, yx) && yx != [] && yx[0].Data?
    requires !x.active || x.s.readClosed
    ensures BothOK(Drop(x, yx[0].payload, yx[0].end).(failed := failed), y, xy, yx[1..])
  {
    var d := yx[0];
    var f := Drop(x, d.payload, d.end).(failed := failed);
    Associate(x.taken + x.s.readBuffer, x.lost, d.payload);
    Associate(x.taken + x.s.readBuffer + x.lost, d.payload, PayloadOf(yx[1..]));
    assert NoData(yx[1..]) <== d.end;
    RestEnds(yx);
  }

  lemma RestEnds(ch: seq<Frame>)
    requires ch != [] && EndLast(ch)
    ensures EndLast(ch[1..]) && (IsEnd(ch[0]) ==> NoData(ch[1..]))
  {
    assert forall i :: 0 <= i < |ch| - 1 ==> ch[1..][i] == ch[i + 1];
  }

  /** Bytes that go into the read buffer, before they are charged to the window. */
  lemma KeptBytes(x: Endpoint, y: Endpoint, yx: seq<Frame>)
    requires BytesOK(y, x, yx) && WindowsOK(x) && yx != [] && yx[0].Data?
    requires x.active && !Refuses(x.s, yx[0].payload)
    ensures BytesOK(y, x.(s := Buffered(x.s, yx[0].payload)), yx[1..])
  {
    var p := yx[0].payload;
    if p == [] {
      assert x.s.readBuffer + p == x.s.readBuffer;
      assert p + PayloadOf(yx[1..]) == PayloadOf(yx[1..]);
    } else {
      assert x.lost == [];
      assert x.taken + x.s.readBuffer + x.lost + PayloadOf(yx)
             == x.taken + (x.s.readBuffer + p) + x.lost + PayloadOf(yx[1..]);
    }
  }

  lemma EndKeeps(x: Endpoint, y: Endpoint, xy: seq<Frame>, yx: seq<Frame>)
    requires BothOK(x, y, xy, yx) && yx != [] && IsEnd(yx[0])
    requires x.active && !Refuses(x.s, yx[0].payload)
    ensures BothOK(ReceiveData(x, yx[0].payload, true), y, xy, yx[1..])
  {
    KeptBytes(x, y, yx);
    RestEnds(yx);
    ArrivingFits(x, y, xy, yx);
  }

  /** The receive window's limit after a charge, without wrap-around. */
  function NewMax(s: Stream, left: nat): nat {
    if Exhausted(s, left) then Min(2 * s.currentMax, s.windowMax) else s.currentMax
  }

  /** A charge never wraps: what the limit gains, the pending window update gains. */
  lemma ChargeExact(s: Stream, n: nat)
    requires n <= s.receiveWindow && s.currentMax <= s.windowMax <= MAX_WINDOW && s.windowUpdate <= MAX_WINDOW
    ensures var m := NewMax(s, s.receiveWindow - n);
            && s.currentMax <= m <= s.windowMax && s.windowUpdate + (m - s.currentMax) < TWO_32
            && Charge(s, n) == s.(receiveWindow := s.receiveWindow - n, currentMax := m,
                                  windowUpdate := s.windowUpdate + (m - s.currentMax))
  {
  }

  lemma ChargeEndpoint(x: Endpoint, p: Buffer)
    requires EndpointOK(x) && x.active && |p| <= x.s.receiveWindow && x.s.windowUpdate <= MAX_WINDOW
    requires (p == [] || x.lost == []) && !Refuses(x.s, p)
    ensures EndpointOK(ReceiveData(x, p, false))
  {
    hide Charge;
    ChargeExact(Buffered(x.s, p), |p|);
  }

  lemma ChargeKeeps(x: Endpoint, y: Endpoint, xy: seq<Frame>, yx: seq<Frame>)
    requires BothOK(x, y, xy, yx) && yx != [] && yx[0].Data? && !yx[0].end
    requires x.active && !Refuses(x.s, yx[0].payload)
    ensures BothOK(ReceiveData(x, yx[0].payload, false), y, xy, yx[1..])
  {
    var p := yx[0].payload;
    KeptBytes(x, y, yx);
    RestEnds(yx);
    ArrivingFits(x, y, xy, yx);
    ChargeEndpoint(x, p);
    hide Charge, EndpointOK;
    assert x.s.windowUpdate <= x.s.currentMax;
    ChargeExact(Buffered(x.s, p), |p|);
  }

  lemma ReceiveDataKeeps(x: Endpoint, y: Endpoint, xy: seq<Frame>, yx: seq<Frame>)
    requires BothOK(x, y, xy, yx) && yx != [] && yx[0].Data?
    ensures BothOK(ReceiveData(x, yx[0].payload, yx[0].end), y, xy, yx[1..])
  {
    hide BothOK, Charge;
    var d := yx[0];
    if !x.active {
      DropKeeps(x, y, xy, yx, x.failed || !d.end);
    } else if Refuses(x.s, d.payload) {
      DropKeeps(x, y, xy, yx, true);
    } else if d.end {
      EndKeeps(x, y, xy, yx);
    } else {
      ChargeKeeps(x, y, xy, yx);
    }
  }

  /** Taking a frame without data off the channel: only its credit, if any, moves. */
  lemma PopQuiet(x: Endpoint, y: Endpoint, yx: seq<Frame>)
    requires yx != [] && !yx[0].Data?
    requires BytesOK(y, x, yx) && EndOK(y, x, yx)
    ensures PayloadOf(yx[1..]) == PayloadOf(yx) && BytesOK(y, x, yx[1..]) && EndOK(y, x, yx[1..])
  {
    assert PayloadOf(yx) == PayloadOf(yx[1..]);
    RestEnds(yx);
    if x.endSeen {
      assert forall i :: 0 <= i < |yx| - 1 ==> yx[1..][i] == yx[i + 1];
    }
  }

  lemma UpdateCredit(x: Endpoint, y: Endpoint, xy: seq<Frame>, yx: seq<Frame>)
    requires CreditOK(x, y, xy, yx) && EndpointOK(y) && yx != [] && yx[0].WindowUpdate?
    ensures CreditOK(Receive(x, yx[0]), y, xy, yx[1..])
  {
    var n := yx[0].increment;
    assert CreditOf(yx) == n + CreditOf(yx[1..]);
    assert x.s.sendWindow + n <= y.s.receiveWindow;
    assert forall i :: 0 <= i < |yx| - 1 ==> yx[1..][i] == yx[i + 1];
  }

  lemma ReceiveUpdateKeeps(x: Endpoint, y: Endpoint, xy: seq<Frame>, yx: seq<Frame>)
    requires BothOK(x, y, xy, yx) && EndpointOK(y) && yx != [] && yx[0].WindowUpdate?
    ensures BothOK(Receive(x, yx[0]), y, xy, yx[1..])
  {
    PopQuiet(x, y, yx);
    UpdateCredit(x, y, xy, yx);
  }

  lemma PopReset(x: Endpoint, y: Endpoint, xy: seq<Frame>, yx: seq<Frame>)
    requires BothOK(x, y, xy, yx) && yx != [] && yx[0].Reset?
    ensures BothOK(x, y, xy, yx[1..])
  {
    PopQuiet(x, y, yx);
    assert CreditOf(yx) == CreditOf(yx[1..]);
    assert forall i :: 0 <= i < |yx| - 1 ==> yx[1..][i] == yx[i + 1];
  }

  lemma ReceiveResetKeeps(x: Endpoint, y: Endpoint, xy: seq<Frame>, yx: seq<Frame>)
    requires BothOK(x, y, xy, yx) && yx != [] && yx[0].Reset?
    ensures BothOK(Receive(x, yx[0]), y, xy, yx[1..])
  {
    hide BothOK;
    PopReset(x, y, xy, yx);
    if x.active {
      CloseWriteKeeps(x, y, xy, yx[1..]);
      CloseReadKeeps(CloseWrite(x), y, xy, yx[1..], false);
    }
  }

  lemma ReceiveKeeps(x: Endpoint, y: Endpoint, xy: seq<Frame>, yx: seq<Frame>)
    requires BothOK(x, y, xy, yx) && EndpointOK(y) && yx != []
    ensures BothOK(Receive(x, yx[0]), y, xy, yx[1..])
  {
    hide BothOK;
    match yx[0]
    case Data(_, _) => ReceiveDataKeeps(x, y, xy, yx);
    case WindowUpdate(_) => ReceiveUpdateKeeps(x, y, xy, yx);
    case Reset => ReceiveResetKeeps(x, y, xy, yx);
  }

  // ----- every step -----

  lemma ActKeeps(s: System, act: Action)
    requires Inv(s) && Enabled(s.a, s.ba, act)
    ensures var (a, sent) := Act(s.a, s.ba, act, s.frameSize);
            BothOK(a, s.b, s.ab + sent, if act.DoReceive? then s.ba[1..] else s.ba)
  {
    assert BothOK(s.a, s.b, s.ab, s.ba);
    hide BothOK, EndpointOK;
    assert s.ab + [] == s.ab;
    match act
    case DoWrite(p) => WriteKeeps(s.a, s.b, s.ab, s.ba, p);
    case DoWake => WakeKeeps(s.a, s.b, s.ab, s.ba);
    case DoCloseWrite => CloseWriteKeeps(s.a, s.b, s.ab, s.ba);
    case DoCloseRead =>
      CloseReadKeeps(s.a, s.b, s.ab, s.ba, s.a.active);
      assert CloseRead(s.a).(active := s.a.active) == CloseRead(s.a);
    case DoCloseStreamRead => CloseReadKeeps(s.a, s.b, s.ab, s.ba, s.a.active && !s.a.s.writeEOF);
    case DoRead(n) => ReadKeeps(s.a, s.b, s.ab, s.ba, n);
    case DoPick => PickKeeps(s.a, s.b, s.ab, s.ba);
    case DoFetch => FetchKeeps(s.a, s.b, s.ab, s.ba);
    case DoEmit => EmitKeeps(s.a, s.b, s.ab, s.ba, s.frameSize);
    case DoReset => FailureReported(s.a, s.b, s.ab, s.ba);
    case DoReceive => ReceiveKeeps(s.a, s.b, s.ab, s.ba);
  }

  lemma FailureReported(x: Endpoint, y: Endpoint, xy: seq<Frame>, yx: seq<Frame>)
    requires BothOK(x, y, xy, yx)
    ensures BothOK(x.(failed := false), y, xy + [Reset], yx)
  {
    var f := x.(failed := false);
    DirectionsKept(x, f, y, xy, yx);
    ResetKeeps(f, y, xy, yx);
  }

  lemma StepAKeeps(s: System, act: Action)
    requires Inv(s)
    ensures Inv(StepA(s, act))
  {
    if Enabled(s.a, s.ba, act) {
      ActKeeps(s, act);
    }
  }

  lemma StepKeeps(s: System, ev: Event)
    requires Inv(s)
    ensures Inv(Step(s, ev))
  {
    match ev
    case ByA(act) => StepAKeeps(s, act);
    case ByB(act) => StepAKeeps(s.Swap(), act);
  }

  lemma StartInv(c: Config)
    requires c.Valid()
    ensures Inv(c.Start())
  {
  }

  /** The invariant holds in every state of every run. */
  lemma {:induction false} RunInv(c: Config, evs: seq<Event>)
    requires c.Valid()
    ensures Inv(Run(c.Start(), evs))
  {
    if evs == [] {
      StartInv(c);
    } else {
      hide Inv, Step;
      RunInv(c, evs[..|evs| - 1]);
      StepKeeps(Run(c.Start(), evs[..|evs| - 1]), evs[|evs| - 1]);
    }
  }
}
