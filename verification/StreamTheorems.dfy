/** What every run of a stream between two ends guarantees. */
module StreamTheorems {
  import opened Bytes
  import opened StreamModel
  import opened StreamInvariant
  import opened StreamSteps

  // ----- the two ends are alike -----

  function Mirror(evs: seq<Event>): seq<Event> {
    seq(|evs|, i requires 0 <= i < |evs| =>
      match evs[i]
      case ByA(act) => ByB(act)
      case ByB(act) => ByA(act))
  }

  /** Whatever holds of one end in every run holds of the other. */
  lemma {:induction false} EitherEnd(c: Config, evs: seq<Event>)
    ensures Run(c.Start(), Mirror(evs)) == Run(c.Start(), evs).Swap()
  {
    if evs != [] {
      EitherEnd(c, evs[..|evs| - 1]);
      assert Mirror(evs)[..|evs| - 1] == Mirror(evs[..|evs| - 1]);
    }
  }

  // ----- bytes -----

  /**
    What b has read and can still read is a prefix of what a's Write accepted; unless discarded, the rest is on its
    way.
   */
  predicate InOrder(s: System) {
    && s.b.taken + s.b.s.readBuffer <= s.a.accepted
    && (s.b.lost == [] ==>
          s.a.accepted == s.b.taken + s.b.s.readBuffer + PayloadOf(s.ab) + Rest(s.a) + s.a.s.writeBuffer)
  }

  /**
    Whatever the interleaving, and even across local closes and resets, bytes arrive in order and none twice; and
    while nothing was discarded, every accepted byte is in exactly one place on its way.
   */
  lemma BytesArriveInOrder(c: Config, evs: seq<Event>)
    requires c.Valid()
    ensures InOrder(Run(c.Start(), evs)) && InOrder(Run(c.Start(), evs).Swap())
  {
    RunInv(c, evs);
    var s := Run(c.Start(), evs);
    OneWayInOrder(s);
    OneWayInOrder(s.Swap());
  }

  lemma OneWayInOrder(s: System)
    requires BytesOK(s.a, s.b, s.ab)
    ensures InOrder(s)
  {
    var got := s.b.taken + s.b.s.readBuffer;
    assert s.a.accepted == got + (s.b.lost + PayloadOf(s.ab) + Rest(s.a) + s.a.s.writeBuffer);
    if s.b.lost == [] {
      assert got + s.b.lost == got;
    }
  }

  // ----- the end of a stream -----

  predicate EndOnce(s: System) {
    && EndsOf(s.ab) + (if s.b.endSeen then 1 else 0) <= 1
    && EndLast(s.ab)
    && (s.b.endSeen ==> NoData(s.ab))
    && (EndsOf(s.ab) == 1 || s.b.endSeen ==> s.a.s.writeEOF && s.a.s.writeBuffer == [] && Rest(s.a) == [])
  }

  /** END_STREAM is sent at most once, nothing follows it, and it is sent only after the last accepted byte. */
  lemma EndSentOnce(c: Config, evs: seq<Event>)
    requires c.Valid()
    ensures EndOnce(Run(c.Start(), evs)) && EndOnce(Run(c.Start(), evs).Swap())
  {
    RunInv(c, evs);
    var s := Run(c.Start(), evs);
    OneWayEnds(s);
    OneWayEnds(s.Swap());
  }

  lemma OneWayEnds(s: System)
    requires Inv(s)
    ensures EndOnce(s)
  {
  }

  predicate EndComplete(s: System) {
    s.b.s.receivedEOF && s.b.lost == [] ==> s.b.taken + s.b.s.readBuffer == s.a.accepted && s.a.s.writeEOF
  }

  /** An end that was told of END_STREAM, and discarded nothing, has received everything the other end accepted. */
  lemma EndMeansAll(c: Config, evs: seq<Event>)
    requires c.Valid()
    ensures EndComplete(Run(c.Start(), evs)) && EndComplete(Run(c.Start(), evs).Swap())
  {
    RunInv(c, evs);
    var s := Run(c.Start(), evs);
    OneWayComplete(s);
    OneWayComplete(s.Swap());
  }

  lemma OneWayComplete(s: System)
    requires Inv(s)
    ensures EndComplete(s)
  {
    if s.b.s.receivedEOF && s.b.lost == [] {
      NoPayload(s.ab);
      assert s.b.taken + s.b.s.readBuffer + [] + [] + [] + [] == s.b.taken + s.b.s.readBuffer;
    }
  }

  predicate ClosesRead(act: Action) {
    act.DoCloseRead? || act.DoCloseStreamRead?
  }

  predicate NoReset(ch: seq<Frame>) {
    forall i :: 0 <= i < |ch| ==> !ch[i].Reset?
  }

  /** No application has given up reading: nothing was discarded, and a read side is closed only by END_STREAM. */
  predicate StillRead(e: Endpoint) {
    && !e.failed && e.lost == []
    && (e.s.readClosed ==> e.s.receivedEOF)
    && (!e.active ==> e.s.receivedEOF)
  }

  predicate AllRead(s: System) {
    StillRead(s.a) && StillRead(s.b) && NoReset(s.ab) && NoReset(s.ba)
  }

  lemma ReceiveStillRead(s: System)
    requires Inv(s) && AllRead(s) && s.ba != []
    ensures StillRead(Receive(s.a, s.ba[0]))
  {
    ArrivingFits(s.a, s.b, s.ab, s.ba);
    assert !s.ba[0].Reset?;
    if s.a.s.receivedEOF {
      assert !s.ba[0].Data?;
    }
  }

  lemma StepAllRead(s: System, act: Action)
    requires Inv(s) && AllRead(s) && !ClosesRead(act)
    ensures AllRead(StepA(s, act))
  {
    if act.DoReceive? && s.ba != [] {
      hide Inv, Receive, StillRead;
      ReceiveStillRead(s);
      assert NoReset(s.ba[1..]);
      assert s.ab + [] == s.ab;
    } else if Enabled(s.a, s.ba, act) {
      StillReadKept(s.a, s.ba, act, s.frameSize);
      var sent := Act(s.a, s.ba, act, s.frameSize).1;
      assert NoReset(s.ab + sent);
    }
  }

  lemma StillReadKept(e: Endpoint, incoming: seq<Frame>, act: Action, frameSize: nat)
    requires StillRead(e) && Enabled(e, incoming, act) && !ClosesRead(act) && !act.DoReceive?
    ensures var (f, sent) := Act(e, incoming, act, frameSize); StillRead(f) && NoReset(sent)
  {
  }

  lemma {:induction false} RunAllRead(c: Config, evs: seq<Event>)
    requires c.Valid() && forall i :: 0 <= i < |evs| ==> !ClosesRead(evs[i].action)
    ensures AllRead(Run(c.Start(), evs))
  {
    if evs != [] {
      hide Inv, StepA, AllRead;
      var before := Run(c.Start(), evs[..|evs| - 1]);
      RunAllRead(c, evs[..|evs| - 1]);
      RunInv(c, evs[..|evs| - 1]);
      match evs[|evs| - 1]
      case ByA(act) => StepAllRead(before, act);
      case ByB(act) =>
        SwapInv(before);
        StepAllRead(before.Swap(), act);
        SwapAllRead(StepA(before.Swap(), act));
    } else {
      StartAllRead(c);
    }
  }

  lemma StartAllRead(c: Config)
    ensures AllRead(c.Start())
  {
  }

  lemma SwapInv(s: System)
    ensures Inv(s.Swap()) == Inv(s) && AllRead(s.Swap()) == AllRead(s)
  {
    hide EndpointOK, DirectionOK;
  }

  lemma SwapAllRead(s: System)
    requires AllRead(s)
    ensures AllRead(s.Swap())
  {
  }

  /** Read reports the end of the stream only when all that the other end accepted has been read. */
  predicate EofIsLast(s: System) {
    s.b.lost == [] && (s.b.s.readClosed && s.b.s.readBuffer == [] ==> s.b.taken == s.a.accepted && s.a.s.writeEOF)
  }

  /** Unless an application closes its read side, nothing is ever discarded and the end is read after all the bytes. */
  lemma EofMeansAllRead(c: Config, evs: seq<Event>)
    requires c.Valid() && forall i :: 0 <= i < |evs| ==> !ClosesRead(evs[i].action)
    ensures EofIsLast(Run(c.Start(), evs)) && EofIsLast(Run(c.Start(), evs).Swap())
  {
    hide Inv;
    RunAllRead(c, evs);
    EndMeansAll(c, evs);
    var s := Run(c.Start(), evs);
    assert s.b.s.readBuffer == [] ==> s.b.taken + s.b.s.readBuffer == s.b.taken;
    assert s.a.s.readBuffer == [] ==> s.a.taken + s.a.s.readBuffer == s.a.taken;
  }

  // ----- windows -----

  predicate WindowsFit(s: System) {
    && (s.ba != [] && s.ba[0].Data? ==> |s.ba[0].payload| <= s.a.s.receiveWindow)
    && s.a.s.windowUpdate + |s.a.s.readBuffer| <= s.a.s.currentMax <= s.a.s.windowMax <= MAX_WINDOW
    && s.a.s.receiveWindow + s.a.s.windowUpdate < TWO_32
    && s.a.s.sendWindow + CreditOf(s.ba) < TWO_32
    && IncrementsOK(s.ab) && PendingChunk(s.a).windowUpdate <= MAX_WINDOW
    && s.a.s.receiveWindow + s.a.s.windowUpdate + |s.a.s.readBuffer| == s.a.s.currentMax + s.a.endBytes
    && (!s.a.endSeen ==> s.a.endBytes == 0)
  }

  /**
    consumeReceiveWindow never refuses a frame, no 32-bit window counter wraps, and every WINDOW_UPDATE carries
    an increment that section 6.9 of RFC 7540 allows.
   */
  lemma WindowsNeverOverflow(c: Config, evs: seq<Event>)
    requires c.Valid()
    ensures WindowsFit(Run(c.Start(), evs)) && WindowsFit(Run(c.Start(), evs).Swap())
  {
    RunInv(c, evs);
    var s := Run(c.Start(), evs);
    OneEndFits(s);
    OneEndFits(s.Swap());
  }

  lemma OneEndFits(s: System)
    requires Inv(s)
    ensures WindowsFit(s)
  {
    if s.ba != [] {
      ArrivingFits(s.a, s.b, s.ab, s.ba);
    }
  }

  predicate CreditBalanced(s: System) {
    s.a.s.sendWindow + s.a.lostCredit + |Rest(s.a)| + |PayloadOf(s.ab)| + CreditOf(s.ba)
    + PendingChunk(s.b).windowUpdate + s.b.endBytes + |s.b.lost| == s.b.s.receiveWindow
  }

  /** Credit conservation, in every state. */
  lemma CreditConserved(c: Config, evs: seq<Event>)
    requires c.Valid()
    ensures CreditBalanced(Run(c.Start(), evs)) && CreditBalanced(Run(c.Start(), evs).Swap())
  {
    RunInv(c, evs);
  }

  // ----- progress -----

  /** No goroutine of either end has anything to do, and the applications have read all there is. */
  predicate Quiescent(s: System) {
    && s.ab == [] && s.ba == []
    && s.a.writing.Free? && s.b.writing.Free? && !s.a.ready && !s.b.ready && s.a.active && s.b.active
    && s.a.s.readBuffer == [] && s.b.s.readBuffer == [] && s.a.lost == [] && s.b.lost == []
  }

  predicate Finished(s: System) {
    && s.a.s.sendWindow == s.b.s.currentMax > 0
    && s.b.taken == s.a.accepted
    && (s.a.caller.Parked? ==> Enabled(s.a, s.ba, DoWake))
    && (s.a.s.writeEOF ==> s.a.s.sentEOF)
  }

  /**
    A quiescent connection is not stuck: the sender has the receiver's whole window, every accepted byte has
    been read, and a Write that waits can go on.
   */
  lemma QuiescentMeansDone(c: Config, evs: seq<Event>)
    requires c.Valid() && Quiescent(Run(c.Start(), evs))
    ensures Finished(Run(c.Start(), evs)) && Finished(Run(c.Start(), evs).Swap())
  {
    RunInv(c, evs);
    var s := Run(c.Start(), evs);
    QuiescentSender(s.a, s.b);
    QuiescentSender(s.b, s.a);
  }

  lemma QuiescentSender(x: Endpoint, y: Endpoint)
    requires EndpointOK(x) && EndpointOK(y) && CreditOK(x, y, [], []) && BytesOK(x, y, [])
    requires x.writing.Free? && y.writing.Free? && !x.ready && !y.ready && x.active && y.active
    requires y.s.readBuffer == [] && y.lost == []
    ensures x.s.sendWindow == y.s.currentMax > 0 && y.taken == x.accepted
    ensures x.caller.Parked? ==> x.s.hasSpace
    ensures x.s.writeEOF ==> x.s.sentEOF
  {
    assert NothingToSend(x.s) && NothingToSend(y.s);
    assert x.s.writeBuffer == [];
    assert y.taken + [] + [] + [] + [] + [] == y.taken;
  }

  predicate Awake(e: Endpoint) {
    && |e.s.writeBuffer| <= e.s.writeBufferMaxLen
    && (e.caller.Parked? && (|e.s.writeBuffer| < e.s.writeBufferMaxLen || e.s.writeEOF) ==> e.s.hasSpace)
    && (e.s.sentEOF ==> e.s.writeEOF && e.s.writeBuffer == [])
    && (e.active && !e.ready && !e.writing.Fetching? ==> NothingToSend(e.s))
  }

  /** A Write that waits while it could go on finds a token; the write buffer stays within its limit. */
  lemma NoLostWakeup(c: Config, evs: seq<Event>)
    requires c.Valid()
    ensures Awake(Run(c.Start(), evs).a) && Awake(Run(c.Start(), evs).b)
  {
    RunInv(c, evs);
  }

  // ----- a stream that leaves the map too early -----

  /** The write side is closed and END_STREAM is neither sent nor going to be: the stream is out of the map. */
  predicate Forgotten(e: Endpoint) {
    e.s.writeEOF && !e.s.sentEOF && !e.active && !e.writing.Fetching?
  }

  /**
    The steps that lose END_STREAM, each before it was sent: the peer's END_STREAM finds the write side closed and
    its buffer empty, a reset arrives, CloseStreamRead finds the write side closed, or the window is too small for
    what a stream that has just left the map still wants to send.
   */
  predicate LosesEnd(e: Endpoint, incoming: seq<Frame>, act: Action) {
    !e.s.sentEOF &&
    match act
    case DoReceive =>
      && incoming != [] && e.active && !e.writing.Fetching?
      && (incoming[0].Reset? || (IsEnd(incoming[0]) && WriteDone(e.s) && !Refuses(e.s, incoming[0].payload)))
    case DoCloseStreamRead => e.active && e.s.writeEOF && !e.writing.Fetching?
    case DoFetch => e.writing.Fetching? && !e.active && e.s.writeEOF && |e.s.writeBuffer| > e.s.sendWindow
    case _ => false
  }

  /** A stream that left the map had its write side closed. */
  predicate LeftClosed(e: Endpoint) {
    !e.active ==> e.s.writeEOF
  }

  /**
    What a frame on the wire changes of the sending side: nothing, but that the stream may leave the map after
    END_STREAM.
   */
  lemma EmitFacts(e: Endpoint, frameSize: nat)
    requires e.writing.Emitting? && e.writing.chunk.Valid() && !Spent(e.writing.chunk)
    ensures var f := Emit(e, frameSize).0;
            && f.s == e.s && f.accepted == e.accepted && !f.writing.Fetching?
            && (f.active == e.active || (e.writing.chunk.sendData && e.writing.chunk.eof))
            && (f.active ==> e.active)
  {
  }

  predicate Evicts(s: Stream, f: Frame) {
    f.Reset? || (f.Data? && Leaves(s, f.payload, f.end))
  }

  /** What an arriving frame changes of the sending side. */
  lemma ReceiveFacts(e: Endpoint, f: Frame)
    ensures var r := Receive(e, f);
            && r.s.sentEOF == e.s.sentEOF && r.writing == e.writing && r.accepted == e.accepted
            && r.s.writeBuffer == e.s.writeBuffer
            && r.s.writeEOF == (e.s.writeEOF || (e.active && f.Reset?))
            && r.active == (e.active && !Evicts(e.s, f))
  {
    hide Received, Fails, Grows;
    if f.Data? {
      ReceivedWrites(e.s, f.payload, f.end);
    }
  }

  lemma ReceivedWrites(s: Stream, payload: Buffer, end: bool)
    ensures var t := Received(s, payload, end);
            t.sentEOF == s.sentEOF && t.writeEOF == s.writeEOF && t.writeBuffer == s.writeBuffer
  {
  }

  lemma ActLeftClosed(e: Endpoint, incoming: seq<Frame>, act: Action, frameSize: nat)
    requires EndpointOK(e) && LeftClosed(e) && Enabled(e, incoming, act)
    ensures LeftClosed(Act(e, incoming, act, frameSize).0)
  {
    hide NothingToSend, Emit, Receive, WindowsOK;
    if act.DoEmit? {
      EmitFacts(e, frameSize);
    } else if act.DoReceive? {
      ReceiveFacts(e, incoming[0]);
    }
  }

  lemma ActLosesEnd(e: Endpoint, incoming: seq<Frame>, act: Action, frameSize: nat)
    requires EndpointOK(e) && LeftClosed(e) && Enabled(e, incoming, act)
    ensures Forgotten(Act(e, incoming, act, frameSize).0) <==> Forgotten(e) || LosesEnd(e, incoming, act)
  {
    hide NothingToSend, Emit, Receive, WindowsOK;
    if act.DoEmit? {
      EmitFacts(e, frameSize);
    } else if act.DoReceive? {
      ReceiveFacts(e, incoming[0]);
    }
  }

  /** Every step of a run, whichever end takes it. */
  lemma StepLosesEnd(s: System, ev: Event)
    requires Inv(s) && LeftClosed(s.a)
    ensures LeftClosed(Step(s, ev).a)
    ensures Forgotten(Step(s, ev).a) <==> Forgotten(s.a) || (ev.ByA? && LosesEnd(s.a, s.ba, ev.action))
  {
    hide EndpointOK, DirectionOK, Act;
    if ev.ByA? {
      if Enabled(s.a, s.ba, ev.action) {
        ActLeftClosed(s.a, s.ba, ev.action, s.frameSize);
        ActLosesEnd(s.a, s.ba, ev.action, s.frameSize);
      }
    }
  }

  /** The i-th step of the run is one of end a that loses END_STREAM. */
  predicate LosesAt(c: Config, evs: seq<Event>, i: nat)
    requires i < |evs|
  {
    var s := Run(c.Start(), evs[..i]);
    evs[i].ByA? && LosesEnd(s.a, s.ba, evs[i].action)
  }

  lemma LosesEarlier(c: Config, evs: seq<Event>, n: nat, i: nat)
    requires i < n <= |evs|
    ensures LosesAt(c, evs[..n], i) == LosesAt(c, evs, i)
  {
    assert evs[..n][..i] == evs[..i] && evs[..n][i] == evs[i];
  }

  lemma LosesLast(c: Config, evs: seq<Event>)
    requires evs != []
    ensures var s := Run(c.Start(), evs[..|evs| - 1]);
            LosesAt(c, evs, |evs| - 1) == (evs[|evs| - 1].ByA? && LosesEnd(s.a, s.ba, evs[|evs| - 1].action))
  {
  }

  /** In every run, END_STREAM is lost exactly if one of the four steps took place. */
  lemma {:induction false} EndStreamLostExactly(c: Config, evs: seq<Event>)
    requires c.Valid()
    ensures LeftClosed(Run(c.Start(), evs).a)
    ensures Forgotten(Run(c.Start(), evs).a) <==> exists i :: 0 <= i < |evs| && LosesAt(c, evs, i)
  {
    if evs != [] {
      hide Inv, Step, LosesAt, Forgotten, LeftClosed;
      var n := |evs| - 1;
      EndStreamLostExactly(c, evs[..n]);
      RunInv(c, evs[..n]);
      StepLosesEnd(Run(c.Start(), evs[..n]), evs[n]);
      LosesLast(c, evs);
      forall i | 0 <= i < n ensures LosesAt(c, evs[..n], i) == LosesAt(c, evs, i) {
        LosesEarlier(c, evs, n, i);
      }
    }
  }

  lemma ForgottenStays(s: System, ev: Event)
    requires Forgotten(s.a)
    ensures Forgotten(Step(s, ev).a)
    ensures Step(s, ev).a.s.writeBuffer == s.a.s.writeBuffer && Step(s, ev).a.accepted == s.a.accepted
  {
    hide Act, Forgotten;
    if ev.ByA? && Enabled(s.a, s.ba, ev.action) {
      ActForgotten(s.a, s.ba, ev.action, s.frameSize);
    }
  }

  lemma ActForgotten(e: Endpoint, incoming: seq<Frame>, act: Action, frameSize: nat)
    requires Forgotten(e) && Enabled(e, incoming, act)
    ensures var f := Act(e, incoming, act, frameSize).0;
            Forgotten(f) && f.s.writeBuffer == e.s.writeBuffer && f.accepted == e.accepted
  {
    hide Emit, Receive;
    if act.DoEmit? {
      EmitFacts(e, frameSize);
    } else if act.DoReceive? {
      ReceiveFacts(e, incoming[0]);
    }
  }

  /** From then on, however the run continues, the other end is never told of the end nor sent what is left. */
  lemma {:induction false} ForgottenForever(s: System, evs: seq<Event>)
    requires Inv(s) && Forgotten(s.a)
    ensures var t := Run(s, evs);
            && Inv(t) && Forgotten(t.a) && !t.b.s.receivedEOF
            && t.a.s.writeBuffer == s.a.s.writeBuffer && t.a.accepted == s.a.accepted
  {
    if evs != [] {
      var before := Run(s, evs[..|evs| - 1]);
      ForgottenForever(s, evs[..|evs| - 1]);
      StepKeeps(before, evs[|evs| - 1]);
      ForgottenStays(before, evs[|evs| - 1]);
    }
  }

  /**
    Both ends closing at the same time is enough: the peer's END_STREAM arrives between CloseWrite and the writer's
    next turn, and then no continuation ever sends the local one.
   */
  lemma EndStreamCanBeLost(c: Config, more: seq<Event>)
    requires c.Valid()
    ensures var s := Run(c.Start(), [ByB(DoCloseWrite), ByB(DoPick), ByB(DoFetch), ByB(DoEmit),
                                     ByA(DoCloseWrite), ByA(DoReceive)]);
            s.a.s.receivedEOF && Forgotten(s.a) && !Run(s, more).b.s.receivedEOF
  {
    hide Step, Forgotten, Inv;
    var evs := [ByB(DoCloseWrite), ByB(DoPick), ByB(DoFetch), ByB(DoEmit), ByA(DoCloseWrite), ByA(DoReceive)];
    RunSix(c.Start(), evs);
    CrossingCloses(c);
    RunInv(c, evs);
    ForgottenForever(Run(c.Start(), evs), more);
  }

  lemma CrossingCloses(c: Config)
    requires c.Valid()
    ensures var s4 := Step(Step(Step(Step(c.Start(), ByB(DoCloseWrite)), ByB(DoPick)), ByB(DoFetch)), ByB(DoEmit));
            var s := Step(Step(s4, ByA(DoCloseWrite)), ByA(DoReceive));
            s.a.s.receivedEOF && Forgotten(s.a)
  {
    var s3 := Step(Step(Step(c.Start(), ByB(DoCloseWrite)), ByB(DoPick)), ByB(DoFetch));
    assert s3.b.writing == Emitting(Chunk(0, true, true, [], 0));
    var s4 := Step(s3, ByB(DoEmit));
    assert s4.ba == [Data([], true)];
  }

  lemma RunSix(s: System, evs: seq<Event>)
    requires |evs| == 6
    ensures Run(s, evs) == Step(Step(Step(Step(Step(Step(s, evs[0]), evs[1]), evs[2]), evs[3]), evs[4]), evs[5])
  {
    hide Step;
    RunThree(s, evs[..3]);
    RunLast(s, evs, 6);
    RunLast(s, evs, 5);
    RunLast(s, evs, 4);
    assert evs[..6] == evs;
  }

  lemma RunThree(s: System, evs: seq<Event>)
    requires |evs| == 3
    ensures Run(s, evs) == Step(Step(Step(s, evs[0]), evs[1]), evs[2])
  {
    hide Step;
    RunLast(s, evs, 3);
    RunLast(s, evs, 2);
    RunLast(s, evs, 1);
    assert evs[..3] == evs;
    assert Run(s, evs[..0]) == s;
  }

  lemma RunLast(s: System, evs: seq<Event>, n: nat)
    requires 0 < n <= |evs|
    ensures Run(s, evs[..n]) == Step(Run(s, evs[..n - 1]), evs[n - 1])
  {
    assert evs[..n][..n - 1] == evs[..n - 1];
  }

  /**
    CloseStreamRead takes a stream out of the map whose write side is closed, sent or not: everything written, though
    accepted, stays behind, and the other end reads nothing of it in any continuation.
   */
  lemma CloseStreamReadLosesBytes(c: Config, p: Buffer, more: seq<Event>)
    requires c.Valid() && |p| <= c.maxLen
    ensures var s := Run(c.Start(), [ByA(DoWrite(p)), ByA(DoCloseWrite), ByA(DoCloseStreamRead)]);
            var t := Run(s, more);
            && Forgotten(s.a) && t.a.accepted == p && t.b.taken == [] && t.b.s.readBuffer == [] && !t.b.s.receivedEOF
  {
    hide Step, Forgotten, Inv;
    var evs := [ByA(DoWrite(p)), ByA(DoCloseWrite), ByA(DoCloseStreamRead)];
    RunThree(c.Start(), evs);
    WrittenAndLeft(c, p);
    RunInv(c, evs);
    var s := Run(c.Start(), evs);
    ForgottenForever(s, more);
    NothingGotThrough(Run(s, more));
  }

  lemma WrittenAndLeft(c: Config, p: Buffer)
    requires c.Valid() && |p| <= c.maxLen
    ensures var s := Step(Step(Step(c.Start(), ByA(DoWrite(p))), ByA(DoCloseWrite)), ByA(DoCloseStreamRead));
            Forgotten(s.a) && s.a.s.writeBuffer == p && s.a.accepted == p
  {
    assert p[..|p|] == p;
  }

  lemma NothingGotThrough(t: System)
    requires Inv(t) && t.a.s.writeBuffer == t.a.accepted
    ensures t.b.taken == [] && t.b.s.readBuffer == []
  {
    assert |t.a.accepted| == |t.b.taken| + |t.b.s.readBuffer| + |t.b.lost| + |PayloadOf(t.ab)| + |Rest(t.a)|
                             + |t.a.s.writeBuffer|;
  }

  // ----- when the receive window grows -----

  /** A DATA frame at the head of the channel is kept and leaves less than half of the window, which may still grow. */
  predicate Exhausts(e: Endpoint, incoming: seq<Frame>, act: Action) {
    && act.DoReceive? && incoming != [] && incoming[0].Data? && !incoming[0].end
    && e.active && (incoming[0].payload == [] || !e.s.readClosed)
    && 2 * (e.s.receiveWindow - |incoming[0].payload| + 1) <= e.s.currentMax < e.s.windowMax
  }

  /** What a step that exhausts the window does: the window doubles up to its limit, and the peer is owed the rest. */
  predicate Doubled(e: Endpoint, f: Endpoint) {
    && f.s.currentMax == Min(2 * e.s.currentMax, e.s.windowMax) > e.s.currentMax
    && f.s.windowUpdate == e.s.windowUpdate + (f.s.currentMax - e.s.currentMax) && f.ready
  }

  /** In every run, a step changes an end's window limit exactly if that end receives a frame that exhausts it. */
  lemma WindowGrowsExactly(c: Config, evs: seq<Event>, ev: Event)
    requires c.Valid()
    ensures var s := Run(c.Start(), evs);
            var t := Step(s, ev);
            && (t.a.s.currentMax != s.a.s.currentMax <==> ev.ByA? && Exhausts(s.a, s.ba, ev.action))
            && (t.a.s.currentMax != s.a.s.currentMax ==> Doubled(s.a, t.a))
  {
    hide Inv, Step;
    RunInv(c, evs);
    StepGrows(Run(c.Start(), evs), ev);
  }

  lemma StepGrows(s: System, ev: Event)
    requires Inv(s)
    ensures Step(s, ev).a.s.currentMax != s.a.s.currentMax <==> ev.ByA? && Exhausts(s.a, s.ba, ev.action)
    ensures Step(s, ev).a.s.currentMax != s.a.s.currentMax ==> Doubled(s.a, Step(s, ev).a)
  {
    hide Act, Receive, Inv, Doubled;
    if ev.ByA? && Enabled(s.a, s.ba, ev.action) {
      if ev.action.DoReceive? {
        ReceiveGrows(s);
        ReceiveAct(s.a, s.ba, s.frameSize);
      } else {
        OthersKeepMax(s.a, s.ba, ev.action, s.frameSize);
      }
    }
  }

  lemma ReceiveAct(e: Endpoint, incoming: seq<Frame>, frameSize: nat)
    requires incoming != []
    ensures Act(e, incoming, DoReceive, frameSize) == (Receive(e, incoming[0]), [])
  {
  }

  lemma OthersKeepMax(e: Endpoint, incoming: seq<Frame>, act: Action, frameSize: nat)
    requires Enabled(e, incoming, act) && !act.DoReceive?
    ensures Act(e, incoming, act, frameSize).0.s.currentMax == e.s.currentMax
  {
    hide Emit;
    if act.DoEmit? {
      EmitFacts(e, frameSize);
    }
  }

  lemma ReceiveGrows(s: System)
    requires Inv(s) && s.ba != []
    ensures var f := Receive(s.a, s.ba[0]);
            && (f.s.currentMax != s.a.s.currentMax <==> Exhausts(s.a, s.ba, DoReceive))
            && (f.s.currentMax != s.a.s.currentMax ==> Doubled(s.a, f))
  {
    hide Receive, Exhausts, Doubled, DirectionOK, EndpointOK;
    WindowFacts(s);
    if s.ba[0].Data? && !s.ba[0].end && s.a.active && !Refuses(s.a.s, s.ba[0].payload) {
      DataGrows(s.a, s.ba);
    } else {
      QuietKeepsMax(s.a, s.ba);
    }
  }

  lemma WindowFacts(s: System)
    requires Inv(s) && s.ba != []
    ensures s.ba[0].Data? ==> |s.ba[0].payload| <= s.a.s.receiveWindow
    ensures 0 < s.a.s.currentMax <= s.a.s.windowMax <= MAX_WINDOW && s.a.s.windowUpdate <= MAX_WINDOW
  {
    ArrivingFits(s.a, s.b, s.ab, s.ba);
    OwedFits(s.a, s.b, s.ab, s.ba);
  }

  lemma QuietKeepsMax(e: Endpoint, incoming: seq<Frame>)
    requires incoming != []
    requires !incoming[0].Data? || incoming[0].end || !e.active || Refuses(e.s, incoming[0].payload)
    ensures Receive(e, incoming[0]).s.currentMax == e.s.currentMax && !Exhausts(e, incoming, DoReceive)
  {
  }

  lemma DataGrows(e: Endpoint, incoming: seq<Frame>)
    requires incoming != [] && incoming[0].Data? && !incoming[0].end && e.active && !Refuses(e.s, incoming[0].payload)
    requires |incoming[0].payload| <= e.s.receiveWindow && e.s.windowUpdate <= MAX_WINDOW
    requires 0 < e.s.currentMax <= e.s.windowMax <= MAX_WINDOW
    ensures var f := Receive(e, incoming[0]);
            && (f.s.currentMax != e.s.currentMax <==> Exhausts(e, incoming, DoReceive))
            && (f.s.currentMax != e.s.currentMax ==> Doubled(e, f))
  {
    hide Charge;
    var p := incoming[0].payload;
    ChargeExact(Buffered(e.s, p), |p|);
    assert Received(e.s, p, false) == Charge(Buffered(e.s, p), |p|);
  }

  // ----- resets -----

  /** The frames one step of end a puts on the wire. */
  function SentBy(s: System, act: Action): seq<Frame> {
    if Enabled(s.a, s.ba, act) then Act(s.a, s.ba, act, s.frameSize).1 else []
  }

  lemma SentIsAppended(s: System, act: Action)
    ensures StepA(s, act).ab == s.ab + SentBy(s, act)
  {
    assert s.ab + [] == s.ab;
  }

  predicate HasEnd(frames: seq<Frame>) {
    exists i :: 0 <= i < |frames| && IsEnd(frames[i])
  }

  /**
    A step sends a reset exactly if it reports a stream error, or puts END_STREAM on the wire while the read side is
    closed and the peer has not ended; then it sends one, as its last frame.
   */
  lemma ResetSentExactly(s: System, act: Action)
    ensures var sent := SentBy(s, act);
            && (Reset in sent <==>
                  (act.DoReset? && s.a.failed) || (HasEnd(sent) && s.a.s.readClosed && !s.a.s.receivedEOF))
            && (Reset in sent ==> sent[|sent| - 1] == Reset && Reset !in sent[..|sent| - 1])
            && (HasEnd(sent) ==> act.DoEmit? && (StepA(s, act).a.active <==> s.a.active && !s.a.s.readClosed))
  {
    if Enabled(s.a, s.ba, act) && act.DoEmit? {
      EmitResets(s.a, s.frameSize);
    }
  }

  lemma EmitResets(e: Endpoint, frameSize: nat)
    requires e.writing.Emitting? && e.writing.chunk.Valid() && !Spent(e.writing.chunk)
    ensures var (f, sent) := Emit(e, frameSize);
            && (Reset in sent <==> HasEnd(sent) && e.s.readClosed && !e.s.receivedEOF)
            && (Reset in sent ==> sent[|sent| - 1] == Reset && Reset !in sent[..|sent| - 1])
            && (HasEnd(sent) ==> (f.active <==> e.active && !e.s.readClosed))
  {
    var (d, _) := NextFrame(e.writing.chunk, frameSize);
    var (f, sent) := Emit(e, frameSize);
    assert sent[0] == d;
    if IsEnd(d) {
      assert HasEnd(sent);
      assert sent == [d] || sent == [d, Reset];
    } else {
      assert sent == [d];
    }
  }

  /** A stream that left the map has both sides closed. */
  predicate BothClosed(e: Endpoint) {
    !e.active ==> e.s.writeEOF && e.s.readClosed
  }

  lemma ReceiveBothClosed(e: Endpoint, f: Frame)
    requires BothClosed(e)
    ensures BothClosed(Receive(e, f))
    ensures f.Reset? ==> !Receive(e, f).active
    ensures !e.active ==> !Receive(e, f).active
  {
    hide Exhausted;
  }

  lemma ActBothClosed(e: Endpoint, incoming: seq<Frame>, act: Action, frameSize: nat)
    requires EndpointOK(e) && BothClosed(e) && Enabled(e, incoming, act)
    ensures BothClosed(Act(e, incoming, act, frameSize).0)
    ensures !e.active ==> !Act(e, incoming, act, frameSize).0.active
  {
    hide NothingToSend, Emit, Receive, WindowsOK;
    if act.DoEmit? {
      EmitFacts(e, frameSize);
      EmitLeaves(e, frameSize);
    } else if act.DoReceive? {
      ReceiveBothClosed(e, incoming[0]);
    }
  }

  lemma EmitLeaves(e: Endpoint, frameSize: nat)
    requires e.writing.Emitting? && e.writing.chunk.Valid() && !Spent(e.writing.chunk)
    ensures Emit(e, frameSize).0.active != e.active ==> e.s.readClosed
  {
  }

  /** Streams only ever leave the map, and with both sides closed. */
  lemma {:induction false} LeavesForGood(s: System, evs: seq<Event>)
    requires Inv(s) && BothClosed(s.b)
    ensures Inv(Run(s, evs)) && BothClosed(Run(s, evs).b) && (!s.b.active ==> !Run(s, evs).b.active)
  {
    if evs != [] {
      hide Inv, Step, BothClosed;
      var before := Run(s, evs[..|evs| - 1]);
      LeavesForGood(s, evs[..|evs| - 1]);
      StepKeeps(before, evs[|evs| - 1]);
      StepBothClosed(before, evs[|evs| - 1]);
    }
  }

  lemma StepBothClosed(s: System, ev: Event)
    requires Inv(s) && BothClosed(s.b)
    ensures BothClosed(Step(s, ev).b) && (!s.b.active ==> !Step(s, ev).b.active)
  {
    hide EndpointOK, DirectionOK, Act;
    if ev.ByB? && Enabled(s.b, s.ab, ev.action) {
      ActBothClosed(s.b, s.ab, ev.action, s.frameSize);
    }
  }

  /** Once a reset has been received, in every continuation the stream is out of the map with both sides closed. */
  lemma ResetCloses(c: Config, evs: seq<Event>, more: seq<Event>)
    requires c.Valid() && var s := Run(c.Start(), evs); s.ab != [] && s.ab[0] == Reset
    ensures var b := Run(Step(Run(c.Start(), evs), ByB(DoReceive)), more).b; !b.active && b.s.writeEOF && b.s.readClosed
  {
    hide Inv, Run, Receive;
    RunInv(c, evs);
    StartInv(c);
    var s := Run(c.Start(), evs);
    LeavesForGood(c.Start(), evs);
    ReceiveBothClosed(s.b, Reset);
    var t := Step(s, ByB(DoReceive));
    StepKeeps(s, ByB(DoReceive));
    LeavesForGood(t, more);
  }

  /** A data frame is a stream error exactly if it is not kept, unless it only ends a stream that is gone. */
  lemma FailsExactly(c: Config, evs: seq<Event>)
    requires c.Valid() && var s := Run(c.Start(), evs); s.ba != [] && s.ba[0].Data?
    ensures var s := Run(c.Start(), evs);
            var d, a := s.ba[0], Step(s, ByA(DoReceive)).a;
            && (a.lost != s.a.lost <==> d.payload != [] && (!s.a.active || s.a.s.readClosed))
            && (a.failed <==>
                  s.a.failed || (!s.a.active && !d.end) || (s.a.active && d.payload != [] && s.a.s.readClosed))
  {
    RunInv(c, evs);
    var s := Run(c.Start(), evs);
    ArrivingFits(s.a, s.b, s.ab, s.ba);
    hide Inv, Charge, Exhausted;
    assert Act(s.a, s.ba, DoReceive, s.frameSize).0 == ReceiveData(s.a, s.ba[0].payload, s.ba[0].end);
  }
}
