/** The steps of the two ends of a compressed connection, and that each keeps the connection's invariant. */
module LinkSteps {
  import opened Bytes
  import opened DictionaryLog
  import opened SetDictionary
  import opened WriteDictionaries
  import opened LinkModel

  // ----- the sender -----

  ghost function Begin(l: Link, k: StreamId, s: Sending): Link {
    l.(sending := l.sending[k := s],
       usePos := l.usePos[k := |l.wlog|],
       wlog := l.wlog + [Use(k, s.useID)] + SetsOf(k, s),
       channel := l.channel + [UseDict(k, [s.useID])] + [SetDict(k, Payload(s.entries))])
  }

  /** A change to one stream, with at most one frame sent. */
  ghost function Change(l: Link, k: StreamId, s: Sending, frames: seq<Frame>): Link {
    l.(sending := l.sending[k := s], channel := l.channel + frames)
  }

  /** The parts of a stream that never change once it has started. */
  predicate SameStart(a: Sending, b: Sending) {
    b.useID == a.useID && b.entries == a.entries && b.dict == a.dict && b.first == a.first
  }

  lemma {:induction false} ChannelOpsSame(channel: seq<Frame>, a: map<StreamId, Sending>, b: map<StreamId, Sending>)
    requires forall j :: 0 <= j < |channel| ==> channel[j].stream in a
    requires forall k :: k in a ==> k in b && SameStart(a[k], b[k])
    ensures ChannelOps(channel, b) == ChannelOps(channel, a)
  {
    if channel != [] {
      ChannelOpsSame(channel[1..], a, b);
      assert SameStart(a[channel[0].stream], b[channel[0].stream]);
    }
  }

  lemma {:induction false} ChannelOpsAppend(channel: seq<Frame>, f: Frame, sending: map<StreamId, Sending>)
    ensures ChannelOps(channel + [f], sending) == ChannelOps(channel, sending) + FrameOps(f, sending)
  {
    if channel == [] {
      assert channel + [f] == [f];
      assert ChannelOps([f], sending) == FrameOps(f, sending) + ChannelOps([], sending);
    } else {
      assert (channel + [f])[1..] == channel[1..] + [f];
      ChannelOpsAppend(channel[1..], f, sending);
    }
  }

  lemma ProjFrames(channel: seq<Frame>, frames: seq<Frame>, k: StreamId)
    requires |frames| <= 1
    ensures Proj(channel + frames, k) ==
            Proj(channel, k) + (if frames != [] && frames[0].stream == k then frames else [])
  {
    if frames == [] {
      assert channel + frames == channel;
    } else {
      assert frames == [frames[0]];
      ProjAppend(channel, frames[0], k);
    }
  }

  /** A stream the change does not touch. */
  lemma OtherStream(l: Link, m: Link, k: StreamId, j: StreamId)
    requires j in l.sending && j != k && l.StreamOK(j)
    requires m.sending.Keys >= l.sending.Keys && m.sending[j] == l.sending[j] && m.nd == l.nd && m.maxSize == l.maxSize
    requires m.enc == l.enc && l.wlog <= m.wlog && j in m.usePos && j in l.usePos && m.usePos[j] == l.usePos[j]
    requires Proj(m.channel, j) == Proj(l.channel, j)
    requires (j in m.arrived <==> j in l.arrived) && (j in l.arrived ==> m.arrived[j] == l.arrived[j])
    ensures m.StreamOK(j)
  {
    DictAtStable(l.wlog, m.wlog[|l.wlog|..], l.usePos[j], l.sending[j].useID, l.maxSize);
    assert m.wlog == l.wlog + m.wlog[|l.wlog|..];
    assert m.Output(j) == l.Output(j);
  }

  /** A well-behaved change of one stream: it keeps its start, and its own invariants are re-established. */
  lemma ChangeValid(l: Link, k: StreamId, s: Sending, frames: seq<Frame>)
    requires l.Valid() && k in l.sending && SameStart(l.sending[k], s)
    requires |frames| <= 1 && (frames != [] ==> frames[0].stream == k && (frames[0].Chunk? || frames[0].End?))
    requires var m := Change(l, k, s, frames); m.SenderOK(k) && m.FlightOK(k)
    ensures Change(l, k, s, frames).Valid()
  {
    hide Codec, Link.SenderOK, Link.FlightOK, Link.LogOK, FrameOps, ChannelOps, Proj;
    var m := Change(l, k, s, frames);
    assert l.StreamOK(k);
    ChangeDict(l, k, s, frames);
    forall j | j in m.sending ensures m.StreamOK(j) {
      if j != k {
        assert l.StreamOK(j);
        ProjFrames(l.channel, frames, j);
        OtherStream(l, m, k, j);
      }
    }
    forall i | 0 <= i < |m.wlog| ensures m.LogOK(i) {
      assert l.LogOK(i);
      ChangeLog(l, k, s, frames, i);
    }
    ChangeOps(l, k, s, frames);
  }

  lemma ChangeDict(l: Link, k: StreamId, s: Sending, frames: seq<Frame>)
    requires k in l.sending && SameStart(l.sending[k], s) && l.DictOK(k)
    ensures Change(l, k, s, frames).DictOK(k)
  {
  }

  lemma ChangeLog(l: Link, k: StreamId, s: Sending, frames: seq<Frame>, i: nat)
    requires k in l.sending && SameStart(l.sending[k], s) && i < |l.wlog| && l.LogOK(i)
    ensures Change(l, k, s, frames).LogOK(i)
  {
  }

  lemma ChangeOps(l: Link, k: StreamId, s: Sending, frames: seq<Frame>)
    requires k in l.sending && SameStart(l.sending[k], s) && l.wlog == l.rlog + ChannelOps(l.channel, l.sending)
    requires forall j :: 0 <= j < |l.channel| ==> l.channel[j].stream in l.sending
    requires |frames| <= 1 && (frames != [] ==> frames[0].Chunk? || frames[0].End?)
    ensures var m := Change(l, k, s, frames); m.wlog == m.rlog + ChannelOps(m.channel, m.sending)
  {
    hide SetsOf;
    var m := Change(l, k, s, frames);
    ChannelOpsSame(l.channel, l.sending, m.sending);
    if frames == [] {
      assert m.channel == l.channel;
    } else {
      assert frames == [frames[0]];
      ChannelOpsAppend(l.channel, frames[0], m.sending);
      assert FrameOps(frames[0], m.sending) == [];
      assert ChannelOps(m.channel, m.sending) == ChannelOps(l.channel, l.sending);
    }
  }

  lemma OutputGrows(l: Link, d: Buffer, ins: seq<Input>, x: Input)
    requires Codec(l.enc, l.dec)
    ensures l.enc(d, ins) <= l.enc(d, ins + [x])
  {
  }

  lemma MoreInputFlight(l: Link, k: StreamId, t: Sending)
    requires k in l.sending && l.SenderOK(k) && l.FlightOK(k)
    requires t.useID == l.sending[k].useID && t.entries == l.sending[k].entries
    requires t.sent == l.sending[k].sent && t.ended == l.sending[k].ended && l.Output(k) <= l.enc(t.dict, t.inputs)
    ensures Change(l, k, t, []).FlightOK(k)
  {
    hide InFlight, Payload, Text;
    var m := Change(l, k, t, []);
    assert m.Output(k)[..t.sent] == l.Output(k)[..t.sent];
    assert m.channel == l.channel;
  }

  /** More input only lengthens the compressor's output. */
  lemma MoreInput(l: Link, k: StreamId, x: Input, done: bool)
    requires l.Valid() && k in l.sending && !l.sending[k].finished
    requires Compatible(Text(l.sending[k].inputs + [x]), l.sending[k].first)
    ensures Change(l, k, l.sending[k].(inputs := l.sending[k].inputs + [x], finished := done), []).Valid()
  {
    hide Codec, Link.FlightOK, Link.DictOK, Link.LogOK, ChannelOps, Text;
    var s := l.sending[k];
    var t := s.(inputs := s.inputs + [x], finished := done);
    assert l.StreamOK(k);
    OutputGrows(l, s.dict, s.inputs, x);
    MoreInputFlight(l, k, t);
    ChangeValid(l, k, t, []);
  }

  /** Every write belongs to the first one until that is complete. */
  lemma WriteValid(l: Link, k: StreamId, q: Buffer)
    requires l.Valid() && k in l.sending && !l.sending[k].finished
    requires Compatible(Text(l.sending[k].inputs) + q, l.sending[k].first)
    ensures Change(l, k, l.sending[k].(inputs := l.sending[k].inputs + [Data(q)]), []).Valid()
  {
    var s := l.sending[k];
    assert (s.inputs + [Data(q)])[..|s.inputs|] == s.inputs;
    MoreInput(l, k, Data(q), false);
    assert s.(inputs := s.inputs + [Data(q)]) == s.(inputs := s.inputs + [Data(q)], finished := false);
  }

  lemma FinishValid(l: Link, k: StreamId)
    requires l.Valid() && k in l.sending && !l.sending[k].finished
    ensures Change(l, k, l.sending[k].(inputs := l.sending[k].inputs + [Finish], finished := true), []).Valid()
  {
    var s := l.sending[k];
    assert (s.inputs + [Finish])[..|s.inputs|] == s.inputs;
    assert Text(s.inputs + [Finish]) == Text(s.inputs) + [];
    assert l.StreamOK(k);
    MoreInput(l, k, Finish, true);
  }

  /** The write side was closed before the compressor was given anything. */
  lemma UnwrittenValid(l: Link, k: StreamId)
    requires l.Valid() && k in l.sending && !l.sending[k].finished
    ensures Change(l, k, l.sending[k].(finished := true), []).Valid()
  {
    hide Codec, Link.FlightOK, Link.DictOK, Link.LogOK, ChannelOps, Text;
    var s := l.sending[k];
    assert l.StreamOK(k);
    MoreInputFlight(l, k, s.(finished := true));
    ChangeValid(l, k, s.(finished := true), []);
  }

  lemma EmitFlight(l: Link, k: StreamId, n: nat)
    requires k in l.sending && l.SenderOK(k) && l.FlightOK(k)
    requires !l.sending[k].ended && l.sending[k].sent + n <= |l.Output(k)|
    ensures var b := l.Output(k)[l.sending[k].sent..l.sending[k].sent + n];
            Change(l, k, l.sending[k].(sent := l.sending[k].sent + n), [Chunk(k, b)]).FlightOK(k)
  {
    hide InFlight, Proj, Payload, Text, Compatible;
    var s := l.sending[k];
    var b := l.Output(k)[s.sent..s.sent + n];
    var m := Change(l, k, s.(sent := s.sent + n), [Chunk(k, b)]);
    var fs, out := Proj(l.channel, k), l.Output(k)[..s.sent];
    assert m.Output(k) == l.Output(k);
    assert m.Output(k)[..s.sent + n] == out + b;
    ProjAppend(l.channel, Chunk(k, b), k);
    if k !in l.arrived {
      InFlightChunk(fs[2..], out, k, b);
      assert (fs + [Chunk(k, b)])[2..] == fs[2..] + [Chunk(k, b)];
    } else if fs != [] && fs[0].SetDict? {
      InFlightChunk(fs[1..], out, k, b);
      assert (fs + [Chunk(k, b)])[1..] == fs[1..] + [Chunk(k, b)];
    } else {
      var a := l.arrived[k];
      InFlightChunk(fs, out[|a.wire|..], k, b);
      assert (out + b)[|a.wire|..] == out[|a.wire|..] + b;
    }
  }

  lemma EmitValid(l: Link, k: StreamId, n: nat)
    requires l.Valid() && k in l.sending && !l.sending[k].ended && l.sending[k].sent + n <= |l.Output(k)|
    ensures var b := l.Output(k)[l.sending[k].sent..l.sending[k].sent + n];
            Change(l, k, l.sending[k].(sent := l.sending[k].sent + n), [Chunk(k, b)]).Valid()
  {
    hide Codec, Link.FlightOK, Link.DictOK, Payload, Text;
    var s := l.sending[k];
    var b := l.Output(k)[s.sent..s.sent + n];
    assert l.StreamOK(k);
    EmitFlight(l, k, n);
    ChangeValid(l, k, s.(sent := s.sent + n), [Chunk(k, b)]);
  }

  lemma EmitEndFlight(l: Link, k: StreamId)
    requires k in l.sending && l.SenderOK(k) && l.FlightOK(k) && !l.sending[k].ended
    ensures Change(l, k, l.sending[k].(ended := true), [End(k)]).FlightOK(k)
  {
    hide InFlight, Proj, Payload, Text, Compatible;
    var s := l.sending[k];
    var m := Change(l, k, s.(ended := true), [End(k)]);
    assert m.Output(k) == l.Output(k);
    var fs, out := Proj(l.channel, k), l.Output(k)[..s.sent];
    ProjAppend(l.channel, End(k), k);
    if k !in l.arrived {
      InFlightEnd(fs[2..], out, k);
      assert (fs + [End(k)])[2..] == fs[2..] + [End(k)];
    } else if fs != [] && fs[0].SetDict? {
      InFlightEnd(fs[1..], out, k);
      assert (fs + [End(k)])[1..] == fs[1..] + [End(k)];
    } else {
      InFlightEnd(fs, out[|l.arrived[k].wire|..], k);
    }
  }

  lemma EmitEndValid(l: Link, k: StreamId)
    requires l.Valid() && k in l.sending
    requires l.sending[k].finished && !l.sending[k].ended && l.sending[k].sent == |l.Output(k)|
    ensures Change(l, k, l.sending[k].(ended := true), [End(k)]).Valid()
  {
    hide Codec, Link.FlightOK, Link.DictOK, Link.LogOK, ChannelOps, Text;
    assert l.StreamOK(k);
    EmitEndFlight(l, k);
    ChangeValid(l, k, l.sending[k].(ended := true), [End(k)]);
  }

  // ----- a stream's first write -----

  predicate Fresh(s: Sending) {
    s.inputs == [] && s.sent == 0 && !s.finished && !s.ended
  }

  lemma {:induction false} UnknownStream(channel: seq<Frame>, k: StreamId)
    requires forall j :: 0 <= j < |channel| ==> channel[j].stream != k
    ensures Proj(channel, k) == []
  {
    if channel != [] {
      UnknownStream(channel[1..], k);
    }
  }

  lemma BeginFlight(l: Link, k: StreamId, s: Sending)
    requires k !in l.arrived && s.sent == 0 && !s.ended && forall j :: 0 <= j < |l.channel| ==> l.channel[j].stream != k
    ensures Begin(l, k, s).FlightOK(k)
  {
    hide Payload, SetsOf;
    var m := Begin(l, k, s);
    UnknownStream(l.channel, k);
    var f, g := UseDict(k, [s.useID]), SetDict(k, Payload(s.entries));
    ProjAppend(l.channel, f, k);
    ProjAppend(l.channel + [f], g, k);
    var fs := Proj(m.channel, k);
    assert fs == [f, g] && fs[2..] == [];
    assert m.Output(k)[..0] == [];
  }

  lemma BeginStream(l: Link, k: StreamId, s: Sending)
    requires l.Valid() && k !in l.sending && Fresh(s)
    requires s.useID < l.nd && s.entries != []
    requires forall i :: 0 <= i < |s.entries| ==>
               s.entries[i].dictID < l.nd && s.entries[i].size == Min(|s.first|, l.maxSize)
    requires s.dict == DictAt(l.wlog, |l.wlog|, s.useID, l.maxSize)
    ensures Begin(l, k, s).StreamOK(k)
  {
    hide Codec, Link.StreamOK, Link.LogOK, Link.FlightOK, ChannelOps, Payload, SetsOf;
    BeginFlight(l, k, s);
    BeginOwn(l, k, s);
    var m := Begin(l, k, s);
    assert m.SenderOK(k) && m.DictOK(k) && m.FlightOK(k);
    StreamFromParts(m, k);
  }

  lemma StreamFromParts(l: Link, k: StreamId)
    requires k in l.sending && l.SenderOK(k) && l.DictOK(k) && l.FlightOK(k)
    ensures l.StreamOK(k)
  {
  }

  lemma BeginOwn(l: Link, k: StreamId, s: Sending)
    requires k !in l.sending && Fresh(s) && s.useID < l.nd && s.entries != []
    requires forall i :: 0 <= i < |s.entries| ==>
               s.entries[i].dictID < l.nd && s.entries[i].size == Min(|s.first|, l.maxSize)
    requires s.dict == DictAt(l.wlog, |l.wlog|, s.useID, l.maxSize)
    ensures Begin(l, k, s).SenderOK(k) && Begin(l, k, s).DictOK(k)
  {
    hide Payload;
    var m, ops := Begin(l, k, s), [Use(k, s.useID)] + SetsOf(k, s);
    DictAtStable(l.wlog, ops, |l.wlog|, s.useID, l.maxSize);
    assert m.wlog == l.wlog + ops;
    assert m.wlog[|l.wlog| + 1] == SetsOf(k, s)[0];
    assert Text([]) == [];
  }

  lemma BeginLog(l: Link, k: StreamId, s: Sending, i: nat)
    requires l.Valid() && k !in l.sending && i < |Begin(l, k, s).wlog|
    ensures Begin(l, k, s).LogOK(i)
  {
    hide Codec, Link.StreamOK, ChannelOps, Payload;
    var m := Begin(l, k, s);
    if i < |l.wlog| {
      assert l.LogOK(i) && m.wlog[i] == l.wlog[i];
    } else {
      assert i == |l.wlog| || m.wlog[i] == SetsOf(k, s)[i - |l.wlog| - 1];
    }
  }

  lemma BeginOps(l: Link, k: StreamId, s: Sending)
    requires l.Valid() && k !in l.sending
    ensures var m := Begin(l, k, s); m.wlog == m.rlog + ChannelOps(m.channel, m.sending)
  {
    hide Codec, Link.StreamOK, Link.LogOK, SetsOf, Payload;
    var m := Begin(l, k, s);
    var f, g := UseDict(k, [s.useID]), SetDict(k, Payload(s.entries));
    ChannelOpsAppend(l.channel, f, m.sending);
    ChannelOpsAppend(l.channel + [f], g, m.sending);
    ChannelOpsSame(l.channel, l.sending, m.sending);
  }

  lemma BeginOther(l: Link, k: StreamId, s: Sending, j: StreamId)
    requires l.Valid() && k !in l.sending && j in l.sending
    ensures Begin(l, k, s).StreamOK(j)
  {
    hide Codec, Link.SenderOK, Link.FlightOK;
    assert l.StreamOK(j);
    var f, g := UseDict(k, [s.useID]), SetDict(k, Payload(s.entries));
    ProjAppend(l.channel, f, j);
    ProjAppend(l.channel + [f], g, j);
    OtherStream(l, Begin(l, k, s), k, j);
  }

  lemma BeginValid(l: Link, k: StreamId, s: Sending)
    requires l.Valid() && k !in l.sending && Fresh(s)
    requires s.useID < l.nd && s.entries != []
    requires forall i :: 0 <= i < |s.entries| ==>
               s.entries[i].dictID < l.nd && s.entries[i].size == Min(|s.first|, l.maxSize)
    requires s.dict == DictAt(l.wlog, |l.wlog|, s.useID, l.maxSize)
    ensures Begin(l, k, s).Valid()
  {
    hide Codec, Link.StreamOK, Link.LogOK, ChannelOps, Payload, SetsOf;
    BeginStream(l, k, s);
    BeginOps(l, k, s);
    var m := Begin(l, k, s);
    forall j | j in m.sending ensures m.StreamOK(j) {
      if j != k {
        BeginOther(l, k, s, j);
      }
    }
    forall i | 0 <= i < |m.wlog| ensures m.LogOK(i) {
      BeginLog(l, k, s, i);
    }
  }

  // ----- the receiver -----

  /** The head of the channel arrives. */
  ghost function Arrive(l: Link): Link
    requires l.channel != []
  {
    var f := l.channel[0];
    var k := f.stream;
    var a := if k in l.arrived then l.arrived[k] else Arrival([], false);
    l.(channel := l.channel[1..],
       rlog := l.rlog + FrameOps(f, l.sending),
       arrived := l.arrived[k := match f
         case UseDict(_, _) => Arrival([], false)
         case SetDict(_, _) => a
         case Chunk(_, b) => a.(wire := a.wire + b)
         case End(_) => a.(closed := true)])
  }

  /** What the receiver may rely on about the frame at the head of the channel. */
  lemma HeadFrame(l: Link)
    requires l.Valid() && l.channel != []
    ensures var f := l.channel[0];
            var k := f.stream;
            && k in l.sending && l.StreamOK(k)
            && (f.UseDict? ==> k !in l.arrived && f == UseDict(k, [l.sending[k].useID]))
            && (!f.UseDict? ==> k in l.arrived && !l.arrived[k].closed)
            && (f.SetDict? ==> l.arrived[k].wire == [] && f == SetDict(k, Payload(l.sending[k].entries)))
            && (f.Chunk? ==> l.arrived[k].wire + f.bytes <= l.Output(k))
            && (f.End? ==> l.arrived[k].wire == l.Output(k) && l.sending[k].ended)
  {
    hide Codec, Link.DictOK, Link.LogOK, Link.FlightOK, Link.SenderOK, ChannelOps, Payload;
    var k := l.channel[0].stream;
    assert l.StreamOK(k);
    HeadOf(l, k);
  }

  lemma HeadOf(l: Link, k: StreamId)
    requires l.channel != [] && l.channel[0].stream == k && k in l.sending && l.SenderOK(k) && l.FlightOK(k)
    ensures var f := l.channel[0];
            && (f.UseDict? ==> k !in l.arrived && f == UseDict(k, [l.sending[k].useID]))
            && (!f.UseDict? ==> k in l.arrived && !l.arrived[k].closed)
            && (f.SetDict? ==> l.arrived[k].wire == [] && f == SetDict(k, Payload(l.sending[k].entries)))
            && (f.Chunk? ==> l.arrived[k].wire + f.bytes <= l.Output(k))
            && (f.End? ==> l.arrived[k].wire == l.Output(k) && l.sending[k].ended)
  {
    hide Codec, Payload, Text;
    assert Proj(l.channel, k)[0] == l.channel[0];
  }

  lemma ArriveSender(l: Link, k: StreamId)
    requires l.channel != [] && k in l.sending && l.SenderOK(k)
    ensures Arrive(l).SenderOK(k)
  {
    hide FrameOps, Text;
  }

  lemma ArriveFlight(l: Link, k: StreamId)
    requires l.channel != [] && l.channel[0].stream == k && k in l.sending && l.SenderOK(k) && l.FlightOK(k)
    ensures Arrive(l).FlightOK(k)
  {
    hide Codec, Payload, Text, FrameOps, Compatible;
    HeadOf(l, k);
    var f := l.channel[0];
    var m := Arrive(l);
    var fs, out := Proj(l.channel, k), l.Output(k)[..l.sending[k].sent];
    assert fs == [f] + Proj(m.channel, k);
    assert fs[1..] == Proj(m.channel, k);
    assert m.Output(k) == l.Output(k);
    match f
    case UseDict(_, _) =>
      assert fs[1..][1..] == fs[2..];
    case SetDict(_, _) =>
      InFlightHead(fs[1..], out, l.sending[k].ended);
      assert out[0..] == out;
    case Chunk(_, b) =>
      var wire := l.arrived[k].wire;
      InFlightHead(fs[1..], out[|wire|..][|b|..], l.sending[k].ended && !l.arrived[k].closed);
      assert out[|wire|..][|b|..] == out[|wire + b|..];
    case End(_) =>
  }

  lemma ArriveValid(l: Link)
    requires l.Valid() && l.channel != []
    ensures Arrive(l).Valid()
  {
    hide Codec, Link.StreamOK, Link.LogOK, Payload, FrameOps;
    var m, k := Arrive(l), l.channel[0].stream;
    forall j | j in m.sending ensures m.StreamOK(j) {
      if j == k {
        ArriveThis(l);
      } else {
        ArriveOther(l, j);
      }
    }
    forall i | 0 <= i < |m.wlog| ensures m.LogOK(i) {
      ArriveLog(l, i);
    }
    ArriveOps(l);
  }

  lemma ArriveThis(l: Link)
    requires l.Valid() && l.channel != []
    ensures var k := l.channel[0].stream; k in l.sending && Arrive(l).StreamOK(k)
  {
    hide Link.SenderOK, Link.FlightOK, Codec;
    assert l.StreamOK(l.channel[0].stream);
    ArriveSender(l, l.channel[0].stream);
    ArriveFlight(l, l.channel[0].stream);
  }

  lemma ArriveOther(l: Link, j: StreamId)
    requires l.Valid() && l.channel != [] && j in l.sending && j != l.channel[0].stream
    ensures Arrive(l).StreamOK(j)
  {
    hide Codec, Link.SenderOK, Link.FlightOK, FrameOps;
    assert l.StreamOK(j);
    OtherStream(l, Arrive(l), l.channel[0].stream, j);
  }

  lemma ArriveLog(l: Link, i: nat)
    requires l.Valid() && l.channel != [] && i < |l.wlog|
    ensures Arrive(l).LogOK(i)
  {
    hide Codec, Link.StreamOK;
    assert l.LogOK(i);
  }

  lemma ArriveOps(l: Link)
    requires l.Valid() && l.channel != []
    ensures var m := Arrive(l); m.wlog == m.rlog + ChannelOps(m.channel, m.sending)
  {
    hide Codec, Link.StreamOK, Link.LogOK, FrameOps;
  }

  // ----- what the receiving side needs to know -----

  lemma CompatibleChain(plain: Buffer, text: Buffer, first: Buffer, data: Buffer)
    requires plain <= text && Compatible(text, first) && data <= first
    ensures Compatible(plain, data)
  {
  }

  /** The stream's position in the receiver's log names the sender's dictionary. */
  lemma SenderDictionary(l: Link, k: StreamId, u: nat)
    requires l.Valid() && k in l.sending && u < |l.rlog| && l.rlog[u].Use? && l.rlog[u].stream == k
    ensures l.sending[k].dict == DictAt(l.rlog, u, l.rlog[u].dict, l.maxSize)
  {
    hide Codec, Link.FlightOK, Link.SenderOK;
    assert l.wlog[u] == l.rlog[u] && l.LogOK(u);
    assert l.StreamOK(k);
    DictAtStable(l.rlog, ChannelOps(l.channel, l.sending), u, l.rlog[u].dict, l.maxSize);
  }

  lemma LoggedData(l: Link, i: nat)
    requires l.Valid() && i < |l.rlog| && l.rlog[i].Set?
    ensures l.rlog[i].stream in l.sending && l.rlog[i].data <= l.sending[l.rlog[i].stream].first
  {
    hide Codec, Link.StreamOK;
    assert l.wlog[i] == l.rlog[i] && l.LogOK(i);
  }
}
