/**
  One direction of a compressed connection as a value: what the sender has logged and compressed, the frames
  in flight, and what has arrived. The compressor is any codec that round-trips under equal dictionaries.
 */
module LinkModel {
  import opened Bytes
  import opened DictionaryLog
  import opened ReadModel
  import opened SetDictionary
  import opened WriteDictionaries

  datatype Input = Data(bytes: Buffer) | Finish

  type Compressor = (Buffer, seq<Input>) -> Buffer

  function Text(inputs: seq<Input>): Buffer {
    if inputs == [] then []
    else
      var last := inputs[|inputs| - 1];
      Text(inputs[..|inputs| - 1]) + (if last.Data? then last.bytes else [])
  }

  /** Output is only ever appended; any part of it decompresses to a part of the text, and all of it to all. */
  ghost predicate Codec(enc: Compressor, dec: Decompressor) {
    && Streaming(dec)
    && (forall d, ins, x :: enc(d, ins) <= enc(d, ins + [x]))
    && (forall d, ins, n :: 0 <= n <= |enc(d, ins)| ==> dec(d, enc(d, ins)[..n]) <= Text(ins))
    && (forall d, ins :: dec(d, enc(d, ins)) == Text(ins))
  }

  /** There is such a codec: one that does not compress at all. */
  lemma CodecExists()
    ensures Codec((d, ins) => Text(ins), (d, w) => w)
  {
    forall ins: seq<Input>, x: Input ensures Text(ins) <= Text(ins + [x]) {
      assert (ins + [x])[..|ins|] == ins;
    }
  }

  /** The writer sends a stream's SET_DICTIONARY frame right behind its USE_DICTIONARY frame. */
  datatype Frame =
    | UseDict(stream: StreamId, payload: Buffer)
    | SetDict(stream: StreamId, payload: Buffer)
    | Chunk(stream: StreamId, bytes: Buffer)
    | End(stream: StreamId)

  /** A sending stream: `first` is its first write, `sent` counts the compressed bytes put in frames. */
  datatype Sending = Sending(useID: byte, entries: seq<Entry>, dict: Buffer, first: Buffer,
                             inputs: seq<Input>, sent: nat, finished: bool, ended: bool)

  /** The stream has not been given the bytes it promised to the dictionaries. */
  predicate Breaks(s: Sending, maxSize: nat) {
    |Text(s.inputs)| < Min(|s.first|, maxSize)
  }

  datatype Arrival = Arrival(wire: Buffer, closed: bool)

  function Proj(channel: seq<Frame>, k: StreamId): seq<Frame> {
    if channel == [] then []
    else (if channel[0].stream == k then [channel[0]] else []) + Proj(channel[1..], k)
  }

  lemma {:induction false} ProjAppend(channel: seq<Frame>, f: Frame, k: StreamId)
    ensures Proj(channel + [f], k) == Proj(channel, k) + (if f.stream == k then [f] else [])
  {
    if channel == [] {
      assert channel + [f] == [f];
      assert Proj([f], k) == (if f.stream == k then [f] else []) + Proj([], k);
    } else {
      assert (channel + [f])[1..] == channel[1..] + [f];
      ProjAppend(channel[1..], f, k);
    }
  }

  /** The frames carry exactly `bytes`, in order, and then the end of the stream if `end`. */
  ghost predicate InFlight(fs: seq<Frame>, bytes: Buffer, end: bool) {
    if fs == [] then bytes == [] && !end
    else match fs[0]
      case UseDict(_, _) => false
      case SetDict(_, _) => false
      case Chunk(_, b) => b <= bytes && InFlight(fs[1..], bytes[|b|..], end)
      case End(_) => |fs| == 1 && bytes == [] && end
  }

  lemma InFlightHead(fs: seq<Frame>, bytes: Buffer, end: bool)
    requires InFlight(fs, bytes, end)
    ensures fs == [] || fs[0].Chunk? || fs[0].End?
  {
  }

  lemma {:induction false} InFlightChunk(fs: seq<Frame>, bytes: Buffer, k: StreamId, b: Buffer)
    requires InFlight(fs, bytes, false)
    ensures InFlight(fs + [Chunk(k, b)], bytes + b, false)
  {
    var gs := fs + [Chunk(k, b)];
    if fs == [] {
      assert gs[1..] == [] && (bytes + b)[|b|..] == [];
    } else {
      var c := fs[0].bytes;
      assert gs[1..] == fs[1..] + [Chunk(k, b)];
      assert (bytes + b)[|c|..] == bytes[|c|..] + b;
      InFlightChunk(fs[1..], bytes[|c|..], k, b);
    }
  }

  lemma {:induction false} InFlightEnd(fs: seq<Frame>, bytes: Buffer, k: StreamId)
    requires InFlight(fs, bytes, false)
    ensures InFlight(fs + [End(k)], bytes, true)
  {
    var gs := fs + [End(k)];
    if fs != [] {
      assert gs[1..] == fs[1..] + [End(k)];
      InFlightEnd(fs[1..], bytes[|fs[0].bytes|..], k);
    }
  }

  datatype Link = Link(nd: nat, maxSize: nat, enc: Compressor, dec: Decompressor, wlog: Log, rlog: Log,
                       arrived: map<StreamId, Arrival>, channel: seq<Frame>, sending: map<StreamId, Sending>,
                       usePos: map<StreamId, nat>)
  {
    ghost function Output(k: StreamId): Buffer
      requires k in sending
    {
      enc(sending[k].dict, sending[k].inputs)
    }

    /** A sending stream by itself. */
    ghost predicate SenderOK(k: StreamId)
      requires k in sending
    {
      var s := sending[k];
      && s.sent <= |Output(k)|
      && (s.ended ==> s.finished && s.sent == |Output(k)|)
      && Compatible(Text(s.inputs), s.first)
      && s.useID < nd && s.entries != []
      && (forall i :: 0 <= i < |s.entries| ==> s.entries[i].dictID < nd && s.entries[i].size == Min(|s.first|, maxSize))
    }

    /**
      The compressor's dictionary is the one the log has at the stream's use, and the stream's first update is next in
      the log.
     */
    ghost predicate DictOK(k: StreamId)
      requires k in sending
    {
      && k in usePos && usePos[k] + 1 < |wlog| && wlog[usePos[k]] == Use(k, sending[k].useID)
      && sending[k].dict == DictAt(wlog, usePos[k], sending[k].useID, maxSize)
      && wlog[usePos[k] + 1].Set? && wlog[usePos[k] + 1].stream == k
      && |wlog[usePos[k] + 1].data| == Min(|sending[k].first|, maxSize)
    }

    ghost predicate FlightOK(k: StreamId)
      requires k in sending && sending[k].sent <= |Output(k)|
    {
      var s, fs, out := sending[k], Proj(channel, k), Output(k)[..sending[k].sent];
      if k in arrived then
        var a := arrived[k];
        if fs != [] && fs[0].SetDict? then
          a == Arrival([], false) && fs[0] == SetDict(k, Payload(s.entries)) && InFlight(fs[1..], out, s.ended)
        else
          && a.wire <= out && InFlight(fs, out[|a.wire|..], s.ended && !a.closed)
          && (a.closed ==> s.ended && fs == [])
      else
        && |fs| >= 2 && fs[0] == UseDict(k, [s.useID]) && fs[1] == SetDict(k, Payload(s.entries))
        && InFlight(fs[2..], out, s.ended)
    }

    ghost predicate LogOK(i: nat)
      requires i < |wlog|
    {
      var k := wlog[i].stream;
      && k in sending && k in usePos
      && (wlog[i].Use? ==> usePos[k] == i)
      && (wlog[i].Set? ==> wlog[i].data <= sending[k].first)
    }

    ghost predicate StreamOK(k: StreamId)
      requires k in sending
    {
      SenderOK(k) && DictOK(k) && FlightOK(k)
    }

    ghost predicate Valid() {
      && Codec(enc, dec) && 0 < maxSize < TWO_63 && arrived.Keys <= sending.Keys
      && (forall k :: k in sending ==> StreamOK(k))
      && (forall i :: 0 <= i < |wlog| ==> LogOK(i))
      && (forall j :: 0 <= j < |channel| ==> channel[j].stream in sending)
      && wlog == rlog + ChannelOps(channel, sending)
    }
  }

  ghost function SetsOf(k: StreamId, s: Sending): Log {
    seq(|s.entries|, i requires 0 <= i < |s.entries| =>
      Set(k, s.entries[i].dictID, s.first[..Min(s.entries[i].size, |s.first|)]))
  }

  ghost function FrameOps(f: Frame, sending: map<StreamId, Sending>): Log {
    if f.stream !in sending then []
    else if f.UseDict? then [Use(f.stream, sending[f.stream].useID)]
    else if f.SetDict? then SetsOf(f.stream, sending[f.stream])
    else []
  }

  /** The log entries still in flight. */
  ghost function ChannelOps(channel: seq<Frame>, sending: map<StreamId, Sending>): Log {
    if channel == [] then [] else FrameOps(channel[0], sending) + ChannelOps(channel[1..], sending)
  }
}
