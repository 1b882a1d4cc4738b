/** Both ends of one direction of a compressed connection, running the code of either end over a FIFO of frames. */
module CompressedLink {
  import opened Bytes
  import opened DictionaryLog
  import opened ReadModel
  import opened ReadSteps
  import opened ReadCalm
  import opened ReadGrowth
  import opened ReadDictionaries
  import opened SetDictionary
  import opened StreamLookups
  import opened WriteDictionaries
  import opened DictionaryTheorems
  import opened LinkModel
  import opened LinkSteps
  import opened Negotiation

  ghost function Arrived(s: State): map<StreamId, Arrival> {
    map k | k in s.readers :: Arrival(s.readers[k].wire, s.readers[k].isClosed)
  }

  class Connection {
    const enc: Compressor
    const w: H2WriteDictionaries
    const r: H2ReadDictionaries
    var channel: seq<Frame>
    var sending: map<StreamId, Sending>
    ghost var usePos: map<StreamId, nat>

    ghost function View(): Link
      reads this, w, r
    {
      Link(|r.dicts|, r.maxSize, enc, r.dec, w.log, r.log, Arrived(r.View()), channel, sending, usePos)
    }

    ghost predicate Valid()
      reads this, w, r
    {
      && w.Valid() && r.Valid() && View().Valid()
      && w.maxSize == r.maxSize && |w.dictionaries| == |r.dicts| && r.receivedUse == r.readers.Keys
    }

    /**
      Both ends after a handshake that switched compression on, each with the number and size of dictionaries it has
      worked out for itself.
     */
    constructor (a: Endpoint, b: Endpoint, enc: Compressor, dec: Decompressor)
      requires Codec(enc, dec) && Enabled(Narrow(Own(a), Some(Offer(b))))
      ensures Valid() && channel == [] && sending == map[] && fresh(w) && fresh(r)
      ensures |w.dictionaries| == Min(Own(a).nDicts, Own(b).nDicts)
      ensures w.maxSize == Pow2(Min(Own(a).dictSize, Own(b).dictSize))
    {
      hide Codec, Narrow, Own, Offer, Pow2, Enabled;
      CodecStreams(enc, dec);
      SameSizes(a, b);
      var x, y := Narrow(Own(a), Some(Offer(b))), Narrow(Own(b), Some(Offer(a)));
      this.enc := enc;
      w := new H2WriteDictionaries(x.nDicts, Pow2(x.dictSize));
      r := new H2ReadDictionaries(y.nDicts, Pow2(y.dictSize), dec);
      channel, sending, usePos := [], map[], map[];
    }

    /** The first write of a stream: it gets its dictionary and announces its updates. */
    method FirstWrite(k: StreamId, path: string, contentType: string, p: Buffer)
      requires Valid() && k !in sending
      modifies this, w
      ensures Valid()
      ensures k in sending && sending == old(sending)[k := sending[k]]
      ensures sending[k].first == p && Fresh(sending[k])
      ensures exists f, g :: channel == old(channel) + [f] + [g]
    {
      hide Codec, Link.Valid, H2ReadDictionaries.Valid, SetsOf, DictAt, Payload;
      ghost var l := View();
      var useID, setDicts, copyDict := w.AssignDictToStream(k, path, contentType, p);
      var payload := WritePayload(setDicts);
      var s := Sending(useID, setDicts, copyDict, p, [], 0, false, false);
      WriterDictionary(l, useID, copyDict, old(w.dictionaries));
      AssignedOps(k, s);
      BeginValid(l, k, s);
      channel := channel + [UseDict(k, [useID])] + [SetDict(k, payload)];
      sending := sending[k := s];
      usePos := usePos[k := |old(w.log)|];
      assert View() == Begin(l, k, s);
    }

    /** A piece of a write: of the first one, until all of it is in. */
    method Write(k: StreamId, q: Buffer)
      requires Valid() && k in sending && !sending[k].finished
      requires Compatible(Text(sending[k].inputs) + q, sending[k].first)
      modifies this`sending
      ensures Valid()
      ensures sending == old(sending)[k := old(sending)[k].(inputs := old(sending)[k].inputs + [Data(q)])]
    {
      hide Codec, Link.Valid, H2ReadDictionaries.Valid, H2WriteDictionaries.Valid;
      WriteValid(View(), k, q);
      sending := sending[k := sending[k].(inputs := sending[k].inputs + [Data(q)])];
      assert channel + [] == channel;
    }

    /** CloseWrite, whether or not the first write is all in. */
    method Finish(k: StreamId)
      requires Valid() && k in sending && !sending[k].finished
      modifies this`sending
      ensures Valid()
      ensures var s := old(sending)[k];
              sending == old(sending)[k := s.(inputs := s.inputs + [Input.Finish], finished := true)]
    {
      hide Codec, Link.Valid, H2ReadDictionaries.Valid, H2WriteDictionaries.Valid;
      FinishValid(View(), k);
      sending := sending[k := sending[k].(inputs := sending[k].inputs + [Input.Finish], finished := true)];
      assert channel + [] == channel;
    }

    /** The write side was closed already when the first write announced the stream: nothing is ever compressed. */
    method FinishUnwritten(k: StreamId)
      requires Valid() && k in sending && !sending[k].finished && sending[k].inputs == []
      modifies this`sending
      ensures Valid() && sending == old(sending)[k := old(sending)[k].(finished := true)]
    {
      hide Codec, Link.Valid, H2ReadDictionaries.Valid, H2WriteDictionaries.Valid;
      UnwrittenValid(View(), k);
      sending := sending[k := sending[k].(finished := true)];
      assert channel + [] == channel;
    }

    /** A DATA frame with the next `n` bytes of compressed output. */
    method Emit(k: StreamId, n: nat)
      requires Valid() && k in sending && !sending[k].ended
      requires sending[k].sent + n <= |enc(sending[k].dict, sending[k].inputs)|
      modifies this`sending, this`channel
      ensures Valid()
      ensures sending == old(sending)[k := old(sending)[k].(sent := old(sending)[k].sent + n)]
    {
      hide Codec, Link.Valid, H2ReadDictionaries.Valid, H2WriteDictionaries.Valid;
      var s := sending[k];
      EmitValid(View(), k, n);
      channel := channel + [Chunk(k, enc(s.dict, s.inputs)[s.sent..s.sent + n])];
      sending := sending[k := s.(sent := s.sent + n)];
    }

    /** END_STREAM, after all the output. */
    method EmitEnd(k: StreamId)
      requires Valid() && k in sending && sending[k].finished && !sending[k].ended
      requires sending[k].sent == |enc(sending[k].dict, sending[k].inputs)|
      modifies this`sending, this`channel
      ensures Valid()
      ensures sending == old(sending)[k := old(sending)[k].(ended := true)]
    {
      hide Codec, Link.Valid, H2ReadDictionaries.Valid, H2WriteDictionaries.Valid;
      EmitEndValid(View(), k);
      channel := channel + [End(k)];
      sending := sending[k := sending[k].(ended := true)];
    }

    /**
      The receiver's frame loop takes the next frame. None of its error cases arises, and it crashes only if a stream
      has ended without the bytes it promised to the dictionaries.
     */
    method Receive() returns (crashed: bool)
      requires Valid() && channel != []
      modifies this`channel, r
      ensures !crashed ==> Valid() && channel == old(channel)[1..]
      ensures crashed ==> exists k :: k in sending && sending[k].ended && Breaks(sending[k], r.maxSize)
    {
      hide Codec, Link.Valid, Link.StreamOK, H2WriteDictionaries.Valid;
      hide H2ReadDictionaries.Valid, Arrived, Payload, SetsOf, Breaks;
      ghost var l := View();
      var f := channel[0];
      HeadFrame(l);
      ArrivedAt(r.View(), f.stream);
      ArriveValid(l);
      crashed := false;
      match f {
        case UseDict(k, payload) =>
          ReceiveUseFrame(k, payload);
        case SetDict(k, payload) =>
          ReceiveSetFrame(k, payload);
        case Chunk(k, b) =>
          crashed := ReceiveChunk(k, b);
        case End(k) =>
          crashed := ReceiveEnd(k);
      }
      if crashed {
        return;
      }
      channel := channel[1..];
      assert View() == Arrive(l);
    }

    /**
      Once every stream has ended, the rest of the channel is received in full exactly if every stream was given the
      bytes it promised; otherwise the receiver crashes on the way.
     */
    method ReceiveAll() returns (crashed: bool)
      requires Valid() && forall k :: k in sending ==> sending[k].ended
      modifies this`channel, r
      ensures crashed <==> exists k :: k in sending && Breaks(sending[k], r.maxSize)
      ensures !crashed ==> Valid() && channel == []
    {
      hide Codec, Link.Valid, H2WriteDictionaries.Valid, H2ReadDictionaries.Valid, Breaks;
      crashed := false;
      while channel != []
        invariant Valid() && !crashed
        decreases |channel|
      {
        crashed := Receive();
        if crashed {
          return;
        }
      }
      PromisesKept(this);
    }

    method ReceiveUseFrame(k: StreamId, payload: Buffer)
      requires Valid() && k in sending && k !in r.readers && payload == [sending[k].useID]
      modifies r
      ensures r.Valid() && |r.dicts| == |old(r.dicts)| && r.receivedUse == r.readers.Keys
      ensures r.log == old(r.log) + [Use(k, sending[k].useID)]
      ensures Arrived(r.View()) == old(Arrived(r.View()))[k := Arrival([], false)]
    {
      hide Codec, Link.Valid, H2WriteDictionaries.Valid, State.Settled, Payload, Arrived, GrowUse;
      ghost var s0 := r.View();
      SenderFacts(View(), k);
      var accepted := r.ReceiveUse(k, Present, payload);
      assert accepted == Accepted;
      GrewUse(s0, k, sending[k].useID);
    }

    method ReceiveSetFrame(k: StreamId, payload: Buffer)
      requires Valid() && k in sending && k in r.readers && !r.readers[k].isClosed && r.readers[k].wire == []
      requires payload == Payload(sending[k].entries)
      modifies r
      ensures r.Valid() && |r.dicts| == |old(r.dicts)| && r.receivedUse == r.readers.Keys
      ensures r.log == old(r.log) + SetsOf(k, sending[k]) && Arrived(r.View()) == old(Arrived(r.View()))
    {
      hide Codec, Link.Valid, H2WriteDictionaries.Valid, State.Settled, Payload, Arrived, GrowSets;
      ghost var s0, s := r.View(), sending[k];
      SenderFacts(View(), k);
      PayloadRoundTrip(s.entries, |r.dicts|);
      SentBounds(s.entries, s.first, r.maxSize, |r.dicts|);
      var read := r.ReceiveSet(k, Present, Flags(true, false), payload, s.first);
      assert read == Read(Complete);
      GrewSets(s0, k, s.entries, s.first);
      AssignedOps(k, s);
    }

    method ReceiveChunk(k: StreamId, b: Buffer) returns (crashed: bool)
      requires Valid() && k in sending && k in r.readers && !r.readers[k].isClosed
      requires r.readers[k].wire + b <= enc(sending[k].dict, sending[k].inputs)
      modifies r
      ensures !crashed ==>
                && r.Valid() && |r.dicts| == |old(r.dicts)| && r.receivedUse == r.readers.Keys && r.log == old(r.log)
                && Arrived(r.View()) == old(Arrived(r.View()))[k := Arrival(old(r.readers)[k].wire + b, false)]
      ensures crashed ==> exists j :: j in sending && sending[j].ended && Breaks(sending[j], r.maxSize)
    {
      hide Codec, Link.Valid, H2WriteDictionaries.Valid, State.Settled, Expected, Later, Arrived, SomeShort, Breaks;
      ghost var l, s := View(), r.View();
      ArrivesAsExpected(l, s, k, b);
      crashed := r.Deliver(k, b);
      if crashed {
        ShortMeansBroken(l, s, k, b, false);
      } else {
        ArrivedLater(s, r.View(), k, b, false);
      }
    }

    method ReceiveEnd(k: StreamId) returns (crashed: bool)
      requires Valid() && k in sending && k in r.readers && !r.readers[k].isClosed
      requires r.readers[k].wire == enc(sending[k].dict, sending[k].inputs) && sending[k].ended
      modifies r
      ensures !crashed ==>
                && r.Valid() && |r.dicts| == |old(r.dicts)| && r.receivedUse == r.readers.Keys && r.log == old(r.log)
                && Arrived(r.View()) == old(Arrived(r.View()))[k := Arrival(old(r.readers)[k].wire, true)]
      ensures crashed ==> exists j :: j in sending && sending[j].ended && Breaks(sending[j], r.maxSize)
    {
      hide Codec, Link.Valid, H2WriteDictionaries.Valid, State.Settled, Expected, Later, Arrived, SomeShort, Breaks;
      ghost var l, s := View(), r.View();
      assert r.readers[k].wire + [] == r.readers[k].wire;
      crashed := r.CloseReader(k);
      if crashed {
        ShortMeansBroken(l, s, k, [], true);
      } else {
        ArrivedLater(s, r.View(), k, [], true);
      }
    }
  }

  lemma CodecStreams(enc: Compressor, dec: Decompressor)
    requires Codec(enc, dec)
    ensures Streaming(dec)
  {
  }

  /** What the two ends work out is the same, and not too large to count. */
  lemma SameSizes(a: Endpoint, b: Endpoint)
    requires Enabled(Narrow(Own(a), Some(Offer(b))))
    ensures var x, y := Narrow(Own(a), Some(Offer(b))), Narrow(Own(b), Some(Offer(a)));
            && y.nDicts == x.nDicts == Min(Own(a).nDicts, Own(b).nDicts) && x.nDicts > 0
            && y.dictSize == x.dictSize == Min(Own(a).dictSize, Own(b).dictSize) && Pow2(x.dictSize) < TWO_63
  {
    hide Narrow, Offer;
    Agreement(a, b);
    var n := Narrow(Own(a), Some(Offer(b))).dictSize;
    assert n <= 19;
    Pow2Monotone(n, 19);
    assert Pow2(10) == 1024;
    assert Pow2(19) == 512 * 1024;
  }

  lemma ArrivedAt(s: State, k: StreamId)
    ensures k in Arrived(s) <==> k in s.readers
    ensures k in s.readers ==> Arrived(s)[k] == Arrival(s.readers[k].wire, s.readers[k].isClosed)
  {
  }

  lemma SenderFacts(l: Link, k: StreamId)
    requires l.Valid() && k in l.sending
    ensures var s := l.sending[k];
            && s.useID < l.nd && s.entries != [] && l.maxSize < TWO_63
            && (forall i :: 0 <= i < |s.entries| ==>
                  s.entries[i].dictID < l.nd && s.entries[i].size <= |s.first| && s.entries[i].size <= l.maxSize)
  {
    assert l.StreamOK(k);
  }

  lemma SentBounds(entries: seq<Entry>, first: Buffer, maxSize: nat, nd: nat)
    requires forall i :: 0 <= i < |entries| ==>
               entries[i].size <= |first| && entries[i].size <= maxSize && entries[i].dictID < nd
    ensures forall e :: e in SentAll(entries) ==> e.size <= |first| && e.size <= maxSize && e.dictID < nd
  {
  }

  lemma GrewUse(s: State, k: StreamId, d: nat)
    requires d < |s.dicts|
    ensures var t := GrowUse(s, k, d);
            && t.log == s.log + [Use(k, d)] && |t.dicts| == |s.dicts| && t.readers.Keys == s.readers.Keys + {k}
            && t.readers[k].wire == [] && !t.readers[k].isClosed
            && Arrived(t) == Arrived(s)[k := Arrival([], false)]
  {
  }

  lemma GrewSet(s: State, k: StreamId, d: nat, data: Buffer)
    requires d < |s.dicts| && k in s.readers
    ensures var t := GrowSet(s, k, d, data);
            && t.log == s.log + [Set(k, d, data)] && |t.dicts| == |s.dicts|
            && t.readers.Keys == s.readers.Keys && Arrived(t) == Arrived(s)
  {
  }

  lemma {:induction false} GrewSets(s: State, k: StreamId, entries: seq<Entry>, first: Buffer)
    requires k in s.readers
    requires forall i :: 0 <= i < |entries| ==> entries[i].dictID < |s.dicts| && entries[i].size <= |first|
    ensures SetsApply(s, k, SentAll(entries), first)
    ensures var t := GrowSets(s, k, SentAll(entries), first);
            && t.log == s.log + SetOps(k, entries, first) && |t.dicts| == |s.dicts|
            && t.readers.Keys == s.readers.Keys && Arrived(t) == Arrived(s)
    decreases |entries|
  {
    hide Arrived, GrowSet;
    if entries != [] {
      var e := entries[0];
      var m := GrowSet(s, k, e.dictID, first[..e.size]);
      assert SentAll(entries)[1..] == SentAll(entries[1..]);
      GrewSet(s, k, e.dictID, first[..e.size]);
      GrewSets(m, k, entries[1..], first);
      assert SetOps(k, entries, first) == [Set(k, e.dictID, first[..e.size])] + SetOps(k, entries[1..], first);
    }
  }

  /** Bytes of the sender's output decompress, under the dictionary at the stream's use, to part of its text. */
  lemma ArrivesAsExpected(l: Link, s: State, k: StreamId, p: Buffer)
    requires l.Valid() && s.Settled() && l.rlog == s.log && l.maxSize == s.maxSize && l.dec == s.dec
    requires k in l.sending && k in s.readers
    requires s.readers[k].wire + p <= l.Output(k)
    ensures k in s.useAt && s.useAt[k] < |s.log| && Expected(s, k, p)
  {
    hide Codec, Link.Valid, State.Settled, Text;
    UseLogged(s, k);
    var u := s.useAt[k];
    SenderDictionary(l, k, u);
    assert s.TrueDict(k) == l.sending[k].dict;
    Decompresses(l, k, s.readers[k].wire + p);
    var plain := s.dec(s.TrueDict(k), s.readers[k].wire + p);
    forall i | 0 <= i < |s.log| && s.log[i].Set? && s.log[i].stream == k ensures Compatible(plain, s.log[i].data) {
      LoggedData(l, i);
      CompatibleChain(plain, Text(l.sending[k].inputs), l.sending[k].first, s.log[i].data);
    }
  }

  /** An update that falls short at the receiver belongs to a stream that was not given what it promised. */
  lemma ShortMeansBroken(l: Link, s: State, k: StreamId, p: Buffer, close: bool)
    requires l.Valid() && s.Settled() && l.rlog == s.log && l.maxSize == s.maxSize && l.dec == s.dec
    requires l.arrived == Arrived(s) && k in l.sending && k in s.readers && !s.readers[k].isClosed
    requires close ==> s.readers[k].wire + p == l.Output(k) && l.sending[k].ended
    requires SomeShort(Feed(s, k, p, close))
    ensures exists j :: j in l.sending && l.sending[j].ended && Breaks(l.sending[j], l.maxSize)
  {
    hide Codec, Link.Valid, State.Settled, Text, Arrived, DictAt;
    var f := Feed(s, k, p, close);
    var i :| 0 <= i < |f.log| && f.Short(i);
    var j := f.log[i].stream;
    ArrivedAt(s, j);
    if j != k {
      ClosedIsComplete(l, j);
    }
    UseLogged(s, j);
    SenderDictionary(l, j, s.useAt[j]);
    assert f.TrueDict(j) == l.sending[j].dict;
    Decompresses(l, j, f.readers[j].wire);
    LoggedData(l, i);
    LoggedSize(s, i);
    assert Breaks(l.sending[j], l.maxSize);
  }

  lemma ClosedIsComplete(l: Link, j: StreamId)
    requires l.Valid() && j in l.arrived && l.arrived[j].closed
    ensures j in l.sending && l.sending[j].ended && l.arrived[j].wire == l.Output(j)
  {
    hide Codec;
    assert l.StreamOK(j);
  }

  lemma UseLogged(s: State, k: StreamId)
    requires s.Settled() && k in s.readers
    ensures k in s.useAt && s.useAt[k] < |s.log| && s.log[s.useAt[k]].Use? && s.log[s.useAt[k]].stream == k
  {
  }

  lemma LoggedSize(s: State, i: nat)
    requires s.Settled() && i < |s.log| && s.log[i].Set?
    ensures |s.log[i].data| <= s.maxSize
  {
    assert s.OpOK(i);
  }

  lemma Decompresses(l: Link, k: StreamId, wire: Buffer)
    requires l.Valid() && k in l.sending && wire <= l.Output(k)
    ensures l.dec(l.sending[k].dict, wire) <= Text(l.sending[k].inputs)
    ensures wire == l.Output(k) ==> l.dec(l.sending[k].dict, wire) == Text(l.sending[k].inputs)
    ensures Compatible(Text(l.sending[k].inputs), l.sending[k].first)
  {
    assert l.StreamOK(k);
    assert wire == l.Output(k)[..|wire|];
  }

  lemma ArrivedLater(s: State, t: State, k: StreamId, p: Buffer, close: bool)
    requires k in s.readers && Later(Feed(s, k, p, close), t, {}, {k}) && !s.readers[k].isClosed
    ensures Arrived(t) == Arrived(s)[k := Arrival(s.readers[k].wire + p, close)]
    ensures t.log == s.log && |t.dicts| == |s.dicts| && t.readers.Keys == s.readers.Keys
  {
    var f := Feed(s, k, p, close);
    forall j | j in f.readers ensures j in t.readers && SameInput(f.readers[j], t.readers[j]) {
      assert ReaderLater(f.readers[j], t.readers[j], j in {k});
    }
  }

  lemma WriterDictionary(l: Link, useID: byte, copyDict: Buffer, dictionaries: seq<Buffer>)
    requires Current(dictionaries, l.wlog, l.maxSize) && useID < |dictionaries| && copyDict == dictionaries[useID]
    ensures copyDict == DictAt(l.wlog, |l.wlog|, useID, l.maxSize)
  {
  }

  lemma AssignedOps(k: StreamId, s: Sending)
    requires forall i :: 0 <= i < |s.entries| ==> s.entries[i].size <= |s.first|
    ensures SetsOf(k, s) == SetOps(k, s.entries, s.first)
  {
  }

  // ----- the results -----

  /**
    In every state of every run, a stream's decompressor has the very dictionary its compressor was given, even
    if it had to wait for it, and what it has passed on is a prefix of what was written to the stream.
   */
  lemma SameDictionary(c: Connection, k: StreamId)
    requires c.Valid() && k in c.r.readers && c.r.readers[k].decomp.Some?
    ensures k in c.sending && c.r.readers[k].decomp.value == c.sending[k].dict
    ensures c.r.readers[k].out <= Text(c.sending[k].inputs)
  {
    var l, s := c.View(), c.r.View();
    InstalledDictionary(s, k);
    ArrivedAt(s, k);
    SenderDictionary(l, k, s.useAt[k]);
    WirePrefix(l, k);
    Decompresses(l, k, s.readers[k].wire);
  }

  lemma WirePrefix(l: Link, k: StreamId)
    requires l.Valid() && k in l.arrived
    ensures k in l.sending && l.arrived[k].wire <= l.Output(k)
  {
    hide Codec;
    assert l.StreamOK(k);
  }

  /** With nothing in flight, a stream that ended has arrived whole. */
  lemma EndedArrived(l: Link, k: StreamId)
    requires l.Valid() && l.channel == [] && k in l.sending && l.sending[k].ended
    ensures k in l.arrived && l.arrived[k] == Arrival(l.Output(k), true)
  {
    hide Codec;
    assert l.StreamOK(k);
  }

  lemma Heard(c: Connection)
    requires c.Valid() && c.channel == [] && forall k :: k in c.sending ==> c.sending[k].ended
    ensures AllHeard(c.r.View()) && c.r.log == c.w.log
    ensures forall k :: k in c.r.readers ==> c.r.readers[k].isClosed
  {
    var l, s := c.View(), c.r.View();
    forall k | k in s.readers ensures s.readers[k].isClosed {
      ArrivedAt(s, k);
      EndedArrived(l, k);
    }
    forall i | 0 <= i < |s.log| && s.log[i].Set? ensures s.OpOK(i) && s.readers[s.log[i].stream].isClosed {
      assert s.OpOK(i);
    }
    assert l.wlog == l.rlog + [];
  }

  /** A stream's promise is in the log. */
  lemma Promised(l: Link, k: StreamId)
    requires l.Valid() && k in l.sending
    ensures exists i :: 0 <= i < |l.wlog| && l.wlog[i].Set? && l.wlog[i].stream == k
                        && |l.wlog[i].data| == Min(|l.sending[k].first|, l.maxSize)
  {
    hide Codec, Link.FlightOK, Link.SenderOK;
    assert l.StreamOK(k);
    assert l.wlog[l.usePos[k] + 1].Set?;
  }

  /** Where everything has arrived and the receiver still runs, every stream was given the bytes it promised. */
  lemma PromisesKept(c: Connection)
    requires c.Valid() && c.channel == [] && forall k :: k in c.sending ==> c.sending[k].ended
    ensures forall k :: k in c.sending ==> !Breaks(c.sending[k], c.r.maxSize)
  {
    hide Codec, Link.Valid, State.Settled, SomeShort, Arrived, DictAt;
    Heard(c);
    NothingStuck(c.r.View());
    forall k | k in c.sending ensures !Breaks(c.sending[k], c.r.maxSize) {
      OnePromiseKept(c, k);
    }
  }

  lemma OnePromiseKept(c: Connection, k: StreamId)
    requires c.Valid() && c.channel == [] && k in c.sending && c.sending[k].ended
    requires c.r.log == c.w.log && !SomeShort(c.r.View())
    ensures !Breaks(c.sending[k], c.r.maxSize)
  {
    hide Codec, Link.Valid, State.Settled, Arrived, DictAt;
    var l, s := c.View(), c.r.View();
    Promised(l, k);
    var i :| 0 <= i < |l.wlog| && l.wlog[i].Set? && l.wlog[i].stream == k
             && |l.wlog[i].data| == Min(|l.sending[k].first|, l.maxSize);
    EndedArrived(l, k);
    ArrivedAt(s, k);
    UseLogged(s, k);
    SenderDictionary(l, k, s.useAt[k]);
    assert s.TrueDict(k) == l.sending[k].dict;
    Decompresses(l, k, s.readers[k].wire);
    assert !s.Short(i);
  }

  /**
    Once every stream has ended and the channel is empty, every queue is empty, both ends hold the same
    dictionaries, and every stream has delivered exactly what was written to it.
   */
  lemma EverythingArrives(c: Connection)
    requires c.Valid() && c.channel == [] && forall k :: k in c.sending ==> c.sending[k].ended
    ensures |c.r.dicts| == |c.w.dictionaries|
    ensures forall d :: 0 <= d < |c.r.dicts| ==> c.r.dicts[d] == ReadDict(c.w.dictionaries[d], [])
    ensures forall k :: k in c.sending ==> k in c.r.readers && c.r.readers[k].out == Text(c.sending[k].inputs)
    ensures forall k :: k in c.sending ==> !Breaks(c.sending[k], c.r.maxSize)
  {
    PromisesKept(c);
    Heard(c);
    NothingStuck(c.r.View());
    forall k | k in c.sending ensures k in c.r.readers && c.r.readers[k].out == Text(c.sending[k].inputs) {
      AllDelivered(c, k);
    }
  }

  lemma AllDelivered(c: Connection, k: StreamId)
    requires c.Valid() && c.channel == [] && k in c.sending && c.sending[k].ended
    requires k in c.r.readers ==> c.r.readers[k].decomp.Some?
    ensures k in c.r.readers && c.r.readers[k].out == Text(c.sending[k].inputs)
  {
    var l, s := c.View(), c.r.View();
    EndedArrived(l, k);
    ArrivedAt(s, k);
    InstalledDictionary(s, k);
    SenderDictionary(l, k, s.useAt[k]);
    Decompresses(l, k, s.readers[k].wire);
  }

  /**
    A first write to a stream whose write side is already closed announces its dictionaries before it is refused; the
    stream then ends without a byte of what it promised, and the receiver crashes.
   */
  method WriteAfterClose(c: Connection, k: StreamId, path: string, contentType: string, p: Buffer)
    returns (crashed: bool)
    requires c.Valid() && c.sending == map[] && p != []
    modifies c, c.w, c.r
    ensures crashed
  {
    hide Codec, Link.Valid, H2WriteDictionaries.Valid, H2ReadDictionaries.Valid, Link.SenderOK;
    c.FirstWrite(k, path, contentType, p);
    c.FinishUnwritten(k);
    c.Emit(k, |c.enc(c.sending[k].dict, c.sending[k].inputs)|);
    c.EmitEnd(k);
    assert Text([]) == [];
    SizePositive(c.View());
    assert Breaks(c.sending[k], c.r.maxSize);
    crashed := c.ReceiveAll();
  }

  lemma SizePositive(l: Link)
    requires l.Valid()
    ensures l.maxSize > 0
  {
  }
}
