/** How the receiving side's state grows when USE_DICTIONARY and SET_DICTIONARY frames arrive. */
module ReadGrowth {
  import opened Bytes
  import opened DictionaryLog
  import opened ReadModel
  import opened ReadSteps
  import ReadCalm
  import SetDictionary

  const FRESH := Reader(None, [], 0, [], false, [], [], false)

  function Enqueue(dicts: seq<ReadDict>, d: nat, i: nat): seq<ReadDict>
    requires d < |dicts|
  {
    dicts[d := dicts[d].(queue := dicts[d].queue + [i])]
  }

  /** newReader: a use is served at once when nothing is queued for its dictionary, and queued otherwise. */
  function GrowUse(s: State, k: StreamId, d: nat): State
    requires d < |s.dicts|
  {
    var now := s.dicts[d].queue == [];
    s.(log := s.log + [Use(k, d)],
       updates := s.updates + [Update(k, d, 0, true, true, [])],
       useAt := s.useAt[k := |s.log|],
       readers := s.readers[k := if now then FRESH.(decomp := Some(s.dicts[d].dictionary)) else FRESH],
       dicts := if now then s.dicts else Enqueue(s.dicts, d, |s.updates|))
  }

  /** One entry of a SET_DICTIONARY frame. */
  function GrowSet(s: State, k: StreamId, d: nat, data: Buffer): State
    requires d < |s.dicts| && k in s.readers
  {
    s.(log := s.log + [Set(k, d, data)],
       updates := s.updates + [Update(k, d, |data|, false, false, [])],
       readers := s.readers[k := s.readers[k].(queue := s.readers[k].queue + [|s.updates|])],
       dicts := Enqueue(s.dicts, d, |s.updates|))
  }

  /** The parts of growth that both frames share. */
  ghost predicate Grows(s: State, t: State, op: Op) {
    && s.Inv() && op.dict < |s.dicts| == |t.dicts| && t.maxSize == s.maxSize && t.dec == s.dec
    && t.log == s.log + [op] && |t.updates| == |t.log| && t.updates[..|s.log|] == s.updates
    && (forall k :: k in s.useAt ==> k in t.useAt && t.useAt[k] == s.useAt[k])
    && (forall e :: 0 <= e < |s.dicts| ==> QueueGrows(s, t, op, e))
  }

  ghost predicate QueueGrows(s: State, t: State, op: Op, e: nat)
    requires e < |s.dicts| == |t.dicts|
  {
    || (t.dicts[e] == s.dicts[e] && (op.dict == e ==> op.Use? && s.dicts[e].queue == []))
    || (op.dict == e && t.dicts[e] == s.dicts[e].(queue := s.dicts[e].queue + [|s.log|]))
  }

  lemma PosGrows(s: State, t: State, op: Op, e: nat)
    requires Grows(s, t, op) && e < |s.dicts|
    ensures s.Pos(e) <= t.Pos(e)
    ensures s.Pos(e) < |s.log| ==> t.Pos(e) == s.Pos(e)
    ensures t.Pos(e) > |s.log| ==> s.dicts[e].queue == [] == t.dicts[e].queue && (op.dict == e ==> op.Use?)
  {
    assert QueueGrows(s, t, op, e) && s.QueueOK(e);
  }

  lemma QueueStays(s: State, t: State, op: Op, e: nat)
    requires Grows(s, t, op) && e < |s.dicts|
    ensures t.QueueOK(e)
  {
    assert QueueGrows(s, t, op, e) && s.QueueOK(e);
    PosGrows(s, t, op, e);
    DictAtStable(s.log, [op], s.Pos(e), e, s.maxSize);
    if t.Pos(e) > s.Pos(e) {
      DictAtSkip(t.log, s.Pos(e), t.Pos(e), e, s.maxSize);
    }
    forall i | t.Pos(e) <= i < |t.log| && t.log[i].dict == e ensures i in t.dicts[e].queue {
      if i < |s.log| {
        assert t.log[i] == s.log[i];
      } else {
        assert t.dicts[e].queue == s.dicts[e].queue + [|s.log|];
      }
    }
  }

  lemma PlainStays(s: State, t: State, op: Op, k: StreamId)
    requires Grows(s, t, op) && k in s.readers && k in t.readers && t.readers[k].wire == s.readers[k].wire
    ensures k in t.useAt && t.useAt[k] < |t.log|
    ensures t.TrueDict(k) == s.TrueDict(k) && t.Plain(k) == s.Plain(k)
  {
    DictAtStable(s.log, [op], s.useAt[k], s.log[s.useAt[k]].dict, s.maxSize);
    assert t.log[s.useAt[k]] == s.log[s.useAt[k]];
  }

  lemma UpdateStays(s: State, t: State, op: Op, i: nat)
    requires Grows(s, t, op) && t.Shape() && i < |s.log| && s.OpOK(i)
    requires var k := s.log[i].stream;
             && k in t.readers && t.readers[k].decomp == s.readers[k].decomp
             && t.readers[k].produced == s.readers[k].produced
             && t.readers[k].wire == s.readers[k].wire && t.readers[k].isClosed == s.readers[k].isClosed
             && s.readers[k].queue <= t.readers[k].queue
    ensures t.UpdateOK(i)
  {
    assert s.UpdateOK(i);
    assert t.log[i] == s.log[i] && t.updates[i] == s.updates[i];
    PosGrows(s, t, op, s.log[i].dict);
    PlainStays(s, t, op, s.log[i].stream);
  }

  lemma EnvStays(s: State, t: State, op: Op, i: nat)
    requires Grows(s, t, op) && t.Shape() && i < |s.log| && s.OpOK(i)
    requires var k := s.log[i].stream;
             k in t.readers && t.readers[k].wire == s.readers[k].wire && t.readers[k].isClosed == s.readers[k].isClosed
    ensures t.EnvOK(i)
  {
    assert s.EnvOK(i) && t.log[i] == s.log[i];
    PlainStays(s, t, op, s.log[i].stream);
  }

  lemma ReaderStays(s: State, t: State, op: Op, k: StreamId)
    requires Grows(s, t, op) && t.Shape() && k in s.readers && k in t.readers && t.readers[k] == s.readers[k]
    ensures t.ReaderOK(k)
  {
    assert s.ReaderOK(k) && s.OpOK(s.useAt[k]);
    PlainStays(s, t, op, k);
    PosGrows(s, t, op, s.log[s.useAt[k]].dict);
    assert t.log[s.useAt[k]] == s.log[s.useAt[k]];
    forall a | 0 <= a < |s.readers[k].queue|
      ensures var i := s.readers[k].queue[a]; i < |s.log| && t.log[i] == s.log[i] && t.updates[i] == s.updates[i]
    {
    }
  }

  lemma DoneStays(s: State, t: State, op: Op, k: StreamId)
    requires Grows(s, t, op) && t.Shape() && k in s.readers && k in t.readers && s.Done(k)
    requires t.readers[k] == s.readers[k].(queue := t.readers[k].queue)
    requires op.stream != k || op.Use? || (s.readers[k].wire == [] && !s.readers[k].isClosed)
    ensures t.Done(k)
  {
    PlainStays(s, t, op, k);
    if s.readers[k].decomp.Some? {
      forall i | 0 <= i < |t.log| && t.log[i].Set? && t.log[i].stream == k && t.CanComplete(i)
        ensures t.updates[i].isReady
      {
        if i < |s.log| {
          assert t.log[i] == s.log[i] && t.updates[i] == s.updates[i];
          assert s.CanComplete(i);
        }
      }
    }
  }

  lemma OnceStays(s: State, t: State, op: Op, k: StreamId)
    requires Grows(s, t, op) && t.Shape() && k in s.readers && k in t.readers
    requires t.readers[k].decomp == s.readers[k].decomp
    requires s.InstalledOnce(k, {})
    ensures t.InstalledOnce(k, {})
  {
    assert s.OpOK(s.useAt[k]);
    assert t.log[s.useAt[k]] == s.log[s.useAt[k]];
    PosGrows(s, t, op, s.log[s.useAt[k]].dict);
  }

  lemma HeadStays(s: State, t: State, op: Op, e: nat)
    requires Grows(s, t, op) && e < |s.dicts| && s.QueueOK(e) && t.QueueOK(e) && s.HeadOK(e)
    requires op.Set? ==> !t.updates[|s.log|].isReady
    requires op.Use? && op.dict == e && s.dicts[e].queue == [] ==> t.dicts[e].queue == []
    ensures t.HeadOK(e)
  {
    assert QueueGrows(s, t, op, e);
    if s.dicts[e].queue != [] {
      var h := s.dicts[e].queue[0];
      assert t.dicts[e].queue[0] == h && t.updates[h] == s.updates[h];
    }
  }

  lemma OpStays(s: State, t: State, op: Op, i: nat)
    requires Grows(s, t, op) && i < |s.log|
    ensures t.OpOK(i)
  {
    assert s.OpOK(i) && t.log[i] == s.log[i] && t.updates[i] == s.updates[i];
  }

  // ----- USE_DICTIONARY -----

  lemma GrowUseGrows(s: State, k: StreamId, d: nat)
    requires s.Inv() && d < |s.dicts| && k !in s.readers
    ensures Grows(s, GrowUse(s, k, d), Use(k, d))
  {
    var t := GrowUse(s, k, d);
    assert t.updates[..|s.log|] == s.updates;
    forall e | 0 <= e < |s.dicts| ensures QueueGrows(s, t, Use(k, d), e) {
    }
  }

  lemma GrowUseShape(s: State, k: StreamId, d: nat)
    requires s.Inv() && d < |s.dicts| && k !in s.readers
    ensures GrowUse(s, k, d).Shape()
  {
    var t := GrowUse(s, k, d);
    GrowUseGrows(s, k, d);
    forall i | 0 <= i < |t.log| ensures t.OpOK(i) {
      if i < |s.log| {
        OpStays(s, t, Use(k, d), i);
      }
    }
    forall l | l in t.useAt ensures t.useAt[l] < |t.log| && t.log[t.useAt[l]].Use? && t.log[t.useAt[l]].stream == l {
    }
  }

  /** A use served at once gets the dictionary as it is after everything logged before it. */
  lemma GrowUseReader(s: State, k: StreamId, d: nat)
    requires s.Inv() && d < |s.dicts| && k !in s.readers
    requires GrowUse(s, k, d).Shape()
    ensures var t := GrowUse(s, k, d); t.ReaderOK(k) && t.Done(k) && t.InstalledOnce(k, {})
  {
    var t := GrowUse(s, k, d);
    assert s.QueueOK(d);
    DictAtStable(s.log, [Use(k, d)], |s.log|, d, s.maxSize);
    assert t.TrueDict(k) == DictAt(s.log, |s.log|, d, s.maxSize);
    assert t.Plain(k) == [];
    forall i | 0 <= i < |s.log| ensures s.log[i].stream != k && t.log[i] == s.log[i] {
      assert s.OpOK(i);
    }
  }

  lemma GrowUseEntries(s: State, k: StreamId, d: nat)
    requires s.Inv() && d < |s.dicts| && k !in s.readers && GrowUse(s, k, d).Shape()
    ensures GrowUse(s, k, d).UpdatesOK() && GrowUse(s, k, d).EnvsOK()
  {
    var t, op := GrowUse(s, k, d), Use(k, d);
    GrowUseGrows(s, k, d);
    hide State.UpdateOK, State.EnvOK, Grows;
    forall i | 0 <= i < |t.log| ensures t.UpdateOK(i) && t.EnvOK(i) {
      if i < |s.log| {
        assert s.OpOK(i);
        UpdateStays(s, t, op, i);
        EnvStays(s, t, op, i);
      } else {
        LastUse(t, i);
      }
    }
  }

  lemma LastUse(t: State, i: nat)
    requires t.Shape() && i < |t.log| && t.log[i].Use? && t.updates[i].isReady
    ensures t.UpdateOK(i) && t.EnvOK(i)
  {
  }

  lemma GrowUseSettled(s: State, k: StreamId, d: nat)
    requires s.Settled() && d < |s.dicts| && k !in s.readers
    ensures GrowUse(s, k, d).Settled()
  {
    hide State.QueueOK, State.UpdateOK, State.ReaderOK, State.EnvOK, State.OpOK;
    hide State.Done, State.HeadOK, State.InstalledOnce, Grows;
    var t, op := GrowUse(s, k, d), Use(k, d);
    GrowUseGrows(s, k, d);
    GrowUseShape(s, k, d);
    GrowUseReader(s, k, d);
    GrowUseEntries(s, k, d);
    forall e | 0 <= e < |t.dicts| ensures t.QueueOK(e) && t.HeadOK(e) {
      QueueStays(s, t, op, e);
      assert s.HeadOK(e);
      HeadStays(s, t, op, e);
    }
    forall l | l in t.readers ensures t.ReaderOK(l) && t.Done(l) && t.InstalledOnce(l, {}) {
      if l != k {
        ReaderStays(s, t, op, l);
        DoneStays(s, t, op, l);
        OnceStays(s, t, op, l);
      }
    }
  }

  // ----- SET_DICTIONARY -----

  ghost predicate SetExpected(s: State, k: StreamId, d: nat, data: Buffer) {
    && d < |s.dicts| && k in s.readers && |data| <= s.maxSize
    && s.readers[k].wire == [] && !s.readers[k].isClosed
  }

  lemma GrowSetGrows(s: State, k: StreamId, d: nat, data: Buffer)
    requires s.Inv() && SetExpected(s, k, d, data)
    ensures Grows(s, GrowSet(s, k, d, data), Set(k, d, data))
  {
    var t := GrowSet(s, k, d, data);
    assert t.updates[..|s.log|] == s.updates;
    forall e | 0 <= e < |s.dicts| ensures QueueGrows(s, t, Set(k, d, data), e) {
    }
  }

  lemma GrowSetShape(s: State, k: StreamId, d: nat, data: Buffer)
    requires s.Inv() && SetExpected(s, k, d, data)
    ensures GrowSet(s, k, d, data).Shape()
  {
    var t := GrowSet(s, k, d, data);
    GrowSetGrows(s, k, d, data);
    forall i | 0 <= i < |t.log| ensures t.OpOK(i) {
      if i < |s.log| {
        OpStays(s, t, Set(k, d, data), i);
      }
    }
    forall l | l in t.useAt ensures t.useAt[l] < |t.log| && t.log[t.useAt[l]].Use? && t.log[t.useAt[l]].stream == l {
      assert t.log[s.useAt[l]] == s.log[s.useAt[l]];
    }
  }

  lemma NothingReceived(s: State, k: StreamId)
    requires s.Inv() && k in s.readers && s.readers[k].wire == []
    ensures s.Plain(k) == [] && s.readers[k].produced == 0 && s.readers[k].buf == []
  {
    assert s.ReaderOK(k);
  }

  lemma GrowSetReader(s: State, k: StreamId, d: nat, data: Buffer)
    requires s.Inv() && SetExpected(s, k, d, data) && GrowSet(s, k, d, data).Shape()
    ensures GrowSet(s, k, d, data).ReaderOK(k)
  {
    var t, op := GrowSet(s, k, d, data), Set(k, d, data);
    GrowSetGrows(s, k, d, data);
    NothingReceived(s, k);
    PlainStays(s, t, op, k);
    assert s.ReaderOK(k) && s.OpOK(s.useAt[k]);
    assert t.log[s.useAt[k]] == s.log[s.useAt[k]];
    PosGrows(s, t, op, s.log[s.useAt[k]].dict);
    forall a | 0 <= a < |t.readers[k].queue|
      ensures var i := t.readers[k].queue[a]; i < |t.log| && t.log[i].Set? && t.log[i].stream == k
    {
      if a < |s.readers[k].queue| {
        assert t.readers[k].queue[a] == s.readers[k].queue[a];
        assert t.log[t.readers[k].queue[a]] == s.log[t.readers[k].queue[a]];
      }
    }
  }

  lemma GrowSetLast(s: State, k: StreamId, d: nat, data: Buffer)
    requires s.Inv() && SetExpected(s, k, d, data) && GrowSet(s, k, d, data).Shape()
    ensures var t := GrowSet(s, k, d, data); t.UpdateOK(|s.log|) && t.EnvOK(|s.log|)
  {
    var t, op := GrowSet(s, k, d, data), Set(k, d, data);
    GrowSetGrows(s, k, d, data);
    NothingReceived(s, k);
    PlainStays(s, t, op, k);
    PosGrows(s, t, op, d);
    assert t.OpOK(|s.log|);
    assert t.readers[k].queue[|s.readers[k].queue|] == |s.log|;
  }

  lemma GrowSetEntries(s: State, k: StreamId, d: nat, data: Buffer)
    requires s.Inv() && SetExpected(s, k, d, data) && GrowSet(s, k, d, data).Shape()
    ensures GrowSet(s, k, d, data).UpdatesOK() && GrowSet(s, k, d, data).EnvsOK()
  {
    hide State.UpdateOK, State.EnvOK, State.ReaderOK, State.QueueOK, Grows;
    var t, op := GrowSet(s, k, d, data), Set(k, d, data);
    GrowSetGrows(s, k, d, data);
    GrowSetLast(s, k, d, data);
    forall i | 0 <= i < |t.log| ensures t.UpdateOK(i) && t.EnvOK(i) {
      if i < |s.log| {
        assert s.OpOK(i);
        UpdateStays(s, t, op, i);
        EnvStays(s, t, op, i);
      }
    }
  }

  lemma GrowSetSettled(s: State, k: StreamId, d: nat, data: Buffer)
    requires s.Settled() && SetExpected(s, k, d, data)
    ensures GrowSet(s, k, d, data).Settled() && d < |GrowSet(s, k, d, data).dicts|
  {
    hide State.QueueOK, State.UpdateOK, State.ReaderOK, State.EnvOK, State.OpOK;
    hide State.Done, State.HeadOK, State.InstalledOnce, Grows;
    var t, op := GrowSet(s, k, d, data), Set(k, d, data);
    GrowSetGrows(s, k, d, data);
    GrowSetShape(s, k, d, data);
    GrowSetReader(s, k, d, data);
    GrowSetEntries(s, k, d, data);
    forall e | 0 <= e < |t.dicts| ensures t.QueueOK(e) && t.HeadOK(e) {
      QueueStays(s, t, op, e);
      assert s.HeadOK(e);
      HeadStays(s, t, op, e);
    }
    GrowSetReaders(s, k, d, data);
  }

  lemma GrowSetReaders(s: State, k: StreamId, d: nat, data: Buffer)
    requires s.Settled() && SetExpected(s, k, d, data)
    requires var t := GrowSet(s, k, d, data); t.Shape() && t.ReaderOK(k) && Grows(s, t, Set(k, d, data))
    ensures var t := GrowSet(s, k, d, data); t.ReadersOK() && t.DonesOK({}) && t.OncesOK({})
  {
    hide State.ReaderOK, State.Done, State.InstalledOnce, Grows;
    var t, op := GrowSet(s, k, d, data), Set(k, d, data);
    forall l | l in t.readers ensures t.ReaderOK(l) && t.Done(l) && t.InstalledOnce(l, {}) {
      DoneStays(s, t, op, l);
      OnceStays(s, t, op, l);
      if l != k {
        ReaderStays(s, t, op, l);
      }
    }
  }

  // ----- data -----

  /** The bytes `p` belong to what the sender compressed for stream `k`. */
  ghost predicate Expected(s: State, k: StreamId, p: Buffer)
    requires k in s.readers && k in s.useAt && s.useAt[k] < |s.log|
  {
    var plain := s.dec(s.TrueDict(k), s.readers[k].wire + p);
    forall i :: 0 <= i < |s.log| && s.log[i].Set? && s.log[i].stream == k ==> Compatible(plain, s.log[i].data)
  }

  /** Nothing new is expected as ever. */
  lemma ExpectedAlready(s: State, k: StreamId)
    requires s.Settled() && k in s.readers
    ensures k in s.useAt && s.useAt[k] < |s.log| && Expected(s, k, [])
  {
    assert s.readers[k].wire + [] == s.readers[k].wire;
    forall i | 0 <= i < |s.log| && s.log[i].Set? && s.log[i].stream == k ensures Compatible(s.Plain(k), s.log[i].data) {
      assert s.EnvOK(i);
    }
  }

  lemma FeedEnv(s: State, k: StreamId, p: Buffer, close: bool)
    requires s.Inv() && k in s.readers && !s.readers[k].isClosed && Expected(s, k, p)
    requires Feed(s, k, p, close).Shape()
    ensures Feed(s, k, p, close).EnvsOK()
  {
    var t := Feed(s, k, p, close);
    assert t.TrueDict(k) == s.TrueDict(k);
    forall i | 0 <= i < |t.log| ensures t.EnvOK(i) {
      assert s.EnvOK(i) && s.OpOK(i);
      if s.log[i].stream != k && s.log[i].Set? {
        assert t.Plain(s.log[i].stream) == s.Plain(s.log[i].stream);
      }
    }
  }

  lemma FeedHeads(s: State, t: State, k: StreamId)
    requires s.Settled() && t.Inv() && k in t.readers && t == WithReader(s, k, t.readers[k])
    requires k in s.readers && t.readers[k].decomp == s.readers[k].decomp
    ensures t.HeadsOK({}) && t.OncesOK({}) && t.BusyOK({})
  {
    hide State.QueueOK, State.UpdateOK, State.ReaderOK, State.EnvOK;
    hide State.OpOK, State.Done, State.HeadOK, State.InstalledOnce;
    var none: set<nat> := {};
    assert none + none == none;
    ReadCalm.HeadsKept(s, t, {}, {});
    ReadCalm.OncesKept(s, t, {});
  }

  lemma FeedDones(s: State, t: State, k: StreamId)
    requires s.Settled() && t.Shape() && k in t.readers && k in s.readers && t == WithReader(s, k, t.readers[k])
    requires t.readers[k].decomp == s.readers[k].decomp
    ensures t.DonesOK(if s.readers[k].decomp.Some? then {k} else {})
  {
    hide State.QueueOK, State.UpdateOK, State.ReaderOK, State.EnvOK;
    hide State.OpOK, State.Done, State.HeadOK, State.InstalledOnce;
    forall l | l in t.readers && (l != k || s.readers[k].decomp.None?) ensures t.Done(l) {
      assert s.Done(l);
      if l != k {
        ReadCalm.DoneKept(s, t, l);
      } else {
        IdleDone(t, k);
      }
    }
  }

  lemma IdleDone(t: State, k: StreamId)
    requires t.Shape() && k in t.readers && t.readers[k].decomp.None?
    ensures t.Done(k)
  {
  }

  lemma FeedCalm(s: State, k: StreamId, p: Buffer, close: bool)
    requires s.Settled() && k in s.readers && !s.readers[k].isClosed && Expected(s, k, p)
    ensures |s.readers[k].buf| < s.maxSize
    ensures Feed(s, k, p, close).Calm({}, {}, if s.readers[k].decomp.Some? then {k} else {})
  {
    hide State.QueueOK, State.UpdateOK, State.EnvOK, State.OpOK, State.HeadOK, State.InstalledOnce;
    var t := Feed(s, k, p, close);
    ShapeKept(s, t);
    FeedEnv(s, k, p, close);
    FeedInv(s, k, p, close);
    assert s.Done(k) && s.ReaderOK(k);
    FeedParts(s, t, k);
  }

  lemma FeedParts(s: State, t: State, k: StreamId)
    requires s.Settled() && t.Inv() && k in t.readers && k in s.readers && t == WithReader(s, k, t.readers[k])
    requires t.readers[k].decomp == s.readers[k].decomp
    ensures t.Calm({}, {}, if s.readers[k].decomp.Some? then {k} else {})
  {
    FeedHeads(s, t, k);
    FeedDones(s, t, k);
    hide State.QueueOK, State.UpdateOK, State.ReaderOK, State.EnvOK;
    hide State.OpOK, State.Done, State.HeadOK, State.InstalledOnce;
    var none: set<nat> := {};
    assert none + none == none;
  }

  /** The state after every entry of a SET_DICTIONARY frame. */
  ghost function GrowSets(s: State, k: StreamId, entries: seq<SetDictionary.Request>, first: Buffer): State
    requires k in s.readers
    requires forall i :: 0 <= i < |entries| ==> entries[i].dictID < |s.dicts| && entries[i].size <= |first|
    decreases |entries|
  {
    if entries == [] then s
    else GrowSets(GrowSet(s, k, entries[0].dictID, first[..entries[0].size]), k, entries[1..], first)
  }
}
