/** The elementary changes to the receiving side, and that each keeps the invariant. */
module ReadSteps {
  import opened Bytes
  import opened DictionaryLog
  import opened ReadModel

  // ----- changes -----

  function WithReader(s: State, k: StreamId, r: Reader): State {
    s.(readers := s.readers[k := r])
  }

  /** dictUpdate.update */
  function MarkReady(s: State, i: nat): State
    requires i < |s.updates| && s.updates[i].stream in s.readers
  {
    s.(updates := s.updates[i := s.updates[i].(isReady := true, buff := s.readers[s.updates[i].stream].buf)])
  }

  function Install(s: State, k: StreamId, dictionary: Buffer): State
    requires k in s.readers
  {
    WithReader(s, k, s.readers[k].(decomp := Some(dictionary)))
  }

  function DropHead(s: State, d: nat, dictionary: Buffer): State
    requires d < |s.dicts| && s.dicts[d].queue != []
  {
    s.(dicts := s.dicts[d := ReadDict(dictionary, s.dicts[d].queue[1..])])
  }

  /** One successful decomp.Read of `chunk`, copied to the internal buffer and to the SharedBuffer. */
  function Produce(s: State, k: StreamId, chunk: Buffer): State
    requires k in s.readers
  {
    var r := s.readers[k];
    WithReader(s, k, r.(produced := r.produced + |chunk|, buf := r.buf + chunk, out := r.out + chunk))
  }

  function ClearBuf(s: State, k: StreamId): State
    requires k in s.readers
  {
    WithReader(s, k, s.readers[k].(buf := []))
  }

  function CloseOut(s: State, k: StreamId): State
    requires k in s.readers
  {
    WithReader(s, k, s.readers[k].(outClosed := true))
  }

  /** Bytes from the network, or the end of the stream, reach the reader of stream `k`. */
  function Feed(s: State, k: StreamId, p: Buffer, close: bool): State
    requires k in s.readers
  {
    var r := s.readers[k];
    WithReader(s, k, r.(wire := r.wire + p, isClosed := r.isClosed || close))
  }

  // ----- what nested calls may change -----

  /**
    From `a` to `b`: updates only become ready, readers that already had a decompressor keep their state
    (those in `writing` may produce more), and the dictionaries in `busy` stay as they are.
   */
  ghost predicate Later(a: State, b: State, busy: set<nat>, writing: set<StreamId>) {
    && b == a.(dicts := b.dicts, readers := b.readers, updates := b.updates)
    && |b.dicts| == |a.dicts| && |b.updates| == |a.updates| && b.readers.Keys == a.readers.Keys
    && (forall d :: d in busy && d < |a.dicts| ==> b.dicts[d] == a.dicts[d])
    && (forall i :: 0 <= i < |a.updates| && a.updates[i].isReady ==> b.updates[i] == a.updates[i])
    && (forall k :: k in a.readers ==> ReaderLater(a.readers[k], b.readers[k], k in writing))
  }

  predicate ReaderLater(a: Reader, b: Reader, writing: bool) {
    && (a.decomp.Some? ==> b.decomp == a.decomp && (writing || b == a))
    && SameInput(a, b)
  }

  lemma LaterTransitive(a: State, b: State, c: State, busy: set<nat>, wider: set<nat>,
                        writing: set<StreamId>, fewer: set<StreamId>)
    requires Later(a, b, busy, writing) && Later(b, c, wider, fewer) && busy <= wider
    requires forall k :: k in fewer ==> k in writing || (k in a.readers && a.readers[k].decomp.None?)
    ensures Later(a, c, busy, writing)
  {
    forall k | k in a.readers ensures ReaderLater(a.readers[k], c.readers[k], k in writing) {
      assert ReaderLater(a.readers[k], b.readers[k], k in writing);
      assert ReaderLater(b.readers[k], c.readers[k], k in fewer);
    }
  }

  /** The readers still without a decompressor. */
  ghost function Uninstalled(s: State): set<StreamId> {
    set k | k in s.readers && s.readers[k].decomp.None?
  }

  /** The updates still waiting for data. */
  ghost function NotReady(s: State): set<nat> {
    set i | 0 <= i < |s.updates| && !s.updates[i].isReady
  }

  lemma LaterShrinks(a: State, b: State, busy: set<nat>, writing: set<StreamId>)
    requires Later(a, b, busy, writing)
    ensures Uninstalled(b) <= Uninstalled(a) && NotReady(b) <= NotReady(a)
  {
    forall k | k in Uninstalled(b) ensures k in Uninstalled(a) {
      assert ReaderLater(a.readers[k], b.readers[k], k in writing);
    }
  }

  // ----- each change keeps the invariant -----

  /** A change of readers and updates only: the queues are as they were. */
  lemma QueuesKept(s: State, t: State)
    requires s.Inv() && t.Shape() && t == s.(readers := t.readers, updates := t.updates)
    ensures t.QueuesOK() && forall d :: 0 <= d < |s.dicts| ==> t.Pos(d) == s.Pos(d)
  {
    forall d | 0 <= d < |s.dicts| ensures t.QueueOK(d) && t.Pos(d) == s.Pos(d) {
      assert s.QueueOK(d);
    }
  }

  lemma ShapeKept(s: State, t: State)
    requires s.Inv() && t == s.(readers := t.readers, updates := t.updates, dicts := t.dicts)
    requires t.readers.Keys == s.readers.Keys && |t.updates| == |s.updates| && |t.dicts| == |s.dicts|
    requires forall i :: 0 <= i < |s.updates| ==>
               t.updates[i] == s.updates[i].(isReady := t.updates[i].isReady, buff := t.updates[i].buff)
    ensures t.Shape()
  {
    forall i | 0 <= i < |t.log| ensures t.OpOK(i) {
      assert s.OpOK(i);
    }
  }

  /** A reader that did not change is still fine if its dictionary did not move back and its updates only got ready. */
  lemma ReaderKept(s: State, t: State, k: StreamId)
    requires s.Inv() && t.Shape() && t == s.(readers := t.readers, updates := t.updates, dicts := t.dicts)
    requires k in s.readers && k in t.readers && t.readers[k] == s.readers[k]
    requires |t.dicts| == |s.dicts|
    requires forall d :: 0 <= d < |s.dicts| ==> t.Pos(d) == s.Pos(d)
    requires forall i :: 0 <= i < |s.updates| && s.updates[i].isReady ==> t.updates[i].isReady
    ensures t.ReaderOK(k)
  {
    assert s.ReaderOK(k) && s.OpOK(s.useAt[k]);
    assert t.Plain(k) == s.Plain(k);
  }

  predicate SameInput(a: Reader, b: Reader) {
    b.wire == a.wire && b.isClosed == a.isClosed && b.queue == a.queue
  }

  /** An update that did not change is still fine if its reader only moved forward. */
  lemma UpdateKept(s: State, t: State, j: nat)
    requires s.Inv() && t.Shape() && t == s.(readers := t.readers, updates := t.updates, dicts := t.dicts)
    requires j < |s.log| && t.updates[j] == s.updates[j] && s.OpOK(j)
    requires ReaderForward(s.readers[s.log[j].stream], t.readers[s.log[j].stream])
    requires |t.dicts| == |s.dicts| && t.Pos(s.log[j].dict) == s.Pos(s.log[j].dict)
    ensures t.UpdateOK(j)
  {
    assert s.UpdateOK(j);
    if s.Short(j) {
      ShortKept(s, t, j);
    }
  }

  /** Once a stream has ended, nothing changes what it fell short of. */
  lemma ShortKept(s: State, t: State, j: nat)
    requires t == s.(readers := t.readers, updates := t.updates, dicts := t.dicts) && s.Short(j)
    requires s.log[j].stream in t.readers && ReaderForward(s.readers[s.log[j].stream], t.readers[s.log[j].stream])
    ensures t.Short(j)
  {
  }

  lemma UpdatesKept(s: State, t: State)
    requires s.Inv() && t.Shape() && t == s.(readers := t.readers)
    requires forall k :: k in s.readers ==> k in t.readers && ReaderForward(s.readers[k], t.readers[k])
    ensures t.UpdatesOK()
  {
    forall j | 0 <= j < |t.log| ensures t.UpdateOK(j) {
      assert s.OpOK(j);
      UpdateKept(s, t, j);
    }
  }

  predicate ReaderForward(a: Reader, b: Reader) {
    && b.queue == a.queue && (a.decomp.Some? ==> b.decomp.Some?) && a.produced <= b.produced
    && (a.isClosed ==> b.isClosed && b.wire == a.wire)
  }

  /** The environment's promises speak of the bytes received and of nothing else. */
  lemma EnvKept(s: State, t: State)
    requires s.Inv() && t.Shape() && t == s.(readers := t.readers, updates := t.updates, dicts := t.dicts)
    requires forall k :: k in s.readers ==> k in t.readers && SameInput(s.readers[k], t.readers[k])
    ensures t.EnvsOK()
  {
    forall i | 0 <= i < |t.log| ensures t.EnvOK(i) {
      assert s.EnvOK(i) && s.OpOK(i);
      if s.log[i].Set? {
        assert t.Plain(s.log[i].stream) == s.Plain(s.log[i].stream);
      }
    }
  }

  /** The first bytes in the internal buffer are the data of every update that still waits for them. */
  lemma BufferHoldsData(s: State, i: nat)
    requires s.Inv() && i < |s.log| && s.log[i].Set? && s.OpOK(i) && !s.updates[i].isReady
    requires |s.log[i].data| <= |s.readers[s.log[i].stream].buf|
    ensures s.log[i].data <= s.readers[s.log[i].stream].buf
    ensures |s.log[i].data| <= s.readers[s.log[i].stream].produced
  {
    var k := s.log[i].stream;
    assert s.UpdateOK(i) && s.EnvOK(i) && s.ReaderOK(k);
    var a :| 0 <= a < |s.readers[k].queue| && s.readers[k].queue[a] == i;
  }

  lemma MarkReadyInv(s: State, i: nat)
    requires s.Inv() && i < |s.log| && s.log[i].Set? && s.OpOK(i)
    requires !s.updates[i].isReady
    requires var r := s.readers[s.log[i].stream]; r.decomp.Some? && (|s.log[i].data| <= |r.buf| || s.Short(i))
    ensures MarkReady(s, i).Inv()
  {
    var t := MarkReady(s, i);
    ShapeKept(s, t);
    QueuesKept(s, t);
    EnvKept(s, t);
    forall j | 0 <= j < |t.log| ensures t.UpdateOK(j) {
      assert s.OpOK(j);
      if j == i {
        MarkedUpdate(s, i);
      } else {
        UpdateKept(s, t, j);
      }
    }
    forall l | l in t.readers ensures t.ReaderOK(l) {
      ReaderKept(s, t, l);
    }
  }

  lemma MarkedUpdate(s: State, i: nat)
    requires s.Inv() && i < |s.log| && s.log[i].Set? && s.OpOK(i) && MarkReady(s, i).Shape()
    requires !s.updates[i].isReady
    requires var r := s.readers[s.log[i].stream]; r.decomp.Some? && (|s.log[i].data| <= |r.buf| || s.Short(i))
    ensures MarkReady(s, i).UpdateOK(i)
  {
    var k := s.log[i].stream;
    assert s.UpdateOK(i) && s.ReaderOK(k);
    assert MarkReady(s, i).Plain(k) == s.Plain(k);
    if |s.log[i].data| <= |s.readers[k].buf| {
      BufferHoldsData(s, i);
    }
  }

  /** The use at the head of its dictionary's queue gets the dictionary the sender's compressor had. */
  lemma HeadUseIsTrue(s: State, d: nat)
    requires s.Inv() && d < |s.dicts| && s.dicts[d].queue != [] && s.QueueOK(d)
    requires var h := s.dicts[d].queue[0]; s.OpOK(h) && s.log[h].Use?
    ensures var k := s.log[s.dicts[d].queue[0]].stream;
            k in s.readers && s.useAt[k] == s.Pos(d) && s.dicts[d].dictionary == s.TrueDict(k)
  {
  }

  lemma InstallReader(s: State, k: StreamId, d: nat, t: State)
    requires s.Inv() && k in s.readers && d < |s.dicts| && t == Install(s, k, s.TrueDict(k)) && t.Shape()
    requires s.log[s.useAt[k]].dict == d && s.useAt[k] <= s.Pos(d) && t.Pos(d) == s.Pos(d)
    ensures t.ReaderOK(k)
  {
    assert s.ReaderOK(k);
    assert t.Plain(k) == s.Plain(k);
  }

  lemma InstallReaders(s: State, k: StreamId, d: nat, t: State)
    requires s.Inv() && k in s.readers && d < |s.dicts| && t == Install(s, k, s.TrueDict(k)) && t.Shape()
    requires s.log[s.useAt[k]].dict == d && s.useAt[k] <= s.Pos(d)
    requires forall e :: 0 <= e < |s.dicts| ==> t.Pos(e) == s.Pos(e)
    ensures t.ReadersOK()
  {
    forall l | l in t.readers ensures t.ReaderOK(l) {
      if l == k {
        InstallReader(s, k, d, t);
      } else {
        ReaderKept(s, t, l);
      }
    }
  }

  lemma InstallInv(s: State, d: nat, k: StreamId)
    requires s.Inv() && d < |s.dicts| && s.dicts[d].queue != [] && s.QueueOK(d)
    requires s.log[s.dicts[d].queue[0]] == Use(k, d) && k in s.readers
    ensures Install(s, k, s.dicts[d].dictionary).Inv()
  {
    hide State.UpdateOK, State.ReaderOK, State.EnvOK;
    assert s.OpOK(s.dicts[d].queue[0]);
    HeadUseIsTrue(s, d);
    var t := Install(s, k, s.dicts[d].dictionary);
    ShapeKept(s, t);
    QueuesKept(s, t);
    EnvKept(s, t);
    UpdatesKept(s, t);
    InstallReaders(s, k, d, t);
  }

  /** Leaving the head of a queue behind moves the dictionary's position to the next entry, with nothing between. */
  lemma NextPos(s: State, d: nat, dictionary: Buffer)
    requires s.Inv() && d < |s.dicts| && s.dicts[d].queue != [] && s.QueueOK(d)
    ensures var t := DropHead(s, d, dictionary);
            && s.Pos(d) < t.Pos(d) <= |s.log|
            && (forall i :: s.Pos(d) < i < t.Pos(d) ==> s.log[i].dict != d)
            && (forall e :: 0 <= e < |s.dicts| && e != d ==> t.Pos(e) == s.Pos(e))
  {
    var q, t := s.dicts[d].queue, DropHead(s, d, dictionary);
    forall i | s.Pos(d) < i < t.Pos(d) ensures s.log[i].dict != d {
      assert s.log[i].dict == d ==> i in q;
    }
  }

  lemma DropHeadQueue(s: State, d: nat, dictionary: Buffer)
    requires s.Inv() && d < |s.dicts| && s.dicts[d].queue != [] && s.QueueOK(d)
    requires s.Pos(d) < |s.log| && dictionary == DictAt(s.log, s.Pos(d) + 1, d, s.maxSize)
    ensures DropHead(s, d, dictionary).QueueOK(d)
  {
    var q, t := s.dicts[d].queue, DropHead(s, d, dictionary);
    NextPos(s, d, dictionary);
    DictAtSkip(s.log, s.Pos(d) + 1, t.Pos(d), d, s.maxSize);
    assert t.dicts[d].queue == q[1..];
    forall i | t.Pos(d) <= i < |t.log| && t.log[i].dict == d ensures i in q[1..] {
      assert i in q && i != q[0];
    }
  }

  lemma DropHeadReader(s: State, d: nat, dictionary: Buffer, l: StreamId)
    requires s.Inv() && d < |s.dicts| && s.dicts[d].queue != [] && s.QueueOK(d) && l in s.readers
    requires var h := s.dicts[d].queue[0]; s.OpOK(h) && (s.log[h].Use? ==> s.readers[s.log[h].stream].decomp.Some?)
    requires DropHead(s, d, dictionary).Shape()
    ensures DropHead(s, d, dictionary).ReaderOK(l)
  {
    var t := DropHead(s, d, dictionary);
    NextPos(s, d, dictionary);
    assert s.ReaderOK(l) && s.OpOK(s.useAt[l]);
    assert t.Plain(l) == s.Plain(l);
  }

  lemma DropHeadUpdate(s: State, d: nat, dictionary: Buffer, j: nat)
    requires s.Inv() && d < |s.dicts| && s.dicts[d].queue != [] && s.QueueOK(d) && j < |s.log|
    requires var h := s.dicts[d].queue[0];
             s.updates[h].isReady && (s.log[h].Set? ==> s.updates[h].size <= |s.updates[h].buff|)
    requires DropHead(s, d, dictionary).Shape()
    ensures DropHead(s, d, dictionary).UpdateOK(j)
  {
    NextPos(s, d, dictionary);
    assert s.OpOK(j) && s.UpdateOK(j);
    if s.Short(j) {
      ShortKept(s, DropHead(s, d, dictionary), j);
    }
  }

  ghost predicate HeadHandled(s: State, d: nat, dictionary: Buffer)
    requires s.Shape() && d < |s.dicts| && s.dicts[d].queue != [] && s.QueueOK(d)
  {
    var h := s.dicts[d].queue[0];
    assert s.OpOK(h);
    && s.updates[h].isReady
    && (s.log[h].Use? ==> dictionary == s.dicts[d].dictionary && s.readers[s.log[h].stream].decomp.Some?)
    && (s.log[h].Set? ==>
          && s.updates[h].size <= |s.updates[h].buff|
          && dictionary == Adjust(s.dicts[d].dictionary, s.log[h].data, s.maxSize))
  }

  lemma DropHeadQueues(s: State, d: nat, dictionary: Buffer)
    requires s.Inv() && d < |s.dicts| && s.dicts[d].queue != [] && s.QueueOK(d) && HeadHandled(s, d, dictionary)
    requires DropHead(s, d, dictionary).Shape()
    ensures DropHead(s, d, dictionary).QueuesOK()
  {
    var t := DropHead(s, d, dictionary);
    assert dictionary == DictAt(s.log, s.Pos(d) + 1, d, s.maxSize);
    DropHeadQueue(s, d, dictionary);
    forall e | 0 <= e < |t.dicts| ensures t.QueueOK(e) {
      assert s.QueueOK(e);
    }
  }

  lemma DropHeadRest(s: State, d: nat, dictionary: Buffer)
    requires s.Inv() && d < |s.dicts| && s.dicts[d].queue != [] && s.QueueOK(d) && HeadHandled(s, d, dictionary)
    requires DropHead(s, d, dictionary).Shape()
    ensures var t := DropHead(s, d, dictionary); t.UpdatesOK() && t.ReadersOK()
  {
    var t := DropHead(s, d, dictionary);
    assert s.OpOK(s.dicts[d].queue[0]);
    forall j | 0 <= j < |t.log| ensures t.UpdateOK(j) {
      DropHeadUpdate(s, d, dictionary, j);
    }
    forall l | l in t.readers ensures t.ReaderOK(l) {
      DropHeadReader(s, d, dictionary, l);
    }
  }

  /** The head has been dealt with: a use is installed, an update is ready and merged into the dictionary. */
  lemma DropHeadInv(s: State, d: nat, dictionary: Buffer)
    requires s.Inv() && d < |s.dicts| && s.dicts[d].queue != [] && s.QueueOK(d) && HeadHandled(s, d, dictionary)
    ensures DropHead(s, d, dictionary).Inv()
  {
    var t := DropHead(s, d, dictionary);
    ShapeKept(s, t);
    DropHeadQueues(s, d, dictionary);
    DropHeadRest(s, d, dictionary);
    EnvKept(s, t);
  }

  lemma HeadDataMatches(s: State, h: nat)
    requires s.Inv() && h < |s.log| && s.OpOK(h) && s.log[h].Set? && s.updates[h].isReady
    ensures if s.updates[h].size <= |s.updates[h].buff| then s.updates[h].buff[..s.updates[h].size] == s.log[h].data
            else s.Short(h)
  {
    assert s.UpdateOK(h);
  }

  /** A change of one reader that keeps what it has received. */
  lemma OneReaderInv(s: State, t: State, k: StreamId)
    requires s.Inv() && k in s.readers && k in t.readers && t == WithReader(s, k, t.readers[k])
    requires var a, b := s.readers[k], t.readers[k];
             SameInput(a, b) && b.decomp == a.decomp && a.produced <= b.produced
    requires t.Shape() ==> t.ReaderOK(k)
    ensures t.Inv()
  {
    ShapeKept(s, t);
    QueuesKept(s, t);
    EnvKept(s, t);
    UpdatesKept(s, t);
    forall l | l in t.readers ensures t.ReaderOK(l) {
      if l != k {
        ReaderKept(s, t, l);
      }
    }
  }

  lemma ProduceInv(s: State, k: StreamId, chunk: Buffer)
    requires s.Inv() && k in s.readers && s.readers[k].decomp.Some?
    requires |s.readers[k].buf| + |chunk| <= s.maxSize
    requires s.readers[k].produced + |chunk| <= |s.Plain(k)|
    requires chunk == s.Plain(k)[s.readers[k].produced..s.readers[k].produced + |chunk|]
    ensures Produce(s, k, chunk).Inv()
  {
    var t := Produce(s, k, chunk);
    if t.Shape() {
      ProduceReader(s, k, chunk);
    }
    OneReaderInv(s, t, k);
  }

  lemma ProduceReader(s: State, k: StreamId, chunk: Buffer)
    requires s.Inv() && k in s.readers && s.readers[k].decomp.Some?
    requires |s.readers[k].buf| + |chunk| <= s.maxSize
    requires s.readers[k].produced + |chunk| <= |s.Plain(k)|
    requires chunk == s.Plain(k)[s.readers[k].produced..s.readers[k].produced + |chunk|]
    requires Produce(s, k, chunk).Shape()
    ensures Produce(s, k, chunk).ReaderOK(k)
  {
    var t, p := Produce(s, k, chunk), s.readers[k].produced;
    assert s.ReaderOK(k);
    assert t.Plain(k) == s.Plain(k);
    assert s.Plain(k)[..p] + chunk == s.Plain(k)[..p + |chunk|];
  }

  /** The internal buffer is reused only when no update waits for it any more. */
  lemma ClearBufInv(s: State, k: StreamId)
    requires s.Inv() && k in s.readers
    requires forall a :: 0 <= a < |s.readers[k].queue| && s.readers[k].queue[a] < |s.updates|
                         ==> s.updates[s.readers[k].queue[a]].isReady
    ensures ClearBuf(s, k).Inv()
  {
    hide State.Inv, State.Shape, State.ReaderOK;
    var t := ClearBuf(s, k);
    if t.Shape() {
      ClearBufReader(s, k);
    }
    OneReaderInv(s, t, k);
  }

  lemma ClearBufReader(s: State, k: StreamId)
    requires s.Inv() && k in s.readers && ClearBuf(s, k).Shape()
    requires forall a :: 0 <= a < |s.readers[k].queue| && s.readers[k].queue[a] < |s.updates|
                         ==> s.updates[s.readers[k].queue[a]].isReady
    ensures ClearBuf(s, k).ReaderOK(k)
  {
    hide State.UpdateOK, State.EnvOK, State.QueueOK;
    assert s.ReaderOK(k);
    assert ClearBuf(s, k).Plain(k) == s.Plain(k);
  }

  lemma CloseOutInv(s: State, k: StreamId)
    requires s.Inv() && k in s.readers
    ensures CloseOut(s, k).Inv()
  {
    var t := CloseOut(s, k);
    if t.Shape() {
      assert s.ReaderOK(k);
      assert t.Plain(k) == s.Plain(k);
    }
    OneReaderInv(s, t, k);
  }

  /** New bytes only extend what the old ones decompress to. */
  lemma FeedInv(s: State, k: StreamId, p: Buffer, close: bool)
    requires s.Inv() && k in s.readers && !s.readers[k].isClosed
    requires var t := Feed(s, k, p, close); t.Shape() ==> t.EnvsOK()
    ensures Feed(s, k, p, close).Inv()
  {
    var t := Feed(s, k, p, close);
    ShapeKept(s, t);
    QueuesKept(s, t);
    UpdatesKept(s, t);
    forall l | l in t.readers ensures t.ReaderOK(l) {
      if l == k {
        FeedReader(s, k, p, close);
      } else {
        ReaderKept(s, t, l);
      }
    }
  }

  lemma FeedReader(s: State, k: StreamId, p: Buffer, close: bool)
    requires s.Inv() && k in s.readers && Feed(s, k, p, close).Shape()
    ensures Feed(s, k, p, close).ReaderOK(k)
  {
    var t, n := Feed(s, k, p, close), s.readers[k].produced;
    assert s.ReaderOK(k);
    assert t.TrueDict(k) == s.TrueDict(k);
    assert s.Plain(k) <= t.Plain(k);
    assert s.Plain(k)[..n] == t.Plain(k)[..n];
  }
}
