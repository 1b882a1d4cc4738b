/**
  The receiving side of the dictionary compressor as a value, its invariant against the dictionary log,
  and one lemma for each elementary change the code makes to it.

  Update records and readers are table entries here: the number of an update is its position in the log,
  and a stream's h2DictionaryReader is found under the stream's ID.
 */
module ReadModel {
  import opened Bytes
  import opened DictionaryLog

  type Decompressor = (Buffer, Buffer) -> Buffer

  datatype Update = Update(stream: StreamId, dict: nat, size: nat, isUse: bool, isReady: bool, buff: Buffer)

  datatype ReadDict = ReadDict(dictionary: Buffer, queue: seq<nat>)

  /**
    `decomp` is the dictionary the decompressor was given, once there is one; `wire` is everything written
    to decompBuffer; `buf` is internalBuffer[:e]; `out` is everything passed on to the SharedBuffer.
   */
  datatype Reader = Reader(decomp: Option<Buffer>, wire: Buffer, produced: nat, buf: Buffer, isClosed: bool,
                           queue: seq<nat>, out: Buffer, outClosed: bool)

  /** A decompressor that never takes output back, and outputs nothing for no input. */
  ghost predicate Streaming(dec: Decompressor) {
    && (forall d, w, x :: dec(d, w) <= dec(d, w + x))
    && (forall d :: dec(d, []) == [])
  }

  datatype State = State(maxSize: nat, dec: Decompressor, dicts: seq<ReadDict>, readers: map<StreamId, Reader>,
                         updates: seq<Update>, log: Log, useAt: map<StreamId, nat>)
  {
    /** Everything logged before this position has been applied to dictionary `d`. */
    ghost function Pos(d: nat): nat
      requires d < |dicts|
    {
      if dicts[d].queue == [] then |log| else dicts[d].queue[0]
    }

    /** The dictionary the sender's compressor for stream `k` started from. */
    ghost function TrueDict(k: StreamId): Buffer
      requires k in useAt && useAt[k] < |log|
    {
      DictAt(log, useAt[k], log[useAt[k]].dict, maxSize)
    }

    /** What the bytes received so far for stream `k` decompress to under that dictionary. */
    ghost function Plain(k: StreamId): Buffer
      requires k in useAt && useAt[k] < |log| && k in readers
    {
      dec(TrueDict(k), readers[k].wire)
    }

    /** The stream of update `i` has ended with fewer bytes than the update promised. */
    ghost predicate Short(i: nat) {
      && i < |log| && log[i].Set?
      && var k := log[i].stream;
         && k in readers && k in useAt && useAt[k] < |log|
         && readers[k].isClosed && |Plain(k)| < |log[i].data|
    }

    ghost predicate OpOK(i: nat)
      requires i < |log| && |updates| == |log|
    {
      && log[i].dict < |dicts|
      && log[i].stream in useAt
      && updates[i].stream == log[i].stream
      && updates[i].dict == log[i].dict
      && updates[i].isUse == log[i].Use?
      && (log[i].Use? ==> useAt[log[i].stream] == i)
      && (log[i].Set? ==> useAt[log[i].stream] < i && updates[i].size == |log[i].data| <= maxSize)
    }

    ghost predicate Shape() {
      && maxSize > 0
      && Streaming(dec)
      && |updates| == |log|
      && readers.Keys == useAt.Keys
      && (forall i :: 0 <= i < |log| ==> OpOK(i))
      && (forall k :: k in useAt ==> useAt[k] < |log| && log[useAt[k]].Use? && log[useAt[k]].stream == k)
    }

    ghost predicate QueueOK(d: nat)
      requires d < |dicts|
    {
      var q := dicts[d].queue;
      && (forall a, b :: 0 <= a < b < |q| ==> q[a] < q[b])
      && (forall a :: 0 <= a < |q| ==> q[a] < |log| && log[q[a]].dict == d)
      && (forall i :: Pos(d) <= i < |log| && log[i].dict == d ==> i in q)
      && dicts[d].dictionary == DictAt(log, Pos(d), d, maxSize)
    }

    ghost predicate UpdateOK(i: nat)
      requires Shape() && i < |log|
    {
      assert OpOK(i);
      var r := readers[log[i].stream];
      if log[i].Use? then updates[i].isReady
      else
        && i in r.queue
        && (updates[i].isReady && updates[i].size <= |updates[i].buff| ==>
              log[i].data <= updates[i].buff && r.decomp.Some? && |log[i].data| <= r.produced)
        && (updates[i].isReady && updates[i].size > |updates[i].buff| ==> Short(i))
        && (i < Pos(log[i].dict) ==> updates[i].isReady && updates[i].size <= |updates[i].buff|)
    }

    ghost predicate ReaderOK(k: StreamId)
      requires Shape() && k in readers
    {
      var r, u := readers[k], useAt[k];
      assert OpOK(u);
      && (forall a :: 0 <= a < |r.queue| ==>
            r.queue[a] < |log| && log[r.queue[a]].Set? && log[r.queue[a]].stream == k)
      && |r.buf| <= maxSize && |r.buf| <= r.produced
      && (u < Pos(log[u].dict) ==> r.decomp.Some?)
      && (r.decomp.Some? ==> u <= Pos(log[u].dict) && r.decomp.value == TrueDict(k))
      && r.produced <= |Plain(k)| && r.out == Plain(k)[..r.produced]
      && (r.decomp.None? ==> r.produced == 0 && r.buf == [])
      && ((exists a :: 0 <= a < |r.queue| && !updates[r.queue[a]].isReady) ==> r.buf == Plain(k)[..r.produced])
    }

    /** What arrives is a piece of what the sender compressed. */
    ghost predicate EnvOK(i: nat)
      requires Shape() && i < |log|
    {
      assert OpOK(i);
      log[i].Set? ==> Compatible(Plain(log[i].stream), log[i].data)
    }

    ghost predicate QueuesOK()
      requires Shape()
    {
      forall d :: 0 <= d < |dicts| ==> QueueOK(d)
    }

    ghost predicate UpdatesOK()
      requires Shape()
    {
      forall i :: 0 <= i < |log| ==> UpdateOK(i)
    }

    ghost predicate ReadersOK()
      requires Shape()
    {
      forall k :: k in readers ==> ReaderOK(k)
    }

    ghost predicate EnvsOK()
      requires Shape()
    {
      forall i :: 0 <= i < |log| ==> EnvOK(i)
    }

    ghost predicate Inv() {
      Shape() && QueuesOK() && UpdatesOK() && ReadersOK() && EnvsOK()
    }

    /** Dictionary `d` is waiting for data, or for nothing at all. */
    ghost predicate HeadOK(d: nat)
      requires |updates| == |log| && d < |dicts| && QueueOK(d)
    {
      dicts[d].queue != [] ==> !updates[dicts[d].queue[0]].isReady
    }

    ghost predicate CanComplete(i: nat)
      requires i < |log| && log[i].Set? && log[i].stream in readers
    {
      var r := readers[log[i].stream];
      r.isClosed || (r.wire != [] && |log[i].data| <= r.produced)
    }

    /** Everything stream `k` has received is decompressed, and the updates it can complete are complete. */
    ghost predicate Done(k: StreamId)
      requires Shape() && k in readers
    {
      var r := readers[k];
      r.decomp.Some? ==>
        && r.produced == |Plain(k)|
        && |r.buf| < maxSize
        && (r.isClosed ==> r.outClosed)
        && (forall i :: 0 <= i < |log| && log[i].Set? && log[i].stream == k && CanComplete(i) ==> updates[i].isReady)
    }

    /**
      The state in the middle of nested callbacks. The heads of `busy` dictionaries are uses being served;
      `dirty` dictionaries still owe a pass over their queue; `active` readers are decompressing.
     */
    ghost predicate Calm(busy: set<nat>, dirty: set<nat>, active: set<StreamId>) {
      Inv() && BusyOK(busy) && OncesOK(busy) && HeadsOK(busy + dirty) && DonesOK(active)
    }

    ghost predicate BusyOK(busy: set<nat>) {
      forall d :: d in busy ==>
        d < |dicts| && dicts[d].queue != [] && dicts[d].queue[0] < |log| && log[dicts[d].queue[0]].Use?
    }

    ghost predicate OncesOK(busy: set<nat>)
      requires Shape()
    {
      forall k :: k in readers ==> InstalledOnce(k, busy)
    }

    ghost predicate HeadsOK(except: set<nat>)
      requires Shape() && QueuesOK()
    {
      forall d :: 0 <= d < |dicts| && d !in except ==> HeadOK(d)
    }

    ghost predicate DonesOK(active: set<StreamId>)
      requires Shape()
    {
      && (forall k :: k in readers && k !in active ==> Done(k))
      && (forall k :: k in active ==> k in readers && readers[k].decomp.Some?)
    }

    /** A use that got its dictionary has left the queue, except while its dictionary is busy with it. */
    ghost predicate InstalledOnce(k: StreamId, busy: set<nat>)
      requires Shape() && k in readers
    {
      var u := useAt[k];
      assert OpOK(u);
      readers[k].decomp.Some? ==> u < Pos(log[u].dict) || log[u].dict in busy
    }

    /** The state between two frames. */
    ghost predicate Settled() {
      Calm({}, {}, {})
    }
  }
}
