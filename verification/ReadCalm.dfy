/** What the nested callbacks of the receiving side owe each other at each elementary change. */
module ReadCalm {
  import opened Bytes
  import opened DictionaryLog
  import opened ReadModel
  import opened ReadSteps

  /** A reader that did not change is still done when updates only get ready. */
  lemma DoneKept(s: State, t: State, k: StreamId)
    requires s.Shape() && t.Shape() && t == s.(readers := t.readers, updates := t.updates, dicts := t.dicts)
    requires k in s.readers && k in t.readers && t.readers[k] == s.readers[k] && s.Done(k)
    requires forall i :: 0 <= i < |s.updates| && s.updates[i].isReady ==> t.updates[i].isReady
    ensures t.Done(k)
  {
    if s.readers[k].decomp.Some? {
      assert t.Plain(k) == s.Plain(k);
      forall i | 0 <= i < |t.log| && t.log[i].Set? && t.log[i].stream == k && t.CanComplete(i)
        ensures t.updates[i].isReady
      {
        assert s.CanComplete(i);
      }
    }
  }

  lemma DonesKept(s: State, t: State, wasActive: set<StreamId>, active: set<StreamId>)
    requires s.Shape() && t.Shape() && t == s.(readers := t.readers, updates := t.updates, dicts := t.dicts)
    requires s.DonesOK(wasActive) && wasActive <= active
    requires forall k :: k in active ==> k in t.readers && t.readers[k].decomp.Some?
    requires forall k :: k in s.readers && k !in active ==> k in t.readers && t.readers[k] == s.readers[k]
    requires forall i :: 0 <= i < |s.updates| && s.updates[i].isReady ==> t.updates[i].isReady
    ensures t.DonesOK(active)
  {
    forall k | k in t.readers && k !in active ensures t.Done(k) {
      DoneKept(s, t, k);
    }
  }

  lemma OncesKept(s: State, t: State, busy: set<nat>)
    requires s.Inv() && t.Shape() && t == s.(readers := t.readers, updates := t.updates)
    requires s.OncesOK(busy)
    requires forall k :: k in s.readers ==> k in t.readers && t.readers[k].decomp == s.readers[k].decomp
    ensures t.OncesOK(busy)
  {
    forall k | k in t.readers ensures t.InstalledOnce(k, busy) {
      assert s.InstalledOnce(k, busy) && s.OpOK(s.useAt[k]);
      assert t.Pos(s.log[s.useAt[k]].dict) == s.Pos(s.log[s.useAt[k]].dict);
    }
  }

  lemma HeadsKept(s: State, t: State, was: set<nat>, except: set<nat>)
    requires s.Shape() && t.Shape() && t == s.(readers := t.readers, updates := t.updates)
    requires s.QueuesOK() && t.QueuesOK() && s.HeadsOK(was) && was <= except
    requires forall i :: 0 <= i < |s.updates| && s.updates[i].dict !in except ==>
               t.updates[i].isReady == s.updates[i].isReady
    ensures t.HeadsOK(except)
  {
    forall d | 0 <= d < |t.dicts| && d !in except ensures t.HeadOK(d) {
      assert s.HeadOK(d) && s.QueueOK(d);
      if s.dicts[d].queue != [] {
        assert s.OpOK(s.dicts[d].queue[0]);
      }
    }
  }

  /** A change of one active reader's own state. */
  lemma ReaderCalm(s: State, t: State, k: StreamId, busy: set<nat>, dirty: set<nat>, active: set<StreamId>)
    requires s.Calm(busy, dirty, active) && k in active && k in t.readers
    requires t == WithReader(s, k, t.readers[k]) && t.readers[k].decomp == s.readers[k].decomp
    requires t.Inv()
    ensures t.Calm(busy, dirty, active)
  {
    hide State.QueueOK, State.UpdateOK, State.ReaderOK, State.EnvOK;
    hide State.OpOK, State.Done, State.HeadOK, State.InstalledOnce;
    OncesKept(s, t, busy);
    HeadsKept(s, t, busy + dirty, busy + dirty);
    DonesKept(s, t, active, active);
  }

  lemma MarkReadyCalm(s: State, i: nat, busy: set<nat>, dirty: set<nat>, active: set<StreamId>, more: set<nat>)
    requires s.Calm(busy, dirty, active) && i < |s.log| && s.log[i].Set? && s.OpOK(i) && !s.updates[i].isReady
    requires MarkReady(s, i).Inv()
    requires dirty <= more
    requires s.dicts[s.log[i].dict].queue != [] && s.dicts[s.log[i].dict].queue[0] == i ==> s.log[i].dict in more
    ensures MarkReady(s, i).Calm(busy, more, active)
  {
    hide State.QueueOK, State.UpdateOK, State.ReaderOK, State.EnvOK, State.Done, State.HeadOK, State.InstalledOnce;
    var t := MarkReady(s, i);
    OncesKept(s, t, busy);
    MarkReadyHeads(s, i, busy + dirty, busy + more);
    DonesKept(s, t, active, active);
  }

  lemma MarkReadyHeads(s: State, i: nat, was: set<nat>, except: set<nat>)
    requires s.Inv() && i < |s.log| && s.OpOK(i) && MarkReady(s, i).Inv()
    requires s.HeadsOK(was) && was <= except
    requires s.dicts[s.log[i].dict].queue != [] && s.dicts[s.log[i].dict].queue[0] == i ==> s.log[i].dict in except
    ensures MarkReady(s, i).HeadsOK(except)
  {
    var t := MarkReady(s, i);
    forall d | 0 <= d < |t.dicts| && d !in except ensures t.HeadOK(d) {
      assert s.HeadOK(d) && s.QueueOK(d);
    }
  }

  lemma InstallOnce(s: State, d: nat, t: State, busy: set<nat>, l: StreamId)
    requires s.Inv() && d < |s.dicts| && s.dicts[d].queue != [] && s.QueueOK(d)
    requires var h := s.dicts[d].queue[0];
             s.OpOK(h) && s.log[h].Use? && t == Install(s, s.log[h].stream, s.dicts[d].dictionary)
    requires t.Inv() && l in s.readers && s.InstalledOnce(l, busy)
    ensures t.InstalledOnce(l, busy + {d})
  {
    assert s.OpOK(s.useAt[l]);
    assert t.Pos(s.log[s.useAt[l]].dict) == s.Pos(s.log[s.useAt[l]].dict);
  }

  lemma InstallFresh(s: State, d: nat, busy: set<nat>, k: StreamId)
    requires s.Inv() && d !in busy && d < |s.dicts| && s.dicts[d].queue != [] && s.QueueOK(d)
    requires var h := s.dicts[d].queue[0]; s.OpOK(h) && s.log[h] == Use(k, d)
    requires k in s.readers && s.InstalledOnce(k, busy)
    ensures s.readers[k].decomp.None?
  {
  }

  lemma InstallOnces(s: State, d: nat, t: State, busy: set<nat>)
    requires s.Inv() && d < |s.dicts| && s.dicts[d].queue != [] && s.QueueOK(d)
    requires var h := s.dicts[d].queue[0];
             s.OpOK(h) && s.log[h].Use? && t == Install(s, s.log[h].stream, s.dicts[d].dictionary)
    requires t.Inv() && s.OncesOK(busy)
    ensures t.OncesOK(busy + {d})
  {
    forall l | l in t.readers ensures t.InstalledOnce(l, busy + {d}) {
      InstallOnce(s, d, t, busy, l);
    }
  }

  lemma InstallFacts(s: State, d: nat, busy: set<nat>, dirty: set<nat>, active: set<StreamId>, k: StreamId)
    requires s.Calm(busy, dirty, active) && d !in busy
    requires d < |s.dicts| && s.dicts[d].queue != [] && s.QueueOK(d) && s.log[s.dicts[d].queue[0]] == Use(k, d)
    ensures k in s.readers && s.readers[k].decomp.None? && k !in active && |s.readers[k].buf| < s.maxSize
    ensures s.OpOK(s.dicts[d].queue[0]) && Install(s, k, s.dicts[d].dictionary).Inv()
  {
    assert s.OpOK(s.dicts[d].queue[0]);
    InstallFresh(s, d, busy, k);
    assert s.ReaderOK(k);
    InstallInv(s, d, k);
  }

  /** Starting to serve the use at the head of `d`: its reader had no decompressor, and now it does. */
  lemma InstallCalm(s: State, d: nat, busy: set<nat>, dirty: set<nat>, active: set<StreamId>, k: StreamId)
    requires s.Calm(busy, dirty + {d}, active) && d !in busy
    requires d < |s.dicts| && s.dicts[d].queue != [] && s.QueueOK(d) && s.log[s.dicts[d].queue[0]] == Use(k, d)
    ensures k in s.readers && s.readers[k].decomp.None? && k !in active && |s.readers[k].buf| < s.maxSize
    ensures Install(s, k, s.dicts[d].dictionary).Calm(busy + {d}, dirty, active + {k})
  {
    hide State.Calm;
    InstallFacts(s, d, busy, dirty + {d}, active, k);
    InstallParts(s, d, busy, dirty, active, k);
  }

  lemma InstallParts(s: State, d: nat, busy: set<nat>, dirty: set<nat>, active: set<StreamId>, k: StreamId)
    requires s.Calm(busy, dirty + {d}, active) && d !in busy && k in s.readers
    requires d < |s.dicts| && s.dicts[d].queue != [] && s.QueueOK(d) && s.log[s.dicts[d].queue[0]] == Use(k, d)
    requires s.dicts[d].queue[0] < |s.log| && s.OpOK(s.dicts[d].queue[0]) && Install(s, k, s.dicts[d].dictionary).Inv()
    ensures Install(s, k, s.dicts[d].dictionary).Calm(busy + {d}, dirty, active + {k})
  {
    hide State.QueueOK, State.UpdateOK, State.ReaderOK, State.EnvOK;
    hide State.OpOK, State.Done, State.HeadOK, State.InstalledOnce;
    var t := Install(s, k, s.dicts[d].dictionary);
    InstallOnces(s, d, t, busy);
    InstallHeads(s, t, busy + (dirty + {d}), busy + {d} + dirty);
    InstallDones(s, t, k, active);
  }

  lemma InstallHeads(s: State, t: State, was: set<nat>, except: set<nat>)
    requires s.Shape() && t.Shape() && s.QueuesOK() && t.QueuesOK() && t == s.(readers := t.readers)
    requires s.HeadsOK(was) && was <= except
    ensures t.HeadsOK(except)
  {
    HeadsKept(s, t, was, except);
  }

  lemma InstallDones(s: State, t: State, k: StreamId, active: set<StreamId>)
    requires s.Shape() && t.Shape() && k in s.readers && k in t.readers && t.readers[k].decomp.Some?
    requires t == WithReader(s, k, t.readers[k]) && s.DonesOK(active)
    ensures t.DonesOK(active + {k})
  {
    DonesKept(s, t, active, active + {k});
  }

  lemma DropOnce(s: State, d: nat, dictionary: Buffer, busy: set<nat>, before: set<nat>, l: StreamId)
    requires s.Inv() && d < |s.dicts| && s.dicts[d].queue != [] && s.QueueOK(d)
    requires DropHead(s, d, dictionary).Inv() && l in s.readers
    requires before <= busy + {d} && s.InstalledOnce(l, before)
    ensures DropHead(s, d, dictionary).InstalledOnce(l, busy)
  {
    NextPos(s, d, dictionary);
    assert s.ReaderOK(l) && s.OpOK(s.useAt[l]);
  }

  /** The head of `d` is finished with; `d` still owes a look at the rest of its queue. */
  lemma DropHeadCalm(s: State, d: nat, dictionary: Buffer, busy: set<nat>, before: set<nat>, owed: set<nat>,
                     dirty: set<nat>, active: set<StreamId>)
    requires s.Calm(before, owed, active) && d !in busy && busy <= before <= busy + {d}
    requires owed <= dirty && d in dirty
    requires d < |s.dicts| && s.dicts[d].queue != [] && s.QueueOK(d)
    requires DropHead(s, d, dictionary).Inv()
    ensures DropHead(s, d, dictionary).Calm(busy, dirty, active)
  {
    var t := DropHead(s, d, dictionary);
    forall l | l in t.readers ensures t.InstalledOnce(l, busy) {
      DropOnce(s, d, dictionary, busy, before, l);
    }
    forall e | 0 <= e < |t.dicts| && e !in busy && e !in dirty ensures t.HeadOK(e) {
      assert s.HeadOK(e) && t.QueueOK(e);
    }
    DonesKept(s, t, active, active);
  }

  lemma HeadIsLogged(s: State, d: nat, busy: set<nat>, dirty: set<nat>, active: set<StreamId>)
    requires s.Calm(busy, dirty, active) && d < |s.dicts| && s.dicts[d].queue != []
    ensures s.QueueOK(d)
    ensures var h := s.dicts[d].queue[0];
            && h < |s.log| == |s.updates| && s.OpOK(h) && s.log[h].dict == d
            && s.updates[h].stream == s.log[h].stream && s.updates[h].stream in s.readers
            && (if s.updates[h].isUse then s.log[h] == Use(s.updates[h].stream, d) else s.log[h].Set?)
  {
    assert s.QueueOK(d);
    assert s.OpOK(s.dicts[d].queue[0]);
  }

  lemma SettleHead(s: State, d: nat, busy: set<nat>, dirty: set<nat>, active: set<StreamId>)
    requires s.Calm(busy, dirty + {d}, active)
    requires d < |s.dicts| && (s.dicts[d].queue != [] && s.QueueOK(d) ==> !s.updates[s.dicts[d].queue[0]].isReady)
    ensures s.Calm(busy, dirty, active)
  {
    forall e | 0 <= e < |s.dicts| && e !in busy + dirty ensures s.HeadOK(e) {
      if e != d {
        assert e !in busy + (dirty + {d});
      }
    }
  }

  lemma InstallLater(s: State, t: State, k: StreamId, busy: set<nat>)
    requires k in s.readers && s.readers[k].decomp.None? && k in t.readers
    requires t == WithReader(s, k, t.readers[k]) && SameInput(s.readers[k], t.readers[k])
    requires t.readers[k].decomp.Some?
    ensures Later(s, t, busy, {}) && Uninstalled(t) < Uninstalled(s) && NotReady(t) == NotReady(s)
  {
    assert k in Uninstalled(s) && k !in Uninstalled(t);
  }

  lemma DropUse(s: State, d: nat, busy: set<nat>, dirty: set<nat>, active: set<StreamId>, k: StreamId)
    requires s.Calm(busy + {d}, dirty, active) && d !in busy
    requires d < |s.dicts| && s.dicts[d].queue != [] && s.dicts[d].queue[0] < |s.log|
    requires s.log[s.dicts[d].queue[0]] == Use(k, d) && k in s.readers && s.readers[k].decomp.Some?
    ensures DropHead(s, d, s.dicts[d].dictionary).Calm(busy, dirty + {d}, active)
  {
    var h := s.dicts[d].queue[0];
    assert s.OpOK(h) && s.UpdateOK(h) && s.QueueOK(d);
    DropHeadInv(s, d, s.dicts[d].dictionary);
    DropHeadCalm(s, d, s.dicts[d].dictionary, busy, busy + {d}, dirty, dirty + {d}, active);
  }

  lemma DropSet(s: State, d: nat, dictionary: Buffer, busy: set<nat>, dirty: set<nat>, active: set<StreamId>)
    requires s.Calm(busy, dirty + {d}, active) && d !in busy
    requires d < |s.dicts| && s.dicts[d].queue != [] && s.QueueOK(d)
    requires var h := s.dicts[d].queue[0];
             && s.log[h].Set? && s.updates[h].isReady && s.updates[h].size <= |s.updates[h].buff|
             && dictionary == Adjust(s.dicts[d].dictionary, s.log[h].data, s.maxSize)
    ensures DropHead(s, d, dictionary).Calm(busy, dirty + {d}, active)
  {
    DropHeadInv(s, d, dictionary);
    DropHeadCalm(s, d, dictionary, busy, busy, dirty + {d}, dirty + {d}, active);
  }

  /** What an active reader looks like from outside. */
  lemma ActiveReader(s: State, k: StreamId, busy: set<nat>, dirty: set<nat>, active: set<StreamId>)
    requires s.Calm(busy, dirty, active) && k in active
    ensures k in s.readers && s.readers[k].decomp.Some? && k in s.useAt && s.useAt[k] < |s.log|
    ensures Decompressed(s, k) == s.Plain(k) && s.readers[k].produced <= |Decompressed(s, k)|
  {
    assert s.ReaderOK(k);
  }

  /** Everything that can be decompressed now. */
  ghost function Decompressed(s: State, k: StreamId): Buffer
    requires k in s.readers && s.readers[k].decomp.Some?
  {
    s.dec(s.readers[k].decomp.value, s.readers[k].wire)
  }

  lemma ProduceCalm(s: State, k: StreamId, m: nat, busy: set<nat>, dirty: set<nat>, active: set<StreamId>)
    requires s.Calm(busy, dirty, active) && k in active && k in s.readers && s.readers[k].decomp.Some?
    requires |s.readers[k].buf| + m <= s.maxSize && s.readers[k].produced + m <= |Decompressed(s, k)|
    ensures var n := s.readers[k].produced; Produce(s, k, Decompressed(s, k)[n..n + m]).Calm(busy, dirty, active)
  {
    var n := s.readers[k].produced;
    ActiveReader(s, k, busy, dirty, active);
    ProduceInv(s, k, Decompressed(s, k)[n..n + m]);
    ReaderCalm(s, Produce(s, k, Decompressed(s, k)[n..n + m]), k, busy, dirty, active);
  }

  lemma WriterLater(s0: State, s: State, t: State, k: StreamId, busy: set<nat>)
    requires Later(s0, s, busy, {k}) && k in s.readers && k in t.readers && t == WithReader(s, k, t.readers[k])
    requires SameInput(s.readers[k], t.readers[k]) && t.readers[k].decomp == s.readers[k].decomp
    ensures Later(s0, t, busy, {k})
  {
    forall l | l in s0.readers ensures ReaderLater(s0.readers[l], t.readers[l], l in {k}) {
      assert ReaderLater(s0.readers[l], s.readers[l], l in {k});
    }
  }

  /** A full internal buffer satisfies every update; after the pass nothing waits for it. */
  lemma FullBuffer(s: State, k: StreamId, busy: set<nat>, dirty: set<nat>, active: set<StreamId>)
    requires s.Calm(busy, dirty, active) && k in s.readers && |s.readers[k].buf| == s.maxSize
    ensures CanMark(s, k)
  {
    forall i | 0 <= i < |s.log| && s.log[i].Set? && s.log[i].stream == k ensures |s.log[i].data| <= |s.readers[k].buf| {
      assert s.OpOK(i);
    }
  }

  lemma ClearCalm(s: State, k: StreamId, busy: set<nat>, dirty: set<nat>, active: set<StreamId>)
    requires s.Calm(busy, dirty, active) && k in active && k in s.readers
    requires AllMarked(s, k) && |s.readers[k].buf| == s.maxSize
    ensures ClearBuf(s, k).Calm(busy, dirty, active)
  {
    assert s.ReaderOK(k);
    forall a | 0 <= a < |s.readers[k].queue| && s.readers[k].queue[a] < |s.updates|
      ensures s.updates[s.readers[k].queue[a]].isReady
    {
      assert s.OpOK(s.readers[k].queue[a]);
      assert Marked(s, k, s.readers[k].queue[a]);
    }
    ClearBufInv(s, k);
    ReaderCalm(s, ClearBuf(s, k), k, busy, dirty, active);
  }

  /** Every update reader `k` must complete now has its bytes in the internal buffer, or will never have them. */
  ghost predicate CanMark(s: State, k: StreamId) {
    k in s.readers && s.readers[k].isClosed ==>
      forall i :: 0 <= i < |s.log| && i < |s.updates| && s.log[i].Set? && s.log[i].stream == k && !s.updates[i].isReady
                  ==> |s.log[i].data| <= |s.readers[k].buf| || s.Short(i)
  }

  ghost predicate Marked(s: State, k: StreamId, i: nat)
    requires i < |s.updates| && k in s.readers
  {
    s.readers[k].isClosed || s.updates[i].size <= |s.readers[k].buf| ==> s.updates[i].isReady
  }

  ghost predicate AllMarked(s: State, k: StreamId) {
    k in s.readers &&
    forall i :: 0 <= i < |s.log| && i < |s.updates| && s.log[i].Set? && s.log[i].stream == k ==> Marked(s, k, i)
  }

  /**
    The entries of reader `k`'s own queue are its updates, each still in the queue of its dictionary while it waits.
   */
  lemma OwnEntry(s: State, k: StreamId, n: nat, busy: set<nat>, dirty: set<nat>, active: set<StreamId>)
    requires s.Calm(busy, dirty, active) && k in s.readers && n < |s.readers[k].queue|
    ensures var i := s.readers[k].queue[n];
            && i < |s.updates| == |s.log| && s.OpOK(i) && s.log[i].Set? && s.log[i].stream == s.updates[i].stream == k
            && s.updates[i].dict == s.log[i].dict < |s.dicts|
            && (!s.updates[i].isReady ==> s.dicts[s.log[i].dict].queue != [])
  {
    assert s.ReaderOK(k);
    var i := s.readers[k].queue[n];
    assert s.OpOK(i) && s.UpdateOK(i) && s.QueueOK(s.log[i].dict);
  }

  /** Marking entry `i`; if it heads its dictionary's queue, that dictionary owes a pass. */
  lemma MarkStep(s: State, k: StreamId, i: nat, busy: set<nat>, dirty: set<nat>, more: set<nat>, active: set<StreamId>)
    requires s.Calm(busy, dirty, active) && k in active && i < |s.updates| == |s.log| && s.OpOK(i)
    requires k in s.readers && s.log[i].Set? && s.log[i].stream == k && !s.updates[i].isReady && CanMark(s, k)
    requires s.readers[k].isClosed || s.updates[i].size <= |s.readers[k].buf|
    requires s.dicts[s.log[i].dict].queue != []
    requires more == if s.dicts[s.log[i].dict].queue[0] == i then dirty + {s.log[i].dict} else dirty
    ensures var t := MarkReady(s, i); t.Calm(busy, more, active) && CanMark(t, k)
    ensures s.dicts[s.log[i].dict].queue[0] == i ==> s.log[i].dict !in busy
  {
    hide State.QueueOK, State.UpdateOK, State.ReaderOK, State.EnvOK, State.Done, State.HeadOK, State.InstalledOnce;
    MarkReadyInv(s, i);
    MarkReadyCalm(s, i, busy, dirty, active, more);
  }

  lemma MarkLater(s0: State, s: State, i: nat, busy: set<nat>)
    requires Later(s0, s, busy, {}) && i < |s.updates| && s.updates[i].stream in s.readers && !s.updates[i].isReady
    ensures Later(s0, MarkReady(s, i), busy, {}) && NotReady(MarkReady(s, i)) < NotReady(s0)
  {
    var t := MarkReady(s, i);
    LaterShrinks(s0, s, busy, {});
    assert i in NotReady(s) && i !in NotReady(t);
    assert NotReady(t) <= NotReady(s);
  }

  lemma AllEntriesMarked(s: State, k: StreamId, busy: set<nat>, dirty: set<nat>, active: set<StreamId>)
    requires s.Calm(busy, dirty, active) && k in s.readers
    requires forall j :: 0 <= j < |s.readers[k].queue| && s.readers[k].queue[j] < |s.updates| ==>
               Marked(s, k, s.readers[k].queue[j])
    ensures AllMarked(s, k)
  {
    forall i | 0 <= i < |s.log| && s.log[i].Set? && s.log[i].stream == k ensures Marked(s, k, i) {
      assert s.OpOK(i) && s.UpdateOK(i);
    }
  }

  lemma AllMarkedKept(s: State, t: State, k: StreamId, busy: set<nat>, d0: set<nat>, a0: set<StreamId>,
                      d1: set<nat>, a1: set<StreamId>)
    requires s.Calm(busy, d0, a0) && t.Calm(busy, d1, a1) && Later(s, t, busy, {})
    requires k in s.readers && s.readers[k].decomp.Some? && AllMarked(s, k)
    ensures k in t.readers && t.readers[k] == s.readers[k] && AllMarked(t, k)
  {
    assert ReaderLater(s.readers[k], t.readers[k], k in {});
    forall i | 0 <= i < |t.log| && t.log[i].Set? && t.log[i].stream == k ensures Marked(t, k, i) {
      assert s.OpOK(i) && t.OpOK(i);
      assert Marked(s, k, i);
    }
  }

  ghost function Owed(deferred: seq<nat>): set<nat> {
    set x | x in deferred
  }

  lemma OwedSplit(dirty: set<nat>, deferred: seq<nat>, j: nat)
    requires j < |deferred|
    ensures dirty + Owed(deferred[..j + 1]) == dirty + Owed(deferred[..j]) + {deferred[j]}
  {
    assert deferred[..j + 1] == deferred[..j] + [deferred[j]];
  }

  lemma OwedNothing(dirty: set<nat>)
    ensures dirty + Owed([]) == dirty
  {
  }

  lemma OwedAppend(dirty: set<nat>, deferred: seq<nat>, x: nat)
    ensures dirty + Owed(deferred + [x]) == dirty + Owed(deferred) + {x}
  {
  }

  /** Once everything is decompressed, a closed stream has all the data its updates need, or falls short of them. */
  lemma CatchUp(s: State, k: StreamId)
    requires s.Inv() && k in s.readers && s.readers[k].produced == |s.Plain(k)|
    ensures CanMark(s, k)
  {
    if s.readers[k].isClosed {
      forall i | 0 <= i < |s.log| && s.log[i].Set? && s.log[i].stream == k && !s.updates[i].isReady
        ensures |s.log[i].data| <= |s.readers[k].buf| || s.Short(i)
      {
        WaitingBuffer(s, i);
      }
    }
  }

  /** While an update waits, the internal buffer holds everything produced. */
  lemma WaitingBuffer(s: State, i: nat)
    requires s.Inv() && i < |s.log| && s.log[i].Set? && !s.updates[i].isReady
    ensures s.OpOK(i) && |s.readers[s.log[i].stream].buf| == s.readers[s.log[i].stream].produced
  {
    var k := s.log[i].stream;
    assert s.OpOK(i) && s.UpdateOK(i) && s.ReaderOK(k);
    var a :| 0 <= a < |s.readers[k].queue| && s.readers[k].queue[a] == i;
  }

  lemma CaughtUp(s: State, k: StreamId, i: nat)
    requires s.Inv() && k in s.readers && AllMarked(s, k)
    requires i < |s.log| && s.log[i].Set? && s.log[i].stream == k && s.CanComplete(i)
    ensures s.updates[i].isReady
  {
    assert s.OpOK(i) && Marked(s, k, i);
    if !s.updates[i].isReady {
      WaitingBuffer(s, i);
    }
  }

  lemma ReaderDone(s: State, k: StreamId)
    requires s.Inv() && k in s.readers && s.readers[k].produced == |s.Plain(k)| && |s.readers[k].buf| < s.maxSize
    requires AllMarked(s, k) && (s.readers[k].isClosed ==> s.readers[k].outClosed)
    ensures s.Done(k)
  {
    forall i | 0 <= i < |s.log| && s.log[i].Set? && s.log[i].stream == k && s.CanComplete(i)
      ensures s.updates[i].isReady
    {
      CaughtUp(s, k, i);
    }
  }

  lemma CloseOutCalm(s: State, k: StreamId, busy: set<nat>, dirty: set<nat>, active: set<StreamId>)
    requires s.Calm(busy, dirty, active) && k in active && k in s.readers
    ensures CloseOut(s, k).Calm(busy, dirty, active)
  {
    CloseOutInv(s, k);
    ReaderCalm(s, CloseOut(s, k), k, busy, dirty, active);
  }

  /** Reader `k` has nothing left to do. */
  lemma Retire(s: State, k: StreamId, busy: set<nat>, dirty: set<nat>, active: set<StreamId>)
    requires s.Calm(busy, dirty, active + {k}) && k !in active && s.Shape() && k in s.readers && s.Done(k)
    ensures s.Calm(busy, dirty, active)
  {
  }

  lemma HeadReady(s: State, h: nat, busy: set<nat>, dirty: set<nat>, active: set<StreamId>)
    requires s.Calm(busy, dirty, active) && h < |s.log| && h < |s.updates| && s.OpOK(h)
    requires s.log[h].Set? && s.updates[h].isReady
    ensures if s.updates[h].size <= |s.updates[h].buff| then s.updates[h].buff[..s.updates[h].size] == s.log[h].data
            else s.Short(h)
  {
    HeadDataMatches(s, h);
  }

  /** Merging a completed update panics exactly if its stream fell short of it. */
  lemma MergedExactly(s: State, i: nat, busy: set<nat>, dirty: set<nat>, active: set<StreamId>)
    requires s.Calm(busy, dirty, active) && i < |s.log| && i < |s.updates| && s.OpOK(i)
    requires s.log[i].Set? && s.updates[i].isReady
    ensures forall current :: Adjusted(current, s.updates[i].buff, s.updates[i].size, s.maxSize).None? <==> s.Short(i)
  {
    assert s.UpdateOK(i) && s.ReaderOK(s.log[i].stream);
  }

  /** Some stream has ended with fewer bytes than one of its updates promised. */
  ghost predicate SomeShort(s: State) {
    exists i :: 0 <= i < |s.log| && s.Short(i)
  }

  /** The callbacks take nothing in from the network, so a stream that falls short after them did so before. */
  lemma ShortBefore(s: State, t: State, busy: set<nat>, writing: set<StreamId>)
    requires Later(s, t, busy, writing) && SomeShort(t)
    ensures SomeShort(s)
  {
    var i :| 0 <= i < |t.log| && t.Short(i);
    var k := t.log[i].stream;
    assert ReaderLater(s.readers[k], t.readers[k], k in writing);
    assert s.Plain(k) == t.Plain(k);
    assert s.Short(i);
  }

  lemma SelfLater(s: State, busy: set<nat>)
    ensures Later(s, s, busy, {})
  {
  }

  lemma FeedNothing(s: State, k: StreamId)
    requires k in s.readers
    ensures Feed(s, k, [], false) == s
  {
    var r := s.readers[k];
    assert r.wire + [] == r.wire;
    assert s.readers[k := r] == s.readers;
  }

  lemma BusyKept(s: State, t: State, d: nat, busy: set<nat>, k: StreamId)
    requires Later(s, t, busy + {d}, {k}) && d < |s.dicts| && k in s.readers && s.readers[k].decomp.Some?
    ensures d < |t.dicts| && t.dicts[d] == s.dicts[d] && t.log == s.log
    ensures k in t.readers && t.readers[k].decomp.Some?
  {
    assert d in busy + {d};
    assert ReaderLater(s.readers[k], t.readers[k], k in {k});
  }

  lemma DropLater(s0: State, s: State, t: State, d: nat, busy: set<nat>)
    requires Later(s0, s, busy, {}) && d !in busy && d < |s.dicts| && s.dicts[d].queue != []
    requires d < |t.dicts| && t == DropHead(s, d, t.dicts[d].dictionary)
    ensures Later(s0, t, busy, {})
  {
  }

  lemma SelfLaterWriting(s: State, busy: set<nat>, k: StreamId)
    ensures Later(s, s, busy, {k})
  {
  }

  lemma FeedMeasure(s: State, k: StreamId, p: Buffer)
    requires k in s.readers
    ensures var t := Feed(s, k, p, false); Uninstalled(t) == Uninstalled(s) && NotReady(t) == NotReady(s)
  {
  }

  lemma CatchUpCalm(s: State, k: StreamId, busy: set<nat>, dirty: set<nat>, active: set<StreamId>)
    requires s.Calm(busy, dirty, active) && k in active && k in s.readers && s.readers[k].decomp.Some?
    requires s.readers[k].produced == |Decompressed(s, k)|
    ensures CanMark(s, k)
  {
    ActiveReader(s, k, busy, dirty, active);
    CatchUp(s, k);
  }

  lemma SameReader(s: State, t: State, k: StreamId, busy: set<nat>)
    requires Later(s, t, busy, {}) && k in s.readers && s.readers[k].decomp.Some?
    ensures k in t.readers && t.readers[k] == s.readers[k] && t.maxSize == s.maxSize && t.dec == s.dec
    ensures |t.dicts| == |s.dicts|
  {
    assert ReaderLater(s.readers[k], t.readers[k], k in {});
  }

  lemma Finish(s0: State, s: State, t: State, k: StreamId, busy: set<nat>, dirty: set<nat>, active: set<StreamId>)
    requires k !in active && k in s.readers && s.readers[k].decomp.Some? && s.Calm(busy, dirty, active + {k})
    requires s.readers[k].produced == |Decompressed(s, k)| && |s.readers[k].buf| < s.maxSize && AllMarked(s, k)
    requires t == (if s.readers[k].isClosed then CloseOut(s, k) else s) && t.Calm(busy, dirty, active + {k})
    requires Later(s0, s, busy, {k})
    ensures t.Calm(busy, dirty, active) && Later(s0, t, busy, {k})
  {
    hide State.Calm, Later;
    ActiveReader(t, k, busy, dirty, active + {k});
    FinishParts(s, t, k, busy, dirty, active);
    Retire(t, k, busy, dirty, active);
    WriterLater(s0, s, t, k, busy);
  }

  lemma FinishParts(s: State, t: State, k: StreamId, busy: set<nat>, dirty: set<nat>, active: set<StreamId>)
    requires k in s.readers && s.readers[k].decomp.Some? && AllMarked(s, k)
    requires s.readers[k].produced == |Decompressed(s, k)| && |s.readers[k].buf| < s.maxSize
    requires t == (if s.readers[k].isClosed then CloseOut(s, k) else s) && t.Calm(busy, dirty, active + {k})
    ensures t.Shape() && k in t.readers && t.Done(k)
    ensures t == WithReader(s, k, t.readers[k])
  {
    hide State.QueueOK, State.UpdateOK, State.ReaderOK, State.EnvOK;
    hide State.OpOK, State.Done, State.HeadOK, State.InstalledOnce;
    ActiveReader(t, k, busy, dirty, active + {k});
    assert s.readers[k := s.readers[k]] == s.readers;
    CloseMarked(s, t, k);
    ReaderDone(t, k);
  }

  lemma CloseMarked(s: State, t: State, k: StreamId)
    requires k in s.readers && AllMarked(s, k) && t == (if s.readers[k].isClosed then CloseOut(s, k) else s)
    ensures AllMarked(t, k)
  {
    forall i | 0 <= i < |t.log| && i < |t.updates| && t.log[i].Set? && t.log[i].stream == k ensures Marked(t, k, i) {
      assert Marked(s, k, i);
    }
  }

  lemma KeysKept(s: State, t: State, busy: set<nat>, writing: set<StreamId>)
    requires Later(s, t, busy, writing)
    ensures t.readers.Keys == s.readers.Keys
  {
  }
}
