/** What the receiving side's invariant means: the right dictionary, no needless wait, and nothing stuck. */
module DictionaryTheorems {
  import opened Bytes
  import opened DictionaryLog
  import opened ReadModel
  import opened ReadSteps
  import opened ReadCalm
  import opened ReadGrowth

  /** Between frames, a reader that has a decompressor has the sender's dictionary and has passed on everything. */
  lemma InstalledDictionary(s: State, k: StreamId)
    requires s.Settled() && k in s.readers && s.readers[k].decomp.Some?
    ensures s.readers[k].decomp.value == s.TrueDict(k)
    ensures s.readers[k].out == s.Plain(k)
  {
    assert s.ReaderOK(k) && s.Done(k);
  }

  /** A use waits exactly as long as some earlier update of its dictionary is incomplete. */
  lemma DeferredExactly(s: State, k: StreamId)
    requires s.Settled() && k in s.readers
    ensures s.readers[k].decomp.None? <==>
            exists j :: 0 <= j < s.useAt[k] && s.log[j].Set? && s.log[j].dict == s.log[s.useAt[k]].dict
                        && !s.updates[j].isReady
  {
    var u := s.useAt[k];
    assert s.OpOK(u) && s.ReaderOK(k);
    var d := s.log[u].dict;
    assert s.QueueOK(d) && s.InstalledOnce(k, {}) && s.HeadOK(d);
    if s.readers[k].decomp.None? {
      assert u in s.dicts[d].queue;
      var h := s.dicts[d].queue[0];
      assert s.OpOK(h) && s.UpdateOK(h) && s.UpdateOK(u);
      assert h < u;
    }
    if j :| 0 <= j < u && s.log[j].Set? && s.log[j].dict == d && !s.updates[j].isReady {
      assert s.UpdateOK(j);
    }
  }

  /**
    Once a stream has ended and its reader has its dictionary, whether at once or after waiting for it, each of its
    updates is complete, and merging it panics exactly if the stream delivered fewer bytes than the update promised.
   */
  lemma EarlyEndPanicsExactly(s: State, k: StreamId, i: nat, current: Buffer)
    requires s.Settled() && k in s.readers && s.readers[k].isClosed && s.readers[k].decomp.Some?
    requires i < |s.log| && s.log[i].Set? && s.log[i].stream == k
    ensures s.updates[i].isReady && s.OpOK(i)
    ensures Adjusted(current, s.updates[i].buff, s.updates[i].size, s.maxSize).None? <==> |s.Plain(k)| < |s.log[i].data|
  {
    assert s.OpOK(i) && s.Done(k) && s.CanComplete(i);
    MergedExactly(s, i, {}, {}, {});
  }

  /**
    A stream announces an update and ends before it has sent anything. The update heads its dictionary's queue, closing
    the reader completes it with the empty buffer, and merging it panics.
   */
  lemma NothingSentPanics(s: State, k: StreamId, d: nat, data: Buffer)
    requires s.Settled() && k !in s.readers && d < |s.dicts| && s.dicts[d].queue == []
    requires 0 < |data| <= s.maxSize
    ensures var i := |s.log| + 1;
            var t := GrowSet(GrowUse(s, k, d), k, d, data);
            && t.Settled() && t.readers[k].decomp.Some? && t.dicts[d].queue == [i]
            && var c := Feed(t, k, [], true);
               && c.Short(i) && i < |c.updates| && c.updates[i].stream == k && !c.updates[i].isReady
               && var m := MarkReady(c, i).updates[i];
                  m.isReady && Adjusted(c.dicts[d].dictionary, m.buff, m.size, c.maxSize) == None
  {
    hide State.Settled;
    var u := GrowUse(s, k, d);
    SettledLengths(s);
    GrowUseSettled(s, k, d);
    GrowSetSettled(u, k, d, data);
    var t := GrowSet(u, k, d, data);
    SettledPlain(t, k);
    var c, i := Feed(t, k, [], true), |s.log| + 1;
    assert c.readers[k].wire == t.readers[k].wire;
    assert c.Plain(k) == t.Plain(k);
    assert c.log[i] == Set(k, d, data) && c.updates[i].size == |data|;
  }

  lemma SettledLengths(s: State)
    requires s.Settled()
    ensures |s.updates| == |s.log|
  {
  }

  lemma SettledPlain(s: State, k: StreamId)
    requires s.Settled() && k in s.readers && s.readers[k].wire == []
    ensures k in s.useAt && s.useAt[k] < |s.log| && s.Plain(k) == [] && s.readers[k].buf == []
  {
    NothingReceived(s, k);
  }

  /** Every stream has ended, or has been heard to the end of the data its updates ask for. */
  ghost predicate AllHeard(s: State)
    requires s.Shape()
  {
    && (forall k :: k in s.readers ==> s.readers[k].isClosed || s.readers[k].wire != [])
    && (forall i :: 0 <= i < |s.log| && s.log[i].Set? ==>
          s.OpOK(i) && (s.readers[s.log[i].stream].isClosed || |s.log[i].data| <= |s.Plain(s.log[i].stream)|))
  }

  /** With everything before it applied, an entry of the log is ready. */
  lemma ReadyNow(s: State, n: nat)
    requires s.Settled() && AllHeard(s) && n < |s.log| && s.OpOK(n)
    requires forall i :: 0 <= i < n ==> s.OpOK(i) && i < s.Pos(s.log[i].dict)
    ensures s.updates[n].isReady
  {
    assert s.UpdateOK(n);
    if s.log[n].Set? {
      var k := s.log[n].stream;
      var u := s.useAt[k];
      assert s.OpOK(u) && u < s.Pos(s.log[u].dict);
      assert s.ReaderOK(k) && s.Done(k) && s.CanComplete(n);
    }
  }

  lemma NextApplied(s: State, n: nat)
    requires s.Settled() && AllHeard(s) && n < |s.log| && s.OpOK(n)
    requires forall i :: 0 <= i < n ==> s.OpOK(i) && i < s.Pos(s.log[i].dict)
    ensures n < s.Pos(s.log[n].dict)
  {
    ReadyNow(s, n);
    var d := s.log[n].dict;
    assert s.QueueOK(d) && s.HeadOK(d);
    if s.dicts[d].queue != [] {
      var h := s.dicts[d].queue[0];
      assert h > n;
    }
  }

  lemma {:induction false} AllApplied(s: State, n: nat)
    requires s.Settled() && AllHeard(s) && n <= |s.log|
    ensures forall i :: 0 <= i < n ==> s.OpOK(i) && i < s.Pos(s.log[i].dict)
  {
    hide State.Settled, AllHeard, State.OpOK, State.Pos;
    if n > 0 {
      AllApplied(s, n - 1);
      EveryOp(s, n - 1);
      NextApplied(s, n - 1);
    }
  }

  lemma EveryOp(s: State, i: nat)
    requires s.Settled() && i < |s.log|
    ensures s.OpOK(i)
  {
  }

  /**
    No cycle of waiting readers: once the data has arrived or the streams have ended, in whatever order, every queue is
    empty, every reader has its dictionary and has passed on everything, and every dictionary is the sender's. And no
    stream has fallen short: with one that has, the receiver panics before it gets here.
   */
  lemma NothingStuck(s: State)
    requires s.Settled() && AllHeard(s)
    ensures forall d :: 0 <= d < |s.dicts| ==> s.dicts[d] == ReadDict(DictAt(s.log, |s.log|, d, s.maxSize), [])
    ensures forall k :: k in s.readers ==>
              s.readers[k].decomp == Some(s.TrueDict(k)) && s.readers[k].out == s.Plain(k)
    ensures !SomeShort(s)
  {
    AllApplied(s, |s.log|);
    forall i | 0 <= i < |s.log| && s.log[i].Set? ensures !s.Short(i) {
      AppliedInFull(s, i);
    }
    forall d | 0 <= d < |s.dicts| ensures s.dicts[d] == ReadDict(DictAt(s.log, |s.log|, d, s.maxSize), []) {
      EmptyQueue(s, d);
    }
    forall k | k in s.readers ensures s.readers[k].decomp == Some(s.TrueDict(k)) && s.readers[k].out == s.Plain(k) {
      Installed(s, k);
    }
  }

  lemma AppliedInFull(s: State, i: nat)
    requires s.Settled() && i < |s.log| && s.log[i].Set? && s.OpOK(i) && i < s.Pos(s.log[i].dict)
    ensures !s.Short(i)
  {
    assert s.UpdateOK(i) && s.ReaderOK(s.log[i].stream);
  }

  lemma EmptyQueue(s: State, d: nat)
    requires s.Settled() && d < |s.dicts|
    requires forall i :: 0 <= i < |s.log| ==> s.OpOK(i) && i < s.Pos(s.log[i].dict)
    ensures s.dicts[d] == ReadDict(DictAt(s.log, |s.log|, d, s.maxSize), [])
  {
    assert s.QueueOK(d);
  }

  lemma Installed(s: State, k: StreamId)
    requires s.Settled() && k in s.readers
    requires forall i :: 0 <= i < |s.log| ==> s.OpOK(i) && i < s.Pos(s.log[i].dict)
    ensures s.readers[k].decomp == Some(s.TrueDict(k)) && s.readers[k].out == s.Plain(k)
  {
    assert s.OpOK(s.useAt[k]) && s.ReaderOK(k);
    InstalledDictionary(s, k);
  }
}
