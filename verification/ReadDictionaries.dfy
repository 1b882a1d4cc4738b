/**
  h2ReadDictionaries with the readers that use it. The callbacks nest as in the code: completing an update
  passes over its dictionary's queue, which may hand a waiting reader its dictionary, which decompresses
  what that reader has buffered, which may complete further updates. Merging an update that has fewer bytes
  than it promised panics, and a panic unwinds through all of them.
 */
module ReadDictionaries {
  import opened Bytes
  import opened DictionaryLog
  import opened ReadModel
  import opened ReadSteps
  import opened ReadCalm
  import opened ReadGrowth
  import opened SetDictionary
  import opened StreamLookups

  class H2ReadDictionaries {
    const maxSize: nat
    const dec: Decompressor
    var dicts: seq<ReadDict>
    var readers: map<StreamId, Reader>
    var updates: seq<Update>
    /** The streams a USE_DICTIONARY frame has named. */
    var receivedUse: set<StreamId>
    ghost var log: Log
    ghost var useAt: map<StreamId, nat>

    ghost function View(): State
      reads this
    {
      State(maxSize, dec, dicts, readers, updates, log, useAt)
    }

    ghost predicate Valid()
      reads this
    {
      View().Settled() && readers.Keys <= receivedUse
    }

    /** newH2ReadDictionaries */
    constructor (nd: nat, maxSize: nat, dec: Decompressor)
      requires maxSize > 0 && Streaming(dec)
      ensures Valid() && log == [] && |dicts| == nd && this.maxSize == maxSize && this.dec == dec && receivedUse == {}
    {
      this.maxSize, this.dec := maxSize, dec;
      dicts := seq(nd, i => ReadDict([], []));
      readers, updates, receivedUse, log, useAt := map[], [], {}, [], map[];
    }

    /**
      receiveUseDictionary: an accepted frame gives the stream a reader, at once or queued; others change nothing.
      `lookup` says whether the stream is in the map.
     */
    method ReceiveUse(k: StreamId, lookup: StreamLookup, payload: Buffer) returns (r: UseOutcome)
      requires Valid()
      modifies this
      ensures Valid()
      ensures r == UseDecision(lookup, k in old(receivedUse), payload, |old(dicts)|)
      ensures View() == if r.Accepted? then GrowUse(old(View()), k, payload[0]) else old(View())
      ensures receivedUse == if |payload| == 1 && lookup.Present? then old(receivedUse) + {k} else old(receivedUse)
    {
      hide State.Settled, GrowUse;
      if |payload| != 1 {
        return ProtocolError;
      }
      if !lookup.Present? {
        return NoStream;
      }
      if k in receivedUse {
        return InternalError;
      }
      receivedUse := receivedUse + {k};
      var d := payload[0];
      match LookupDict(d, |dicts|) {
        case TooBig => return InternalError;
        case OutOfRange => return UsePanic;
        case Found =>
      }
      NewReader(k, d);
      r := Accepted;
    }

    /** newReader */
    method NewReader(k: StreamId, d: nat)
      requires View().Settled() && d < |dicts| && k !in readers
      modifies this`log, this`useAt, this`readers, this`dicts, this`updates
      ensures View().Settled() && View() == GrowUse(old(View()), k, d)
      ensures readers.Keys == old(readers).Keys + {k}
    {
      hide State.Settled;
      GrowUseSettled(View(), k, d);
      log, useAt := log + [Use(k, d)], useAt[k := |log|];
      if dicts[d].queue == [] {
        readers := readers[k := FRESH.(decomp := Some(dicts[d].dictionary))];
      } else {
        readers := readers[k := FRESH];
        dicts := Enqueue(dicts, d, |updates|);
      }
      updates := updates + [Update(k, d, 0, true, true, [])];
    }

    /**
      receiveSetDictionary: every entry parsed, up to the one that fails if any does, is queued in order.
      A SET_DICTIONARY frame follows its USE_DICTIONARY frame before any data; `first` is the write it describes.
     */
    method ReceiveSet(k: StreamId, lookup: StreamLookup, flags: Flags, payload: Buffer, ghost first: Buffer)
      returns (r: SetOutcome)
      requires Valid()
      requires k in readers ==> readers[k].wire == [] && !readers[k].isClosed
      requires forall e :: e in ParseAll(flags, |dicts|, payload).requests ==> e.size <= |first| && e.size <= maxSize
      modifies this
      ensures Valid() && receivedUse == old(receivedUse)
      ensures r == SetDecision(lookup, k in old(readers), ParseAll(flags, |old(dicts)|, payload).ending)
      ensures !r.Read? ==> View() == old(View())
      ensures r.Read? ==> SetsApply(old(View()), k, ParseAll(flags, |old(dicts)|, payload).requests, first)
                          && View() == GrowSets(old(View()), k, ParseAll(flags, |old(dicts)|, payload).requests, first)
    {
      hide State.Settled, ParseAll, GrowSets;
      match lookup {
        case Present =>
        case Gone => return NilPanic;
        case Unknown => return NoSuchStream;
        case Connection => return NoSuchStream;
      }
      if k !in readers {
        return NoReader;
      }
      var parsed := ParsePayload(flags, |dicts|, payload);
      ParsedIds(flags, |dicts|, payload);
      QueueSets(k, parsed.requests, first);
      r := Read(parsed.ending);
    }

    /** Registering update orders for the dictionaries and the reader. */
    method QueueSets(k: StreamId, requests: seq<Request>, ghost first: Buffer)
      requires Valid() && SetsApply(View(), k, requests, first)
      requires readers[k].wire == [] && !readers[k].isClosed
      requires forall i :: 0 <= i < |requests| ==> requests[i].size <= maxSize
      modifies this
      ensures Valid() && receivedUse == old(receivedUse)
      ensures View() == GrowSets(old(View()), k, requests, first)
    {
      hide State.Settled, GrowSet;
      var i := 0;
      ghost var goal := GrowSets(View(), k, requests, first);
      assert requests[0..] == requests;
      while i < |requests|
        invariant 0 <= i <= |requests|
        invariant View().Settled() && readers.Keys <= receivedUse && receivedUse == old(receivedUse)
        invariant k in readers && readers[k].wire == [] && !readers[k].isClosed
        invariant SetsApply(View(), k, requests[i..], first) && GrowSets(View(), k, requests[i..], first) == goal
      {
        QueueSet(k, requests[i], first[..requests[i].size]);
        assert requests[i..][1..] == requests[i + 1..];
        i := i + 1;
      }
    }

    method QueueSet(k: StreamId, request: Request, ghost data: Buffer)
      requires View().Settled() && request.size == |data| && SetExpected(View(), k, request.dictID, data)
      modifies this`log, this`readers, this`updates, this`dicts
      ensures View().Settled() && View() == GrowSet(old(View()), k, request.dictID, data)
      ensures readers.Keys == old(readers).Keys && |dicts| == |old(dicts)|
      ensures readers[k].wire == old(readers)[k].wire && readers[k].isClosed == old(readers)[k].isClosed
    {
      hide State.Settled;
      GrowSetSettled(View(), k, request.dictID, data);
      log := log + [Set(k, request.dictID, data)];
      dicts := Enqueue(dicts, request.dictID, |updates|);
      readers := readers[k := readers[k].(queue := readers[k].queue + [|updates|])];
      updates := updates + [Update(k, request.dictID, request.size, false, false, [])];
    }

    /** A DATA frame for a stream with a dictionary reader. */
    method Deliver(k: StreamId, p: Buffer) returns (panicked: bool)
      requires Valid() && k in readers && !readers[k].isClosed
      requires k in useAt && useAt[k] < |log| && Expected(View(), k, p)
      modifies this`dicts, this`readers, this`updates
      ensures !panicked ==> Valid() && Later(Feed(old(View()), k, p, false), View(), {}, {k})
      ensures panicked ==> SomeShort(Feed(old(View()), k, p, false))
    {
      hide State.Calm, Later, Expected, SomeShort;
      ghost var none: set<StreamId> := {};
      assert none + {k} == {k};
      FeedCalm(View(), k, p, false);
      panicked := ReaderWrite(k, p, {}, {}, none);
      if !panicked {
        KeysKept(Feed(old(View()), k, p, false), View(), {}, {k});
      }
    }

    /** h2DictionaryReader.Close, at the end of the stream; a second call changes nothing. */
    method CloseReader(k: StreamId) returns (panicked: bool)
      requires Valid() && k in readers
      modifies this`dicts, this`readers, this`updates
      ensures old(readers)[k].isClosed ==> !panicked && View() == old(View())
      ensures !old(readers)[k].isClosed && !panicked ==> Later(Feed(old(View()), k, [], true), View(), {}, {k})
      ensures !panicked ==> Valid()
      ensures panicked ==> SomeShort(Feed(old(View()), k, [], true))
    {
      hide State.Calm, Later, Expected, SomeShort;
      if readers[k].isClosed {
        return false;
      }
      ghost var none: set<StreamId> := {};
      assert none + {k} == {k};
      ExpectedAlready(View(), k);
      FeedCalm(View(), k, [], true);
      ghost var s := Feed(View(), k, [], true);
      assert readers[k].wire + [] == readers[k].wire;
      readers := readers[k := readers[k].(isClosed := true)];
      FeedNothing(s, k);
      panicked := ReaderWrite(k, [], {}, {}, none);
      if !panicked {
        KeysKept(s, View(), {}, {k});
      }
    }

    /** h2ReadDictionary.update */
    method UpdateDict(x: nat, ghost busy: set<nat>, ghost dirty: set<nat>, ghost active: set<StreamId>)
      returns (panicked: bool)
      requires x < |dicts| && x !in busy
      requires View().Calm(busy, dirty + {x}, active)
      modifies this`dicts, this`readers, this`updates
      ensures !panicked ==> View().Calm(busy, dirty, active) && Later(old(View()), View(), busy, {})
      ensures panicked ==> SomeShort(old(View()))
      decreases Uninstalled(View()), NotReady(View()), 1
    {
      hide State.Calm, Later, SomeShort;
      SelfLater(View(), busy);
      panicked := false;
      while |dicts[x].queue| > 0
        invariant x < |dicts| && !panicked
        invariant View().Calm(busy, dirty + {x}, active)
        invariant Later(old(View()), View(), busy, {})
        decreases |dicts[x].queue|
      {
        ghost var s0 := View();
        HeadIsLogged(s0, x, busy, dirty + {x}, active);
        var o := dicts[x].queue[0];
        if !updates[o].isReady {
          break;
        }
        LaterShrinks(old(View()), s0, busy, {});
        if updates[o].isUse {
          panicked := ServeUse(x, busy, dirty, active);
        } else {
          panicked := ApplySet(x, busy, dirty, active);
        }
        if panicked {
          ShortBefore(old(View()), s0, busy, {});
          return;
        }
        LaterTransitive(old(View()), s0, View(), busy, busy, {}, {});
      }
      SettleHead(View(), x, busy, dirty, active);
    }

    /** The isUse branch of h2ReadDictionary.update: install, let the reader catch up, then leave the queue. */
    method ServeUse(x: nat, ghost busy: set<nat>, ghost dirty: set<nat>, ghost active: set<StreamId>)
      returns (panicked: bool)
      requires x < |dicts| && x !in busy
      requires View().Calm(busy, dirty + {x}, active)
      requires dicts[x].queue != [] && dicts[x].queue[0] < |updates| && updates[dicts[x].queue[0]].isUse
      modifies this`dicts, this`readers, this`updates
      ensures !panicked ==> View().Calm(busy, dirty + {x}, active) && Later(old(View()), View(), busy, {})
      ensures !panicked ==> |dicts| == |old(dicts)| && |dicts[x].queue| < |old(dicts[x].queue)|
      ensures panicked ==> SomeShort(old(View()))
      decreases Uninstalled(View()), NotReady(View()), 0
    {
      hide State.Calm, Later, Uninstalled, NotReady, State.OpOK, State.QueueOK, SomeShort;
      ghost var s0 := View();
      var o := dicts[x].queue[0];
      var k := updates[o].stream;
      HeadIsLogged(s0, x, busy, dirty + {x}, active);
      InstallCalm(s0, x, busy, dirty, active, k);
      readers := readers[k := readers[k].(decomp := Some(dicts[x].dictionary))];
      ghost var s1 := View();
      InstallLater(s0, s1, k, busy);
      FeedNothing(s1, k);
      panicked := ReaderWrite(k, [], busy + {x}, dirty, active);
      if panicked {
        ShortBefore(s0, s1, busy, {});
        return;
      }
      ghost var s2 := View();
      BusyKept(s1, s2, x, busy, k);
      LaterTransitive(s0, s1, s2, busy, busy + {x}, {}, {k});
      DropUse(s2, x, busy, dirty, active, k);
      dicts := dicts[x := ReadDict(dicts[x].dictionary, dicts[x].queue[1..])];
      DropLater(s0, s2, View(), x, busy);
    }

    /** The other branch: merge the data of a completed update into the dictionary. */
    method ApplySet(x: nat, ghost busy: set<nat>, ghost dirty: set<nat>, ghost active: set<StreamId>)
      returns (panicked: bool)
      requires x < |dicts| && x !in busy
      requires View().Calm(busy, dirty + {x}, active)
      requires dicts[x].queue != [] && dicts[x].queue[0] < |updates|
      requires updates[dicts[x].queue[0]].isReady && !updates[dicts[x].queue[0]].isUse
      modifies this`dicts
      ensures !panicked ==> View().Calm(busy, dirty + {x}, active) && Later(old(View()), View(), busy, {})
      ensures !panicked ==> |dicts| == |old(dicts)| && |dicts[x].queue| < |old(dicts[x].queue)|
      ensures panicked <==> old(View()).Short(old(dicts)[x].queue[0])
      ensures panicked ==> SomeShort(old(View()))
    {
      hide State.Calm, Later;
      ghost var s0 := View();
      var o := dicts[x].queue[0];
      HeadIsLogged(s0, x, busy, dirty + {x}, active);
      HeadReady(s0, o, busy, dirty + {x}, active);
      MergedExactly(s0, o, busy, dirty + {x}, active);
      var adjusted := AdjustDictionary(dicts[x].dictionary, updates[o].buff, updates[o].size, maxSize);
      if adjusted.None? {
        return true;
      }
      DropSet(s0, x, adjusted.value, busy, dirty, active);
      dicts := dicts[x := ReadDict(adjusted.value, dicts[x].queue[1..])];
      SelfLater(s0, busy);
      DropLater(s0, s0, View(), x, busy);
      panicked := false;
    }

    /** h2DictionaryReader.Write */
    method ReaderWrite(k: StreamId, p: Buffer, ghost busy: set<nat>, ghost dirty: set<nat>, ghost active: set<StreamId>)
      returns (panicked: bool)
      requires k in readers && k !in active && |readers[k].buf| < maxSize
      requires Feed(View(), k, p, false).Calm(busy, dirty, if readers[k].decomp.Some? then active + {k} else active)
      modifies this`dicts, this`readers, this`updates
      ensures !panicked ==> View().Calm(busy, dirty, active) && Later(Feed(old(View()), k, p, false), View(), busy, {k})
      ensures panicked ==> SomeShort(Feed(old(View()), k, p, false))
      decreases Uninstalled(View()), NotReady(View()), 3
    {
      hide State.Calm, Later, Uninstalled, NotReady, CanMark, AllMarked, SomeShort;
      ghost var s0 := Feed(View(), k, p, false);
      FeedMeasure(View(), k, p);
      readers := readers[k := readers[k].(wire := readers[k].wire + p)];
      SelfLaterWriting(View(), busy, k);
      if readers[k].decomp.None? {
        return false;
      }
      panicked := Decompress(k, busy, dirty, active + {k});
      if panicked {
        return;
      }
      LaterShrinks(s0, View(), busy, {k});
      ghost var s1 := View();
      CatchUpCalm(s1, k, busy, dirty, active + {k});
      panicked := UpdateWaitingDictionaries(k, busy, dirty, active + {k});
      if panicked {
        ShortBefore(s0, s1, busy, {k});
        return;
      }
      ghost var s2 := View();
      LaterTransitive(s0, s1, s2, busy, busy, {k}, {});
      SameReader(s1, s2, k, busy);
      if readers[k].isClosed {
        CloseOutCalm(s2, k, busy, dirty, active + {k});
        readers := readers[k := readers[k].(outClosed := true)];
      }
      Finish(s0, s2, View(), k, busy, dirty, active);
    }

    /** The decompression loop: `m` is whatever the decompressor chooses to return. */
    method Decompress(k: StreamId, ghost busy: set<nat>, ghost dirty: set<nat>, ghost active: set<StreamId>)
      returns (panicked: bool)
      requires k in active && k in readers && |readers[k].buf| < maxSize && View().Calm(busy, dirty, active)
      modifies this`dicts, this`readers, this`updates
      ensures !panicked ==> View().Calm(busy, dirty, active) && Later(old(View()), View(), busy, {k})
      ensures !panicked ==>
                && k in readers && readers[k].decomp.Some? && |readers[k].buf| < maxSize
                && readers[k].produced == |dec(readers[k].decomp.value, readers[k].wire)|
      ensures panicked ==> SomeShort(old(View()))
      decreases Uninstalled(View()), NotReady(View()), 2
    {
      hide State.Calm, Later, Uninstalled, NotReady, CanMark, AllMarked, SomeShort;
      SelfLaterWriting(View(), busy, k);
      ActiveReader(View(), k, busy, dirty, active);
      var available := dec(readers[k].decomp.value, readers[k].wire);
      panicked := false;
      while readers[k].produced < |available|
        invariant k in readers && readers[k].decomp.Some? && |readers[k].buf| < maxSize && !panicked
        invariant available == dec(readers[k].decomp.value, readers[k].wire) && readers[k].produced <= |available|
        invariant View().Calm(busy, dirty, active)
        invariant Later(old(View()), View(), busy, {k})
        decreases |available| - readers[k].produced
      {
        ghost var s0 := View();
        var n := readers[k].produced;
        var m: nat :| 1 <= m <= maxSize - |readers[k].buf| && n + m <= |available|;
        ProduceCalm(s0, k, m, busy, dirty, active);
        var r, chunk := readers[k], available[n..n + m];
        readers := readers[k := r.(produced := n + m, buf := r.buf + chunk, out := r.out + chunk)];
        WriterLater(old(View()), s0, View(), k, busy);
        if |readers[k].buf| == maxSize {
          LaterShrinks(old(View()), View(), busy, {k});
          ghost var s1 := View();
          panicked := Recycle(k, busy, dirty, active);
          if panicked {
            ShortBefore(old(View()), s1, busy, {k});
            return;
          }
          LaterTransitive(old(View()), s1, View(), busy, busy, {k}, {k});
        }
      }
    }

    /** A full internal buffer: let the waiting updates have it, then start it again. */
    method Recycle(k: StreamId, ghost busy: set<nat>, ghost dirty: set<nat>, ghost active: set<StreamId>)
      returns (panicked: bool)
      requires k in active && k in readers && |readers[k].buf| == maxSize && View().Calm(busy, dirty, active)
      modifies this`dicts, this`readers, this`updates
      ensures !panicked ==> View().Calm(busy, dirty, active) && Later(old(View()), View(), busy, {k})
      ensures !panicked ==> k in readers && readers[k] == old(readers[k]).(buf := [])
      ensures panicked ==> SomeShort(old(View()))
      decreases Uninstalled(View()), NotReady(View()), 1
    {
      hide State.Calm, Later, Uninstalled, NotReady, CanMark, AllMarked, SomeShort;
      ghost var s0 := View();
      SelfLaterWriting(s0, busy, k);
      ActiveReader(s0, k, busy, dirty, active);
      FullBuffer(s0, k, busy, dirty, active);
      panicked := UpdateWaitingDictionaries(k, busy, dirty, active);
      if panicked {
        return;
      }
      ghost var s1 := View();
      SameReader(s0, s1, k, busy);
      LaterTransitive(s0, s0, s1, busy, busy, {k}, {});
      ClearCalm(s1, k, busy, dirty, active);
      readers := readers[k := readers[k].(buf := [])];
      WriterLater(s0, s1, View(), k, busy);
    }

    /** h2DictionaryReader.updateWaitingDictionaries, with its deferred calls run last first. */
    method UpdateWaitingDictionaries(k: StreamId, ghost busy: set<nat>, ghost dirty: set<nat>,
                                     ghost active: set<StreamId>) returns (panicked: bool)
      requires k in active && View().Calm(busy, dirty, active) && CanMark(View(), k)
      modifies this`dicts, this`readers, this`updates
      ensures !panicked ==> View().Calm(busy, dirty, active) && Later(old(View()), View(), busy, {})
      ensures !panicked ==> AllMarked(View(), k)
      ensures panicked ==> SomeShort(old(View()))
      decreases Uninstalled(View()), NotReady(View()), 0
    {
      hide State.Calm, Later, Uninstalled, NotReady, CanMark, AllMarked, SomeShort;
      ghost var s0 := View();
      var deferred := MarkWaiting(k, busy, dirty, active);
      ghost var s1 := View();
      LaterShrinks(s0, s1, busy, {});
      ActiveReader(s1, k, busy, dirty + Owed(deferred), active);
      SelfLater(s1, busy);
      var j := |deferred|;
      panicked := false;
      assert deferred[..j] == deferred;
      while j > 0
        invariant 0 <= j <= |deferred| && !panicked
        invariant View().Calm(busy, dirty + Owed(deferred[..j]), active)
        invariant Later(s0, View(), busy, {}) && Later(s1, View(), busy, {})
        invariant k in readers && AllMarked(View(), k)
        invariant |dicts| == |s1.dicts|
      {
        j := j - 1;
        ghost var s2, rest := View(), dirty + Owed(deferred[..j]);
        OwedSplit(dirty, deferred, j);
        LaterShrinks(s0, s2, busy, {});
        LaterShrinks(s1, s2, busy, {});
        SameReader(s1, s2, k, busy);
        panicked := UpdateDict(deferred[j], busy, rest, active);
        if panicked {
          ShortBefore(s0, s2, busy, {});
          return;
        }
        LaterTransitive(s0, s2, View(), busy, busy, {}, {});
        LaterTransitive(s1, s2, View(), busy, busy, {}, {});
        SameReader(s1, View(), k, busy);
        AllMarkedKept(s2, View(), k, busy, rest + {deferred[j]}, active, rest, active);
      }
      assert dirty + Owed(deferred[..0]) == dirty;
    }

    /** The loop of updateWaitingDictionaries: mark what can be marked, and note the dictionaries to pass over. */
    method MarkWaiting(k: StreamId, ghost busy: set<nat>, ghost dirty: set<nat>, ghost active: set<StreamId>)
      returns (deferred: seq<nat>)
      requires k in active && View().Calm(busy, dirty, active) && CanMark(View(), k)
      modifies this`updates
      ensures View().Calm(busy, dirty + Owed(deferred), active)
      ensures Later(old(View()), View(), busy, {})
      ensures AllMarked(View(), k)
      ensures forall j :: 0 <= j < |deferred| ==> deferred[j] < |dicts| && deferred[j] !in busy
      ensures deferred != [] ==> NotReady(View()) < NotReady(old(View()))
    {
      hide State.Calm, Later, Uninstalled, NotReady, CanMark, AllMarked, State.OpOK, Owed;
      ghost var s0 := View();
      ActiveReader(s0, k, busy, dirty, active);
      SelfLater(s0, busy);
      OwedNothing(dirty);
      deferred := [];
      var n := 0;
      while n < |readers[k].queue|
        invariant 0 <= n <= |readers[k].queue| && |updates| == |s0.updates|
        invariant View().Calm(busy, dirty + Owed(deferred), active) && CanMark(View(), k)
        invariant Later(s0, View(), busy, {})
        invariant forall j :: 0 <= j < |deferred| ==> deferred[j] < |dicts| && deferred[j] !in busy
        invariant deferred != [] ==> NotReady(View()) < NotReady(s0)
        invariant forall j :: 0 <= j < n && readers[k].queue[j] < |updates| ==> Marked(View(), k, readers[k].queue[j])
      {
        ghost var s := View();
        OwnEntry(s, k, n, busy, dirty + Owed(deferred), active);
        var i := readers[k].queue[n];
        var o := updates[i];
        if !o.isReady && (readers[k].isClosed || o.size <= |readers[k].buf|) {
          ghost var head := dicts[o.dict].queue[0] == i;
          MarkStep(s, k, i, busy, dirty + Owed(deferred),
                   if head then dirty + Owed(deferred) + {o.dict} else dirty + Owed(deferred), active);
          MarkLater(s0, s, i, busy);
          updates := updates[i := o.(isReady := true, buff := readers[k].buf)];
          if i == dicts[o.dict].queue[0] {
            OwedAppend(dirty, deferred, o.dict);
            deferred := deferred + [o.dict];
          }
        }
        n := n + 1;
      }
      AllEntriesMarked(View(), k, busy, dirty + Owed(deferred), active);
    }
  }

  datatype SetOutcome = NilPanic | NoSuchStream | NoReader | Read(ending: Ending)

  /** What becomes of a SET_DICTIONARY frame; for a stream that is gone the code goes on with a nil stream. */
  function SetDecision(lookup: StreamLookup, hasReader: bool, ending: Ending): SetOutcome {
    match lookup
    case Present => if hasReader then Read(ending) else NoReader
    case Gone => NilPanic
    case Unknown => NoSuchStream
    case Connection => NoSuchStream
  }

  /** A SET_DICTIONARY frame makes the receiver panic exactly if its stream is gone, or its entries do. */
  lemma SetPanicsExactly(lookup: StreamLookup, hasReader: bool, ending: Ending)
    ensures SetDecision(lookup, hasReader, ending) in {NilPanic, Read(IndexPanic)} <==>
            lookup.Gone? || (lookup.Present? && hasReader && ending == IndexPanic)
  {
  }

  ghost predicate SetsApply(s: State, k: StreamId, requests: seq<Request>, first: Buffer) {
    k in s.readers && forall i :: 0 <= i < |requests| ==> requests[i].dictID < |s.dicts| && requests[i].size <= |first|
  }

  datatype UseOutcome = Accepted | ProtocolError | NoStream | InternalError | UsePanic

  /** When receiveUseDictionary accepts a frame, and what becomes of the others. */
  function UseDecision(lookup: StreamLookup, used: bool, payload: Buffer, nd: nat): UseOutcome {
    if |payload| != 1 then ProtocolError
    else if !lookup.Present? then NoStream
    else if used then InternalError
    else match LookupDict(payload[0], nd)
      case Found => Accepted
      case TooBig => InternalError
      case OutOfRange => UsePanic
  }

  /** A frame is accepted exactly if it is the first, of one byte, for a stream in the map, and names a dictionary. */
  lemma UseAcceptedExactly(lookup: StreamLookup, used: bool, payload: Buffer, nd: nat)
    ensures UseDecision(lookup, used, payload, nd) == Accepted <==>
            lookup.Present? && !used && |payload| == 1 && payload[0] < nd
  {
  }

  /**
    A frame makes newReader panic exactly if it is a stream's first and names the ID equal to the number of
    dictionaries.
   */
  lemma UsePanicsExactly(lookup: StreamLookup, used: bool, payload: Buffer, nd: nat)
    ensures UseDecision(lookup, used, payload, nd) == UsePanic <==>
            lookup.Present? && !used && |payload| == 1 && payload[0] == nd
  {
  }

  /** adjustDictionary, whose slice panics if the update has fewer bytes than its size; None is that panic. */
  method AdjustDictionary(current: Buffer, newData: Buffer, size: nat, maxSize: nat) returns (r: Option<Buffer>)
    ensures r == Adjusted(current, newData, size, maxSize)
  {
    if size > |newData| {
      return None;
    }
    var dictionary := current + newData[..size];
    if |dictionary| > maxSize {
      dictionary := dictionary[|dictionary| - maxSize..];
    }
    r := Some(dictionary);
  }
}
