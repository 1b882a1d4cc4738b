/** The sending side of the dictionary compressor: h2WriteDictionaries and assignDictToStream. */
module WriteDictionaries {
  import opened Bytes
  import opened DictionaryLog
  import opened SetDictionary

  /** Which dictionary slots have been handed out, and to which paths and content types. */
  datatype Slots = Slots(nextAvail: nat, maxAvail: nat, pathToDict: map<string, byte>, typeToDict: map<string, byte>)
  {
    predicate Small() {
      nextAvail <= maxAvail && 0 < maxAvail <= 255
    }

    /** Every slot handed out belongs to exactly one path or content type. */
    ghost predicate Valid() {
      Small() && OneOwner(pathToDict, nextAvail) && OneOwner(typeToDict, nextAvail) && Apart(pathToDict, typeToDict)
    }
  }

  ghost predicate OneOwner(m: map<string, byte>, limit: nat) {
    && (forall p :: p in m ==> m[p] < limit)
    && (forall p, q :: p in m && q in m && m[p] == m[q] ==> p == q)
  }

  ghost predicate Apart(m: map<string, byte>, n: map<string, byte>) {
    forall p, t :: p in m && t in n ==> m[p] != n[t]
  }

  lemma OwnerAdded(m: map<string, byte>, n: map<string, byte>, next: nat, key: string)
    requires next < 255 && OneOwner(m, next) && OneOwner(n, next) && Apart(m, n) && key !in m
    ensures OneOwner(m[key := next], next + 1) && OneOwner(n, next + 1)
    ensures Apart(m[key := next], n) && Apart(n, m[key := next])
  {
  }

  datatype Choice = Choice(useID: byte, pathID: byte, typeID: byte)

  /** A path, or a content type, gets the next slot if it has none and there is one left. */
  function TakePath(s: Slots, path: string): (r: Slots)
    requires s.Small()
    ensures r.Small() && r.maxAvail == s.maxAvail
  {
    if path in s.pathToDict || s.nextAvail == s.maxAvail then s
    else s.(nextAvail := s.nextAvail + 1, pathToDict := s.pathToDict[path := s.nextAvail])
  }

  function TakeType(s: Slots, contentType: string): (r: Slots)
    requires s.Small()
    ensures r.Small() && r.maxAvail == s.maxAvail
  {
    if contentType in s.typeToDict || s.nextAvail == s.maxAvail then s
    else s.(nextAvail := s.nextAvail + 1, typeToDict := s.typeToDict[contentType := s.nextAvail])
  }

  lemma TakePathValid(s: Slots, path: string)
    requires s.Valid()
    ensures TakePath(s, path).Valid()
  {
    hide OneOwner, Apart;
    if TakePath(s, path) != s {
      OwnerAdded(s.pathToDict, s.typeToDict, s.nextAvail, path);
    }
  }

  lemma TakeTypeValid(s: Slots, contentType: string)
    requires s.Valid()
    ensures TakeType(s, contentType).Valid()
  {
    if TakeType(s, contentType) != s {
      OwnerAdded(s.typeToDict, s.pathToDict, s.nextAvail, contentType);
    }
  }

  /** The slot of a path or content type, where one without a slot counts as having the first. */
  function SlotOr0(m: map<string, byte>, key: string): byte {
    if key in m then m[key] else 0
  }

  /**
    The dictionary a stream uses is its path's, else its content type's, else the last one; it also updates
    its path's and its type's, where a missing one counts as dictionary 0 once the slots run out.
   */
  function ChoiceFor(before: Slots, path: string, contentType: string): Choice
    requires before.Small()
  {
    var after := TakeType(TakePath(before, path), contentType);
    Choice(if path in before.pathToDict then before.pathToDict[path]
           else if contentType in before.typeToDict then before.typeToDict[contentType]
           else before.maxAvail - 1,
           SlotOr0(after.pathToDict, path), SlotOr0(after.typeToDict, contentType))
  }

  lemma ChoiceInRange(before: Slots, path: string, contentType: string)
    requires before.Valid()
    ensures var c := ChoiceFor(before, path, contentType);
            c.useID < before.maxAvail && c.pathID < before.maxAvail && c.typeID < before.maxAvail
  {
  }

  /** The updates that go with a choice: the dictionary used, and the two others where they differ from it. */
  function Updates(c: Choice, size: uint64): (entries: seq<Entry>)
    ensures entries != []
  {
    [Entry(c.useID, size)]
    + (if c.pathID != c.useID then [Entry(c.pathID, size)] else [])
    + (if c.typeID != c.useID then [Entry(c.typeID, size)] else [])
  }

  lemma UpdatesHold(c: Choice, size: uint64)
    ensures forall d: byte :: Entry(d, size) in Updates(c, size) <==> d == c.useID || d == c.pathID || d == c.typeID
  {
    var entries := Updates(c, size);
    assert entries[0] == Entry(c.useID, size);
    if c.pathID != c.useID {
      assert entries[1] == Entry(c.pathID, size);
    }
    if c.typeID != c.useID {
      assert entries[|entries| - 1] == Entry(c.typeID, size);
    }
  }

  // ----- any sequence of first writes -----

  datatype First = First(stream: StreamId, path: string, contentType: string, data: Buffer)

  function Started(nd: byte): Slots
    requires nd > 0
  {
    Slots(0, nd, map[], map[])
  }

  function SlotsAfter(nd: byte, ws: seq<First>): (s: Slots)
    requires nd > 0
    ensures s.Small() && s.maxAvail == nd
  {
    if ws == [] then Started(nd)
    else TakeType(TakePath(SlotsAfter(nd, ws[..|ws| - 1]), ws[|ws| - 1].path), ws[|ws| - 1].contentType)
  }

  /** What the n-th of the first writes chooses. */
  function ChoiceAt(nd: byte, ws: seq<First>, n: nat): Choice
    requires nd > 0 && n < |ws|
  {
    ChoiceFor(SlotsAfter(nd, ws[..n]), ws[n].path, ws[n].contentType)
  }

  /** A slot, once handed out, is never taken away. */
  lemma {:induction false} SlotStays(nd: byte, ws: seq<First>, i: nat)
    requires nd > 0 && i <= |ws|
    ensures var a, b := SlotsAfter(nd, ws[..i]), SlotsAfter(nd, ws);
            && (forall p :: p in a.pathToDict ==> p in b.pathToDict && b.pathToDict[p] == a.pathToDict[p])
            && (forall t :: t in a.typeToDict ==> t in b.typeToDict && b.typeToDict[t] == a.typeToDict[t])
    decreases |ws|
  {
    if i == |ws| {
      assert ws[..i] == ws;
    } else {
      assert ws[..|ws| - 1][..i] == ws[..i];
      SlotStays(nd, ws[..|ws| - 1], i);
    }
  }

  /** A path or a content type has a slot after its first write exactly as long as slots last. */
  lemma SlotGiven(nd: byte, ws: seq<First>)
    requires nd > 0 && ws != []
    ensures var before, w, after := SlotsAfter(nd, ws[..|ws| - 1]), ws[|ws| - 1], SlotsAfter(nd, ws);
            && (w.path in after.pathToDict <==> w.path in before.pathToDict || before.nextAvail < nd)
            && (w.contentType in after.typeToDict <==>
                  w.contentType in before.typeToDict || TakePath(before, w.path).nextAvail < nd)
  {
  }

  /**
    Over any sequence of first writes: if the path of write `j` had a slot after the earlier write `i` of the same path,
    then `j` starts from that slot's dictionary, and every write of the path from `i` up to `j` updates it.
   */
  lemma PathComesFirst(nd: byte, ws: seq<First>, i: nat, j: nat)
    requires nd > 0 && i < j < |ws| && ws[i].path == ws[j].path
    requires ws[j].path in SlotsAfter(nd, ws[..i + 1]).pathToDict
    ensures var d := SlotsAfter(nd, ws[..i + 1]).pathToDict[ws[j].path];
            && ChoiceAt(nd, ws, j).useID == d
            && (forall m, size :: i <= m < j && ws[m].path == ws[j].path ==>
                  Entry(d, size) in Updates(ChoiceAt(nd, ws, m), size))
  {
    hide Updates, SlotsAfter, ChoiceFor;
    forall m, size | i <= m < j && ws[m].path == ws[j].path
      ensures Entry(SlotsAfter(nd, ws[..i + 1]).pathToDict[ws[j].path], size) in Updates(ChoiceAt(nd, ws, m), size)
    {
      OwnPathUpdated(nd, ws, i, m, size);
    }
    OwnPathUsed(nd, ws, i, j);
  }

  /** The dictionaries a first write updates are the slots its path and content type have after it. */
  lemma ChoiceSlots(nd: byte, ws: seq<First>, m: nat)
    requires nd > 0 && m < |ws|
    ensures var c, after := ChoiceAt(nd, ws, m), SlotsAfter(nd, ws[..m + 1]);
            && c.pathID == SlotOr0(after.pathToDict, ws[m].path)
            && c.typeID == SlotOr0(after.typeToDict, ws[m].contentType)
  {
    assert ws[..m + 1][..m] == ws[..m];
  }

  lemma OwnPathUsed(nd: byte, ws: seq<First>, i: nat, j: nat)
    requires nd > 0 && i < j < |ws| && ws[j].path in SlotsAfter(nd, ws[..i + 1]).pathToDict
    ensures ChoiceAt(nd, ws, j).useID == SlotsAfter(nd, ws[..i + 1]).pathToDict[ws[j].path]
  {
    hide SlotsAfter;
    assert ws[..j][..i + 1] == ws[..i + 1];
    SlotStays(nd, ws[..j], i + 1);
  }

  lemma OwnPathUpdated(nd: byte, ws: seq<First>, i: nat, m: nat, size: uint64)
    requires nd > 0 && i <= m < |ws| && ws[m].path in SlotsAfter(nd, ws[..i + 1]).pathToDict
    ensures Entry(SlotsAfter(nd, ws[..i + 1]).pathToDict[ws[m].path], size) in Updates(ChoiceAt(nd, ws, m), size)
  {
    hide Updates, SlotsAfter, ChoiceFor;
    assert ws[..m + 1][..i + 1] == ws[..i + 1];
    SlotStays(nd, ws[..m + 1], i + 1);
    ChoiceSlots(nd, ws, m);
    UpdatesHold(ChoiceAt(nd, ws, m), size);
  }

  /** The same for the content type, which comes second: it decides only for a path without a slot. */
  lemma TypeComesSecond(nd: byte, ws: seq<First>, i: nat, j: nat)
    requires nd > 0 && i < j < |ws| && ws[i].contentType == ws[j].contentType
    requires ws[j].contentType in SlotsAfter(nd, ws[..i + 1]).typeToDict
    ensures var d := SlotsAfter(nd, ws[..i + 1]).typeToDict[ws[j].contentType];
            && (ws[j].path !in SlotsAfter(nd, ws[..j]).pathToDict ==> ChoiceAt(nd, ws, j).useID == d)
            && (forall m, size :: i <= m < j && ws[m].contentType == ws[j].contentType ==>
                  Entry(d, size) in Updates(ChoiceAt(nd, ws, m), size))
  {
    hide Updates, SlotsAfter, ChoiceFor;
    forall m, size | i <= m < j && ws[m].contentType == ws[j].contentType
      ensures var d := SlotsAfter(nd, ws[..i + 1]).typeToDict[ws[j].contentType];
              Entry(d, size) in Updates(ChoiceAt(nd, ws, m), size)
    {
      OwnTypeUpdated(nd, ws, i, m, size);
    }
    if ws[j].path !in SlotsAfter(nd, ws[..j]).pathToDict {
      OwnTypeUsed(nd, ws, i, j);
    }
  }

  lemma OwnTypeUsed(nd: byte, ws: seq<First>, i: nat, j: nat)
    requires nd > 0 && i < j < |ws| && ws[j].contentType in SlotsAfter(nd, ws[..i + 1]).typeToDict
    requires ws[j].path !in SlotsAfter(nd, ws[..j]).pathToDict
    ensures ChoiceAt(nd, ws, j).useID == SlotsAfter(nd, ws[..i + 1]).typeToDict[ws[j].contentType]
  {
    hide SlotsAfter;
    assert ws[..j][..i + 1] == ws[..i + 1];
    SlotStays(nd, ws[..j], i + 1);
  }

  lemma OwnTypeUpdated(nd: byte, ws: seq<First>, i: nat, m: nat, size: uint64)
    requires nd > 0 && i <= m < |ws| && ws[m].contentType in SlotsAfter(nd, ws[..i + 1]).typeToDict
    ensures Entry(SlotsAfter(nd, ws[..i + 1]).typeToDict[ws[m].contentType], size) in Updates(ChoiceAt(nd, ws, m), size)
  {
    hide Updates, SlotsAfter, ChoiceFor;
    assert ws[..m + 1][..i + 1] == ws[..i + 1];
    SlotStays(nd, ws[..m + 1], i + 1);
    ChoiceSlots(nd, ws, m);
    UpdatesHold(ChoiceAt(nd, ws, m), size);
  }

  /** A stream whose path and content type are both new starts from the last dictionary. */
  lemma OverflowComesLast(nd: byte, ws: seq<First>, j: nat)
    requires nd > 0 && j < |ws|
    requires forall i :: 0 <= i < j ==> ws[i].path != ws[j].path && ws[i].contentType != ws[j].contentType
    ensures ChoiceAt(nd, ws, j).useID == nd - 1
  {
    OnlyWritten(nd, ws[..j]);
  }

  lemma {:induction false} OnlyWritten(nd: byte, ws: seq<First>)
    requires nd > 0
    ensures forall p :: p in SlotsAfter(nd, ws).pathToDict ==> exists i :: 0 <= i < |ws| && ws[i].path == p
    ensures forall t :: t in SlotsAfter(nd, ws).typeToDict ==> exists i :: 0 <= i < |ws| && ws[i].contentType == t
  {
    if ws != [] {
      OnlyWritten(nd, ws[..|ws| - 1]);
      assert forall i :: 0 <= i < |ws| - 1 ==> ws[..|ws| - 1][i] == ws[i];
      assert ws[|ws| - 1].path == ws[|ws| - 1].path && ws[|ws| - 1].contentType == ws[|ws| - 1].contentType;
    }
  }

  /** The log entries of one first write. */
  ghost function SetOps(k: StreamId, entries: seq<Entry>, first: Buffer): Log
    requires forall i :: 0 <= i < |entries| ==> entries[i].size <= |first|
  {
    seq(|entries|, i requires 0 <= i < |entries| => Set(k, entries[i].dictID, first[..entries[i].size]))
  }

  class H2WriteDictionaries {
    const maxSize: nat
    var dictionaries: seq<Buffer>
    var slots: Slots
    ghost var log: Log

    ghost predicate Valid()
      reads this
    {
      && slots.Valid() && |dictionaries| == slots.maxAvail && 0 < maxSize < TWO_63
      && Current(dictionaries, log, maxSize)
    }

    /** newH2WriteDictionaries */
    constructor (nd: byte, maxSize: nat)
      requires nd > 0 && 0 < maxSize < TWO_63
      ensures Valid() && log == [] && this.maxSize == maxSize && |dictionaries| == nd
      ensures slots == Slots(0, nd, map[], map[])
    {
      this.maxSize := maxSize;
      dictionaries := seq(nd, i => []);
      slots := Slots(0, nd, map[], map[]);
      log := [];
    }

    /** getNextDictID */
    method NextDictID() returns (id: byte, ok: bool)
      requires slots.Small()
      modifies this`slots
      ensures slots.Small()
      ensures ok == (old(slots).nextAvail < old(slots).maxAvail)
      ensures id == if ok then old(slots).nextAvail else 0
      ensures slots == if ok then old(slots).(nextAvail := old(slots).nextAvail + 1) else old(slots)
    {
      if slots.nextAvail < slots.maxAvail {
        id, ok := slots.nextAvail, true;
        slots := slots.(nextAvail := slots.nextAvail + 1);
      } else {
        id, ok := 0, false;
      }
    }

    method TakePathSlot(path: string) returns (pathID: byte)
      requires slots.Small() && path !in slots.pathToDict
      modifies this`slots
      ensures slots == TakePath(old(slots), path) && pathID == SlotOr0(slots.pathToDict, path)
    {
      var pathFound;
      pathID, pathFound := NextDictID();
      if pathFound {
        slots := slots.(pathToDict := slots.pathToDict[path := pathID]);
      }
    }

    method TakeTypeSlot(contentType: string) returns (typeID: byte)
      requires slots.Small() && contentType !in slots.typeToDict
      modifies this`slots
      ensures slots == TakeType(old(slots), contentType) && typeID == SlotOr0(slots.typeToDict, contentType)
    {
      var typeFound;
      typeID, typeFound := NextDictID();
      if typeFound {
        slots := slots.(typeToDict := slots.typeToDict[contentType := typeID]);
      }
    }

    /** The choice of dictionaries in assignDictToStream. */
    method Choose(path: string, contentType: string) returns (c: Choice)
      requires slots.Small()
      modifies this`slots
      ensures slots == TakeType(TakePath(old(slots), path), contentType)
      ensures c == ChoiceFor(old(slots), path, contentType)
      ensures path in old(slots).pathToDict ==> c.useID == c.pathID == old(slots).pathToDict[path]
      ensures path !in old(slots).pathToDict && contentType in old(slots).typeToDict ==>
                c.useID == c.typeID == old(slots).typeToDict[contentType]
      ensures path !in old(slots).pathToDict && contentType !in old(slots).typeToDict ==>
                c.useID == old(slots).maxAvail - 1
    {
      var pathID, typeID := SlotOr0(slots.pathToDict, path), SlotOr0(slots.typeToDict, contentType);
      if path in slots.pathToDict {
        c := Choice(pathID, pathID, typeID);
        if contentType !in slots.typeToDict {
          typeID := TakeTypeSlot(contentType);
          c := c.(typeID := typeID);
        }
      } else if contentType in slots.typeToDict {
        pathID := TakePathSlot(path);
        c := Choice(typeID, pathID, typeID);
      } else {
        var useID := LastDict();
        pathID := TakePathSlot(path);
        typeID := TakeTypeSlot(contentType);
        c := Choice(useID, pathID, typeID);
      }
    }

    /** getGenericDictID, which never fails here: dictionaries exist only for a positive number of them. */
    method LastDict() returns (id: byte)
      requires slots.Small()
      ensures id == slots.maxAvail - 1
    {
      id := slots.maxAvail - 1;
    }

    /**
      assignDictToStream on a stream's first write `p`: the compressor gets the dictionary as the log has it
      now, and the updates sent to the peer are the ones applied here.
     */
    method AssignDictToStream(k: StreamId, path: string, contentType: string, p: Buffer)
      returns (useID: byte, setDicts: seq<Entry>, copyDict: Buffer)
      requires Valid()
      modifies this`slots, this`dictionaries, this`log
      ensures Valid()
      ensures useID < |dictionaries| == |old(dictionaries)| && copyDict == old(dictionaries)[useID]
      ensures setDicts != []
      ensures forall i :: 0 <= i < |setDicts| ==>
                setDicts[i].dictID < |dictionaries| && setDicts[i].size == Min(|p|, maxSize)
      ensures var c := ChoiceFor(old(slots), path, contentType);
              useID == c.useID && setDicts == Updates(c, Min(|p|, maxSize))
      ensures slots == TakeType(TakePath(old(slots), path), contentType)
      ensures log == old(log) + [Use(k, useID)] + SetOps(k, setDicts, p)
      ensures path in old(slots).pathToDict ==> useID == old(slots).pathToDict[path]
      ensures path !in old(slots).pathToDict && contentType in old(slots).typeToDict ==>
                useID == old(slots).typeToDict[contentType]
      ensures path !in old(slots).pathToDict && contentType !in old(slots).typeToDict ==> useID == |dictionaries| - 1
      ensures forall d: byte :: Entry(d, Min(|p|, maxSize)) in setDicts <==>
                d == useID || d == SlotOr0(slots.pathToDict, path) || d == SlotOr0(slots.typeToDict, contentType)
    {
      hide OneOwner, Apart, Current;
      TakePathValid(slots, path);
      TakeTypeValid(TakePath(slots, path), contentType);
      ChoiceInRange(slots, path, contentType);
      var c := Choose(path, contentType);
      useID := c.useID;
      var useLen := maxSize;
      if |p| < useLen {
        useLen := |p|;
      }
      setDicts := [Entry(c.useID, useLen)];
      if c.pathID != useID {
        setDicts := setDicts + [Entry(c.pathID, useLen)];
      }
      if c.typeID != useID {
        setDicts := setDicts + [Entry(c.typeID, useLen)];
      }
      UpdatesHold(c, useLen);
      copyDict := dictionaries[useID];
      LogUse(dictionaries, log, k, useID, maxSize);
      log := log + [Use(k, useID)];
      ApplySets(k, setDicts, p);
    }

    /** First writes one after the other, in the order they take the lock. */
    method AssignAll(ws: seq<First>) returns (useIDs: seq<byte>)
      requires Valid() && slots.maxAvail > 0 && slots == Slots(0, slots.maxAvail, map[], map[])
      modifies this`slots, this`dictionaries, this`log
      ensures Valid() && slots == SlotsAfter(old(slots).maxAvail, ws)
      ensures |useIDs| == |ws|
      ensures forall n :: 0 <= n < |ws| ==> useIDs[n] == ChoiceAt(old(slots).maxAvail, ws, n).useID
    {
      hide OneOwner, Apart, Current, ChoiceFor, Updates;
      ghost var nd: byte := slots.maxAvail;
      useIDs := [];
      var i := 0;
      assert ws[..0] == [];
      while i < |ws|
        invariant 0 <= i <= |ws| && |useIDs| == i && Valid() && slots == SlotsAfter(nd, ws[..i])
        invariant forall n :: 0 <= n < i ==> useIDs[n] == ChoiceAt(nd, ws, n).useID
      {
        assert ws[..i + 1][..i] == ws[..i];
        var useID, setDicts, copyDict := AssignDictToStream(ws[i].stream, ws[i].path, ws[i].contentType, ws[i].data);
        useIDs := useIDs + [useID];
        i := i + 1;
      }
      assert ws[..i] == ws;
    }

    method ApplySets(k: StreamId, setDicts: seq<Entry>, p: Buffer)
      requires Valid()
      requires forall i :: 0 <= i < |setDicts| ==> setDicts[i].dictID < |dictionaries| && setDicts[i].size <= |p|
      modifies this`dictionaries, this`log
      ensures Valid() && |dictionaries| == |old(dictionaries)|
      ensures log == old(log) + SetOps(k, setDicts, p)
    {
      var i := 0;
      while i < |setDicts|
        invariant 0 <= i <= |setDicts|
        invariant Valid() && |dictionaries| == |old(dictionaries)|
        invariant log == old(log) + SetOps(k, setDicts, p)[..i]
      {
        var entry := setDicts[i];
        LogSet(dictionaries, log, k, entry.dictID, p[..entry.size], maxSize);
        dictionaries := dictionaries[entry.dictID := Adjust(dictionaries[entry.dictID], p[..entry.size], maxSize)];
        log := log + [Set(k, entry.dictID, p[..entry.size])];
        i := i + 1;
      }
    }
  }

  /** The dictionaries are what the log makes of them. */
  ghost predicate Current(dictionaries: seq<Buffer>, log: Log, maxSize: nat) {
    forall d :: 0 <= d < |dictionaries| ==> dictionaries[d] == DictAt(log, |log|, d, maxSize)
  }

  lemma LogUse(dictionaries: seq<Buffer>, log: Log, k: StreamId, u: nat, maxSize: nat)
    requires Current(dictionaries, log, maxSize)
    ensures Current(dictionaries, log + [Use(k, u)], maxSize)
  {
    forall d | 0 <= d < |dictionaries| ensures dictionaries[d] == DictAt(log + [Use(k, u)], |log| + 1, d, maxSize) {
      DictAtStable(log, [Use(k, u)], |log|, d, maxSize);
    }
  }

  lemma LogSet(dictionaries: seq<Buffer>, log: Log, k: StreamId, x: nat, data: Buffer, maxSize: nat)
    requires Current(dictionaries, log, maxSize) && x < |dictionaries|
    ensures Current(dictionaries[x := Adjust(dictionaries[x], data, maxSize)], log + [Set(k, x, data)], maxSize)
  {
    var op := Set(k, x, data);
    var after := dictionaries[x := Adjust(dictionaries[x], data, maxSize)];
    forall d | 0 <= d < |after| ensures after[d] == DictAt(log + [op], |log| + 1, d, maxSize) {
      DictAtStable(log, [op], |log|, d, maxSize);
    }
  }
}
