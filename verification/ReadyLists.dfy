/**
  The ReadyList: a queue of stream IDs kept as a linked list of descriptors, with a map that finds an ID's
  descriptor and a free list that reuses descriptors. It is proved to behave as a duplicate-free FIFO.
 */
module ReadyLists {
  import opened Bytes

  // ----- the reference: a FIFO without duplicates -----

  datatype Event = Signal(id: uint32) | Take

  function Signalled(q: seq<uint32>, id: uint32): seq<uint32> {
    if id in q then q else q + [id]
  }

  /** The IDs delivered while `evs` happen to the queue `q`; nobody can take from an empty queue. */
  function Deliveries(q: seq<uint32>, evs: seq<Event>): seq<uint32>
    decreases evs
  {
    if evs == [] then []
    else match evs[0]
      case Signal(id) => Deliveries(Signalled(q, id), evs[1..])
      case Take => if q == [] then Deliveries(q, evs[1..]) else [q[0]] + Deliveries(q[1..], evs[1..])
  }

  predicate Distinct(q: seq<uint32>) {
    forall i, j :: 0 <= i < j < |q| ==> q[i] != q[j]
  }

  /**
    An ID at position k is delivered after exactly k other deliveries, whatever is signalled in the meantime:
    no stream can push another one back.
   */
  lemma {:induction false} ServedInOrder(q: seq<uint32>, evs: seq<Event>, k: nat)
    requires k < |q| && k < |Deliveries(q, evs)|
    ensures Deliveries(q, evs)[k] == q[k]
    decreases evs
  {
    match evs[0]
    case Signal(id) =>
      ServedInOrder(Signalled(q, id), evs[1..], k);
    case Take =>
      if k > 0 {
        ServedInOrder(q[1..], evs[1..], k - 1);
      }
  }

  /** A signal is never lost: the signalled ID is among the next |q| + 1 deliveries. */
  lemma SignalIsServed(q: seq<uint32>, id: uint32, evs: seq<Event>)
    requires |Deliveries(q, [Signal(id)] + evs)| > |q|
    ensures id in Deliveries(q, [Signal(id)] + evs)[..|q| + 1]
  {
    var all := [Signal(id)] + evs;
    assert all[1..] == evs;
    var r := Signalled(q, id);
    assert id in r;
    var k :| 0 <= k < |r| && r[k] == id;
    ServedInOrder(r, evs, k);
    assert Deliveries(q, all)[..|q| + 1][k] == id;
  }

  // ----- the linked structure -----

  class ReadyDescriptor {
    var ID: uint32
    var Next: ReadyDescriptor?

    constructor ()
      ensures Next == null
    {
      ID, Next := 0, null;
    }
  }

  /** `nodes` is the list from Head on. Tail is only meaningful while the list is not empty. */
  class ReadyDescriptorQueue {
    var Head: ReadyDescriptor?
    var Tail: ReadyDescriptor?
    ghost var nodes: seq<ReadyDescriptor>

    ghost predicate Valid()
      reads this, nodes
    {
      && (forall i, j :: 0 <= i < j < |nodes| ==> nodes[i] != nodes[j])
      && (forall i :: 0 <= i < |nodes| - 1 ==> nodes[i].Next == nodes[i + 1])
      && (if nodes == [] then Head == null
          else Head == nodes[0] && Tail == nodes[|nodes| - 1] && Tail.Next == null)
    }

    constructor ()
      ensures Valid() && nodes == []
    {
      Head, Tail, nodes := null, null, [];
    }

    /** The code panics on a descriptor that is already linked. */
    method Enqueue(x: ReadyDescriptor)
      requires Valid() && x.Next == null && x !in nodes
      modifies this, nodes`Next
      ensures Valid() && nodes == old(nodes) + [x]
      ensures x.Next == null
    {
      if Head == null {
        Head := x;
        Tail := x;
      } else {
        Tail.Next := x;
        Tail := x;
      }
      nodes := nodes + [x];
    }

    method Dequeue() returns (x: ReadyDescriptor?)
      requires Valid()
      modifies this, nodes`Next
      ensures Valid()
      ensures old(nodes) == [] ==> x == null && nodes == []
      ensures old(nodes) != [] ==> x == old(nodes)[0] && x.Next == null && nodes == old(nodes)[1..] && x !in nodes
    {
      if Head == null {
        return null;
      }
      x := Head;
      Head := x.Next;
      x.Next := null;
      nodes := nodes[1..];
    }
  }

  class ReadyDescriptorMap {
    var descriptors: map<uint32, ReadyDescriptor>
    var free: seq<ReadyDescriptor>
    /** Every descriptor ever made. */
    ghost var pool: set<ReadyDescriptor>

    /** The descriptors in use carry their own key; the free ones are unlinked, distinct, and not in use. */
    ghost predicate Valid()
      reads this, pool
    {
      && (forall k :: k in descriptors ==> descriptors[k] in pool && descriptors[k].ID == k)
      && (forall i :: 0 <= i < |free| ==> free[i] in pool && free[i].Next == null)
      && (forall i, j :: 0 <= i < j < |free| ==> free[i] != free[j])
      && (forall i, k :: 0 <= i < |free| && k in descriptors ==> free[i] != descriptors[k])
    }

    constructor ()
      ensures Valid() && descriptors == map[] && free == [] && pool == {}
    {
      descriptors, free, pool := map[], [], {};
    }

    method SetIfMissing(key: uint32) returns (d: ReadyDescriptor?)
      requires Valid()
      modifies this, free
      ensures Valid() && old(pool) <= pool && fresh(pool - old(pool))
      ensures d == null <==> key in old(descriptors)
      ensures d == null ==> descriptors == old(descriptors) && free == old(free) && pool == old(pool)
      ensures d != null ==> d in pool && d.ID == key && d.Next == null && descriptors == old(descriptors)[key := d]
      ensures d != null ==> fresh(d) || d in old(free)
      ensures forall n :: n in free ==> n in old(free)
      ensures forall k :: k in old(descriptors) ==> unchanged(descriptors[k])
    {
      if key in descriptors {
        return null;
      }
      if |free| > 0 {
        d := free[|free| - 1];
        free := free[..|free| - 1];
      } else {
        d := new ReadyDescriptor();
        pool := pool + {d};
      }
      d.ID := key;
      descriptors := descriptors[key := d];
    }

    /** Linking and unlinking queued descriptors is no concern of the map. */
    twostate lemma StaysValid()
      requires old(Valid()) && unchanged(this)
      requires forall n :: n in pool ==> n.ID == old(n.ID)
      requires forall n :: n in free ==> n.Next == old(n.Next)
      ensures Valid()
    {
    }

    method Delete(key: uint32)
      requires Valid() && (key in descriptors ==> descriptors[key].Next == null)
      modifies this`descriptors, this`free
      ensures Valid()
      ensures descriptors == old(descriptors) - {key}
      ensures free == if key in old(descriptors) then old(free) + [old(descriptors)[key]] else old(free)
    {
      if key in descriptors {
        free := free + [descriptors[key]];
        descriptors := descriptors - {key};
      }
    }
  }

  /** The descriptors, in delivery order, are the ones the map has for the IDs, and the map has no others. */
  ghost predicate Offers(m: map<uint32, ReadyDescriptor>, nodes: seq<ReadyDescriptor>, ids: seq<uint32>) {
    && |ids| == |nodes| && Distinct(ids)
    && (forall i :: 0 <= i < |ids| ==> ids[i] in m && m[ids[i]] == nodes[i])
    && (forall k :: k in m ==> k in ids)
  }

  lemma OffersAppend(m: map<uint32, ReadyDescriptor>, nodes: seq<ReadyDescriptor>, ids: seq<uint32>, id: uint32,
                     d: ReadyDescriptor)
    requires Offers(m, nodes, ids) && id !in m
    ensures Offers(m[id := d], nodes + [d], ids + [id]) && id !in ids
  {
  }

  lemma OffersTake(m: map<uint32, ReadyDescriptor>, nodes: seq<ReadyDescriptor>, ids: seq<uint32>)
    requires Offers(m, nodes, ids) && ids != []
    ensures Offers(m - {ids[0]}, nodes[1..], ids[1..]) && ids[0] in m && m[ids[0]] == nodes[0]
  {
  }

  lemma OffersMember(m: map<uint32, ReadyDescriptor>, nodes: seq<ReadyDescriptor>, ids: seq<uint32>, id: uint32)
    requires Offers(m, nodes, ids)
    ensures id in m <==> id in ids
  {
  }

  /**
    The state of ReadyList.run: the descriptor on offer, the queue behind it and the descriptors in use.
    `contents` are the IDs in the order they will be delivered.
   */
  class ReadyLoop {
    const queue: ReadyDescriptorQueue
    const active: ReadyDescriptorMap
    var firstReady: ReadyDescriptor?
    ghost var contents: seq<uint32>

    ghost function All(): seq<ReadyDescriptor>
      reads this, queue
    {
      (if firstReady == null then [] else [firstReady]) + queue.nodes
    }

    ghost predicate Valid()
      reads this, queue, queue.nodes, active, active.pool
    {
      && queue.Valid() && active.Valid() && Offers(active.descriptors, All(), contents)
      && (firstReady == null ==> queue.nodes == [])
      && (firstReady != null ==> firstReady in active.pool && firstReady.Next == null && firstReady !in queue.nodes)
    }

    constructor ()
      ensures Valid() && contents == []
      ensures fresh(queue) && fresh(active) && active.pool == {}
    {
      queue := new ReadyDescriptorQueue();
      active := new ReadyDescriptorMap();
      firstReady, contents := null, [];
    }

    /** The first select: with nothing on offer, a signal always finds its ID missing. */
    method OnFirstSignal(id: uint32)
      requires Valid() && firstReady == null
      modifies this, active, active.free
      ensures Valid() && fresh(active.pool - old(active.pool)) && queue.nodes == old(queue.nodes)
      ensures firstReady != null && contents == Signalled(old(contents), id)
    {
      firstReady := active.SetIfMissing(id);
      contents := [id];
    }

    /** A signal in the second select. */
    method OnSignal(id: uint32)
      requires Valid() && firstReady != null
      modifies this, queue, queue.nodes`Next, active, active.free
      ensures Valid() && fresh(active.pool - old(active.pool))
      ensures contents == Signalled(old(contents), id)
    {
      hide Offers, Distinct, ReadyDescriptorMap.Valid, ReadyDescriptorQueue.Valid;
      InUse();
      ghost var m, nodes := active.descriptors, All();
      OffersMember(m, nodes, contents, id);
      var newReady := active.SetIfMissing(id);
      if newReady != null {
        OffersAppend(m, nodes, contents, id, newReady);
        assert newReady !in nodes;
        label linking:
        queue.Enqueue(newReady);
        active.StaysValid@linking();
        contents := contents + [id];
        assert All() == nodes + [newReady];
      }
    }

    /** The descriptors in the queue are in use, hence neither free nor about to be handed out. */
    lemma InUse()
      requires Valid()
      ensures forall n :: n in All() ==> n in active.pool && n !in active.free
    {
      forall i | 0 <= i < |All()| ensures var n := All()[i]; n in active.pool && n !in active.free {
        assert active.descriptors[contents[i]] == All()[i];
      }
    }

    /** The writer takes the ID on offer. */
    method OnTake() returns (id: uint32)
      requires Valid() && firstReady != null
      modifies this, queue, queue.nodes`Next, active
      ensures Valid() && active.pool == old(active.pool)
      ensures old(contents) == [id] + contents
    {
      hide Offers, Distinct, ReadyDescriptorMap.Valid, ReadyDescriptorQueue.Valid;
      FirstInMap();
      InUse();
      ghost var nodes := All();
      OffersTake(active.descriptors, nodes, contents);
      id := firstReady.ID;
      active.Delete(firstReady.ID);
      assert contents == [id] + contents[1..];
      contents := contents[1..];
      Advance();
      assert All() == nodes[1..];
    }

    /** The next descriptor in the queue, if any, is put on offer. */
    method Advance()
      requires queue.Valid() && active.Valid() && (forall n :: n in active.free ==> n !in queue.nodes)
      modifies this`firstReady, queue, queue.nodes`Next
      ensures queue.Valid() && active.Valid() && All() == old(queue.nodes)
      ensures if old(queue.nodes) == [] then firstReady == null && queue.nodes == []
              else firstReady == old(queue.nodes)[0] && firstReady.Next == null && firstReady !in queue.nodes
    {
      hide ReadyDescriptorMap.Valid, ReadyDescriptorQueue.Valid;
      firstReady := queue.Dequeue();
      active.StaysValid();
    }

    lemma InPool()
      requires Valid()
      ensures forall j :: 0 <= j < |queue.nodes| ==> queue.nodes[j] in active.pool
      ensures forall j :: 0 <= j < |active.free| ==> active.free[j] in active.pool
      ensures firstReady == null <==> contents == []
    {
      InUse();
      assert |All()| == |contents|;
    }

    lemma FirstInMap()
      requires Valid() && firstReady != null
      ensures contents != [] && firstReady.ID == contents[0]
      ensures contents[0] in active.descriptors && active.descriptors[contents[0]] == firstReady
    {
      assert All()[0] == firstReady;
    }
  }

  /**
    ReadyList.run over the signals and takes it sees, from an empty list. Its panic is never reached, and what it
    delivers is what the reference delivers.
   */
  method Run(evs: seq<Event>) returns (out: seq<uint32>)
    ensures out == Deliveries([], evs)
  {
    hide Offers, Distinct, ReadyDescriptorMap.Valid, ReadyDescriptorQueue.Valid, Deliveries;
    var rl := new ReadyLoop();
    out := [];
    var i := 0;
    assert evs[0..] == evs;
    while i < |evs|
      invariant 0 <= i <= |evs|
      invariant rl.Valid() && fresh(rl) && fresh(rl.queue) && fresh(rl.active) && fresh(rl.active.pool)
      invariant out + Deliveries(rl.contents, evs[i..]) == Deliveries([], evs)
    {
      DeliveriesStep(rl.contents, evs, i);
      rl.InPool();
      assert forall j :: 0 <= j < |rl.active.free| ==> fresh(rl.active.free[j]);
      assert forall j :: 0 <= j < |rl.queue.nodes| ==> fresh(rl.queue.nodes[j]);
      if evs[i].Signal? {
        if rl.firstReady == null {
          rl.OnFirstSignal(evs[i].id);
        } else {
          rl.OnSignal(evs[i].id);
        }
      } else if rl.firstReady != null {
        var id := rl.OnTake();
        out := out + [id];
      }
      i := i + 1;
    }
    assert evs[i..] == [];
    NoMoreDeliveries(rl.contents);
  }

  lemma DeliveriesStep(q: seq<uint32>, evs: seq<Event>, i: nat)
    requires i < |evs|
    ensures Deliveries(q, evs[i..]) ==
            match evs[i]
            case Signal(id) => Deliveries(Signalled(q, id), evs[i + 1..])
            case Take => if q == [] then Deliveries(q, evs[i + 1..]) else [q[0]] + Deliveries(q[1..], evs[i + 1..])
  {
    assert evs[i..][1..] == evs[i + 1..];
  }

  lemma NoMoreDeliveries(q: seq<uint32>)
    ensures Deliveries(q, []) == []
  {
  }
}
