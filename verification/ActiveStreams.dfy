/** The activeStreamMap: which streams exist, who may open new ones, and when the last one is gone. */
module ActiveStreams {
  import opened Bytes
  import opened StreamLookups

  /**
    `emptyClosed` says the done channel is closed, `closes` how often it was; `closedStreams` are the streams Abort
    has closed.
   */
  datatype State = State(streams: set<uint32>, nextStreamID: uint32, maxPeerStreamID: uint32, ignoreNewStreams: bool,
                         emptyClosed: bool, closes: nat, aborted: bool, closedStreams: set<uint32>)

  function New(client: bool): State {
    State({}, if client then 1 else 2, 0, false, false, 0, false, {})
  }

  /** closeOnce */
  function Notify(m: State): State {
    if m.emptyClosed then m else m.(emptyClosed := true, closes := m.closes + 1)
  }

  predicate CanSet(m: State, id: uint32) {
    id !in m.streams && !m.ignoreNewStreams
  }

  function Set(m: State, id: uint32): State {
    if CanSet(m, id) then m.(streams := m.streams + {id}) else m
  }

  function Delete(m: State, id: uint32): State {
    var n := m.(streams := m.streams - {id});
    if n.ignoreNewStreams && n.streams == {} then Notify(n) else n
  }

  function Shutdown(m: State): State {
    if m.ignoreNewStreams then m
    else
      var n := m.(ignoreNewStreams := true);
      if n.streams == {} then Notify(n) else n
  }

  function AcquireLocalID(m: State): State {
    m.(nextStreamID := U32(m.nextStreamID + 2))
  }

  predicate Accepts(m: State, id: uint32) {
    !m.ignoreNewStreams && id > m.maxPeerStreamID
  }

  function AcquirePeerID(m: State, id: uint32): State {
    if Accepts(m, id) then m.(maxPeerStreamID := id) else m
  }

  function Abort(m: State): State {
    Notify(m.(ignoreNewStreams := true, aborted := true, closedStreams := m.closedStreams + m.streams))
  }

  predicate IsPeerStreamID(m: State, id: uint32) {
    id % 2 != m.nextStreamID % 2
  }

  predicate IsLocalStreamID(m: State, id: uint32) {
    id % 2 == m.nextStreamID % 2 && id < m.nextStreamID
  }

  /** getStreamForFrame */
  function Find(m: State, id: uint32): StreamLookup {
    if id == 0 then Connection
    else if id in m.streams then Present
    else if IsLocalStreamID(m, id) || id < m.maxPeerStreamID then Gone
    else Unknown
  }

  class ActiveStreamMap {
    var streams: set<uint32>
    var nextStreamID: uint32
    var maxPeerStreamID: uint32
    var ignoreNewStreams: bool
    var emptyClosed: bool
    ghost var closes: nat
    ghost var aborted: bool
    ghost var closedStreams: set<uint32>

    ghost function View(): State
      reads this
    {
      State(streams, nextStreamID, maxPeerStreamID, ignoreNewStreams, emptyClosed, closes, aborted, closedStreams)
    }

    constructor (useClientStreamNumbers: bool)
      ensures View() == New(useClientStreamNumbers)
    {
      streams, nextStreamID, maxPeerStreamID, ignoreNewStreams := {}, 1, 0, false;
      emptyClosed, closes, aborted, closedStreams := false, 0, false, {};
      if !useClientStreamNumbers {
        nextStreamID := 2;
      }
    }

    method NotifyStreamsEmpty()
      modifies this`emptyClosed, this`closes
      ensures View() == Notify(old(View()))
    {
      if !emptyClosed {
        emptyClosed := true;
        closes := closes + 1;
      }
    }

    method SetStream(id: uint32) returns (ok: bool)
      modifies this`streams
      ensures ok == CanSet(old(View()), id) && View() == Set(old(View()), id)
      ensures ok <==> id !in old(streams) && !ignoreNewStreams
      ensures streams == if ok then old(streams) + {id} else old(streams)
    {
      if id in streams {
        return false;
      }
      if ignoreNewStreams {
        return false;
      }
      streams := streams + {id};
      ok := true;
    }

    method DeleteStream(id: uint32)
      modifies this
      ensures View() == Delete(old(View()), id) && streams == old(streams) - {id}
      ensures emptyClosed <==> old(emptyClosed) || (ignoreNewStreams && streams == {})
    {
      streams := streams - {id};
      if ignoreNewStreams && |streams| == 0 {
        NotifyStreamsEmpty();
      }
    }

    method ShutdownStreams() returns (alreadyInProgress: bool)
      modifies this
      ensures alreadyInProgress == old(ignoreNewStreams) && View() == Shutdown(old(View()))
      ensures ignoreNewStreams && streams == old(streams)
      ensures emptyClosed <==> old(emptyClosed) || (!alreadyInProgress && streams == {})
    {
      if ignoreNewStreams {
        return true;
      }
      ignoreNewStreams := true;
      if |streams| == 0 {
        NotifyStreamsEmpty();
      }
      alreadyInProgress := false;
    }

    method AcquireLocal() returns (x: uint32)
      modifies this`nextStreamID
      ensures x == old(nextStreamID) && View() == AcquireLocalID(old(View()))
    {
      x := nextStreamID;
      nextStreamID := U32(nextStreamID + 2);
    }

    method AcquirePeer(id: uint32) returns (ok: bool)
      modifies this`maxPeerStreamID
      ensures ok == Accepts(old(View()), id) && View() == AcquirePeerID(old(View()), id)
      ensures ok <==> !ignoreNewStreams && id > old(maxPeerStreamID)
      ensures maxPeerStreamID == if ok then id else old(maxPeerStreamID)
    {
      if ignoreNewStreams {
        return false;
      }
      if id > maxPeerStreamID {
        maxPeerStreamID := id;
        return true;
      }
      ok := false;
    }

    method AbortStreams()
      modifies this
      ensures View() == Abort(old(View()))
      ensures ignoreNewStreams && emptyClosed && streams == old(streams) && streams <= closedStreams
    {
      var left := streams;
      while left != {}
        invariant left <= streams && closedStreams + left == old(closedStreams) + streams
        invariant View() == old(View()).(closedStreams := closedStreams)
      {
        var id :| id in left;
        closedStreams, left := closedStreams + {id}, left - {id};
      }
      ignoreNewStreams := true;
      aborted := true;
      NotifyStreamsEmpty();
    }
  }

  // ----- the map between the two threads that use it -----

  /**
    The writer opens a local stream in two steps and the reader admits a peer's stream in two steps; anything
    can happen between them. `issued` and `admitted` list the IDs handed out so far.
   */
  datatype Muxer = Muxer(m: State, opening: Option<uint32>, admitting: Option<uint32>,
                         issued: seq<uint32>, admitted: seq<uint32>)

  datatype Event =
    | AcquireLocal | SetLocal | PeerHeaders(id: uint32) | SetPeer | Remove(id: uint32) | BeginShutdown | AbortAll

  function Start(client: bool): Muxer {
    Muxer(New(client), None, None, [], [])
  }

  function Step(x: Muxer, ev: Event): Muxer {
    match ev
    case AcquireLocal =>
      if x.opening.Some? then x
      else x.(opening := Some(x.m.nextStreamID), issued := x.issued + [x.m.nextStreamID], m := AcquireLocalID(x.m))
    case SetLocal => if x.opening.None? then x else x.(opening := None, m := Set(x.m, x.opening.value))
    case PeerHeaders(id) =>
      if x.admitting.Some? || id == 0 || !IsPeerStreamID(x.m, id) || !Accepts(x.m, id) then x
      else x.(admitting := Some(id), admitted := x.admitted + [id], m := AcquirePeerID(x.m, id))
    case SetPeer => if x.admitting.None? then x else x.(admitting := None, m := Set(x.m, x.admitting.value))
    case Remove(id) => x.(m := Delete(x.m, id))
    case BeginShutdown => x.(m := Shutdown(x.m))
    case AbortAll => x.(m := Abort(x.m))
  }

  function Run(x: Muxer, evs: seq<Event>): Muxer {
    if evs == [] then x else Step(Run(x, evs[..|evs| - 1]), evs[|evs| - 1])
  }

  function First(client: bool): uint32 {
    if client then 1 else 2
  }

  predicate Increasing(s: seq<uint32>) {
    forall i, j :: 0 <= i < j < |s| ==> s[i] < s[j]
  }

  /** Local IDs so far, while there are fewer than 2^31 - 1 of them. */
  predicate LocalOK(x: Muxer, client: bool) {
    && |x.issued| < 0x7fff_ffff
    && x.m.nextStreamID == First(client) + 2 * |x.issued|
    && (forall i :: 0 <= i < |x.issued| ==> x.issued[i] == First(client) + 2 * i)
    && (x.opening.Some? ==>
          x.issued != [] && x.opening.value == x.issued[|x.issued| - 1] && x.opening.value !in x.m.streams)
  }

  predicate PeerOK(x: Muxer, client: bool) {
    && Increasing(x.admitted)
    && (forall i :: 0 <= i < |x.admitted| ==>
          x.admitted[i] % 2 != First(client) % 2 && x.admitted[i] <= x.m.maxPeerStreamID)
    && (x.admitting.Some? ==>
          x.admitted != [] && x.admitting.value == x.admitted[|x.admitted| - 1] == x.m.maxPeerStreamID
          && x.admitting.value !in x.m.streams)
    && (forall id :: id in x.m.streams ==> id in x.issued || id in x.admitted)
  }

  /**
    The done channel is closed once, as soon as the map is empty during shutdown, and otherwise only by Abort, after
    which every stream left in the map has been closed.
   */
  predicate DoneOK(m: State) {
    && (m.emptyClosed ==> m.ignoreNewStreams && (m.streams == {} || m.aborted))
    && (m.aborted ==> m.ignoreNewStreams && m.streams <= m.closedStreams)
    && (m.ignoreNewStreams && m.streams == {} ==> m.emptyClosed)
    && m.closes == (if m.emptyClosed then 1 else 0)
  }

  lemma DoneKept(x: Muxer, ev: Event)
    requires DoneOK(x.m)
    ensures DoneOK(Step(x, ev).m)
  {
  }

  /** The done channel, in every run and without any bound on its length. */
  lemma {:induction false} DoneClosedOnce(client: bool, evs: seq<Event>)
    ensures DoneOK(Run(Start(client), evs).m)
  {
    if evs != [] {
      DoneClosedOnce(client, evs[..|evs| - 1]);
      DoneKept(Run(Start(client), evs[..|evs| - 1]), evs[|evs| - 1]);
    }
  }

  /** Once shutting down, no stream is ever added. */
  lemma {:induction false} NeverGrowsAfterShutdown(x: Muxer, evs: seq<Event>)
    requires x.m.ignoreNewStreams
    ensures Run(x, evs).m.ignoreNewStreams && Run(x, evs).m.streams <= x.m.streams
  {
    if evs != [] {
      NeverGrowsAfterShutdown(x, evs[..|evs| - 1]);
    }
  }

  lemma StepIssued(x: Muxer, ev: Event, client: bool)
    requires LocalOK(x, client) && PeerOK(x, client) && |Step(x, ev).issued| < 0x7fff_ffff
    ensures LocalOK(Step(x, ev), client)
  {
    if ev.AcquireLocal? && x.opening.None? {
      var id := x.m.nextStreamID;
      assert id !in x.issued;
      assert id % 2 == First(client) % 2;
      assert id !in x.admitted;
    }
  }

  lemma StepAdmitted(x: Muxer, ev: Event, client: bool)
    requires LocalOK(x, client) && PeerOK(x, client)
    ensures PeerOK(Step(x, ev), client)
  {
    if ev.PeerHeaders? {
      assert x.m.nextStreamID % 2 == First(client) % 2;
      assert forall i :: 0 <= i < |x.issued| ==> x.issued[i] % 2 == First(client) % 2;
    }
  }

  lemma {:induction false} RunIds(client: bool, evs: seq<Event>)
    requires |Run(Start(client), evs).issued| < 0x7fff_ffff
    ensures LocalOK(Run(Start(client), evs), client) && PeerOK(Run(Start(client), evs), client)
  {
    if evs != [] {
      var before, ev := Run(Start(client), evs[..|evs| - 1]), evs[|evs| - 1];
      assert |before.issued| <= |Step(before, ev).issued|;
      RunIds(client, evs[..|evs| - 1]);
      StepIssued(before, ev, client);
      StepAdmitted(before, ev, client);
    }
  }

  /**
    Below wrap-around, in every run: local IDs are consecutive with a fixed parity, admitted peer IDs strictly
    increase with the other parity, and so Set refuses a stream only while shutting down.
   */
  lemma SetFailsOnlyInShutdown(client: bool, evs: seq<Event>)
    requires |Run(Start(client), evs).issued| < 0x7fff_ffff
    ensures var x := Run(Start(client), evs);
            && (forall i :: 0 <= i < |x.issued| ==> x.issued[i] == First(client) + 2 * i)
            && Increasing(x.admitted) && (forall i :: 0 <= i < |x.admitted| ==> x.admitted[i] % 2 != First(client) % 2)
            && (x.opening.Some? ==> (CanSet(x.m, x.opening.value) <==> !x.m.ignoreNewStreams))
            && (x.admitting.Some? ==> (CanSet(x.m, x.admitting.value) <==> !x.m.ignoreNewStreams))
  {
    RunIds(client, evs);
  }

  /**
    Below wrap-around, a frame finds its stream gone exactly if the stream is not in the map and its ID was handed out
    here or lies below the last ID admitted from the peer. The last peer stream itself, once gone, is taken for unknown.
   */
  lemma GoneExactly(client: bool, evs: seq<Event>, id: uint32)
    requires |Run(Start(client), evs).issued| < 0x7fff_ffff
    ensures var x := Run(Start(client), evs);
            && (IsLocalStreamID(x.m, id) && id != 0 <==> id in x.issued)
            && (Find(x.m, id) == Gone <==>
                  id != 0 && id !in x.m.streams && (id in x.issued || id < x.m.maxPeerStreamID))
            && (x.admitted != [] && x.m.maxPeerStreamID !in x.m.streams ==> Find(x.m, x.m.maxPeerStreamID) == Unknown)
  {
    hide Run;
    RunIds(client, evs);
    LastAdmitted(client, evs);
    var x := Run(Start(client), evs);
    LocalIsIssued(x, client, id);
    LastIsPeers(x, client);
  }

  lemma LocalIsIssued(x: Muxer, client: bool, id: uint32)
    requires LocalOK(x, client)
    ensures IsLocalStreamID(x.m, id) && id != 0 <==> id in x.issued
  {
    if IsLocalStreamID(x.m, id) && id != 0 {
      var i := (id - First(client)) / 2;
      assert x.issued[i] == id;
    }
    if id in x.issued {
      var i :| 0 <= i < |x.issued| && x.issued[i] == id;
      assert id == First(client) + 2 * i;
    }
  }

  lemma LastIsPeers(x: Muxer, client: bool)
    requires LocalOK(x, client) && PeerOK(x, client)
    ensures x.admitted != [] && x.m.maxPeerStreamID == x.admitted[|x.admitted| - 1] ==>
              !IsLocalStreamID(x.m, x.m.maxPeerStreamID)
  {
    assert x.m.nextStreamID % 2 == First(client) % 2;
  }

  lemma {:induction false} LastAdmitted(client: bool, evs: seq<Event>)
    ensures var x := Run(Start(client), evs);
            if x.admitted == [] then x.m.maxPeerStreamID == 0
            else x.m.maxPeerStreamID == x.admitted[|x.admitted| - 1] != 0
  {
    if evs != [] {
      LastAdmitted(client, evs[..|evs| - 1]);
    }
  }

  /** The n-th local ID, with wrap-around. */
  function LocalID(client: bool, n: nat): uint32 {
    if n == 0 then First(client) else U32(LocalID(client, n - 1) + 2)
  }

  lemma {:induction false} LocalIDValue(client: bool, n: nat)
    ensures LocalID(client, n) == (First(client) + 2 * n) % TWO_32
  {
    if n > 0 {
      LocalIDValue(client, n - 1);
      WrapStep(First(client) + 2 * (n - 1));
    }
  }

  lemma WrapStep(x: nat)
    ensures U32(x % TWO_32 + 2) == (x + 2) % TWO_32
  {
  }

  lemma SameResidue(a: nat, b: nat)
    requires a <= b
    ensures a % TWO_32 == b % TWO_32 <==> (b - a) % TWO_32 == 0
  {
  }

  lemma HalfModulus(d: nat)
    ensures (2 * d) % TWO_32 == 0 <==> d % 0x8000_0000 == 0
  {
  }

  /**
    Uniqueness of local IDs ends exactly with wrap-around: two coincide just when 2^31 or a multiple lies between
    them.
   */
  lemma LocalIDsCoincide(client: bool, i: nat, j: nat)
    requires i <= j
    ensures LocalID(client, i) == LocalID(client, j) <==> (j - i) % 0x8000_0000 == 0
  {
    LocalIDValue(client, i);
    LocalIDValue(client, j);
    SameResidue(First(client) + 2 * i, First(client) + 2 * j);
    HalfModulus(j - i);
  }
}
