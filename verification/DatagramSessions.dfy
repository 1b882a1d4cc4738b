/** Datagram sessions: the manager's event loop, each session's goroutines and its close channel. */
module DatagramSessions {
  import opened Bytes

  /** A session ID is a UUID, of which only equality matters. */
  type SessionID = nat

  datatype Reason = ClosedSession(byRemote: bool) | ReadError

  /** How Serve ended. */
  datatype Ended = ByReason(reason: Reason) | ByContext | ByIdle

  const CLOSE_CHAN_CAPACITY: nat := 2

  /** `byManager` and `byReader` count the sends each made on closeChan; `reading` says the reader goroutine runs. */
  datatype Sess = Sess(id: SessionID, closeChan: seq<Reason>, delivered: seq<Buffer>, served: bool, reading: bool,
                       ended: Option<Ended>, byManager: nat, byReader: nat)

  function NewSess(id: SessionID): Sess {
    Sess(id, [], [], false, false, None, 0, 0)
  }

  function Closed(x: Sess, reason: Reason): Sess {
    x.(closeChan := x.closeChan + [reason], byManager := x.byManager + 1)
  }

  function Delivered(x: Sess, payload: Buffer): Sess {
    x.(delivered := x.delivered + [payload])
  }

  /** One round of the reader goroutine: n bytes read, perhaps with an error; a failed send hides a read error. */
  predicate StopsReading(n: nat, readErr: bool, sendFails: bool) {
    readErr && !(n > 0 && sendFails)
  }

  function ReaderStopped(x: Sess): Sess {
    x.(closeChan := x.closeChan + [ReadError], byReader := x.byReader + 1, reading := false)
  }

  /** The manager's table holds numbers into `all`, the sessions in the order they were registered. */
  datatype State = State(sessions: map<SessionID, nat>, all: seq<Sess>, down: bool)

  predicate InRange(s: State) {
    forall id :: id in s.sessions ==> s.sessions[id] < |s.all|
  }

  function Register(s: State, id: SessionID): State {
    s.(sessions := s.sessions[id := |s.all|], all := s.all + [NewSess(id)])
  }

  function Unregister(s: State, id: SessionID, byRemote: bool): State
    requires InRange(s)
  {
    if id !in s.sessions then s
    else
      var k := s.sessions[id];
      s.(sessions := s.sessions - {id}, all := s.all[k := Closed(s.all[k], ClosedSession(byRemote))])
  }

  function Send(s: State, id: SessionID, payload: Buffer): State
    requires InRange(s)
  {
    if id !in s.sessions then s
    else var k := s.sessions[id]; s.(all := s.all[k := Delivered(s.all[k], payload)])
  }

  /** Every tracked session is closed, as if from the far end; the table is left as it is. */
  function ShutDown(s: State): State {
    s.(all := seq(|s.all|, k requires 0 <= k < |s.all| =>
                    if k in s.sessions.Values then Closed(s.all[k], ClosedSession(true)) else s.all[k]), down := true)
  }

  // ----- what always holds -----

  predicate SessOK(x: Sess) {
    && x.byManager <= 1 && x.byReader <= 1
    && (x.reading ==> x.served && x.byReader == 0)
    && (!x.served ==> x.byReader == 0)
    && |x.closeChan| + (if x.ended.Some? && x.ended.value.ByReason? then 1 else 0) == x.byManager + x.byReader
  }

  /** A session in the table is there under its own ID, and until shutdown the manager has not closed it. */
  predicate TableOK(s: State) {
    forall id :: id in s.sessions ==>
      s.sessions[id] < |s.all| && s.all[s.sessions[id]].id == id && (!s.down ==> s.all[s.sessions[id]].byManager == 0)
  }

  predicate AllOK(s: State) {
    forall k :: 0 <= k < |s.all| ==> SessOK(s.all[k])
  }

  predicate Inv(s: State) {
    TableOK(s) && AllOK(s)
  }

  datatype Event =
    | Registration(id: SessionID)
    | Unregistration(id: SessionID, byRemote: bool)
    | Datagram(id: SessionID, payload: Buffer)
    | ContextDone
    | Serve(k: nat)
    | ReaderRound(k: nat, n: nat, readErr: bool, sendFails: bool)
    | WaiterTakes(k: nat)
    | WaiterEnds(k: nat, how: Ended)

  function SessStep(x: Sess, ev: Event): Sess {
    match ev
    case Serve(_) => if x.served then x else x.(served := true, reading := true)
    case ReaderRound(_, n, readErr, sendFails) =>
      if x.reading && StopsReading(n, readErr, sendFails) then ReaderStopped(x) else x
    case WaiterTakes(_) =>
      if x.served && x.ended.None? && x.closeChan != [] then
        x.(ended := Some(ByReason(x.closeChan[0])), closeChan := x.closeChan[1..])
      else x
    case WaiterEnds(_, how) => if x.served && x.ended.None? && !how.ByReason? then x.(ended := Some(how)) else x
    case _ => x
  }

  predicate OfSession(ev: Event) {
    ev.Serve? || ev.ReaderRound? || ev.WaiterTakes? || ev.WaiterEnds?
  }

  function Step(s: State, ev: Event): (t: State)
    requires InRange(s)
    ensures InRange(t)
  {
    if OfSession(ev) then if ev.k < |s.all| then s.(all := s.all[ev.k := SessStep(s.all[ev.k], ev)]) else s
    else if s.down then s
    else match ev
      case Registration(id) => Register(s, id)
      case Unregistration(id, byRemote) => Unregister(s, id, byRemote)
      case Datagram(id, payload) => Send(s, id, payload)
      case _ => ShutDown(s)
  }

  const Empty := State(map[], [], false)

  function Run(evs: seq<Event>): (t: State)
    ensures InRange(t)
  {
    if evs == [] then Empty else Step(Run(evs[..|evs| - 1]), evs[|evs| - 1])
  }

  lemma StepKeepsSess(x: Sess, ev: Event)
    requires SessOK(x) && OfSession(ev)
    ensures SessOK(SessStep(x, ev)) && SessStep(x, ev).id == x.id && SessStep(x, ev).byManager == x.byManager
  {
  }

  lemma UnregisterKeeps(s: State, id: SessionID, byRemote: bool)
    requires Inv(s) && !s.down
    ensures Inv(Unregister(s, id, byRemote))
  {
    hide SessOK;
    if id in s.sessions {
      ClosedOK(s.all[s.sessions[id]], ClosedSession(byRemote));
    }
  }

  lemma ClosedOK(x: Sess, reason: Reason)
    requires SessOK(x) && x.byManager == 0
    ensures SessOK(Closed(x, reason))
  {
  }

  lemma DeliveredOK(x: Sess, payload: Buffer)
    requires SessOK(x)
    ensures SessOK(Delivered(x, payload))
  {
  }

  lemma ShutDownKeeps(s: State)
    requires Inv(s) && !s.down
    ensures Inv(ShutDown(s))
  {
    hide SessOK;
    forall k | 0 <= k < |s.all| ensures SessOK(ShutDown(s).all[k]) {
      if k in s.sessions.Values {
        var id :| id in s.sessions && s.sessions[id] == k;
        ClosedOK(s.all[k], ClosedSession(true));
      }
    }
  }

  lemma StepKeeps(s: State, ev: Event)
    requires Inv(s)
    ensures InRange(s) && Inv(Step(s, ev))
  {
    hide SessOK, SessStep, Unregister, ShutDown;
    if OfSession(ev) {
      if ev.k < |s.all| {
        StepKeepsSess(s.all[ev.k], ev);
      }
    } else if !s.down {
      match ev
      case Registration(id) => NewOK(id);
      case Unregistration(id, byRemote) => UnregisterKeeps(s, id, byRemote);
      case Datagram(id, payload) =>
        if id in s.sessions {
          DeliveredOK(s.all[s.sessions[id]], payload);
        }
      case _ => ShutDownKeeps(s);
    }
  }

  lemma NewOK(id: SessionID)
    ensures SessOK(NewSess(id))
  {
  }

  lemma {:induction false} RunInv(evs: seq<Event>)
    ensures Inv(Run(evs))
  {
    if evs != [] {
      RunInv(evs[..|evs| - 1]);
      StepKeeps(Run(evs[..|evs| - 1]), evs[|evs| - 1]);
    }
  }

  /**
    In every run, with IDs registered again and shutdown at any point: a session gets at most one close from the
    manager and one send from its reader, so there is room whenever either is about to send.
   */
  lemma CloseNeverBlocks(evs: seq<Event>, k: nat)
    requires k < |Run(evs).all|
    ensures var s := Run(evs); var x := s.all[k];
            && x.byManager <= 1 && x.byReader <= 1 && |x.closeChan| <= CLOSE_CHAN_CAPACITY
            && (x.reading ==> |x.closeChan| < CLOSE_CHAN_CAPACITY)
            && (!s.down && k in s.sessions.Values ==> |x.closeChan| < CLOSE_CHAN_CAPACITY)
  {
    RunInv(evs);
  }

  // ----- who gets a datagram -----

  function Registrations(evs: seq<Event>): nat {
    if evs == [] then 0
    else
      var before, ev := evs[..|evs| - 1], evs[|evs| - 1];
      Registrations(before) + (if ev.Registration? && !Stopped(before) then 1 else 0)
  }

  /** The manager's loop has returned. */
  predicate Stopped(evs: seq<Event>) {
    evs != [] && (Stopped(evs[..|evs| - 1]) || evs[|evs| - 1].ContextDone?)
  }

  /** The session most recently registered for the ID, counted from zero, unless the ID was unregistered since. */
  function Owner(evs: seq<Event>, id: SessionID): Option<nat> {
    if evs == [] then None
    else
      var before, ev := evs[..|evs| - 1], evs[|evs| - 1];
      if Stopped(before) then Owner(before, id)
      else if ev == Registration(id) then Some(Registrations(before))
      else if ev.Unregistration? && ev.id == id then None
      else Owner(before, id)
  }

  /** The payloads of the datagrams that came while session `k` owned their ID. */
  function Due(evs: seq<Event>, k: nat): seq<Buffer> {
    if evs == [] then []
    else
      var before, ev := evs[..|evs| - 1], evs[|evs| - 1];
      var due := ev.Datagram? && !Stopped(before) && Owner(before, ev.id) == Some(k);
      Due(before, k) + (if due then [ev.payload] else [])
  }

  /** The table is the record of who owns which ID. */
  lemma {:induction false} TableIsOwner(evs: seq<Event>)
    ensures Run(evs).down == Stopped(evs) && |Run(evs).all| == Registrations(evs)
    ensures forall id :: (id in Run(evs).sessions <==> Owner(evs, id).Some?)
                         && (id in Run(evs).sessions ==> Owner(evs, id) == Some(Run(evs).sessions[id]))
  {
    if evs != [] {
      hide Closed, Delivered, SessStep;
      TableIsOwner(evs[..|evs| - 1]);
    }
  }

  lemma DeliveredStep(s: State, ev: Event, k: nat)
    requires InRange(s)
    ensures k < |s.all| ==>
              k < |Step(s, ev).all| && Step(s, ev).all[k].delivered == s.all[k].delivered +
              (if ev.Datagram? && !s.down && ev.id in s.sessions && s.sessions[ev.id] == k then [ev.payload] else [])
    ensures |s.all| <= k < |Step(s, ev).all| ==> Step(s, ev).all[k].delivered == []
  {
  }

  /**
    A session is given exactly the datagrams of its ID that came while it was the last registered and still tracked.
   */
  lemma {:induction false} DatagramsReachTheOwner(evs: seq<Event>, k: nat)
    ensures k < |Run(evs).all| ==> Run(evs).all[k].delivered == Due(evs, k)
    ensures k >= |Run(evs).all| ==> Due(evs, k) == []
  {
    if evs != [] {
      hide Step, Stopped, Owner, Registrations;
      var before, ev := evs[..|evs| - 1], evs[|evs| - 1];
      DatagramsReachTheOwner(before, k);
      TableIsOwner(before);
      DeliveredStep(Run(before), ev, k);
      MoreSessions(Run(before), ev);
    }
  }

  lemma MoreSessions(s: State, ev: Event)
    requires InRange(s)
    ensures |s.all| <= |Step(s, ev).all|
  {
  }

  /** Another session was registered under its ID while session `k` was tracked. */
  predicate Displaced(evs: seq<Event>, k: nat) {
    evs != [] &&
    var before, ev := evs[..|evs| - 1], evs[|evs| - 1];
    Displaced(before, k) || (ev.Registration? && !Stopped(before) && Owner(before, ev.id) == Some(k))
  }

  predicate IsTracked(s: State, k: nat) {
    k in s.sessions.Values
  }

  /** What one step does to a session's place in the table and to the manager's closes of it. */
  lemma CloseStep(s: State, ev: Event, k: nat)
    requires Inv(s) && InRange(s) && k < |s.all|
    ensures var t := Step(s, ev);
            var displaced := ev.Registration? && !s.down && ev.id in s.sessions && s.sessions[ev.id] == k;
            var unregistered := ev.Unregistration? && ev.id == s.all[k].id;
            var closed := !s.down && IsTracked(s, k) && (ev.ContextDone? || unregistered);
            && k < |t.all| && t.all[k].byManager == s.all[k].byManager + (if closed then 1 else 0)
            && (!s.down ==> (IsTracked(t, k) <==> IsTracked(s, k) && !displaced && !(closed && ev.Unregistration?)))
            && (s.down ==> t.sessions == s.sessions)
            && t.down == (s.down || ev.ContextDone?)
  {
    hide SessOK;
    if IsTracked(s, k) {
      var id :| id in s.sessions && s.sessions[id] == k;
      assert id == s.all[k].id;
      assert id in Step(s, ev).sessions && Step(s, ev).sessions[id] == k ==> IsTracked(Step(s, ev), k);
    }
    if OfSession(ev) && ev.k == k {
      StepKeepsSess(s.all[k], ev);
    }
  }

  lemma NewSession(s: State, ev: Event)
    requires Inv(s) && InRange(s) && |Step(s, ev).all| > |s.all|
    ensures ev.Registration? && !s.down && |Step(s, ev).all| == |s.all| + 1
    ensures var t, k := Step(s, ev), |s.all|; IsTracked(t, k) && t.all[k].byManager == 0 && !t.down
  {
    assert Step(s, ev).sessions[ev.id] == |s.all|;
  }

  /**
    In every run the manager has not closed a session exactly if the session was displaced, or is still tracked and
    the manager still runs; so after shutdown exactly the displaced ones were never closed, and all others once.
   */
  lemma {:induction false} ClosedExactly(evs: seq<Event>, k: nat)
    ensures var s := Run(evs);
            if k < |s.all| then
              && s.all[k].byManager <= 1 && (Displaced(evs, k) ==> !IsTracked(s, k))
              && (s.all[k].byManager == 0 <==> Displaced(evs, k) || (!s.down && IsTracked(s, k)))
            else !Displaced(evs, k)
  {
    if evs != [] {
      hide Step, Owner, Inv, IsTracked, Stopped;
      var before, ev := evs[..|evs| - 1], evs[|evs| - 1];
      var s := Run(before);
      ClosedExactly(before, k);
      RunInv(before);
      TableIsOwner(before);
      AtMostOnce(evs, k);
      if k < |s.all| {
        CloseStep(s, ev, k);
      } else if k < |Run(evs).all| {
        NewSession(s, ev);
      }
    }
  }

  lemma AtMostOnce(evs: seq<Event>, k: nat)
    ensures k < |Run(evs).all| ==> Run(evs).all[k].byManager <= 1
  {
    RunInv(evs);
  }

  /** Registering an ID twice and shutting down leaves the first session open for good and closes the second. */
  lemma RegisteredTwice(id: SessionID)
    ensures var s := Run([Registration(id), Registration(id), ContextDone]);
            |s.all| == 2 && s.down && s.all[0].byManager == 0 && s.all[1].byManager == 1
  {
    var evs := [Registration(id), Registration(id), ContextDone];
    assert evs[..2] == [Registration(id), Registration(id)] && evs[..2][..1] == [Registration(id)];
    assert Run([Registration(id)]) == Register(Empty, id);
    var s := Run(evs[..2]);
    assert s == Register(Register(Empty, id), id);
    assert s.sessions == map[id := 1] && s.sessions[id] == 1;
    assert 1 in s.sessions.Values && 0 !in s.sessions.Values;
    assert Run(evs) == ShutDown(s);
  }

  // ----- what ends a session -----

  /** The reason an event sends to session `k`, if any. */
  ghost function SentTo(s: State, ev: Event, k: nat): seq<Reason>
    requires k < |s.all|
  {
    if ev.Unregistration? && !s.down && ev.id in s.sessions && s.sessions[ev.id] == k then [ClosedSession(ev.byRemote)]
    else if ev.ContextDone? && !s.down && IsTracked(s, k) then [ClosedSession(true)]
    else if ev.ReaderRound? && ev.k == k && s.all[k].reading && ev.readErr && !(ev.n > 0 && ev.sendFails) then
      [ReadError]
    else []
  }

  /** The reasons sent to session `k`, in order. */
  ghost function Reasons(evs: seq<Event>, k: nat): seq<Reason> {
    if evs == [] then []
    else
      var before, ev := evs[..|evs| - 1], evs[|evs| - 1];
      Reasons(before, k) + (if k < |Run(before).all| then SentTo(Run(before), ev, k) else [])
  }

  function Taken(x: Sess): seq<Reason> {
    if x.ended.Some? && x.ended.value.ByReason? then [x.ended.value.reason] else []
  }

  lemma ReasonStep(s: State, ev: Event, k: nat)
    requires InRange(s) && k < |s.all|
    ensures var t := Step(s, ev);
            && k < |t.all|
            && Taken(t.all[k]) + t.all[k].closeChan == Taken(s.all[k]) + s.all[k].closeChan + SentTo(s, ev, k)
  {
  }

  lemma NewSessionIsQuiet(s: State, ev: Event, k: nat)
    requires InRange(s) && |s.all| <= k < |Step(s, ev).all|
    ensures Taken(Step(s, ev).all[k]) == [] && Step(s, ev).all[k].closeChan == []
  {
  }

  /**
    In every run, the reason a session ends with is the first one sent to it, by the manager or by its own reader, and
    the others are still in its channel in order.
   */
  lemma {:induction false} FirstReasonWins(evs: seq<Event>, k: nat)
    ensures var s := Run(evs);
            if k < |s.all| then Taken(s.all[k]) + s.all[k].closeChan == Reasons(evs, k) else Reasons(evs, k) == []
  {
    if evs != [] {
      hide Step, SentTo;
      var before, ev := evs[..|evs| - 1], evs[|evs| - 1];
      FirstReasonWins(before, k);
      MoreSessions(Run(before), ev);
      if k < |Run(before).all| {
        ReasonStep(Run(before), ev, k);
      } else if k < |Run(evs).all| {
        NewSessionIsQuiet(Run(before), ev, k);
      }
    }
  }

  function RunFrom(s: State, evs: seq<Event>): (t: State)
    requires InRange(s)
    ensures InRange(t)
  {
    if evs == [] then s else Step(RunFrom(s, evs[..|evs| - 1]), evs[|evs| - 1])
  }

  /** A session displaced by another registration of its ID is never closed by the manager, whatever follows. */
  lemma {:induction false} DisplacedIsNeverClosed(s: State, id: SessionID, evs: seq<Event>)
    requires Inv(s) && InRange(s) && InRange(Register(s, id)) && !s.down && id in s.sessions
    ensures var k := s.sessions[id]; var t := RunFrom(Register(s, id), evs);
            && Inv(t) && k < |t.all| && t.all[k].id == id && k !in t.sessions.Values && t.all[k].byManager == 0
  {
    var k := s.sessions[id];
    if evs == [] {
      NewOK(id);
    } else {
      hide Inv, Step;
      var before, ev := RunFrom(Register(s, id), evs[..|evs| - 1]), evs[|evs| - 1];
      DisplacedIsNeverClosed(s, id, evs[..|evs| - 1]);
      StepKeeps(before, ev);
      UntrackedStep(before, ev, k);
    }
  }

  lemma UntrackedStep(s: State, ev: Event, k: nat)
    requires Inv(s) && InRange(s) && k < |s.all| && k !in s.sessions.Values
    ensures var t := Step(s, ev); k < |t.all| && k !in t.sessions.Values && t.all[k].id == s.all[k].id
    ensures Step(s, ev).all[k].byManager == s.all[k].byManager
  {
    hide SessOK, SessStep;
    if OfSession(ev) && ev.k == k {
      StepKeepsSess(s.all[k], ev);
    }
  }

  // ----- the objects -----

  class Session {
    const id: SessionID
    var closeChan: seq<Reason>
    var delivered: seq<Buffer>
    var served: bool
    var reading: bool
    var ended: Option<Ended>
    ghost var byManager: nat
    ghost var byReader: nat

    ghost function View(): Sess
      reads this
    {
      Sess(id, closeChan, delivered, served, reading, ended, byManager, byReader)
    }

    constructor (id: SessionID)
      ensures View() == NewSess(id)
    {
      this.id := id;
      closeChan, delivered, served, reading, ended, byManager, byReader := [], [], false, false, None, 0, 0;
    }

    /** A send on a channel with room for it, which is what keeps the manager's loop from blocking. */
    method Close(reason: Reason)
      requires |closeChan| < CLOSE_CHAN_CAPACITY
      modifies this
      ensures View() == Closed(old(View()), reason) && closeChan == old(closeChan) + [reason]
    {
      closeChan, byManager := closeChan + [reason], byManager + 1;
    }

    method TransportToDst(payload: Buffer)
      modifies this
      ensures View() == Delivered(old(View()), payload)
    {
      delivered := delivered + [payload];
    }

    /** dstToTransport and the loop around it. */
    method ReadOnce(n: nat, readErr: bool, sendFails: bool)
      requires SessOK(View()) && reading
      modifies this
      ensures forall k :: View() == SessStep(old(View()), ReaderRound(k, n, readErr, sendFails))
      ensures SessOK(View())
      ensures reading <==> !readErr || (n > 0 && sendFails)
      ensures closeChan == if reading then old(closeChan) else old(closeChan) + [ReadError]
    {
      var closeSession, failed := readErr, readErr;
      if (n > 0 || !readErr) && sendFails {
        closeSession, failed := false, true;
      }
      if failed && closeSession {
        assert |closeChan| < CLOSE_CHAN_CAPACITY;
        closeChan, byReader, reading := closeChan + [ReadError], byReader + 1, false;
      }
    }
  }

  ghost function Views(xs: seq<Session>): (r: seq<Sess>)
    reads xs
    ensures |r| == |xs| && forall i :: 0 <= i < |xs| ==> r[i] == xs[i].View()
  {
    if xs == [] then [] else Views(xs[..|xs| - 1]) + [xs[|xs| - 1].View()]
  }

  predicate Distinct(xs: seq<Session>) {
    forall i, j :: 0 <= i < j < |xs| ==> xs[i] != xs[j]
  }

  class Manager {
    var sessions: map<SessionID, Session>
    var down: bool
    ghost var all: seq<Session>
    ghost var index: map<SessionID, nat>

    ghost function View(): State
      reads this, all
    {
      State(index, Views(all), down)
    }

    ghost predicate Linked()
      reads this
    {
      && Distinct(all) && index.Keys == sessions.Keys
      && forall id :: id in index ==> index[id] < |all| && sessions[id] == all[index[id]]
    }

    ghost predicate Valid()
      reads this, all
    {
      Linked() && Inv(View())
    }

    constructor ()
      ensures Valid() && View() == Empty
    {
      sessions, down, all, index := map[], false, [], map[];
    }

    method RegisterSession(id: SessionID) returns (session: Session)
      requires Valid() && !down
      modifies this
      ensures Valid() && fresh(session) && View() == Register(old(View()), id)
      ensures id in sessions && sessions[id] == session
    {
      hide Inv, Views, Closed, Delivered;
      ghost var s := View();
      session := new Session(id);
      sessions := sessions[id := session];
      index, all := index[id := |all|], all + [session];
      StepKeeps(s, Registration(id));
      assert View().all == Register(s, id).all;
    }

    method UnregisterSession(id: SessionID, byRemote: bool)
      requires Valid() && !down
      modifies this, all
      ensures Valid() && View() == Unregister(old(View()), id, byRemote)
    {
      hide Inv, Views, Closed, Delivered;
      ghost var s := View();
      if id in sessions {
        var session := sessions[id];
        ghost var k := index[id];
        RoomFor(s, id);
        sessions, index := sessions - {id}, index - {id};
        assert Linked();
        session.Close(ClosedSession(byRemote));
        assert View().all == s.all[k := Closed(s.all[k], ClosedSession(byRemote))];
      }
      UnregisterKeeps(s, id, byRemote);
    }

    method SendToSession(id: SessionID, payload: Buffer)
      requires Valid() && !down
      modifies all
      ensures Valid() && View() == Send(old(View()), id, payload)
    {
      hide Inv, Views, Closed, Delivered;
      ghost var s := View();
      if id in sessions {
        sessions[id].TransportToDst(payload);
        ghost var k := index[id];
        assert View().all == s.all[k := Delivered(s.all[k], payload)];
      }
      StepKeeps(s, Datagram(id, payload));
    }

    /** Ranging over the map visits its keys in some order; Serve returns afterwards. */
    method ShutdownSessions()
      requires Valid() && !down
      modifies this`down, all
      ensures Valid() && View() == ShutDown(old(View()))
    {
      hide Inv, Partly, ShutDown, Views;
      ghost var s := View();
      CloseTracked();
      down := true;
      PartlyAll(s, s.sessions.Keys);
      assert Views(all) == ShutDown(s).all;
      ShutDownKeeps(s);
    }

    method CloseTracked()
      requires Valid() && !down
      modifies all
      ensures forall k :: 0 <= k < |all| ==> all[k].View() == Partly(old(View()), old(View()).sessions.Keys, k)
    {
      hide Inv, Partly, Closed, Views;
      ghost var s := View();
      ghost var done: set<SessionID> := {};
      var left := sessions.Keys;
      PartlyNone(s);
      while left != {}
        invariant left !! done && left + done == s.sessions.Keys
        invariant forall k :: 0 <= k < |all| ==> all[k].View() == Partly(s, done, k)
      {
        var id :| id in left;
        RoomFor(s, id);
        PartlyNext(s, done, id);
        sessions[id].Close(ClosedSession(true));
        left, done := left - {id}, done + {id};
      }
    }
  }

  /** What session `k` looks like once the IDs in `done` have been visited. */
  ghost function Partly(s: State, done: set<SessionID>, k: nat): Sess
    requires k < |s.all|
  {
    if exists id :: id in done && id in s.sessions && s.sessions[id] == k then Closed(s.all[k], ClosedSession(true))
    else s.all[k]
  }

  lemma PartlyNone(s: State)
    ensures forall k :: 0 <= k < |s.all| ==> Partly(s, {}, k) == s.all[k]
  {
  }

  lemma PartlyNext(s: State, done: set<SessionID>, id: SessionID)
    requires Inv(s) && id in s.sessions && id !in done
    ensures Partly(s, done, s.sessions[id]) == s.all[s.sessions[id]]
    ensures forall k :: 0 <= k < |s.all| ==>
              Partly(s, done + {id}, k) ==
              if k == s.sessions[id] then Closed(s.all[k], ClosedSession(true)) else Partly(s, done, k)
  {
    hide AllOK;
  }

  lemma PartlyAll(s: State, done: set<SessionID>)
    requires done == s.sessions.Keys
    ensures |ShutDown(s).all| == |s.all| && (forall k :: 0 <= k < |s.all| ==> Partly(s, done, k) == ShutDown(s).all[k])
    ensures ShutDown(s) == State(s.sessions, ShutDown(s).all, true)
  {
  }

  /** A tracked session has room on its close channel. */
  lemma RoomFor(s: State, id: SessionID)
    requires Inv(s) && !s.down && id in s.sessions
    ensures |s.all[s.sessions[id]].closeChan| < CLOSE_CHAN_CAPACITY
  {
  }

  // ----- waiting for a session to end -----

  datatype Wake = Done | Closing(reason: Reason) | Tick(now: int) | Active(at: int)

  const DEFAULT_CLOSE_IDLE_AFTER := 210_000_000_000

  /** The last activity heard of. */
  function ActiveAt(start: int, wakes: seq<Wake>): int {
    if wakes == [] then start
    else if wakes[|wakes| - 1].Active? then wakes[|wakes| - 1].at
    else ActiveAt(start, wakes[..|wakes| - 1])
  }

  /** The wake-up ends the wait: a cancelled context, a close reason, or a tick after too long without activity. */
  function Ends(start: int, idle: int, before: seq<Wake>, wake: Wake): Option<Ended> {
    match wake
    case Done => Some(ByContext)
    case Closing(reason) => Some(ByReason(reason))
    case Tick(now) => if now > ActiveAt(start, before) + idle then Some(ByIdle) else None
    case Active(_) => None
  }

  method WaitForCloseCondition(start: int, closeAfterIdle: nat, wakes: seq<Wake>) returns (n: nat, r: Option<Ended>)
    ensures n <= |wakes|
    ensures var idle := if closeAfterIdle == 0 then DEFAULT_CLOSE_IDLE_AFTER else closeAfterIdle;
            && (forall i :: 0 <= i < n ==> Ends(start, idle, wakes[..i], wakes[i]).None?)
            && (n < |wakes| ==> r.Some? && r == Ends(start, idle, wakes[..n], wakes[n])) && (n == |wakes| ==> r.None?)
            && (r == Some(ByContext) <==> n < |wakes| && wakes[n].Done?)
            && (forall reason :: r == Some(ByReason(reason)) <==> n < |wakes| && wakes[n] == Closing(reason))
            && (r == Some(ByIdle) ==> wakes[n].Tick? && wakes[n].now - ActiveAt(start, wakes[..n]) > idle)
            && (forall i :: 0 <= i < n && wakes[i].Tick? ==> wakes[i].now - ActiveAt(start, wakes[..i]) <= idle)
            && (forall i :: 0 <= i < n ==> wakes[i].Tick? || wakes[i].Active?)
  {
    var idle := closeAfterIdle;
    if idle == 0 {
      idle := DEFAULT_CLOSE_IDLE_AFTER;
    }
    var activeAt := start;
    n := 0;
    assert wakes[..0] == [];
    while n < |wakes|
      invariant 0 <= n <= |wakes| && activeAt == ActiveAt(start, wakes[..n])
      invariant forall i :: 0 <= i < n ==> Ends(start, idle, wakes[..i], wakes[i]).None?
    {
      match wakes[n] {
        case Done => return n, Some(ByContext);
        case Closing(reason) => return n, Some(ByReason(reason));
        case Tick(now) =>
          if now > activeAt + idle {
            return n, Some(ByIdle);
          }
        case Active(at) => activeAt := at;
      }
      assert wakes[..n + 1][..n] == wakes[..n];
      n := n + 1;
    }
    r := None;
  }
}
