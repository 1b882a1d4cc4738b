/** The supervisor's main loop: its counters against the goroutines they stand for. */
module Supervisors {
  import opened Bytes

  datatype TunnelErr = Nil | Reconnect | Other

  /**
    `outstanding` are the tunnels whose startTunnel goroutine has not been heard from, `finished` those that will
    not be started again. A connecting signal is a channel, told apart by its number.
   */
  datatype State = State(haConnections: nat, tunnelsActive: int, tunnelsWaiting: seq<nat>, backoffTimer: bool,
                         tunnelsConnecting: map<nat, nat>, nextConnectedIndex: nat, nextConnectedSignal: Option<nat>,
                         signals: nat, shuttingDown: bool, cancelled: bool, returned: bool,
                         outstanding: set<nat>, finished: set<nat>, graces: nat)

  /** newConnectedTunnelSignal, with the goroutine it is made for. */
  function StartTunnel(s: State, index: nat): State {
    s.(tunnelsConnecting := s.tunnelsConnecting[index := s.signals], nextConnectedSignal := Some(s.signals),
       nextConnectedIndex := index, signals := s.signals + 1, outstanding := s.outstanding + {index})
  }

  /** waitForNextTunnel; the map iteration may come up with any entry. */
  function WaitForNext(s: State, index: nat, pick: nat): State
    requires var left := s.tunnelsConnecting - {index}; left != map[] ==> pick in left
  {
    var left := s.tunnelsConnecting - {index};
    if left == map[] then s.(tunnelsConnecting := left, nextConnectedSignal := None)
    else s.(tunnelsConnecting := left, nextConnectedIndex := pick, nextConnectedSignal := Some(left[pick]))
  }

  predicate PickOK(s: State, index: nat, pick: nat) {
    var left := s.tunnelsConnecting - {index};
    left != map[] ==> pick in left
  }

  ghost function AnyPick(s: State, index: nat): (pick: nat)
    ensures PickOK(s, index, pick)
  {
    if s.tunnelsConnecting - {index} == map[] then 0 else var k :| k in s.tunnelsConnecting - {index}; k
  }

  function Postponed(s: State, index: nat, pick: nat): State
    requires PickOK(s, index, pick)
  {
    WaitForNext(s.(tunnelsWaiting := s.tunnelsWaiting + [index]), index, pick).(backoffTimer := true)
  }

  lemma SamePick(s: State, t: State, index: nat, pick: nat)
    requires PickOK(s, index, pick) && t.tunnelsConnecting == s.tunnelsConnecting
    ensures PickOK(t, index, pick)
  {
  }

  /** A report is taken off the channel. */
  function Heard(s: State, index: nat): State {
    s.(tunnelsActive := s.tunnelsActive - 1, outstanding := s.outstanding - {index})
  }

  function Restarted(s: State, index: nat): State {
    StartTunnel(s, index).(tunnelsActive := s.tunnelsActive + 1)
  }

  function GivenUp(s: State, index: nat): State {
    s.(finished := s.finished + {index})
  }

  /** The loop returns when no connection is left. */
  function Retired(s: State, index: nat): State {
    s.(finished := s.finished + {index}, returned := s.tunnelsActive == 0)
  }

  /** A startTunnel goroutine reports; with RetryForever only cancellation stops the retries. */
  function OnTunnelError(s: State, index: nat, err: TunnelErr, pick: nat): State
    requires PickOK(s, index, pick)
  {
    if err == Nil || s.shuttingDown then Retired(Heard(s, index), index)
    else if err == Reconnect then Restarted(Heard(s, index), index)
    else if s.cancelled then GivenUp(Heard(s, index), index)
    else Postponed(Heard(s, index), index, pick)
  }

  function StartAll(s: State, indices: seq<nat>): State {
    if indices == [] then s else StartTunnel(StartAll(s, indices[..|indices| - 1]), indices[|indices| - 1])
  }

  function OnTimer(s: State): State {
    StartAll(s, s.tunnelsWaiting).(backoffTimer := false, tunnelsActive := s.tunnelsActive + |s.tunnelsWaiting|,
                                   tunnelsWaiting := [])
  }

  /** The signal waited for has fired; the grace period is restarted only when nothing is connecting or waiting. */
  function OnConnected(s: State, pick: nat): State
    requires PickOK(s, s.nextConnectedIndex, pick)
  {
    var s1 := WaitForNext(s, s.nextConnectedIndex, pick);
    s1.(graces := s1.graces + (if s1.nextConnectedSignal.None? && s1.tunnelsWaiting == [] then 1 else 0))
  }

  /** Context cancelled: every outstanding goroutine is received. */
  function OnCancelled(s: State): State {
    s.(tunnelsActive := 0, outstanding := {}, finished := s.finished + s.outstanding, returned := true)
  }

  // ----- the invariant -----

  predicate NoRepeats(q: seq<nat>) {
    forall i, j :: 0 <= i < j < |q| ==> q[i] != q[j]
  }

  /** Every tunnel index is in exactly one of outstanding, waiting and finished, and the counter is right. */
  predicate TunnelsOK(s: State) {
    && s.tunnelsActive == |s.outstanding| && NoRepeats(s.tunnelsWaiting)
    && (forall i :: i in s.outstanding ==> i < s.haConnections && i !in s.tunnelsWaiting && i !in s.finished)
    && (forall i :: i in s.tunnelsWaiting ==> i < s.haConnections && i !in s.finished)
    && (forall i :: i in s.finished ==> i < s.haConnections)
    && (forall i :: 0 <= i < s.haConnections ==> i in s.outstanding || i in s.tunnelsWaiting || i in s.finished)
  }

  /** The timer is armed exactly while tunnels wait for it. */
  predicate TimerOK(s: State) {
    s.backoffTimer <==> s.tunnelsWaiting != []
  }

  predicate SignalsOK(s: State) {
    && (s.nextConnectedSignal.None? <==> s.tunnelsConnecting == map[])
    && (s.nextConnectedSignal.Some? ==>
          s.nextConnectedIndex in s.tunnelsConnecting
          && s.tunnelsConnecting[s.nextConnectedIndex] == s.nextConnectedSignal.value)
  }

  /** While the loop runs, something will wake it; when it has returned, no goroutine is left unreceived. */
  predicate ProgressOK(s: State) {
    && (s.returned ==> s.outstanding == {})
    && (!s.returned && !s.cancelled ==> s.outstanding != {} || s.backoffTimer)
  }

  predicate Inv(s: State) {
    TunnelsOK(s) && TimerOK(s) && SignalsOK(s) && ProgressOK(s)
  }

  lemma StartKeepsSignals(s: State, index: nat)
    ensures SignalsOK(StartTunnel(s, index))
  {
  }

  lemma ErrorKeepsTunnels(s: State, index: nat, err: TunnelErr, pick: nat)
    requires TunnelsOK(s) && index in s.outstanding && PickOK(s, index, pick)
    ensures TunnelsOK(OnTunnelError(s, index, err, pick))
  {
    assert |s.outstanding - {index}| == |s.outstanding| - 1;
    var s1 := s.(tunnelsActive := s.tunnelsActive - 1, outstanding := s.outstanding - {index});
    if err != Nil && !s.shuttingDown && err == Reconnect {
      assert s1.outstanding + {index} == s.outstanding;
    }
  }

  lemma ErrorKeeps(s: State, index: nat, err: TunnelErr, pick: nat)
    requires Inv(s) && !s.returned && index in s.outstanding && PickOK(s, index, pick)
    ensures Inv(OnTunnelError(s, index, err, pick))
  {
    ErrorKeepsTunnels(s, index, err, pick);
    var t := OnTunnelError(s, index, err, pick);
    assert t.tunnelsActive == 0 ==> t.outstanding == {};
  }

  lemma {:induction false} StartAllFrame(s: State, q: seq<nat>)
    ensures var t := StartAll(s, q);
            t == s.(tunnelsConnecting := t.tunnelsConnecting, nextConnectedSignal := t.nextConnectedSignal,
                    nextConnectedIndex := t.nextConnectedIndex, signals := t.signals, outstanding := t.outstanding)
    ensures q != [] ==> SignalsOK(StartAll(s, q))
  {
    hide SignalsOK;
    if q != [] {
      StartAllFrame(s, q[..|q| - 1]);
      StartKeepsSignals(StartAll(s, q[..|q| - 1]), q[|q| - 1]);
    }
  }

  lemma {:induction false} StartAllOutstanding(s: State, q: seq<nat>)
    requires NoRepeats(q) && (forall i :: i in q ==> i !in s.outstanding)
    ensures forall i :: i in StartAll(s, q).outstanding <==> i in s.outstanding || i in q
    ensures |StartAll(s, q).outstanding| == |s.outstanding| + |q|
  {
    if q != [] {
      var p, x := q[..|q| - 1], q[|q| - 1];
      assert q == p + [x];
      StartAllOutstanding(s, p);
      assert x !in StartAll(s, p).outstanding;
    }
  }

  lemma TimerKeeps(s: State)
    requires Inv(s) && !s.returned && s.backoffTimer
    ensures Inv(OnTimer(s))
  {
    StartAllFrame(s, s.tunnelsWaiting);
    StartAllOutstanding(s, s.tunnelsWaiting);
    assert s.tunnelsWaiting[0] in OnTimer(s).outstanding;
  }

  lemma ConnectedKeeps(s: State, pick: nat)
    requires Inv(s) && PickOK(s, s.nextConnectedIndex, pick)
    ensures Inv(OnConnected(s, pick))
  {
  }

  lemma CancelledKeeps(s: State)
    requires Inv(s)
    ensures Inv(OnCancelled(s))
  {
  }

  // ----- runs -----

  datatype Event =
    | TunnelReports(index: nat, err: TunnelErr, pick: nat)
    | TimerFires
    | SignalFires(pick: nat)
    | GracefulShutdown
    | Cancel
    | SeesCancellation

  /** An event that cannot happen in this state changes nothing. */
  function Step(s: State, ev: Event): State {
    if s.returned then s
    else match ev
      case TunnelReports(index, err, pick) =>
        if index in s.outstanding && PickOK(s, index, pick) then OnTunnelError(s, index, err, pick) else s
      case TimerFires => if s.backoffTimer then OnTimer(s) else s
      case SignalFires(pick) =>
        if s.nextConnectedSignal.Some? && PickOK(s, s.nextConnectedIndex, pick) then OnConnected(s, pick) else s
      case GracefulShutdown => s.(shuttingDown := true)
      case Cancel => s.(cancelled := true)
      case SeesCancellation => if s.cancelled then OnCancelled(s) else s
  }

  function Run(s: State, evs: seq<Event>): State {
    if evs == [] then s else Step(Run(s, evs[..|evs| - 1]), evs[|evs| - 1])
  }

  /** The state initialize leaves behind for `n` connections: the first tunnel has no connecting signal. */
  function Initialized(n: nat): State {
    var s := State(n, n, [], false, map[], 0, None, 0, false, false, false, {0}, {}, 0);
    StartAll(s, OthersOf(n))
  }

  /** Tunnels 1 to n - 1. */
  function OthersOf(n: nat): seq<nat> {
    seq(if n > 0 then n - 1 else 0, i => i + 1)
  }

  lemma InitializedInv(n: nat)
    requires n >= 1
    ensures Inv(Initialized(n)) && !Initialized(n).returned
  {
    var s := State(n, n, [], false, map[], 0, None, 0, false, false, false, {0}, {}, 0);
    var q := OthersOf(n);
    StartAllFrame(s, q);
    StartAllOutstanding(s, q);
    var t := Initialized(n);
    forall i | 0 <= i < n ensures i in t.outstanding {
      if i > 0 {
        assert q[i - 1] == i;
      }
    }
  }

  lemma StepKeeps(s: State, ev: Event)
    requires Inv(s)
    ensures Inv(Step(s, ev))
  {
    hide Inv, OnTunnelError, OnTimer, OnConnected, OnCancelled;
    if !s.returned {
      match ev
      case TunnelReports(index, err, pick) =>
        if index in s.outstanding && PickOK(s, index, pick) {
          ErrorKeeps(s, index, err, pick);
        }
      case TimerFires =>
        if s.backoffTimer {
          TimerKeeps(s);
        }
      case SignalFires(pick) =>
        if s.nextConnectedSignal.Some? && PickOK(s, s.nextConnectedIndex, pick) {
          ConnectedKeeps(s, pick);
        }
      case GracefulShutdown => FlagsKeep(s, s.(shuttingDown := true));
      case Cancel => FlagsKeep(s, s.(cancelled := true));
      case SeesCancellation =>
        if s.cancelled {
          CancelledKeeps(s);
        }
    }
  }

  lemma FlagsKeep(s: State, t: State)
    requires Inv(s) && t == s.(shuttingDown := t.shuttingDown, cancelled := t.cancelled)
    requires s.cancelled ==> t.cancelled
    ensures Inv(t)
  {
  }

  /**
    With at least one connection, in every run of the main loop the counters match the goroutines, a waiting tunnel
    has a timer, the connecting signal is right, the loop is never stuck, and it returns with nothing outstanding.
   */
  lemma {:induction false} CountersMatchGoroutines(n: nat, evs: seq<Event>)
    requires n >= 1
    ensures Inv(Run(Initialized(n), evs))
  {
    if evs == [] {
      InitializedInv(n);
    } else {
      hide Inv, Step;
      CountersMatchGoroutines(n, evs[..|evs| - 1]);
      StepKeeps(Run(Initialized(n), evs[..|evs| - 1]), evs[|evs| - 1]);
    }
  }

  /**
    In every run the grace period is restarted exactly when the only tunnel recorded as connecting has connected and
    none waits; then none is connecting any more.
   */
  lemma GraceOnlyWhenSettled(n: nat, evs: seq<Event>, ev: Event)
    requires n >= 1
    ensures var s := Run(Initialized(n), evs);
            && (Step(s, ev).graces != s.graces <==>
                  && ev.SignalFires? && !s.returned && s.tunnelsWaiting == []
                  && s.tunnelsConnecting.Keys == {s.nextConnectedIndex})
            && (Step(s, ev).graces != s.graces ==>
                  Step(s, ev).tunnelsConnecting == map[] && Step(s, ev).graces == s.graces + 1)
  {
    hide Inv, Step;
    CountersMatchGoroutines(n, evs);
    GraceStep(Run(Initialized(n), evs), ev);
  }

  lemma GraceStep(s: State, ev: Event)
    requires Inv(s)
    ensures Step(s, ev).graces != s.graces <==>
            && ev.SignalFires? && !s.returned && s.tunnelsWaiting == []
            && s.tunnelsConnecting.Keys == {s.nextConnectedIndex}
    ensures Step(s, ev).graces != s.graces ==>
              Step(s, ev).tunnelsConnecting == map[] && Step(s, ev).graces == s.graces + 1
  {
    hide TunnelsOK, ProgressOK, StartAll;
    if ev.SignalFires? {
      SettledExactly(s);
    } else if ev.TimerFires? {
      StartAllFrame(s, s.tunnelsWaiting);
    }
  }

  lemma SettledExactly(s: State)
    requires SignalsOK(s)
    ensures s.tunnelsConnecting.Keys == {s.nextConnectedIndex} <==>
            s.nextConnectedSignal.Some? && s.tunnelsConnecting - {s.nextConnectedIndex} == map[]
  {
    var i := s.nextConnectedIndex;
    var keys, left := s.tunnelsConnecting.Keys, s.tunnelsConnecting - {i};
    assert left.Keys == keys - {i};
    if left.Keys == {} {
      assert left == map[];
      assert forall k :: k in keys ==> k !in keys - {i};
    }
  }

  // ----- what becomes of a report -----

  /** The fields after a report, by the kind of error and the state of the loop. */
  ghost predicate ReportHandled(s: State, index: nat, err: TunnelErr, t: State) {
    if err == Nil || s.shuttingDown then
      // over for good, and the loop ends with the last one
      && t.outstanding == s.outstanding - {index} && t.finished == s.finished + {index}
      && t.tunnelsWaiting == s.tunnelsWaiting && t.backoffTimer == s.backoffTimer
      && t.tunnelsActive == s.tunnelsActive - 1 && (t.returned <==> t.tunnelsActive == 0)
    else if err == Reconnect then
      // started again at once
      && t.outstanding == s.outstanding + {index} && t.finished == s.finished
      && t.tunnelsWaiting == s.tunnelsWaiting && t.backoffTimer == s.backoffTimer
      && t.tunnelsActive == s.tunnelsActive && t.returned == s.returned && index in t.tunnelsConnecting
    else if s.cancelled then
      // no more retries
      && t.outstanding == s.outstanding - {index} && t.finished == s.finished + {index}
      && t.tunnelsWaiting == s.tunnelsWaiting && t.backoffTimer == s.backoffTimer
      && t.tunnelsActive == s.tunnelsActive - 1 && t.returned == s.returned
    else
      // waits for the backoff
      && t.outstanding == s.outstanding - {index} && t.finished == s.finished
      && t.tunnelsWaiting == s.tunnelsWaiting + [index] && t.backoffTimer
      && t.tunnelsActive == s.tunnelsActive - 1 && t.returned == s.returned && index !in t.tunnelsConnecting
  }

  lemma ReportExactly(s: State, index: nat, err: TunnelErr, pick: nat)
    requires PickOK(s, index, pick) && !s.returned && index in s.outstanding
    ensures ReportHandled(s, index, err, OnTunnelError(s, index, err, pick))
  {
    var t := OnTunnelError(s, index, err, pick);
    if err == Reconnect && !s.shuttingDown {
      assert s.outstanding - {index} + {index} == s.outstanding + {index};
    }
  }

  predicate NoTimer(evs: seq<Event>) {
    forall i :: 0 <= i < |evs| ==> !evs[i].TimerFires?
  }

  lemma StaysWaiting(s: State, ev: Event, index: nat)
    requires TunnelsOK(s) && index in s.tunnelsWaiting && !ev.TimerFires?
    ensures index in Step(s, ev).tunnelsWaiting
  {
  }

  /** A tunnel that waits goes on waiting, and is not running, until the timer fires. */
  lemma {:induction false} WaitsForTheTimer(s: State, index: nat, more: seq<Event>)
    requires Inv(s) && index in s.tunnelsWaiting && NoTimer(more)
    ensures var t := Run(s, more); Inv(t) && index in t.tunnelsWaiting && index !in t.outstanding
  {
    if more != [] {
      hide Step;
      WaitsForTheTimer(s, index, more[..|more| - 1]);
      StepKeeps(Run(s, more[..|more| - 1]), more[|more| - 1]);
      StaysWaiting(Run(s, more[..|more| - 1]), more[|more| - 1], index);
    }
  }

  /**
    In every run, a tunnel that reports an ordinary error is not started again before the timer fires, which it is armed
    for, and then is; one that reports a reconnect is running again at once.
   */
  lemma BackoffBeforeRestart(n: nat, evs: seq<Event>, index: nat, pick: nat, more: seq<Event>)
    requires n >= 1 && NoTimer(more)
    requires var s := Run(Initialized(n), evs);
             !s.returned && !s.shuttingDown && index in s.outstanding && PickOK(s, index, pick)
    ensures var s := Run(Initialized(n), evs);
            && index in Step(s, TunnelReports(index, Reconnect, pick)).outstanding
            && (!s.cancelled ==>
                  var t := Run(Step(s, TunnelReports(index, Other, pick)), more);
                  && index !in t.outstanding && index in t.tunnelsWaiting && t.backoffTimer
                  && (!t.returned ==>
                        index in Step(t, TimerFires).outstanding && Step(t, TimerFires).tunnelsWaiting == []))
  {
    hide Inv, Run, OnTunnelError, OnTimer;
    CountersMatchGoroutines(n, evs);
    var s := Run(Initialized(n), evs);
    ReportExactly(s, index, Reconnect, pick);
    if !s.cancelled {
      ReportExactly(s, index, Other, pick);
      var s1 := Step(s, TunnelReports(index, Other, pick));
      StepKeeps(s, TunnelReports(index, Other, pick));
      WaitsForTheTimer(s1, index, more);
      var t := Run(s1, more);
      TimerStartsAll(t, index);
    }
  }

  lemma TimerStartsAll(t: State, index: nat)
    requires Inv(t) && index in t.tunnelsWaiting
    ensures t.backoffTimer && index in OnTimer(t).outstanding && OnTimer(t).tunnelsWaiting == []
  {
    StartAllOutstanding(t, t.tunnelsWaiting);
  }

  lemma ShutdownStep(s: State, ev: Event)
    requires Inv(s) && s.shuttingDown && s.tunnelsWaiting == [] && (s.outstanding == {} ==> s.returned)
    ensures var t := Step(s, ev);
            && t.shuttingDown && t.tunnelsWaiting == [] && t.outstanding <= s.outstanding
            && (t.outstanding == {} ==> t.returned)
  {
    if ev.TunnelReports? && !s.returned && ev.index in s.outstanding && PickOK(s, ev.index, ev.pick) {
      hide OnTunnelError;
      ReportExactly(s, ev.index, ev.err, ev.pick);
      StepKeeps(s, ev);
    }
  }

  /**
    After a graceful shutdown no report starts a tunnel. With none waiting, the tunnels running only become fewer, and
    once the last has reported the loop has returned.
   */
  lemma {:induction false} ShutdownWindsDown(s: State, more: seq<Event>)
    requires Inv(s) && s.shuttingDown && s.tunnelsWaiting == [] && (s.outstanding == {} ==> s.returned)
    ensures var t := Run(s, more);
            && Inv(t) && t.shuttingDown && t.tunnelsWaiting == [] && t.outstanding <= s.outstanding
            && (t.outstanding == {} ==> t.returned)
  {
    if more != [] {
      hide Inv, Step;
      var before := Run(s, more[..|more| - 1]);
      ShutdownWindsDown(s, more[..|more| - 1]);
      StepKeeps(before, more[|more| - 1]);
      ShutdownStep(before, more[|more| - 1]);
    }
  }

  /** From any state of a run in which shutdown has begun, nothing waits and nothing is cancelled. */
  lemma ShutdownReturns(n: nat, evs: seq<Event>, more: seq<Event>)
    requires n >= 1 && var s := Run(Initialized(n), evs); s.shuttingDown && s.tunnelsWaiting == [] && !s.cancelled
    ensures var s := Run(Initialized(n), evs);
            var t := Run(s, more);
            && t.outstanding <= s.outstanding && t.tunnelsWaiting == [] && (t.outstanding == {} ==> t.returned)
  {
    CountersMatchGoroutines(n, evs);
    ShutdownWindsDown(Run(Initialized(n), evs), more);
  }

  // ----- before the loop -----

  /** What initialize hears first, having started the first tunnel. */
  datatype FirstHeard = Cancelled | Reports(err: TunnelErr) | ShutDown | Connected

  /** A first tunnel that reports no error counts as a success, although it is over and the others are not started. */
  predicate EntersLoop(first: FirstHeard) {
    first.Connected? || first == Reports(Nil)
  }

  /** The goroutines nobody receives when Run returns without entering its loop. */
  function LeftRunning(first: FirstHeard): set<nat> {
    if first.ShutDown? then {0} else {}
  }

  /** The state the loop starts from. */
  function LoopStart(n: nat, first: FirstHeard): State {
    if first.Connected? then Initialized(n)
    else State(n, n, [], false, map[], 0, None, 0, false, false, false, {}, {0}, 0)
  }

  /**
    Run receives every goroutine before it returns early, except in one case: a graceful shutdown before the first
    tunnel has connected leaves that tunnel's goroutine sending to nobody. And of the two ways into the loop only a
    connection starts it with a counter that is right.
   */
  lemma StartsRightExactly(n: nat, first: FirstHeard)
    ensures !EntersLoop(first) ==> (LeftRunning(first) != {} <==> first.ShutDown?)
    ensures EntersLoop(first) ==> (Inv(LoopStart(n, first)) <==> first.Connected? && n >= 1)
  {
    if first.Connected? && n >= 1 {
      InitializedInv(n);
    }
    if first.Connected? && n == 0 {
      NoConnectionsMiscounts();
    }
  }

  /**
    After a first tunnel that reported no error, the loop counts tunnels that were never started. In every run short of
    the drain nothing is outstanding and it does not return; the drain would wait for reports nobody sends.
   */
  lemma {:induction false} NilReportStarves(n: nat, evs: seq<Event>)
    requires n >= 1 && forall i :: 0 <= i < |evs| ==> !evs[i].SeesCancellation?
    ensures var s := Run(LoopStart(n, Reports(Nil)), evs);
            && s.tunnelsActive == n > |s.outstanding| == 0 && !s.returned
            && s.tunnelsWaiting == [] && !s.backoffTimer && s.nextConnectedSignal.None?
  {
    if evs != [] {
      NilReportStarves(n, evs[..|evs| - 1]);
    }
  }

  /** Without a connection the counter is wrong from the start: the first tunnel's goroutine is not counted. */
  lemma NoConnectionsMiscounts()
    ensures Initialized(0).tunnelsActive == 0 && Initialized(0).outstanding == {0}
  {
  }

  // ----- the loop's own state -----

  class Supervisor {
    var haConnections: nat
    var tunnelsActive: int
    var tunnelsWaiting: seq<nat>
    var backoffTimer: bool
    var tunnelsConnecting: map<nat, nat>
    var nextConnectedIndex: nat
    var nextConnectedSignal: Option<nat>
    var signals: nat
    var shuttingDown: bool
    var cancelled: bool
    var returned: bool
    var graces: nat
    ghost var outstanding: set<nat>
    ghost var finished: set<nat>

    ghost function View(): State
      reads this
    {
      State(haConnections, tunnelsActive, tunnelsWaiting, backoffTimer, tunnelsConnecting, nextConnectedIndex,
            nextConnectedSignal, signals, shuttingDown, cancelled, returned, outstanding, finished, graces)
    }

    /** Whether initialize let Run go on to its main loop. */
    const entered: bool

    /** initialize: the first tunnel is started, and `first` is what is heard first. */
    constructor (requested: nat, availableAddrs: nat, first: FirstHeard)
      ensures entered == EntersLoop(first)
      ensures entered ==> View() == LoopStart(Min(requested, availableAddrs), first)
      ensures !entered ==> outstanding == LeftRunning(first)
    {
      entered := first.Connected? || first == Reports(Nil);
      haConnections := if requested > availableAddrs then availableAddrs else requested;
      tunnelsWaiting, backoffTimer := [], false;
      tunnelsConnecting, nextConnectedIndex, nextConnectedSignal := map[], 0, None;
      signals, shuttingDown, cancelled, returned, graces := 0, false, false, false, 0;
      outstanding, finished := {0}, {};
      tunnelsActive := if requested > availableAddrs then availableAddrs else requested;
      new;
      match first
      case Cancelled =>
        outstanding := outstanding - {0};
      case Reports(_) =>
        outstanding, finished := outstanding - {0}, finished + {0};
      case ShutDown =>
      case Connected =>
        StartRest();
    }

    /** At least one connection is up, so start the rest. */
    method StartRest()
      modifies this`tunnelsConnecting, this`nextConnectedSignal, this`nextConnectedIndex, this`signals, this`outstanding
      ensures View() == StartAll(old(View()), OthersOf(haConnections))
    {
      hide StartTunnel;
      ghost var q := OthersOf(haConnections);
      var i := 1;
      while i < haConnections
        invariant 1 <= i && i - 1 <= |q| && View() == StartAll(old(View()), q[..i - 1])
      {
        assert q[..i][..i - 1] == q[..i - 1];
        Launch(i);
        i := i + 1;
      }
      assert q[..i - 1] == q;
    }

    /** Every tunnel waiting for the timer. */
    method StartWaiting()
      modifies this`tunnelsConnecting, this`nextConnectedSignal, this`nextConnectedIndex, this`signals, this`outstanding
      ensures View() == StartAll(old(View()), tunnelsWaiting)
    {
      hide StartTunnel;
      var i := 0;
      while i < |tunnelsWaiting|
        invariant 0 <= i <= |tunnelsWaiting| && View() == StartAll(old(View()), tunnelsWaiting[..i])
      {
        assert tunnelsWaiting[..i + 1][..i] == tunnelsWaiting[..i];
        Launch(tunnelsWaiting[i]);
        i := i + 1;
      }
      assert tunnelsWaiting[..i] == tunnelsWaiting;
    }

    /** A goroutine for the tunnel is started, with a new signal that is now the one waited for. */
    method Launch(index: nat)
      modifies this`tunnelsConnecting, this`nextConnectedSignal, this`nextConnectedIndex, this`signals, this`outstanding
      ensures View() == StartTunnel(old(View()), index)
    {
      tunnelsConnecting := tunnelsConnecting[index := signals];
      nextConnectedSignal, nextConnectedIndex := Some(signals), index;
      signals := signals + 1;
      outstanding := outstanding + {index};
    }

    method WaitForNextTunnel(index: nat) returns (more: bool, ghost pick: nat)
      modifies this`tunnelsConnecting, this`nextConnectedSignal, this`nextConnectedIndex
      ensures PickOK(old(View()), index, pick) && View() == WaitForNext(old(View()), index, pick)
      ensures more == nextConnectedSignal.Some?
    {
      tunnelsConnecting := tunnelsConnecting - {index};
      nextConnectedSignal := None;
      pick, more := 0, false;
      if tunnelsConnecting != map[] {
        var k :| k in tunnelsConnecting;
        nextConnectedIndex, nextConnectedSignal := k, Some(tunnelsConnecting[k]);
        pick, more := k, true;
      }
    }

    /** A tunnel's goroutine has reported and ended. */
    method TunnelError(index: nat, err: TunnelErr) returns (ghost pick: nat)
      requires Inv(View()) && !returned && index in outstanding
      modifies this
      ensures PickOK(old(View()), index, pick) && View() == OnTunnelError(old(View()), index, err, pick) && Inv(View())
      ensures ReportHandled(old(View()), index, err, View())
    {
      hide Inv, PickOK, Restarted, GivenUp, Retired, Postponed, ReportHandled;
      ghost var s := View();
      pick := AnyPick(s, index);
      tunnelsActive := tunnelsActive - 1;
      outstanding := outstanding - {index};
      assert View() == Heard(s, index);
      if err != Nil && !shuttingDown {
        if err == Reconnect {
          Restart(index);
        } else if cancelled {
          GiveUp(index);
        } else {
          pick := Postpone(index);
          SamePick(Heard(s, index), s, index, pick);
        }
      } else {
        Retire(index);
      }
      ErrorKeeps(s, index, err, pick);
      ReportExactly(s, index, err, pick);
    }

    method Restart(index: nat)
      modifies this
      ensures View() == Restarted(old(View()), index)
    {
      hide StartTunnel;
      Launch(index);
      tunnelsActive := tunnelsActive + 1;
    }

    method GiveUp(index: nat)
      modifies this`finished
      ensures View() == GivenUp(old(View()), index)
    {
      finished := finished + {index};
    }

    method Retire(index: nat)
      requires !returned
      modifies this`finished, this`returned
      ensures View() == Retired(old(View()), index)
    {
      finished := finished + {index};
      if tunnelsActive == 0 {
        returned := true;
      }
    }

    method Postpone(index: nat) returns (ghost pick: nat)
      modifies this`tunnelsWaiting, this`backoffTimer, this`tunnelsConnecting
      modifies this`nextConnectedSignal, this`nextConnectedIndex
      ensures PickOK(old(View()), index, pick) && View() == Postponed(old(View()), index, pick)
    {
      hide WaitForNext;
      tunnelsWaiting := tunnelsWaiting + [index];
      var more;
      more, pick := WaitForNextTunnel(index);
      if !backoffTimer {
        backoffTimer := true;
      }
    }

    /** The backoff is over: all waiting tunnels are started again. */
    method TimerExpired()
      requires Inv(View()) && !returned && backoffTimer
      modifies this
      ensures View() == OnTimer(old(View())) && Inv(View())
      ensures !backoffTimer && tunnelsWaiting == [] && finished == old(finished)
    {
      hide Inv, StartAll;
      ghost var s := View();
      backoffTimer := false;
      StartWaiting();
      StartAllTimer(s, s.tunnelsWaiting);
      StartAllFrame(s, s.tunnelsWaiting);
      tunnelsActive := tunnelsActive + |tunnelsWaiting|;
      tunnelsWaiting := [];
      TimerKeeps(s);
    }

    /** The tunnel waited for has connected. */
    method SignalFired() returns (ghost pick: nat)
      requires Inv(View()) && !returned && nextConnectedSignal.Some?
      modifies this
      ensures PickOK(old(View()), old(nextConnectedIndex), pick)
      ensures View() == OnConnected(old(View()), pick) && Inv(View())
    {
      ghost var s := View();
      var more;
      more, pick := WaitForNextTunnel(nextConnectedIndex);
      if !more && |tunnelsWaiting| == 0 {
        graces := graces + 1;
      }
      ConnectedKeeps(s, pick);
    }

    /** Cancelled: the drain never blocks, because there is a goroutine for every count left. */
    method Drain()
      requires Inv(View()) && cancelled
      modifies this
      ensures View() == OnCancelled(old(View())) && Inv(View())
      ensures returned && outstanding == {} && tunnelsActive == 0 && tunnelsWaiting == old(tunnelsWaiting)
    {
      hide Inv;
      ghost var s := View();
      ActiveIs(s);
      ReceiveAll();
      returned := true;
      CancelledKeeps(s);
    }

    method ReceiveAll()
      requires tunnelsActive == |outstanding|
      modifies this`tunnelsActive, this`outstanding, this`finished
      ensures tunnelsActive == 0 && outstanding == {} && finished == old(finished) + old(outstanding)
    {
      while tunnelsActive > 0
        invariant 0 <= tunnelsActive == |outstanding|
        invariant finished + outstanding == old(finished) + old(outstanding)
      {
        ghost var index := Member(outstanding);
        outstanding, finished := outstanding - {index}, finished + {index};
        tunnelsActive := tunnelsActive - 1;
      }
    }
  }

  lemma ActiveIs(s: State)
    requires Inv(s)
    ensures s.tunnelsActive == |s.outstanding|
  {
  }

  ghost function Member(xs: set<nat>): (x: nat)
    requires |xs| > 0
    ensures x in xs
  {
    var x :| x in xs; x
  }

  lemma {:induction false} StartAllTimer(s: State, q: seq<nat>)
    ensures StartAll(s.(backoffTimer := false), q) == StartAll(s, q).(backoffTimer := false)
  {
    if q != [] {
      StartAllTimer(s, q[..|q| - 1]);
    }
  }
}
