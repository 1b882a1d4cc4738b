/** The orchestrator: remote configuration updates, the proxies they install and the channels that shut those down. */
module Orchestration {
  import opened Bytes

  type Rule = string

  type int32 = n: int | -0x8000_0000 <= n <= 0x7fff_ffff

  datatype Ingress = Ingress(rules: seq<Rule>, internalRules: seq<Rule>)

  datatype Config = Config(ingress: Ingress, warpRouting: bool)

  /** What json.Unmarshal finds in an update. */
  datatype Remote = Remote(rules: seq<Rule>, warpRouting: bool)

  /** `parsed` is None for a malformed document; `starts` says whether the origins can be started. */
  datatype Update = Update(version: int32, parsed: Option<Remote>, starts: bool)

  datatype Refusal = AlreadyShutdown | FailedToStart | Malformed

  datatype Response = Response(lastAppliedVersion: int32, err: Option<Refusal>)

  const DEFAULT_RULES: seq<Rule> := ["http_status:503"]

  /** The configuration a remote document stands for: internal rules added, the default rule if it has none. */
  function Effective(internalRules: seq<Rule>, remote: Remote): Config {
    Config(Ingress(if remote.rules == [] then DEFAULT_RULES else remote.rules, internalRules), remote.warpRouting)
  }

  /** A shutdown channel is its number, in the order they were installed; `closes` counts the closes of each. */
  datatype State = State(currentVersion: int32, proxy: Option<Config>, warpRoutingEnabled: bool, config: Config,
                         internalRules: seq<Rule>, shutdown: bool, handled: bool, proxyShutdownC: Option<nat>,
                         closes: seq<nat>)

  function Close(s: State): State
    requires s.proxyShutdownC.Some? ==> s.proxyShutdownC.value < |s.closes|
  {
    if s.proxyShutdownC.None? then s
    else s.(closes := s.closes[s.proxyShutdownC.value := s.closes[s.proxyShutdownC.value] + 1], proxyShutdownC := None)
  }

  predicate ChannelInRange(s: State) {
    s.proxyShutdownC.Some? ==> s.proxyShutdownC.value < |s.closes|
  }

  function Install(s: State, remote: Remote): State
    requires ChannelInRange(s)
  {
    var c := Effective(s.internalRules, remote);
    var t := Close(s.(proxy := Some(c), config := c, warpRoutingEnabled := remote.warpRouting));
    t.(proxyShutdownC := Some(|t.closes|), closes := t.closes + [0])
  }

  function IngressRefusal(s: State, starts: bool): Option<Refusal> {
    if s.shutdown then Some(AlreadyShutdown) else if !starts then Some(FailedToStart) else None
  }

  /** The reason an update that is newer is not applied. */
  function Refuses(s: State, u: Update): Option<Refusal> {
    if u.parsed.None? then Some(Malformed) else IngressRefusal(s, u.starts)
  }

  predicate Applies(s: State, u: Update) {
    s.currentVersion < u.version && Refuses(s, u).None?
  }

  function Updated(s: State, u: Update): State
    requires ChannelInRange(s)
  {
    if Applies(s, u) then Install(s, u.parsed.value).(currentVersion := u.version) else s
  }

  function Answer(s: State, u: Update): Response
  {
    if s.currentVersion >= u.version then Response(s.currentVersion, None)
    else if Refuses(s, u).Some? then Response(s.currentVersion, Refuses(s, u))
    else Response(u.version, None)
  }

  /** waitToCloseLastProxy, once it has the lock. */
  function ClosedLast(s: State): State
    requires ChannelInRange(s)
  {
    Close(s).(handled := true)
  }

  // ----- the object -----

  class Orchestrator {
    var currentVersion: int32
    var proxy: Option<Config>
    var warpRoutingEnabled: bool
    var config: Config
    const internalRules: seq<Rule>
    var shutdown: bool
    var handled: bool
    var proxyShutdownC: Option<nat>
    ghost var closes: seq<nat>

    ghost function View(): State
      reads this
    {
      State(currentVersion, proxy, warpRoutingEnabled, config, internalRules, shutdown, handled, proxyShutdownC, closes)
    }

    var channelsMade: nat

    ghost predicate Valid()
      reads this
    {
      ChannelInRange(View()) && channelsMade == |closes|
    }

    constructor (initial: Remote, rules: seq<Rule>, down: bool, starts: bool)
      ensures Valid() && internalRules == rules
      ensures View() == if IngressRefusal(Blank(initial, rules, down), starts).Some? then Blank(initial, rules, down)
                        else Install(Blank(initial, rules, down), initial)
    {
      currentVersion := -1;
      proxy, warpRoutingEnabled, config := None, false, Config(Ingress(initial.rules, []), initial.warpRouting);
      internalRules := rules;
      shutdown, handled, proxyShutdownC, closes, channelsMade := down, false, None, [], 0;
      new;
      var err := UpdateIngress(initial, starts);
    }

    method CloseProxyShutdownC()
      requires Valid()
      modifies this`proxyShutdownC, this`closes
      ensures Valid() && View() == Close(old(View()))
    {
      if proxyShutdownC.Some? {
        closes := closes[proxyShutdownC.value := closes[proxyShutdownC.value] + 1];
        proxyShutdownC := None;
      }
    }

    method UpdateIngress(remote: Remote, starts: bool) returns (err: Option<Refusal>)
      requires Valid()
      modifies this
      ensures Valid() && err == IngressRefusal(old(View()), starts)
      ensures View() == if err.None? then Install(old(View()), remote) else old(View())
      ensures err == if shutdown then Some(AlreadyShutdown) else if starts then None else Some(FailedToStart)
      ensures err.None? ==>
                && config.ingress.rules == (if remote.rules == [] then DEFAULT_RULES else remote.rules)
                && config.ingress.internalRules == internalRules && config.warpRouting == remote.warpRouting
                && proxy == Some(config) && warpRoutingEnabled == remote.warpRouting
    {
      hide Close;
      if shutdown {
        return Some(AlreadyShutdown);
      }
      var ingress := Ingress(remote.rules, internalRules);
      if |ingress.rules| == 0 {
        ingress := ingress.(rules := DEFAULT_RULES);
      }
      if !starts {
        return Some(FailedToStart);
      }
      proxy := Some(Config(ingress, remote.warpRouting));
      config := Config(ingress, remote.warpRouting);
      if remote.warpRouting {
        warpRoutingEnabled := true;
      } else {
        warpRoutingEnabled := false;
      }
      CloseProxyShutdownC();
      proxyShutdownC, channelsMade, closes := Some(channelsMade), channelsMade + 1, closes + [0];
      err := None;
    }

    method UpdateConfig(u: Update) returns (r: Response)
      requires Valid()
      modifies this
      ensures Valid() && View() == Updated(old(View()), u) && r == Answer(old(View()), u)
      ensures var newer := old(currentVersion) < u.version;
              var applied := newer && u.parsed.Some? && !shutdown && u.starts;
              && currentVersion == r.lastAppliedVersion == (if applied then u.version else old(currentVersion))
              && (r.err.None? <==> applied || !newer)
              && (newer && u.parsed.None? ==> r.err == Some(Malformed))
              && (!applied ==> config == old(config) && proxy == old(proxy) && proxyShutdownC == old(proxyShutdownC))
              && (applied ==>
                    config.ingress.rules ==
                    (if u.parsed.value.rules == [] then DEFAULT_RULES else u.parsed.value.rules))
    {
      hide Install;
      if currentVersion >= u.version {
        return Response(currentVersion, None);
      }
      if u.parsed.None? {
        return Response(currentVersion, Some(Malformed));
      }
      var err := UpdateIngress(u.parsed.value, u.starts);
      if err.Some? {
        return Response(currentVersion, err);
      }
      currentVersion := u.version;
      r := Response(currentVersion, None);
    }

    method WaitToCloseLastProxy()
      requires Valid() && shutdown
      modifies this
      ensures Valid() && View() == ClosedLast(old(View()))
      ensures proxyShutdownC.None? && handled && config == old(config) && currentVersion == old(currentVersion)
    {
      CloseProxyShutdownC();
      handled := true;
    }
  }

  // ----- runs -----

  /** Before the first updateIngress. */
  function Blank(initial: Remote, rules: seq<Rule>, down: bool): State {
    State(-1, None, false, Config(Ingress(initial.rules, []), initial.warpRouting), rules, down, false, None, [])
  }

  /** A new orchestrator, which exists only if its own configuration could be applied. */
  function Created(initial: Remote, rules: seq<Rule>): State {
    Install(Blank(initial, rules, false), initial)
  }

  datatype Event = Receive(u: Update) | ShutDown | HandleShutdown

  function Step(s: State, ev: Event): (t: State)
    requires ChannelInRange(s)
    ensures ChannelInRange(t)
  {
    match ev
    case Receive(u) => Updated(s, u)
    case ShutDown => s.(shutdown := true)
    case HandleShutdown => if s.shutdown && !s.handled then ClosedLast(s) else s
  }

  function Run(s: State, evs: seq<Event>): (t: State)
    requires ChannelInRange(s)
    ensures ChannelInRange(t)
  {
    if evs == [] then s else Step(Run(s, evs[..|evs| - 1]), evs[|evs| - 1])
  }

  /** The configuration last applied in a run, with its version. */
  function LastApplied(s: State, initial: Remote, evs: seq<Event>): (int32, Remote)
    requires ChannelInRange(s)
  {
    if evs == [] then (-1, initial)
    else
      var before, ev := evs[..|evs| - 1], evs[|evs| - 1];
      if ev.Receive? && Applies(Run(s, before), ev.u) then (ev.u.version, ev.u.parsed.value)
      else LastApplied(s, initial, before)
  }

  /** Proxy, configuration and warp flag all come from the update last applied, and so does the version. */
  lemma {:induction false} SameUpdate(initial: Remote, rules: seq<Rule>, evs: seq<Event>)
    ensures var s := Run(Created(initial, rules), evs);
            var (version, remote) := LastApplied(Created(initial, rules), initial, evs);
            && s.currentVersion == version && s.config == Effective(rules, remote) && s.proxy == Some(s.config)
            && s.warpRoutingEnabled == remote.warpRouting && s.internalRules == rules
  {
    if evs != [] {
      SameUpdate(initial, rules, evs[..|evs| - 1]);
    }
  }

  /** The version never goes back, and moves only when an update is applied. */
  lemma {:induction false} VersionMonotone(s: State, evs: seq<Event>, k: nat)
    requires ChannelInRange(s) && k <= |evs|
    ensures Run(s, evs[..k]).currentVersion <= Run(s, evs).currentVersion
    ensures Run(s, evs[..k]).currentVersion == Run(s, evs).currentVersion <==>
            forall i :: k <= i < |evs| ==> !(evs[i].Receive? && Applies(Run(s, evs[..i]), evs[i].u))
    decreases |evs|
  {
    hide Step, Applies;
    if k == |evs| {
      assert evs[..k] == evs;
    } else {
      var n := |evs| - 1;
      assert forall i :: 0 <= i <= n ==> evs[..n][..i] == evs[..i];
      VersionMonotone(s, evs[..n], k);
      StepVersion(Run(s, evs[..n]), evs[n]);
    }
  }

  lemma StepVersion(s: State, ev: Event)
    requires ChannelInRange(s)
    ensures Step(s, ev).currentVersion >= s.currentVersion
    ensures Step(s, ev).currentVersion > s.currentVersion <==> ev.Receive? && Applies(s, ev.u)
  {
  }

  /**
    Every channel ever installed is closed at most once; before shutdown is handled exactly the last is open,
    afterwards none.
   */
  predicate ChannelsOK(s: State) {
    && |s.closes| >= 1 && (s.handled ==> s.shutdown)
    && s.proxyShutdownC == (if s.handled then None else Some(|s.closes| - 1))
    && (forall c :: 0 <= c < |s.closes| - 1 ==> s.closes[c] == 1)
    && s.closes[|s.closes| - 1] == (if s.handled then 1 else 0)
  }

  lemma {:induction false} ChannelsClosedOnce(initial: Remote, rules: seq<Rule>, evs: seq<Event>)
    ensures ChannelsOK(Run(Created(initial, rules), evs))
  {
    if evs != [] {
      ChannelsClosedOnce(initial, rules, evs[..|evs| - 1]);
    }
  }

  /** There is a channel for the initial configuration and for every update applied, and no other. */
  function Applications(s: State, evs: seq<Event>): nat
    requires ChannelInRange(s)
  {
    if evs == [] then 0
    else
      var before, ev := evs[..|evs| - 1], evs[|evs| - 1];
      Applications(s, before) + (if ev.Receive? && Applies(Run(s, before), ev.u) then 1 else 0)
  }

  lemma {:induction false} OneChannelPerUpdate(s: State, evs: seq<Event>)
    requires ChannelInRange(s)
    ensures |Run(s, evs).closes| == |s.closes| + Applications(s, evs)
  {
    if evs != [] {
      OneChannelPerUpdate(s, evs[..|evs| - 1]);
    }
  }

  /** After shutdown nothing is applied: the run leaves version, configuration and proxy as they were. */
  lemma {:induction false} NothingAfterShutdown(s: State, evs: seq<Event>)
    requires ChannelInRange(s) && s.shutdown
    ensures var t := Run(s, evs);
            t.shutdown && t == s.(handled := t.handled, proxyShutdownC := t.proxyShutdownC, closes := t.closes)
  {
    if evs != [] {
      NothingAfterShutdown(s, evs[..|evs| - 1]);
    }
  }

  // ----- convergence -----

  /** The index of the first update with the greatest version above `floor`, if there is one. */
  function Newest(floor: int, us: seq<Update>): (r: Option<nat>)
    ensures r.Some? ==> r.value < |us|
  {
    if us == [] then None
    else
      var n := |us| - 1;
      var before := Newest(floor, us[..n]);
      var best := if before.Some? then us[before.value].version else floor;
      if us[n].version > best then Some(n) else before
  }

  /** What Newest means, without its recursion. */
  lemma {:induction false} NewestIsFirstGreatest(floor: int, us: seq<Update>)
    ensures Newest(floor, us).None? <==> forall i :: 0 <= i < |us| ==> us[i].version <= floor
    ensures Newest(floor, us).Some? ==>
              var m := Newest(floor, us).value;
              && us[m].version > floor && (forall i :: 0 <= i < |us| ==> us[i].version <= us[m].version)
              && (forall i :: 0 <= i < m ==> us[i].version < us[m].version)
  {
    if us != [] {
      NewestIsFirstGreatest(floor, us[..|us| - 1]);
    }
  }

  function Received(us: seq<Update>): seq<Event> {
    seq(|us|, i requires 0 <= i < |us| => Receive(us[i]))
  }

  /**
    Updates that can all be applied may arrive in any order, repeated and late: while running, the orchestrator ends
    with the greatest version and the configuration that first came with it.
   */
  lemma {:induction false} Converges(s: State, us: seq<Update>)
    requires ChannelInRange(s) && !s.shutdown && (forall i :: 0 <= i < |us| ==> us[i].parsed.Some? && us[i].starts)
    ensures var t := Run(s, Received(us));
            match Newest(s.currentVersion, us)
            case None => t == s
            case Some(m) =>
              t.currentVersion == us[m].version && t.config == Effective(s.internalRules, us[m].parsed.value)
    ensures Run(s, Received(us)).shutdown == false && Run(s, Received(us)).internalRules == s.internalRules
  {
    if us != [] {
      var n := |us| - 1;
      Converges(s, us[..n]);
      assert Received(us)[..n] == Received(us[..n]);
      assert Received(us)[n] == Receive(us[n]);
    }
  }
}
