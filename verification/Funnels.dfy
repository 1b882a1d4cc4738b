/** The funnel tracker: who closes a funnel, and when. */
module Funnels {
  import opened Bytes

  type FunnelID = nat

  /** Funnels are numbered in the order they were made; `closes` counts the closes of each. */
  datatype Pipe = Pipe(lastActive: int, closes: nat)

  datatype State = State(funnels: map<FunnelID, nat>, all: seq<Pipe>)

  const Empty := State(map[], [])

  predicate InRange(s: State) {
    forall id :: id in s.funnels ==> s.funnels[id] < |s.all|
  }

  function Closed(p: Pipe): Pipe {
    p.(closes := p.closes + 1)
  }

  /** Close the funnel registered under an ID and forget it. */
  function Drop(s: State, id: FunnelID): State
    requires InRange(s) && id in s.funnels
  {
    var k := s.funnels[id];
    State(s.funnels - {id}, s.all[k := Closed(s.all[k])])
  }

  function Add(s: State, id: FunnelID, now: int): State {
    State(s.funnels[id := |s.all|], s.all + [Pipe(now, 0)])
  }

  /** `replace` is what shouldReplaceFunc says of the current funnel, `makes` whether newFunnelFunc succeeds. */
  function GetOrRegister(s: State, id: FunnelID, replace: bool, makes: bool, now: int): State
    requires InRange(s)
  {
    if id in s.funnels && !replace then s
    else
      var t := if id in s.funnels then Drop(s, id) else s;
      if makes then Add(t, id, now) else t
  }

  /** `equal` is what Equal says of the current funnel and the one given. */
  function Unregister(s: State, id: FunnelID, equal: bool): State
    requires InRange(s)
  {
    if id in s.funnels && equal then Drop(s, id) else s
  }

  predicate Idle(p: Pipe, now: int, timeout: int) {
    now > p.lastActive + timeout
  }

  /** The IDs whose funnel has been idle for longer than the timeout. */
  function IdleIds(s: State, now: int, timeout: int): set<FunnelID>
    requires InRange(s)
  {
    set id | id in s.funnels && Idle(s.all[s.funnels[id]], now, timeout)
  }

  /** cleanup has visited the idle IDs in `done`. */
  function Swept(s: State, done: set<FunnelID>): State
    requires InRange(s)
  {
    State(s.funnels - done,
          seq(|s.all|, k requires 0 <= k < |s.all| =>
            if exists id :: id in done && id in s.funnels && s.funnels[id] == k then Closed(s.all[k]) else s.all[k]))
  }

  function Cleanup(s: State, now: int, timeout: int): State
    requires InRange(s)
  {
    Swept(s, IdleIds(s, now, timeout))
  }

  function Touch(s: State, k: nat, now: int): State {
    if k < |s.all| then s.(all := s.all[k := s.all[k].(lastActive := now)]) else s
  }

  /** The funnels still open are exactly those in the map, each under one ID, and none was closed twice. */
  predicate Inv(s: State) {
    && InRange(s)
    && (forall a, b :: a in s.funnels && b in s.funnels && s.funnels[a] == s.funnels[b] ==> a == b)
    && (forall k :: 0 <= k < |s.all| ==> s.all[k].closes <= 1 && (s.all[k].closes == 0 <==> k in s.funnels.Values))
  }

  lemma DropKeeps(s: State, id: FunnelID)
    requires Inv(s) && id in s.funnels
    ensures Inv(Drop(s, id))
  {
    var t := Drop(s, id);
    forall k | 0 <= k < |s.all| && k != s.funnels[id] && k in s.funnels.Values ensures k in t.funnels.Values {
      var a :| a in s.funnels && s.funnels[a] == k;
      assert a in t.funnels && t.funnels[a] == k;
    }
    assert s.funnels[id] in s.funnels.Values;
  }

  lemma AddKeeps(s: State, id: FunnelID, now: int)
    requires Inv(s) && id !in s.funnels
    ensures Inv(Add(s, id, now))
  {
    var t := Add(s, id, now);
    forall k | 0 <= k < |s.all| && k in s.funnels.Values ensures k in t.funnels.Values {
      var a :| a in s.funnels && s.funnels[a] == k;
      assert a in t.funnels && t.funnels[a] == k;
    }
    assert t.funnels[id] == |s.all|;
    forall k | 0 <= k < |s.all| && k in t.funnels.Values ensures k in s.funnels.Values {
      var a :| a in t.funnels && t.funnels[a] == k;
      assert a in s.funnels;
    }
  }

  lemma SweptKeeps(s: State, done: set<FunnelID>)
    requires Inv(s)
    ensures Inv(Swept(s, done))
  {
    var t := Swept(s, done);
    forall k | 0 <= k < |s.all| ensures t.all[k].closes <= 1 && (t.all[k].closes == 0 <==> k in t.funnels.Values) {
      if k in s.funnels.Values {
        var a :| a in s.funnels && s.funnels[a] == k;
        if a !in done {
          assert a in t.funnels && t.funnels[a] == k;
        }
      }
    }
  }

  lemma TouchKeeps(s: State, k: nat, now: int)
    requires Inv(s)
    ensures Inv(Touch(s, k, now))
  {
  }

  datatype Event =
    | Get(id: FunnelID, replace: bool, makes: bool, now: int)
    | Remove(id: FunnelID, equal: bool)
    | Clean(now: int, timeout: int)
    | Traffic(k: nat, now: int)

  function Step(s: State, ev: Event): (t: State)
    requires Inv(s)
    ensures Inv(t)
  {
    hide Inv, Drop, Add, Swept, Touch;
    InvInRange(s);
    match ev
    case Get(id, replace, makes, now) =>
      GetKeeps(s, id, replace, makes, now);
      GetOrRegister(s, id, replace, makes, now)
    case Remove(id, equal) =>
      if id in s.funnels then DropKeeps(s, id); Unregister(s, id, equal) else s
    case Clean(now, timeout) => SweptKeeps(s, IdleIds(s, now, timeout)); Cleanup(s, now, timeout)
    case Traffic(k, now) => TouchKeeps(s, k, now); Touch(s, k, now)
  }

  lemma InvInRange(s: State)
    requires Inv(s)
    ensures InRange(s)
  {
  }

  lemma GetKeeps(s: State, id: FunnelID, replace: bool, makes: bool, now: int)
    requires Inv(s)
    ensures Inv(GetOrRegister(s, id, replace, makes, now))
  {
    hide Inv, Add;
    InvInRange(s);
    if !(id in s.funnels && !replace) {
      if id in s.funnels {
        DropKeeps(s, id);
      }
      if makes {
        AddKeeps(if id in s.funnels then Drop(s, id) else s, id, now);
      }
    }
  }

  /** In every run the open funnels are the map's, and none is closed twice. */
  function Run(evs: seq<Event>): (t: State)
    ensures Inv(t)
  {
    if evs == [] then Empty else Step(Run(evs[..|evs| - 1]), evs[|evs| - 1])
  }

  function OpenPipes(s: State): set<nat> {
    set k | 0 <= k < |s.all| && s.all[k].closes == 0
  }

  lemma OpenAreTracked(evs: seq<Event>)
    ensures OpenPipes(Run(evs)) == Run(evs).funnels.Values
    ensures forall k :: 0 <= k < |Run(evs).all| ==> Run(evs).all[k].closes <= 1
  {
    var s := Run(evs);
    assert Inv(s);
    forall k | k in s.funnels.Values ensures k in OpenPipes(s) {
      var a :| a in s.funnels && s.funnels[a] == k;
    }
  }

  /** Cleaning up closes and forgets exactly the funnels idle for longer than the timeout. */
  lemma CleanupExact(evs: seq<Event>, now: int, timeout: int)
    ensures var s, t := Run(evs), Step(Run(evs), Clean(now, timeout));
            && |t.all| == |s.all|
            && (forall id :: id in s.funnels ==>
                  (id in t.funnels <==> now <= s.all[s.funnels[id]].lastActive + timeout)
                  && (id in t.funnels ==> t.funnels[id] == s.funnels[id]))
            && t.funnels.Keys <= s.funnels.Keys
            && (forall k :: 0 <= k < |s.all| ==>
                  t.all[k].closes - s.all[k].closes ==
                  if k in s.funnels.Values && now > s.all[k].lastActive + timeout then 1 else 0)
  {
    var s := Run(evs);
    assert Inv(s);
    var t := Cleanup(s, now, timeout);
    assert t == Step(s, Clean(now, timeout));
    forall k | 0 <= k < |s.all|
      ensures t.all[k].closes - s.all[k].closes ==
              if k in s.funnels.Values && Idle(s.all[k], now, timeout) then 1 else 0
    {
      if k in s.funnels.Values && Idle(s.all[k], now, timeout) {
        var a :| a in s.funnels && s.funnels[a] == k;
        assert a in IdleIds(s, now, timeout);
      }
    }
  }

  // ----- the objects -----

  class Funnel {
    var lastActive: int
    ghost var closes: nat

    ghost function View(): Pipe
      reads this
    {
      Pipe(lastActive, closes)
    }

    constructor (now: int)
      ensures View() == Pipe(now, 0)
    {
      lastActive, closes := now, 0;
    }

    method Close()
      modifies this
      ensures View() == Closed(old(View()))
    {
      closes := closes + 1;
    }
  }

  ghost function Views(xs: seq<Funnel>): (r: seq<Pipe>)
    reads xs
    ensures |r| == |xs| && forall i :: 0 <= i < |xs| ==> r[i] == xs[i].View()
  {
    if xs == [] then [] else Views(xs[..|xs| - 1]) + [xs[|xs| - 1].View()]
  }

  predicate Distinct(xs: seq<Funnel>) {
    forall i, j :: 0 <= i < j < |xs| ==> xs[i] != xs[j]
  }

  class FunnelTracker {
    var funnels: map<FunnelID, Funnel>
    ghost var all: seq<Funnel>
    ghost var index: map<FunnelID, nat>

    ghost function View(): State
      reads this, all
    {
      State(index, Views(all))
    }

    ghost predicate Linked()
      reads this
    {
      && Distinct(all) && index.Keys == funnels.Keys
      && forall id :: id in index ==> index[id] < |all| && funnels[id] == all[index[id]]
    }

    ghost predicate Valid()
      reads this, all
    {
      Linked() && Inv(View())
    }

    constructor ()
      ensures Valid() && View() == Empty
    {
      funnels, all, index := map[], [], map[];
    }

    /** Closes the funnel registered under the ID and forgets it. */
    method CloseAndDelete(id: FunnelID)
      requires Valid() && id in funnels
      modifies this, all
      ensures Valid() && all == old(all) && View() == Drop(old(View()), id) && funnels == old(funnels) - {id}
    {
      hide Inv, Views, Closed;
      ghost var s := View();
      ghost var k := index[id];
      InvInRange(s);
      var funnel := funnels[id];
      funnels, index := funnels - {id}, index - {id};
      assert Linked();
      funnel.Close();
      assert View().all == s.all[k := Closed(s.all[k])];
      DropKeeps(s, id);
    }

    method Insert(id: FunnelID, now: int) returns (funnel: Funnel)
      requires Valid() && id !in funnels
      modifies this
      ensures Valid() && fresh(funnel) && View() == Add(old(View()), id, now)
      ensures id in funnels && funnels[id] == funnel && all == old(all) + [funnel]
    {
      hide Inv, Views;
      ghost var s := View();
      funnel := new Funnel(now);
      funnels := funnels[id := funnel];
      index, all := index[id := |all|], all + [funnel];
      assert View().all == s.all + [Pipe(now, 0)];
      AddKeeps(s, id, now);
    }

    method GetOrRegisterFunnel(id: FunnelID, replace: bool, makes: bool, now: int)
      returns (funnel: Funnel?, isNew: bool, err: bool)
      requires Valid()
      modifies this, all
      ensures Valid() && InRange(old(View())) && View() == GetOrRegister(old(View()), id, replace, makes, now)
      ensures err == (!makes && (id !in old(funnels) || replace))
      ensures isNew == (makes && (id !in old(funnels) || replace))
      ensures if err then funnel == null && id !in funnels else id in funnels && funnels[id] == funnel
      ensures !err && !isNew ==> funnel == old(funnels)[id]
    {
      hide Inv, Drop, Add, Views;
      InvInRange(View());
      if id in funnels {
        if !replace {
          return funnels[id], false, false;
        }
        CloseAndDelete(id);
        Dropped(old(View()), id);
      }
      if !makes {
        return null, false, true;
      }
      funnel := Insert(id, now);
      isNew, err := true, false;
    }

    method UnregisterFunnel(id: FunnelID, equal: bool) returns (deleted: bool)
      requires Valid()
      modifies this, all
      ensures Valid() && InRange(old(View())) && View() == Unregister(old(View()), id, equal)
      ensures deleted == (id !in funnels)
      ensures id in funnels <==> id in old(funnels) && !equal
      ensures funnels == if id in funnels then old(funnels) else old(funnels) - {id}
    {
      hide Inv, Drop, Views;
      InvInRange(View());
      if id !in funnels {
        return true;
      }
      if equal {
        CloseAndDelete(id);
        Dropped(old(View()), id);
        return true;
      }
      return false;
    }

    /** Ranging over the map visits its keys in some order, deleting as it goes. */
    method CleanUp(now: int, idleTimeout: int)
      requires Valid()
      modifies this, all
      ensures Valid() && InRange(old(View())) && View() == Cleanup(old(View()), now, idleTimeout)
    {
      hide Inv, Drop, Views, Swept;
      ghost var s := View();
      InvInRange(s);
      SweptNone(s);
      var left := funnels.Keys;
      ghost var done: set<FunnelID> := {};
      while left != {}
        invariant Valid() && all == old(all)
        invariant left <= s.funnels.Keys && left !! done
        invariant done == IdleIds(s, now, idleTimeout) - left
        invariant View() == Swept(s, done)
      {
        var id :| id in left;
        SweptSame(s, done, id);
        if now > funnels[id].lastActive + idleTimeout {
          CloseAndDelete(id);
          done := done + {id};
        }
        left := left - {id};
      }
      assert done == IdleIds(s, now, idleTimeout);
    }
  }

  lemma Dropped(s: State, id: FunnelID)
    requires InRange(s) && id in s.funnels
    ensures id !in Drop(s, id).funnels
  {
  }

  lemma SweptNone(s: State)
    requires InRange(s)
    ensures Swept(s, {}) == s
  {
    assert Swept(s, {}).all == s.all;
  }

  /** An ID not visited yet still has its funnel as it was, and visiting it is one more Drop. */
  lemma SweptSame(s: State, done: set<FunnelID>, id: FunnelID)
    requires Inv(s) && id in s.funnels && id !in done
    ensures var t := Swept(s, done);
            && InRange(t) && id in t.funnels && t.funnels[id] == s.funnels[id]
            && t.all[t.funnels[id]] == s.all[s.funnels[id]]
            && Drop(t, id) == Swept(s, done + {id})
  {
    assert Drop(Swept(s, done), id).all == Swept(s, done + {id}).all;
    assert Drop(Swept(s, done), id).funnels == Swept(s, done + {id}).funnels;
  }
}
