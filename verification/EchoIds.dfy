/** The echo ID tracker: a unique 16-bit ID for each ICMP flow in progress. */
module EchoIds {
  import opened Bytes

  datatype Flow = Flow(srcIP: Buffer, dstIP: Buffer, originalEchoID: int)

  const MAX_UINT16: nat := 0xffff

  type uint16 = n: int | 0 <= n <= 0xffff

  /** `assignment` has MAX_UINT16 entries, so the ID 65535 itself is never given out. */
  datatype State = State(mapping: map<Flow, uint16>, assignment: seq<bool>, nextAssignment: uint16)

  /** The IDs held are exactly those marked, and no two flows hold the same one. */
  predicate Inv(s: State) {
    && |s.assignment| == MAX_UINT16
    && (forall f :: f in s.mapping ==> s.mapping[f] < MAX_UINT16 && s.assignment[s.mapping[f]])
    && (forall f, g :: f in s.mapping && g in s.mapping && s.mapping[f] == s.mapping[g] ==> f == g)
    && (forall i :: 0 <= i < MAX_UINT16 && s.assignment[i] ==> i in s.mapping.Values)
  }

  function New(): State {
    State(map[], seq(MAX_UINT16, _ => false), 0)
  }

  /** The first free ID in `lo..hi`, or `hi`. */
  function Scan(assignment: seq<bool>, lo: nat, hi: nat): (r: nat)
    requires lo <= hi <= |assignment|
    ensures lo <= r <= hi && (forall j :: lo <= j < r ==> assignment[j]) && (r < hi ==> !assignment[r])
    decreases hi - lo
  {
    if lo == hi || !assignment[lo] then lo else Scan(assignment, lo + 1, hi)
  }

  function StartAt(s: State): nat {
    if s.nextAssignment == MAX_UINT16 then 0 else s.nextAssignment
  }

  /** The two scans, from the start to the end and from the beginning to the start. */
  function FirstFree(s: State): (r: Option<nat>)
    requires |s.assignment| == MAX_UINT16
    ensures r.Some? ==> r.value < MAX_UINT16
  {
    var high := Scan(s.assignment, StartAt(s), MAX_UINT16);
    if high < MAX_UINT16 then Some(high)
    else
      var low := Scan(s.assignment, 0, StartAt(s));
      if low < StartAt(s) then Some(low) else None
  }

  function Assigned(s: State, key: Flow, id: nat): State
    requires |s.assignment| == MAX_UINT16 && id < MAX_UINT16
  {
    State(s.mapping[key := id], s.assignment[id := true], id + 1)
  }

  function GetOrAssign(s: State, key: Flow): State
    requires |s.assignment| == MAX_UINT16
  {
    if key in s.mapping then s
    else match FirstFree(s)
      case Some(id) => Assigned(s, key, id)
      case None => s.(nextAssignment := StartAt(s))
  }

  /** The ID handed out, if any. */
  function Given(s: State, key: Flow): Option<nat>
    requires |s.assignment| == MAX_UINT16
  {
    if key in s.mapping then Some(s.mapping[key]) else FirstFree(s)
  }

  predicate Releases(s: State, key: Flow, held: uint16) {
    key in s.mapping && held == s.mapping[key]
  }

  function Release(s: State, key: Flow, held: uint16): State
    requires Inv(s)
  {
    if Releases(s, key, held) then s.(mapping := s.mapping - {key}, assignment := s.assignment[held := false]) else s
  }

  // ----- what the scan finds -----

  /** How many steps after `start` the search comes to `id`. */
  function Distance(start: nat, id: nat): int
    requires start < MAX_UINT16 && id < MAX_UINT16
  {
    if id >= start then id - start else id + MAX_UINT16 - start
  }

  /** The first free ID, cyclically from where the last search stopped; none exactly when all are taken. */
  lemma FirstFreeIsCyclic(s: State)
    requires |s.assignment| == MAX_UINT16
    ensures FirstFree(s).None? <==> forall i :: 0 <= i < MAX_UINT16 ==> s.assignment[i]
    ensures FirstFree(s).Some? ==>
              var id := FirstFree(s).value;
              && id < MAX_UINT16 && !s.assignment[id]
              && forall j :: 0 <= j < MAX_UINT16 && Distance(StartAt(s), j) < Distance(StartAt(s), id) ==>
                   s.assignment[j]
  {
    if FirstFree(s).Some? {
      assert !s.assignment[FirstFree(s).value];
    }
  }

  lemma AssignKeeps(s: State, key: Flow, id: nat)
    requires Inv(s) && key !in s.mapping && id < MAX_UINT16 && !s.assignment[id]
    ensures Inv(Assigned(s, key, id))
  {
    var t := Assigned(s, key, id);
    forall i | 0 <= i < MAX_UINT16 && t.assignment[i] ensures i in t.mapping.Values {
      if i == id {
        assert t.mapping[key] == i;
      } else {
        var f :| f in s.mapping && s.mapping[f] == i;
        assert f in t.mapping && t.mapping[f] == i;
      }
    }
  }

  lemma ReleaseKeeps(s: State, key: Flow, held: uint16)
    requires Inv(s)
    ensures Inv(Release(s, key, held))
  {
    if Releases(s, key, held) {
      var t := Release(s, key, held);
      forall i | 0 <= i < MAX_UINT16 && t.assignment[i] ensures i in t.mapping.Values {
        var f :| f in s.mapping && s.mapping[f] == i;
        assert f in t.mapping && t.mapping[f] == i;
      }
    }
  }

  lemma GetKeeps(s: State, key: Flow)
    requires Inv(s)
    ensures Inv(GetOrAssign(s, key))
  {
    if key !in s.mapping {
      FirstFreeIsCyclic(s);
      if FirstFree(s).Some? {
        AssignKeeps(s, key, FirstFree(s).value);
      }
    }
  }

  // ----- how many flows fit -----

  function UpTo(n: nat): (r: set<uint16>)
    requires n <= MAX_UINT16
    ensures |r| == n && forall i: uint16 :: i in r <==> i < n
  {
    if n == 0 then {} else UpTo(n - 1) + {n - 1}
  }

  lemma {:induction false} InjectiveSize(m: map<Flow, uint16>)
    requires forall f, g :: f in m && g in m && m[f] == m[g] ==> f == g
    ensures |m.Values| == |m|
    decreases |m|
  {
    if m != map[] {
      var f :| f in m;
      var rest := m - {f};
      InjectiveSize(rest);
      assert m[f] !in rest.Values;
      assert m.Values == rest.Values + {m[f]} by {
        forall v | v in m.Values ensures v in rest.Values + {m[f]} {
          var g :| g in m && m[g] == v;
          if g != f {
            assert g in rest && rest[g] == v;
          }
        }
      }
      assert m.Keys == rest.Keys + {f};
      assert |m| == |m.Keys| && |rest| == |rest.Keys|;
    } else {
      assert m.Values == {};
    }
  }

  /** A new flow is refused exactly when 65535 flows hold an ID. */
  lemma RefusedOnlyWhenFull(s: State, key: Flow)
    requires Inv(s)
    ensures Given(s, key).None? <==> key !in s.mapping && |s.mapping| == MAX_UINT16
  {
    hide Scan, FirstFree, UpTo;
    InjectiveSize(s.mapping);
    FirstFreeIsCyclic(s);
    var ids := UpTo(MAX_UINT16);
    assert s.mapping.Values <= ids;
    if forall i :: 0 <= i < MAX_UINT16 ==> s.assignment[i] {
      assert s.mapping.Values == ids;
    }
    if |s.mapping| == MAX_UINT16 {
      if s.mapping.Values != ids {
        SmallerSubset(s.mapping.Values, ids);
        assert false;
      }
      forall i | 0 <= i < MAX_UINT16 ensures s.assignment[i] {
        assert i as uint16 in ids;
      }
    }
  }

  lemma SmallerSubset(a: set<uint16>, b: set<uint16>)
    requires a <= b && a != b
    ensures |a| < |b|
  {
    var x :| x in b && x !in a;
    assert |b - a| > 0;
    assert b == a + (b - a);
  }

  // ----- runs -----

  datatype Op = Get(key: Flow) | Free(key: Flow, id: uint16)

  function Step(s: State, op: Op): (t: State)
    requires Inv(s)
    ensures Inv(t)
  {
    match op
    case Get(key) => GetKeeps(s, key); GetOrAssign(s, key)
    case Free(key, id) => ReleaseKeeps(s, key, id); Release(s, key, id)
  }

  lemma NewInv()
    ensures Inv(New())
  {
  }

  /** Every run keeps the flows' IDs unique and the marks exact. */
  function Run(ops: seq<Op>): (t: State)
    ensures Inv(t)
  {
    if ops == [] then NewInv(); New() else Step(Run(ops[..|ops| - 1]), ops[|ops| - 1])
  }

  function RunFrom(s: State, ops: seq<Op>): (t: State)
    requires Inv(s)
    ensures Inv(t)
  {
    if ops == [] then s else Step(RunFrom(s, ops[..|ops| - 1]), ops[|ops| - 1])
  }

  /** A flow keeps its ID until it is released with that very ID, whatever the other flows do. */
  lemma {:induction false} StableUntilReleased(s: State, key: Flow, ops: seq<Op>)
    requires Inv(s) && key in s.mapping
    requires forall i :: 0 <= i < |ops| ==> ops[i] != Free(key, s.mapping[key])
    ensures key in RunFrom(s, ops).mapping && RunFrom(s, ops).mapping[key] == s.mapping[key]
    ensures Given(RunFrom(s, ops), key) == Some(s.mapping[key])
  {
    if ops != [] {
      hide Inv, Step;
      StableUntilReleased(s, key, ops[..|ops| - 1]);
      StepStable(RunFrom(s, ops[..|ops| - 1]), key, ops[|ops| - 1]);
    }
  }

  lemma StepStable(s: State, key: Flow, op: Op)
    requires Inv(s) && key in s.mapping && op != Free(key, s.mapping[key])
    ensures key in Step(s, op).mapping && Step(s, op).mapping[key] == s.mapping[key]
  {
    hide FirstFree;
  }

  /** An ID just given out and released at once is given out next only if no other is free. */
  lemma ReleasedComesLast(s: State, key: Flow, other: Flow)
    requires Inv(s) && key !in s.mapping && other !in s.mapping && FirstFree(s).Some?
    ensures var id := FirstFree(s).value;
            var t := Step(Step(s, Get(key)), Free(key, id));
            && t.mapping == s.mapping
            && (Given(t, other) == Some(id) <==> forall i :: 0 <= i < MAX_UINT16 && i != id ==> t.assignment[i])
  {
    hide Inv, Scan, FirstFree;
    LengthOf(s);
    var id := FirstFree(s).value;
    FirstFreeIsCyclic(s);
    var t := Step(Step(s, Get(key)), Free(key, id));
    LengthOf(t);
    assert t.mapping == s.mapping;
    FirstFreeIsCyclic(t);
    assert !t.assignment[id];
    assert StartAt(t) == if id + 1 == MAX_UINT16 then 0 else id + 1;
    assert forall j :: 0 <= j < MAX_UINT16 && j != id ==> Distance(StartAt(t), j) < Distance(StartAt(t), id);
  }

  lemma LengthOf(s: State)
    requires Inv(s)
    ensures |s.assignment| == MAX_UINT16
  {
  }

  // ----- the object -----

  class EchoIDTracker {
    var mapping: map<Flow, uint16>
    const assignment: array<bool>
    var nextAssignment: uint16

    ghost function View(): State
      reads this, assignment
    {
      State(mapping, assignment[..], nextAssignment)
    }

    constructor ()
      ensures View() == New() && fresh(assignment) && Inv(View())
    {
      mapping, nextAssignment := map[], 0;
      assignment := new bool[MAX_UINT16](_ => false);
      new;
      NewInv();
    }

    /** The first unassigned ID from `lo` on, or `hi` if there is none below it. */
    method FindFree(lo: nat, hi: nat) returns (i: nat)
      requires lo <= hi <= assignment.Length
      ensures i == Scan(assignment[..], lo, hi)
    {
      i := lo;
      while i < hi
        invariant lo <= i <= hi && Scan(assignment[..], lo, hi) == Scan(assignment[..], i, hi)
      {
        if !assignment[i] {
          return;
        }
        i := i + 1;
      }
    }

    method Get(key: Flow) returns (id: uint16, success: bool)
      requires Inv(View())
      modifies this, assignment
      ensures Inv(View()) && View() == GetOrAssign(old(View()), key)
      ensures success == Given(old(View()), key).Some? && id == (if success then Given(old(View()), key).value else 0)
      ensures key in old(mapping) ==> success && id == old(mapping)[key] && View() == old(View())
      ensures key !in old(mapping) && success ==>
                && id < MAX_UINT16 && !old(assignment[..])[id]
                && mapping == old(mapping)[key := id] && nextAssignment == id + 1
      ensures !success ==> mapping == old(mapping) && assignment[..] == old(assignment[..])
    {
      hide Inv, Scan;
      ghost var s := View();
      GetKeeps(s, key);
      LengthOf(s);
      FirstFreeIsCyclic(s);
      if key in mapping {
        return mapping[key], true;
      }
      if nextAssignment == MAX_UINT16 {
        nextAssignment := 0;
      }
      var i := FindFree(nextAssignment, MAX_UINT16);
      if i < MAX_UINT16 {
        Assign(key, i);
        return i, true;
      }
      i := FindFree(0, nextAssignment);
      if i < nextAssignment {
        Assign(key, i);
        return i, true;
      }
      return 0, false;
    }

    method Assign(key: Flow, assignedEchoID: uint16)
      requires assignment.Length == MAX_UINT16 && assignedEchoID < MAX_UINT16
      modifies this, assignment
      ensures View() == Assigned(old(View()), key, assignedEchoID)
    {
      assignment[assignedEchoID] := true;
      mapping := mapping[key := assignedEchoID];
      nextAssignment := assignedEchoID + 1;
    }

    method ReleaseID(key: Flow, held: uint16) returns (ok: bool)
      requires Inv(View())
      modifies this, assignment
      ensures Inv(View()) && ok == Releases(old(View()), key, held) && View() == Release(old(View()), key, held)
    {
      ghost var s := View();
      ok := false;
      ReleaseKeeps(s, key, held);
      if key in mapping && held == mapping[key] {
        mapping := mapping - {key};
        assignment[held] := false;
        ok := true;
      }
    }
  }
}
