/** Retrying: the backoff handler, the address rotation and the protocol fallback built on it. */
module Backoff {
  import opened Bytes

  /** An int64 result with wrap-around. */
  function Wrap64(x: int): int {
    var m := x % TWO_64;
    if m < TWO_63 then m else m - TWO_64
  }

  /** A Duration shifted left, in nanoseconds. */
  function Shl(d: int, n: nat): int {
    Wrap64(d * Pow2(n))
  }

  const SECOND := 1_000_000_000

  datatype Handler = Handler(maxRetries: nat, retryForever: bool, baseTime: int, retries: nat,
                             resetDeadline: Option<int>)

  function New(maxRetries: nat, retryForever: bool, baseTime: int): Handler {
    Handler(maxRetries, retryForever, baseTime, 0, None)
  }

  function GetBaseTime(b: Handler): int {
    if b.baseTime == 0 then SECOND else b.baseTime
  }

  predicate ResetDue(b: Handler, now: int) {
    b.resetDeadline.Some? && now > b.resetDeadline.value
  }

  function Refreshed(b: Handler, now: int): Handler {
    if ResetDue(b, now) then b.(retries := 0, resetDeadline := None) else b
  }

  predicate Exhausted(b: Handler) {
    b.retries >= b.maxRetries && !b.retryForever
  }

  /** The handler after BackoffTimer. */
  function Advanced(b: Handler, now: int): Handler {
    var c := Refreshed(b, now);
    if c.retries >= c.maxRetries then c else c.(retries := c.retries + 1)
  }

  /** `Panic` is rand.Int63n refusing an argument that is not positive. */
  datatype Timer = Never | After(wait: int) | Panic

  /** `random` stands for the generator: any value below the bound can come out. */
  function Draw(bound: int, random: nat): Timer {
    if bound <= 0 then Panic else After(random % bound)
  }

  function TimerOf(b: Handler, now: int, random: nat): Timer {
    if Exhausted(Refreshed(b, now)) then Never
    else var c := Advanced(b, now); Draw(Shl(GetBaseTime(c), c.retries), random)
  }

  function GetMaxBackoffDuration(b: Handler, cancelled: bool, now: int): Option<int> {
    if cancelled then None
    else if ResetDue(b, now) then Some(SECOND)
    else if Exhausted(b) then None
    else Some(Shl(GetBaseTime(b), b.retries + 1))
  }

  predicate ReachedMaxRetries(b: Handler) {
    b.retries == b.maxRetries
  }

  /** The grace period; None if the generator panics. */
  function Graced(b: Handler, now: int, random: nat): Option<Handler> {
    match Draw(Shl(GetBaseTime(b) * 2, b.retries + 1), random)
    case After(wait) => Some(b.(resetDeadline := Some(now + wait)))
    case _ => None
  }

  function ResetNow(b: Handler, now: int): Handler {
    b.(resetDeadline := Some(now))
  }

  /** The base time doubled `n` times does not overflow. */
  predicate Fits(b: Handler, n: nat) {
    GetBaseTime(b) > 0 && GetBaseTime(b) * Pow2(n) < TWO_63
  }

  // ----- the object -----

  class BackoffHandler {
    const maxRetries: nat
    const retryForever: bool
    const baseTime: int
    var retries: nat
    var resetDeadline: Option<int>

    ghost function View(): Handler
      reads this
    {
      Handler(maxRetries, retryForever, baseTime, retries, resetDeadline)
    }

    constructor (maxRetries: nat, retryForever: bool, baseTime: int)
      ensures View() == New(maxRetries, retryForever, baseTime)
    {
      this.maxRetries, this.retryForever, this.baseTime := maxRetries, retryForever, baseTime;
      retries, resetDeadline := 0, None;
    }

    method BackoffTimer(now: int, random: nat) returns (r: Timer)
      modifies this
      ensures View() == Advanced(old(View()), now) && r == TimerOf(old(View()), now, random)
    {
      if resetDeadline.Some? && now > resetDeadline.value {
        retries, resetDeadline := 0, None;
      }
      if retries >= maxRetries {
        if !retryForever {
          return Never;
        }
      } else {
        retries := retries + 1;
      }
      var base := if baseTime == 0 then SECOND else baseTime;
      var maxTimeToWait := Shl(base, retries);
      r := Draw(maxTimeToWait, random);
    }

    method SetGracePeriod(now: int, random: nat) returns (panicked: bool)
      modifies this`resetDeadline
      ensures panicked == Graced(old(View()), now, random).None?
      ensures View() == if panicked then old(View()) else Graced(old(View()), now, random).value
    {
      var base := if baseTime == 0 then SECOND else baseTime;
      var maxTimeToWait := Shl(base * 2, retries + 1);
      match Draw(maxTimeToWait, random)
      case After(wait) =>
        resetDeadline := Some(now + wait);
        panicked := false;
      case _ =>
        panicked := true;
    }
  }

  // ----- arithmetic -----

  lemma Scaled(d: int, p: int, q: int)
    requires d > 0 && p <= q
    ensures d * p <= d * q
  {
  }

  /** The shift is exact exactly while the product fits 63 bits. */
  lemma ShlExact(d: int, n: nat)
    requires d > 0
    ensures 0 < d * Pow2(n)
    ensures Shl(d, n) == d * Pow2(n) <==> d * Pow2(n) < TWO_63
  {
    var x := d * Pow2(n);
    assert x > 0;
    assert Shl(d, n) < TWO_63;
  }

  /** If the base time can be doubled `top` times, every shift up to that is exact. */
  lemma ShlFits(b: Handler, n: nat, top: nat)
    requires Fits(b, top) && n <= top
    ensures Shl(GetBaseTime(b), n) == GetBaseTime(b) * Pow2(n) && 0 < GetBaseTime(b) * Pow2(n) < TWO_63
  {
    ProductMonotone(b, n, top);
    ShlExact(GetBaseTime(b), n);
  }

  lemma ProductMonotone(b: Handler, m: nat, n: nat)
    requires GetBaseTime(b) > 0 && m <= n
    ensures GetBaseTime(b) * Pow2(m) <= GetBaseTime(b) * Pow2(n)
  {
    Pow2Monotone(m, n);
    Scaled(GetBaseTime(b), Pow2(m), Pow2(n));
  }

  /** Where the doubled duration first leaves 63 bits it is still below 2^64. */
  lemma {:induction false} FirstOverflow(d: int, lo: nat, hi: nat) returns (n: nat)
    requires d > 0 && lo <= hi && d * Pow2(lo) < TWO_63 <= d * Pow2(hi)
    ensures lo < n <= hi && d * Pow2(n - 1) < TWO_63 <= d * Pow2(n)
    decreases hi
  {
    if d * Pow2(hi - 1) < TWO_63 {
      n := hi;
    } else {
      n := FirstOverflow(d, lo, hi - 1);
    }
  }

  /** There the shift wraps to a negative duration. */
  lemma ShlNegative(d: int, n: nat)
    requires d > 0 && n > 0 && d * Pow2(n - 1) < TWO_63 <= d * Pow2(n)
    ensures Shl(d, n) < 0
  {
    assert d * Pow2(n) == 2 * (d * Pow2(n - 1));
  }

  // ----- runs -----

  datatype Event = Timeout(now: int, random: nat) | Grace(now: int, random: nat) | Reset(now: int)

  function Step(b: Handler, ev: Event): Handler {
    match ev
    case Timeout(now, _) => Advanced(b, now)
    case Grace(now, random) => if Graced(b, now, random).Some? then Graced(b, now, random).value else b
    case Reset(now) => ResetNow(b, now)
  }

  function Run(b: Handler, evs: seq<Event>): Handler {
    if evs == [] then b else Step(Run(b, evs[..|evs| - 1]), evs[|evs| - 1])
  }

  /** Retries since the deadline last passed: every timer asked for after that, counted without a limit. */
  function Asked(b: Handler, evs: seq<Event>): nat {
    if evs == [] then 0
    else
      var before, ev := evs[..|evs| - 1], evs[|evs| - 1];
      if !ev.Timeout? then Asked(b, before)
      else if ResetDue(Run(b, before), ev.now) then 1
      else Asked(b, before) + 1
  }

  /**
    In every run the number of retries is the number of timers asked for since the last reset, capped at the maximum.
   */
  lemma {:induction false} RetriesAreCapped(b: Handler, evs: seq<Event>)
    requires b.retries == 0
    ensures var c := Run(b, evs);
            && c.retries == Min(b.maxRetries, Asked(b, evs))
            && c == b.(retries := c.retries, resetDeadline := c.resetDeadline)
  {
    if evs != [] {
      RetriesAreCapped(b, evs[..|evs| - 1]);
    }
  }

  /**
    If base * 2^maxRetries does not overflow, then after any run: the timer does not panic, a wait is below
    base * 2^retries and so below base * 2^maxRetries, and a timer is refused exactly when the retries are used up and
    not to go on forever.
   */
  lemma WaitsAreBounded(b: Handler, evs: seq<Event>, now: int, random: nat)
    requires b.retries == 0 && Fits(b, b.maxRetries)
    ensures var c := Run(b, evs); var t := TimerOf(c, now, random);
            && (t == Never <==> !b.retryForever && b.maxRetries <= (if ResetDue(c, now) then 0 else Asked(b, evs)))
            && t != Panic
            && (t.After? ==>
                  0 <= t.wait < GetBaseTime(b) * Pow2(Advanced(c, now).retries) <= GetBaseTime(b) * Pow2(b.maxRetries))
  {
    hide Pow2, Shl, Fits, Draw;
    FitsMeans(b, b.maxRetries);
    RetriesAreCapped(b, evs);
    var c := Run(b, evs);
    var d := Advanced(c, now);
    assert d.retries <= b.maxRetries;
    ShlFits(b, d.retries, b.maxRetries);
    ProductMonotone(b, d.retries, b.maxRetries);
    DrawsBelow(Shl(GetBaseTime(b), d.retries), random);
  }

  // ----- when the generator panics -----

  /** Neither a timer nor a grace period has panicked on the way. */
  predicate PanicFree(b: Handler, evs: seq<Event>) {
    forall i :: 0 <= i < |evs| ==>
      match evs[i]
      case Timeout(now, random) => TimerOf(Run(b, evs[..i]), now, random) != Panic
      case Grace(now, random) => Graced(Run(b, evs[..i]), now, random).Some?
      case Reset(_) => true
  }

  ghost predicate TimerCanPanic(b: Handler) {
    exists evs, now, random: nat :: PanicFree(b, evs) && TimerOf(Run(b, evs), now, random) == Panic
  }

  ghost predicate GraceCanPanic(b: Handler) {
    exists evs, now, random: nat :: PanicFree(b, evs) && Graced(Run(b, evs), now, random).None?
  }

  predicate Unused(b: Handler) {
    b.retries == 0 && b.resetDeadline.None?
  }

  /** Timers asked for one after the other, without a grace period. */
  function Timeouts(n: nat): seq<Event> {
    seq(n, _ => Timeout(0, 0))
  }

  lemma {:induction false} RunTimeouts(b: Handler, n: nat)
    requires Unused(b) && n <= b.maxRetries
    ensures Run(b, Timeouts(n)) == b.(retries := n)
  {
    if n > 0 {
      RunTimeouts(b, n - 1);
      assert Timeouts(n)[..n - 1] == Timeouts(n - 1);
    }
  }

  lemma TimeoutsPanicFree(b: Handler, n: nat)
    requires Unused(b) && n <= b.maxRetries && Fits(b, n)
    ensures PanicFree(b, Timeouts(n)) && Run(b, Timeouts(n)) == b.(retries := n)
  {
    hide Pow2, Shl, Fits, Draw, Run;
    RunTimeouts(b, n);
    forall i | 0 <= i < n ensures TimerOf(Run(b, Timeouts(n)[..i]), 0, 0) != Panic {
      assert Timeouts(n)[..i] == Timeouts(i);
      RunTimeouts(b, i);
      ShlFits(b, i + 1, n);
      DrawsBelow(Shl(GetBaseTime(b), i + 1), 0);
    }
  }

  /** One more timer than the base time can be doubled panics. */
  lemma NextTimerPanics(b: Handler, n: nat, random: nat)
    requires Unused(b) && 0 < n <= b.maxRetries && Fits(b, n - 1) && GetBaseTime(b) * Pow2(n) >= TWO_63
    ensures PanicFree(b, Timeouts(n - 1)) && TimerOf(Run(b, Timeouts(n - 1)), 0, random) == Panic
  {
    hide Pow2, Shl, Run, PanicFree;
    TimeoutsPanicFree(b, n - 1);
    ShlNegative(GetBaseTime(b), n);
  }

  /** Some run makes BackoffTimer panic exactly when base * 2^maxRetries does not fit an int64. */
  lemma TimerPanicsExactly(b: Handler)
    requires Unused(b) && 0 < GetBaseTime(b) < TWO_63
    ensures TimerCanPanic(b) <==> GetBaseTime(b) * Pow2(b.maxRetries) >= TWO_63
  {
    hide Shl, Run, PanicFree, TimerOf;
    if GetBaseTime(b) * Pow2(b.maxRetries) >= TWO_63 {
      assert Pow2(0) == 1;
      var n := FirstOverflow(GetBaseTime(b), 0, b.maxRetries);
      NextTimerPanics(b, n, 0);
    } else {
      forall evs, now, random: nat ensures TimerOf(Run(b, evs), now, random) != Panic {
        WaitsAreBounded(b, evs, now, random);
      }
    }
  }

  /** With a base of one second that is from 34 retries on: the 34th asks the generator for a negative number. */
  lemma ThirtyFourRetriesPanic(b: Handler, random: nat)
    requires Unused(b) && (b.baseTime == SECOND || b.baseTime == 0)
    ensures TimerCanPanic(b) <==> b.maxRetries >= 34
    ensures b.maxRetries >= 34 ==>
              PanicFree(b, Timeouts(33)) && TimerOf(Run(b, Timeouts(33)), 0, random) == Panic
  {
    hide Run, PanicFree, TimerOf, TimerCanPanic;
    SecondDoubled();
    TimerPanicsExactly(b);
    if b.maxRetries >= 34 {
      ProductMonotone(b, 34, b.maxRetries);
      NextTimerPanics(b, 34, random);
    } else {
      ProductMonotone(b, b.maxRetries, 33);
    }
  }

  lemma SecondDoubled()
    ensures SECOND * Pow2(33) < TWO_63 <= SECOND * Pow2(34)
  {
    assert Pow2(10) == 1024;
    assert Pow2(20) == 1024 * 1024;
    assert Pow2(30) == 1024 * 1024 * 1024;
    assert Pow2(33) == 8 * 1024 * 1024 * 1024;
  }

  lemma GraceShift(b: Handler, n: nat)
    ensures Shl(GetBaseTime(b) * 2, n + 1) == Shl(GetBaseTime(b), n + 2)
  {
    assert GetBaseTime(b) * 2 * Pow2(n + 1) == GetBaseTime(b) * Pow2(n + 2);
  }

  /**
    Some run makes SetGracePeriod panic exactly when base * 2^(maxRetries + 2) does not fit, for a base that fits
    twice doubled.
   */
  lemma GracePanicsExactly(b: Handler)
    requires Unused(b) && Fits(b, 2)
    ensures GraceCanPanic(b) <==> GetBaseTime(b) * Pow2(b.maxRetries + 2) >= TWO_63
  {
    hide Pow2, PanicFree, Run, Graced, Fits;
    FitsMeans(b, 2);
    FitsMeans(b, b.maxRetries + 2);
    if Fits(b, b.maxRetries + 2) {
      forall evs, now, random: nat ensures Graced(Run(b, evs), now, random).Some? {
        GraceFits(b, evs, now, random);
      }
    } else {
      var n := FirstOverflow(GetBaseTime(b), 2, b.maxRetries + 2);
      FitsMeans(b, n - 1);
      GraceOverflows(b, n);
    }
  }

  lemma GraceFits(b: Handler, evs: seq<Event>, now: int, random: nat)
    requires b.retries == 0 && Fits(b, b.maxRetries + 2)
    ensures Graced(Run(b, evs), now, random).Some?
  {
    hide Pow2, Shl, Fits, Draw, Run;
    RetriesAreCapped(b, evs);
    var r := Run(b, evs).retries;
    GraceShift(b, r);
    ShlFits(b, r + 2, b.maxRetries + 2);
    DrawsBelow(Shl(GetBaseTime(b), r + 2), random);
  }

  /** A grace period ends within base * 2^(retries + 2), and any moment up to then can be its end. */
  lemma GraceBounds(b: Handler, now: int, random: nat)
    requires Fits(b, b.retries + 2)
    ensures var bound := GetBaseTime(b) * Pow2(b.retries + 2);
            && bound > 0 && Graced(b, now, random) == Some(b.(resetDeadline := Some(now + random % bound)))
            && Graced(b, now, bound - 1) == Some(b.(resetDeadline := Some(now + bound - 1)))
  {
    hide Pow2, Shl, Fits, Draw;
    ShlFits(b, b.retries + 2, b.retries + 2);
    GraceShift(b, b.retries);
    DrawIs(GetBaseTime(b) * Pow2(b.retries + 2), random);
    DrawsBelow(GetBaseTime(b) * Pow2(b.retries + 2), 0);
  }

  lemma DrawIs(bound: int, random: nat)
    requires bound > 0
    ensures Draw(bound, random) == After(random % bound)
  {
  }

  lemma FitsMeans(b: Handler, n: nat)
    ensures Fits(b, n) <==> GetBaseTime(b) > 0 && GetBaseTime(b) * Pow2(n) < TWO_63
  {
  }

  lemma GraceOverflows(b: Handler, n: nat)
    requires Unused(b) && 2 < n <= b.maxRetries + 2 && Fits(b, n - 1) && GetBaseTime(b) * Pow2(n) >= TWO_63
    ensures PanicFree(b, Timeouts(n - 2)) && Graced(Run(b, Timeouts(n - 2)), 0, 0).None?
  {
    hide Pow2, Shl, PanicFree, Run;
    ProductMonotone(b, n - 2, n - 1);
    TimeoutsPanicFree(b, n - 2);
    GraceShift(b, n - 2);
    ShlNegative(GetBaseTime(b), n);
  }

  /** Whatever the generator draws, the next BackoffTimer stays below the prediction and agrees on exhaustion. */
  ghost predicate Predicts(b: Handler, now: int) {
    var g := GetMaxBackoffDuration(b, false, now);
    forall random: nat ::
      var t := TimerOf(b, now, random);
      (g.Some? <==> t != Never) && (t.After? ==> g.Some? && t.wait < g.value)
  }

  /**
    The prediction is right exactly when no reset is due, or after it a retry is left and the first wait is within a
    second.
   */
  predicate Predictable(b: Handler, now: int) {
    !ResetDue(b, now) || ((b.maxRetries > 0 || b.retryForever) && GetBaseTime(b) * Pow2(Min(1, b.maxRetries)) <= SECOND)
  }

  lemma PredictionExact(b: Handler, now: int)
    requires Fits(b, b.maxRetries + 1) && b.retries <= b.maxRetries
    ensures Predicts(b, now) <==> Predictable(b, now)
  {
    if ResetDue(b, now) {
      PredictionAfterReset(b, now);
    } else {
      PredictionHolds(b, now);
    }
  }

  /** One retry of one second used up, a grace period set and over: the next wait can be twice what is predicted. */
  lemma PredictionFails()
    ensures var b := Run(New(1, false, SECOND), [Timeout(0, 0), Grace(0, 0)]);
            ResetDue(b, 1) && GetMaxBackoffDuration(b, false, 1) == Some(SECOND) && !Predicts(b, 1)
  {
    var evs := [Timeout(0, 0), Grace(0, 0)];
    var b0 := New(1, false, SECOND);
    assert evs[..1] == [Timeout(0, 0)] && evs[..1][..0] == [];
    assert Pow2(1) == 2 && Pow2(2) == 4;
    assert Run(b0, evs[..1]) == b0.(retries := 1);
    var b := Run(b0, evs);
    assert b == b0.(retries := 1, resetDeadline := Some(0));
    PredictionExact(b, 1);
  }

  lemma PredictionHolds(b: Handler, now: int)
    requires Fits(b, b.maxRetries + 1) && b.retries <= b.maxRetries && !ResetDue(b, now)
    ensures Predicts(b, now)
  {
    hide Pow2, Shl, Fits;
    var d := Advanced(b, now);
    ShlFits(b, d.retries, b.maxRetries + 1);
    ShlFits(b, b.retries + 1, b.maxRetries + 1);
    FitsMeans(b, b.maxRetries + 1);
    ProductMonotone(b, d.retries, b.retries + 1);
  }

  lemma DrawsBelow(bound: int, random: nat)
    requires bound > 0
    ensures Draw(bound, random).After? && 0 <= Draw(bound, random).wait < bound
    ensures Draw(bound, bound - 1) == After(bound - 1)
  {
  }

  lemma PredictionAfterReset(b: Handler, now: int)
    requires Fits(b, b.maxRetries + 1) && b.retries <= b.maxRetries && ResetDue(b, now)
    ensures Predicts(b, now) <==> Predictable(b, now)
  {
    hide Pow2, Shl, Fits, Draw;
    var d := Advanced(b, now);
    ShlFits(b, d.retries, b.maxRetries + 1);
    var bound := GetBaseTime(b) * Pow2(d.retries);
    var worst := TimerOf(b, now, bound - 1);
    DrawsBelow(bound, 0);
    if Predictable(b, now) {
      forall random: nat ensures TimerOf(b, now, random).After? && TimerOf(b, now, random).wait < SECOND {
        DrawsBelow(bound, random);
      }
    } else {
      assert worst == Never || worst == After(bound - 1);
    }
  }

  // ----- address rotation -----

  type uint8 = n: int | 0 <= n < 256

  datatype ConnError = NoError | DupConnRegister | QuicIdleTimeout | DialError | QuicDialError | OtherError

  datatype Verdict = Verdict(needsNewAddress: bool, connectivity: Option<bool>)

  predicate IsDial(err: ConnError) {
    err == DialError || err == QuicDialError
  }

  function RetriesOf(m: map<uint8, uint8>, connIndex: uint8): uint8 {
    if connIndex in m then m[connIndex] else 0
  }

  class IpAddrFallback {
    var retriesByConnIndex: map<uint8, uint8>
    const maxRetries: uint8

    constructor (maxRetries: uint8)
      ensures retriesByConnIndex == map[] && this.maxRetries == maxRetries
    {
      retriesByConnIndex := map[];
      this.maxRetries := maxRetries;
    }

    ghost predicate Valid()
      reads this
    {
      RetriesWithin(retriesByConnIndex, maxRetries)
    }

    /** Dial errors move to a new address at once; only every so many of them count as having reached the maximum. */
    method ShouldGetNewAddress(connIndex: uint8, err: ConnError) returns (r: Verdict)
      requires Valid()
      modifies this`retriesByConnIndex
      ensures Valid()
      ensures retriesByConnIndex == AfterError(old(retriesByConnIndex), maxRetries, Failure(connIndex, err))
      ensures r == VerdictOn(old(retriesByConnIndex), maxRetries, Failure(connIndex, err))
      ensures r.needsNewAddress <==> err in {DupConnRegister, QuicIdleTimeout, DialError, QuicDialError}
      ensures r.connectivity.Some? <==> err in {DialError, QuicDialError}
      ensures err !in {DialError, QuicDialError} ==> retriesByConnIndex == old(retriesByConnIndex)
    {
      match err
      case NoError =>
        r := Verdict(false, None);
      case DupConnRegister =>
        r := Verdict(true, None);
      case QuicIdleTimeout =>
        r := Verdict(true, None);
      case DialError =>
        r := CountDial(connIndex);
      case QuicDialError =>
        r := CountDial(connIndex);
      case OtherError =>
        r := Verdict(false, None);
    }

    method CountDial(connIndex: uint8) returns (r: Verdict)
      requires Valid()
      modifies this`retriesByConnIndex
      ensures Valid()
      ensures retriesByConnIndex == AfterError(old(retriesByConnIndex), maxRetries, Failure(connIndex, DialError))
      ensures r == VerdictOn(old(retriesByConnIndex), maxRetries, Failure(connIndex, DialError))
    {
      if RetriesOf(retriesByConnIndex, connIndex) >= maxRetries {
        retriesByConnIndex := retriesByConnIndex[connIndex := 0];
        return Verdict(true, Some(true));
      }
      retriesByConnIndex := retriesByConnIndex[connIndex := RetriesOf(retriesByConnIndex, connIndex) + 1];
      r := Verdict(true, Some(false));
    }
  }

  datatype Failure = Failure(connIndex: uint8, err: ConnError)

  predicate RetriesWithin(m: map<uint8, uint8>, maxRetries: uint8) {
    forall c :: c in m ==> m[c] <= maxRetries
  }

  function AfterError(m: map<uint8, uint8>, maxRetries: uint8, f: Failure): (r: map<uint8, uint8>)
    requires RetriesWithin(m, maxRetries)
    ensures RetriesWithin(r, maxRetries)
  {
    if !IsDial(f.err) then m
    else
      var n := RetriesOf(m, f.connIndex);
      m[f.connIndex := if n >= maxRetries then 0 else n + 1]
  }

  function VerdictOn(m: map<uint8, uint8>, maxRetries: uint8, f: Failure): Verdict {
    if IsDial(f.err) then Verdict(true, Some(RetriesOf(m, f.connIndex) >= maxRetries))
    else Verdict(f.err == DupConnRegister || f.err == QuicIdleTimeout, None)
  }

  function AfterErrors(maxRetries: uint8, fs: seq<Failure>): (r: map<uint8, uint8>)
    ensures RetriesWithin(r, maxRetries)
  {
    if fs == [] then map[] else AfterError(AfterErrors(maxRetries, fs[..|fs| - 1]), maxRetries, fs[|fs| - 1])
  }

  /** How many dial errors connection `c` has had. */
  function DialErrors(fs: seq<Failure>, c: uint8): nat {
    if fs == [] then 0
    else DialErrors(fs[..|fs| - 1], c) + (if fs[|fs| - 1].connIndex == c && IsDial(fs[|fs| - 1].err) then 1 else 0)
  }

  lemma NextModulo(k: nat, m: nat)
    requires m > 0
    ensures (k + 1) % m == if k % m == m - 1 then 0 else k % m + 1
  {
    var q, r := k / m, k % m;
    assert k == q * m + r;
    if r == m - 1 {
      assert k + 1 == (q + 1) * m;
      ModuloOf(q + 1, 0, m);
    } else {
      ModuloOf(q, r + 1, m);
    }
  }

  lemma ModuloOf(q: nat, r: nat, m: nat)
    requires r < m
    ensures (q * m + r) % m == r
  {
    var x := q * m + r;
    assert x == x / m * m + x % m;
    LessByAMultiple(x / m, q, m);
    LessByAMultiple(q, x / m, m);
  }

  lemma {:induction false} LessByAMultiple(a: int, b: int, m: nat)
    ensures a < b ==> a * m + m <= b * m
    decreases b - a
  {
    if a + 1 < b {
      LessByAMultiple(a, b - 1, m);
    }
  }

  lemma {:induction false} RetriesAreModulo(maxRetries: uint8, fs: seq<Failure>, c: uint8)
    ensures RetriesOf(AfterErrors(maxRetries, fs), c) == DialErrors(fs, c) % (maxRetries + 1)
  {
    if fs != [] {
      RetriesAreModulo(maxRetries, fs[..|fs| - 1], c);
      NextModulo(DialErrors(fs[..|fs| - 1], c), maxRetries + 1);
    }
  }

  /**
    Whatever happens to other connections and whatever other errors come between, the k-th dial error of a
    connection reports that the maximum is reached exactly when k is a multiple of maxRetries + 1.
   */
  lemma MaximumEverySoOften(maxRetries: uint8, before: seq<Failure>, f: Failure)
    requires IsDial(f.err)
    ensures var k := DialErrors(before + [f], f.connIndex);
            k == DialErrors(before, f.connIndex) + 1
            && VerdictOn(AfterErrors(maxRetries, before), maxRetries, f)
               == Verdict(true, Some(k % (maxRetries + 1) == 0))
  {
    assert (before + [f])[..|before|] == before;
    RetriesAreModulo(maxRetries, before, f.connIndex);
    NextModulo(DialErrors(before, f.connIndex), maxRetries + 1);
  }

  // ----- protocol fallback -----

  type Protocol = nat

  datatype Fallback = Fallback(handler: Handler, protocol: Protocol, inFallback: bool)

  /**
    What one call of selectNextProtocol hears from the selector, which may look up new values between any two
    questions: whether there is a fallback, which one, and the current protocol.
   */
  datatype Selector = Selector(hasFallback: bool, fallback: Option<Protocol>, current: Protocol)

  predicate WantsFallback(pf: Fallback, sel: Selector, quicBroken: bool) {
    ReachedMaxRetries(pf.handler) || (sel.hasFallback && quicBroken)
  }

  predicate OutOfOptions(pf: Fallback, sel: Selector, quicBroken: bool) {
    WantsFallback(pf, sel, quicBroken) && (sel.fallback.None? || pf.protocol == sel.fallback.value)
  }

  function Selected(pf: Fallback, sel: Selector, quicBroken: bool, now: int): Fallback {
    if OutOfOptions(pf, sel, quicBroken) then pf
    else if WantsFallback(pf, sel, quicBroken) then Fallback(ResetNow(pf.handler, now), sel.fallback.value, true)
    else if pf.inFallback then pf
    else pf.(protocol := sel.current)
  }

  datatype Attempt = Select(sel: Selector, quicBroken: bool, now: int) | Connected(now: int) | TimerUsed(now: int)

  /** `Connected` is protocolFallback.reset, `TimerUsed` a wait before the next attempt. */
  function Attempted(pf: Fallback, a: Attempt): Fallback {
    match a
    case Select(sel, quicBroken, now) => Selected(pf, sel, quicBroken, now)
    case Connected(now) => Fallback(ResetNow(pf.handler, now), pf.protocol, false)
    case TimerUsed(now) => pf.(handler := Advanced(pf.handler, now))
  }

  function Attempts(pf: Fallback, xs: seq<Attempt>): Fallback {
    if xs == [] then pf else Attempted(Attempts(pf, xs[..|xs| - 1]), xs[|xs| - 1])
  }

  /** The attempt moves the connection to the fallback it was told of. */
  predicate Switches(pf: Fallback, a: Attempt) {
    a.Select? && WantsFallback(pf, a.sel, a.quicBroken) && !OutOfOptions(pf, a.sel, a.quicBroken)
  }

  /** The attempt moves the connection to the current protocol it was told of, or finds it there. */
  predicate Follows(pf: Fallback, a: Attempt) {
    a.Select? && !WantsFallback(pf, a.sel, a.quicBroken) && !pf.inFallback
  }

  predicate MovesAt(pf: Fallback, xs: seq<Attempt>, i: nat)
    requires i < |xs|
  {
    Switches(Attempts(pf, xs[..i]), xs[i]) || Follows(Attempts(pf, xs[..i]), xs[i])
  }

  /** The last attempt that moved the connection. */
  function LastMove(pf: Fallback, xs: seq<Attempt>): (r: Option<nat>)
    ensures r.Some? ==> r.value < |xs|
  {
    if xs == [] then None
    else
      var n := |xs| - 1;
      if MovesAt(pf, xs, n) then Some(n) else LastMove(pf, xs[..n])
  }

  /** Between the last move and the end there is none. */
  lemma {:induction false} LastMoveIsLast(pf: Fallback, xs: seq<Attempt>)
    ensures forall i :: 0 <= i < |xs| && MovesAt(pf, xs, i) ==> LastMove(pf, xs).Some? && i <= LastMove(pf, xs).value
    ensures LastMove(pf, xs).Some? ==> MovesAt(pf, xs, LastMove(pf, xs).value)
  {
    if xs != [] {
      var n := |xs| - 1;
      LastMoveIsLast(pf, xs[..n]);
      forall i | 0 <= i < n ensures MovesAt(pf, xs[..n], i) == MovesAt(pf, xs, i) {
        assert xs[..n][..i] == xs[..i];
      }
    }
  }

  /**
    However the selector changes its mind, a connection is on the current protocol or the fallback it was told of by
    the attempt that last moved it, and on its first protocol if none has.
   */
  lemma {:induction false} OnlyKnownProtocols(pf: Fallback, xs: seq<Attempt>)
    ensures var q := Attempts(pf, xs);
            match LastMove(pf, xs)
            case None => q.protocol == pf.protocol
            case Some(i) =>
              xs[i].Select? && (if Switches(Attempts(pf, xs[..i]), xs[i]) then xs[i].sel.fallback == Some(q.protocol)
                                else q.protocol == xs[i].sel.current)
  {
    if xs != [] {
      var n := |xs| - 1;
      OnlyKnownProtocols(pf, xs[..n]);
      var last := LastMove(pf, xs[..n]);
      if last.Some? {
        assert xs[..n][..last.value] == xs[..last.value];
      }
    }
  }

  /**
    A connection in fallback stays in fallback until it has connected, whatever goes wrong: no attempt moves it back
    to a current protocol, and only another fallback, if the selector names one, replaces the one it is on.
   */
  lemma {:induction false} FallbackSticks(pf: Fallback, xs: seq<Attempt>)
    requires pf.inFallback && forall i :: 0 <= i < |xs| ==> !xs[i].Connected?
    ensures Attempts(pf, xs).inFallback
    ensures forall i :: 0 <= i < |xs| ==> !Follows(Attempts(pf, xs[..i]), xs[i])
    ensures match LastMove(pf, xs)
            case None => Attempts(pf, xs).protocol == pf.protocol
            case Some(i) => xs[i].Select? && xs[i].sel.fallback == Some(Attempts(pf, xs).protocol)
  {
    if xs != [] {
      var n := |xs| - 1;
      FallbackSticks(pf, xs[..n]);
      forall i | 0 <= i < n ensures !Follows(Attempts(pf, xs[..i]), xs[i]) {
        assert xs[..n][..i] == xs[..i] && xs[..n][i] == xs[i];
      }
    }
  }

  /** How many waits there were. */
  function Waits(xs: seq<Attempt>): nat {
    if xs == [] then 0 else Waits(xs[..|xs| - 1]) + (if xs[|xs| - 1].TimerUsed? then 1 else 0)
  }

  /** Nothing but waits, and selections that come before the retries are used up and not over a broken QUIC. */
  predicate Early(maxRetries: nat, xs: seq<Attempt>) {
    forall i :: 0 <= i < |xs| ==>
      xs[i].TimerUsed? || (xs[i].Select? && !xs[i].quicBroken && Waits(xs[..i]) < maxRetries)
  }

  lemma {:induction false} WaitsAreRetries(pf: Fallback, xs: seq<Attempt>)
    requires Unused(pf.handler) && !pf.inFallback && Early(pf.handler.maxRetries, xs)
    ensures var q := Attempts(pf, xs);
            q.handler == pf.handler.(retries := Min(pf.handler.maxRetries, Waits(xs))) && !q.inFallback
  {
    if xs != [] {
      var n := |xs| - 1;
      assert Early(pf.handler.maxRetries, xs[..n]) by {
        forall i | 0 <= i < n
          ensures xs[i].TimerUsed?
                  || (xs[i].Select? && !xs[i].quicBroken && Waits(xs[..n][..i]) < pf.handler.maxRetries)
        {
          assert xs[..n][..i] == xs[..i];
        }
      }
      WaitsAreRetries(pf, xs[..n]);
    }
  }

  /**
    From a fresh connection, by the events alone. Before maxRetries waits, and while QUIC is not broken, no selection
    switches or gives up: it follows the current protocol. From then on, a selection that is told of another protocol as
    fallback moves the connection there, and one that is told of none, or of the protocol in use, gives up. A broken
    QUIC with a fallback counts as retries used up.
   */
  lemma SwitchesWhenUsedUp(pf: Fallback, xs: seq<Attempt>, sel: Selector, quicBroken: bool, now: int)
    requires Unused(pf.handler) && !pf.inFallback && Early(pf.handler.maxRetries, xs)
    ensures var q := Attempts(pf, xs);
            var r := Attempted(q, Select(sel, quicBroken, now));
            if Waits(xs) < pf.handler.maxRetries && !(quicBroken && sel.hasFallback) then
              !OutOfOptions(q, sel, quicBroken) && r.protocol == sel.current && !r.inFallback
            else if sel.fallback.Some? && sel.fallback.value != q.protocol then
              !OutOfOptions(q, sel, quicBroken) && r.protocol == sel.fallback.value && r.inFallback
            else OutOfOptions(q, sel, quicBroken) && r == q
  {
    WaitsAreRetries(pf, xs);
  }

  /** After connecting, or after a switch, the next wait starts the retries over; until then they are as they were. */
  lemma StartsOver(pf: Fallback, now: int, later: int)
    requires later > now && pf.handler.maxRetries > 0
    ensures var connected := Attempted(pf, Connected(now));
            && connected.handler.retries == pf.handler.retries
            && Attempted(connected, TimerUsed(later)).handler.retries == 1
    ensures forall sel, quicBroken :: Switches(pf, Select(sel, quicBroken, now)) ==>
              Attempted(Attempted(pf, Select(sel, quicBroken, now)), TimerUsed(later)).handler.retries == 1
  {
  }

  /** The i-th attempt switched and the connection has not connected since. */
  predicate SwitchedAt(pf: Fallback, xs: seq<Attempt>, i: nat)
    requires i < |xs|
  {
    Switches(Attempts(pf, xs[..i]), xs[i]) && forall j :: i < j < |xs| ==> !xs[j].Connected?
  }

  lemma SwitchedBefore(pf: Fallback, xs: seq<Attempt>, i: nat)
    requires i < |xs| - 1
    ensures SwitchedAt(pf, xs, i) <==> SwitchedAt(pf, xs[..|xs| - 1], i) && !xs[|xs| - 1].Connected?
  {
    hide Switches;
    var n := |xs| - 1;
    assert xs[..n][..i] == xs[..i];
    assert forall j :: i < j < n ==> xs[..n][j] == xs[j];
  }

  lemma SwitchedNow(pf: Fallback, xs: seq<Attempt>)
    requires xs != []
    ensures SwitchedAt(pf, xs, |xs| - 1) <==> Switches(Attempts(pf, xs[..|xs| - 1]), xs[|xs| - 1])
  {
  }

  /** A connection is in fallback exactly if it switched and has not connected since. */
  lemma {:induction false} InFallbackExactly(pf: Fallback, xs: seq<Attempt>)
    requires !pf.inFallback
    ensures Attempts(pf, xs).inFallback <==> exists i :: 0 <= i < |xs| && SwitchedAt(pf, xs, i)
  {
    if xs != [] {
      hide SwitchedAt;
      var n := |xs| - 1;
      InFallbackExactly(pf, xs[..n]);
      SwitchedNow(pf, xs);
      forall i | 0 <= i < n ensures SwitchedAt(pf, xs, i) <==> SwitchedAt(pf, xs[..n], i) && !xs[n].Connected? {
        SwitchedBefore(pf, xs, i);
      }
    }
  }

  class ProtocolFallback {
    var handler: Handler
    var protocol: Protocol
    var inFallback: bool

    ghost function View(): Fallback
      reads this
    {
      Fallback(handler, protocol, inFallback)
    }

    constructor (handler: Handler, protocol: Protocol)
      ensures View() == Fallback(handler, protocol, false)
    {
      this.handler, this.protocol, inFallback := handler, protocol, false;
    }

    /** Returns whether to go on retrying. */
    method SelectNextProtocol(sel: Selector, quicBroken: bool, now: int) returns (ok: bool)
      modifies this
      ensures ok == !OutOfOptions(old(View()), sel, quicBroken) && View() == Selected(old(View()), sel, quicBroken, now)
      ensures var usedUp := old(handler).retries == old(handler).maxRetries;
              var wants := usedUp || (sel.hasFallback && quicBroken);
              && (ok <==> !wants || (sel.fallback.Some? && sel.fallback.value != old(protocol)))
              && (wants && ok ==> protocol == sel.fallback.value && inFallback && handler.resetDeadline == Some(now))
              && (!ok || (!wants && old(inFallback)) ==> protocol == old(protocol) && inFallback == old(inFallback))
              && (!wants && !old(inFallback) ==> protocol == sel.current && !inFallback)
              && (!wants || !ok ==> handler == old(handler))
    {
      if handler.retries == handler.maxRetries || (sel.hasFallback && quicBroken) {
        if sel.fallback.None? {
          return false;
        }
        if protocol == sel.fallback.value {
          return false;
        }
        handler, protocol, inFallback := handler.(resetDeadline := Some(now)), sel.fallback.value, true;
      } else if !inFallback {
        if protocol != sel.current {
          protocol := sel.current;
        }
      }
      ok := true;
    }
  }
}
