/** The circuit breaker: a three-state machine whose calls overlap.

    Admission and completion are separate lock-protected steps, so a run of many
    overlapping calls is a sequence of steps in lock order. The machine takes any
    such sequence; which completion belongs to which admission does not matter. */
module CircuitBreaker {
  import opened Selection

  datatype State = Closed | Open | HalfOpen

  datatype Config = Config(failureThreshold: int, recoveryTimeout: real, windowSeconds: real)

  /** The mutable fields. */
  datatype Core = Core(state: State, failures: seq<real>, openedAt: real)

  /** One lock-protected step and the clock reading it is made at. `tracked` says whether
      the exception is one of the tracked types. */
  datatype Event =
    | BeforeCall(now: real)
    | Success(now: real)
    | Failure(now: real, tracked: bool)

  const INITIAL := Core(Closed, [], 0.0)

  /** The timestamps after the cutoff, in order. */
  function After(times: seq<real>, cutoff: real): seq<real> {
    if times == [] then []
    else Kept(times[0], cutoff) + After(times[1..], cutoff)
  }

  function Kept(time: real, cutoff: real): seq<real> {
    if time > cutoff then [time] else []
  }

  /** Whether a call arriving now is let through. */
  predicate Admits(c: Config, b: Core, now: real) {
    b.state.Open? ==> now - b.openedAt >= c.recoveryTimeout
  }

  function Step(c: Config, b: Core, e: Event): Core {
    match e
    case BeforeCall(now) =>
      if b.state.Open? && now - b.openedAt >= c.recoveryTimeout then b.(state := HalfOpen) else b
    case Success(_) =>
      if b.state.HalfOpen? then b.(state := Closed, failures := []) else b
    case Failure(now, tracked) =>
      if !tracked then b
      else if b.state.HalfOpen? then b.(state := Open, openedAt := now)
      else if b.state.Closed? then
        var recent := After(b.failures, now - c.windowSeconds) + [now];
        if |recent| >= c.failureThreshold then Core(Open, recent, now) else b.(failures := recent)
      else b
  }

  /** The fields after a run of steps from the initial state. */
  function Run(c: Config, es: seq<Event>): Core {
    if es == [] then INITIAL else Step(c, Run(c, es[..|es| - 1]), es[|es| - 1])
  }

  /** The clock is monotone in lock order. */
  ghost predicate Monotone(es: seq<Event>) {
    forall i, j :: 0 <= i <= j < |es| ==> es[i].now <= es[j].now
  }

  lemma RunTo(c: Config, es: seq<Event>, k: nat)
    requires k < |es|
    ensures Run(c, es[..k + 1]) == Step(c, Run(c, es[..k]), es[k])
  {
    assert es[..k + 1][..k] == es[..k];
  }

  // ---------------------------------------------------------------------
  // Recovery
  // ---------------------------------------------------------------------

  /** Step i opens the circuit. */
  predicate Opens(c: Config, es: seq<Event>, i: nat)
    requires i < |es|
  {
    !Run(c, es[..i]).state.Open? && Run(c, es[..i + 1]).state.Open?
  }

  /** Step j lets a call through. */
  predicate Lets(c: Config, es: seq<Event>, j: nat)
    requires j < |es|
  {
    es[j].BeforeCall? && Admits(c, Run(c, es[..j]), es[j].now)
  }

  /** From an opening at step i, either the circuit is still open with that opening
      time, or the clock has reached the end of the recovery timeout. */
  lemma {:induction false} StillOpenOrRecovered(c: Config, es: seq<Event>, i: nat, k: nat)
    requires Monotone(es) && i < k <= |es| && Opens(c, es, i)
    ensures (Run(c, es[..k]).state.Open? && Run(c, es[..k]).openedAt == es[i].now)
         || es[k - 1].now >= es[i].now + c.recoveryTimeout
  {
    if k == i + 1 {
      RunTo(c, es, i);
    } else {
      StillOpenOrRecovered(c, es, i, k - 1);
      RunTo(c, es, k - 1);
    }
  }

  /** No call is let through from an opening until the recovery timeout has passed. */
  lemma NoAdmissionWhileOpen(c: Config, es: seq<Event>, i: nat, j: nat)
    requires Monotone(es) && i < j < |es| && Opens(c, es, i) && Lets(c, es, j)
    ensures es[j].now >= es[i].now + c.recoveryTimeout
  {
    StillOpenOrRecovered(c, es, i, j);
  }

  /** Two openings are at least a recovery timeout apart. */
  lemma OpeningsApart(c: Config, es: seq<Event>, i: nat, j: nat)
    requires Monotone(es) && i < j < |es| && Opens(c, es, i) && Opens(c, es, j)
    ensures es[j].now >= es[i].now + c.recoveryTimeout
  {
    StillOpenOrRecovered(c, es, i, j);
  }

  /** The number of openings among steps low..high-1. */
  ghost function Openings(c: Config, es: seq<Event>, low: nat, high: nat): nat
    requires low <= high <= |es|
  {
    if low == high then 0 else Openings(c, es, low, high - 1) + if Opens(c, es, high - 1) then 1 else 0
  }

  /** Steps low..high-1, read within a span of the clock, hold at most
      span / recovery_timeout + 1 openings. */
  lemma OpeningsInSpan(c: Config, es: seq<Event>, low: nat, high: nat, span: real)
    requires Monotone(es) && low < high <= |es| && c.recoveryTimeout > 0.0
    requires es[high - 1].now - es[low].now <= span
    ensures Openings(c, es, low, high) as real <= span / c.recoveryTimeout + 1.0
  {
    var n := Openings(c, es, low, high);
    if n > 0 {
      var first, last := OpeningsSpread(c, es, low, high);
      assert es[low].now <= es[first].now && es[last].now <= es[high - 1].now;
      SpacingQuotient(n - 1, c.recoveryTimeout, span);
    } else {
      assert es[low].now <= es[high - 1].now;
      SpacingQuotient(0, c.recoveryTimeout, span);
    }
  }

  /** n recovery timeouts in a row. */
  function Spacing(n: nat, recovery: real): real {
    if n == 0 then 0.0 else Spacing(n - 1, recovery) + recovery
  }

  lemma {:induction false} SpacingIsProduct(n: nat, recovery: real)
    ensures Spacing(n, recovery) == n as real * recovery
  {
    if n > 0 {
      SpacingIsProduct(n - 1, recovery);
    }
  }

  lemma SpacingQuotient(n: nat, recovery: real, span: real)
    requires recovery > 0.0 && Spacing(n, recovery) <= span
    ensures n as real <= span / recovery
  {
    SpacingIsProduct(n, recovery);
    QuotientBound(n as real, span, recovery);
  }

  lemma QuotientBound(n: real, span: real, recovery: real)
    requires recovery > 0.0 && n * recovery <= span
    ensures n <= span / recovery
  {
  }

  /** n openings among the steps spread over at least n - 1 recovery timeouts. */
  lemma {:induction false} OpeningsSpread(c: Config, es: seq<Event>, low: nat, high: nat) returns (first: nat, last: nat)
    requires Monotone(es) && low <= high <= |es| && Openings(c, es, low, high) > 0
    ensures low <= first <= last < high && Opens(c, es, first) && Opens(c, es, last)
    ensures Spacing(Openings(c, es, low, high) - 1, c.recoveryTimeout) <= es[last].now - es[first].now
    decreases high
  {
    if !Opens(c, es, high - 1) {
      first, last := OpeningsSpread(c, es, low, high - 1);
    } else if Openings(c, es, low, high - 1) == 0 {
      first, last := high - 1, high - 1;
    } else {
      first, last := OpeningsSpread(c, es, low, high - 1);
      OpeningsApart(c, es, last, high - 1);
      last := high - 1;
    }
  }

  // ---------------------------------------------------------------------
  // The failure list
  // ---------------------------------------------------------------------

  /** The full history the pruned list stands for: every tracked failure handled
      while CLOSED since the last reset. */
  function Recorded(c: Config, es: seq<Event>): seq<real> {
    if es == [] then []
    else
      var before, e := es[..|es| - 1], es[|es| - 1];
      var state := Run(c, before).state;
      if e.Success? && state.HalfOpen? then []
      else if e.Failure? && e.tracked && state.Closed? then Recorded(c, before) + [e.now]
      else Recorded(c, before)
  }

  lemma {:induction false} AfterAppend(a: seq<real>, b: seq<real>, cutoff: real)
    ensures After(a + b, cutoff) == After(a, cutoff) + After(b, cutoff)
  {
    if a == [] {
      assert a + b == b;
    } else {
      AfterAppend(a[1..], b, cutoff);
      assert (a + b)[1..] == a[1..] + b && (a + b)[0] == a[0];
      assert Kept(a[0], cutoff) + (After(a[1..], cutoff) + After(b, cutoff))
          == Kept(a[0], cutoff) + After(a[1..], cutoff) + After(b, cutoff);
    }
  }

  /** Pruning at an earlier cutoff first makes no difference. */
  lemma {:induction false} PruneTwice(times: seq<real>, early: real, late: real)
    requires early <= late
    ensures After(After(times, early), late) == After(times, late)
  {
    if times != [] {
      PruneTwice(times[1..], early, late);
      AfterAppend(Kept(times[0], early), After(times[1..], early), late);
      KeptTwice(times[0], early, late);
    }
  }

  lemma KeptTwice(time: real, early: real, late: real)
    requires early <= late
    ensures After(Kept(time, early), late) == Kept(time, late)
  {
    assert [time][1..] == [];
  }

  /** The stored list: pruned at the last recorded failure's cutoff, that failure always kept. */
  function Stored(c: Config, recorded: seq<real>): seq<real> {
    if recorded == [] then []
    else
      var last := recorded[|recorded| - 1];
      After(recorded[..|recorded| - 1], last - c.windowSeconds) + [last]
  }

  lemma {:induction false} RecordedNotLater(c: Config, es: seq<Event>)
    requires Monotone(es)
    ensures forall t :: t in Recorded(c, es) ==> es != [] && t <= es[|es| - 1].now
  {
    if es != [] {
      RecordedNotLater(c, es[..|es| - 1]);
    }
  }

  lemma {:induction false} StoredInRun(c: Config, es: seq<Event>)
    requires Monotone(es)
    ensures Run(c, es).failures == Stored(c, Recorded(c, es))
  {
    if es != [] {
      var before, e := es[..|es| - 1], es[|es| - 1];
      StoredInRun(c, before);
      RecordedNotLater(c, before);
      var b, recorded := Run(c, before), Recorded(c, before);
      if e.Failure? && e.tracked && b.state.Closed? {
        assert Recorded(c, es)[..|recorded|] == recorded;
        StoredPrunes(c, recorded, e.now);
      }
    }
  }

  function LaterThan(cutoff: real): real -> bool {
    (time: real) => time > cutoff
  }

  /** Pruning keeps exactly the timestamps later than the cutoff, in order. */
  lemma {:induction false} AfterIsFilter(times: seq<real>, cutoff: real) returns (at: seq<nat>)
    ensures Selects(at, times, After(times, cutoff), LaterThan(cutoff))
  {
    if times == [] {
      at := [];
    } else {
      var later := AfterIsFilter(times[1..], cutoff);
      at := SelectsCons(later, times, After(times[1..], cutoff), LaterThan(cutoff));
    }
  }

  /** The list holds the last recorded failure and, before it and in order, exactly the
      recorded failures less than a window older than that one; `at` are their positions. */
  ghost predicate WindowOf(at: seq<nat>, c: Config, recorded: seq<real>, failures: seq<real>) {
    if recorded == [] then failures == []
    else
      var m, n := |failures| - 1, |recorded| - 1;
      && m >= 0 && failures[m] == recorded[n]
      && Selects(at, recorded[..n], failures[..m], LaterThan(recorded[n] - c.windowSeconds))
  }

  /** At every moment of every run the pruned list is the window of the full history. */
  lemma StoredIsWindow(c: Config, es: seq<Event>) returns (at: seq<nat>)
    requires Monotone(es)
    ensures WindowOf(at, c, Recorded(c, es), Run(c, es).failures)
  {
    StoredInRun(c, es);
    at := StoredIsFilter(c, Recorded(c, es));
  }

  lemma StoredIsFilter(c: Config, recorded: seq<real>) returns (at: seq<nat>)
    ensures WindowOf(at, c, recorded, Stored(c, recorded))
  {
    at := [];
    if recorded != [] {
      var n := |recorded| - 1;
      var kept := After(recorded[..n], recorded[n] - c.windowSeconds);
      at := AfterIsFilter(recorded[..n], recorded[n] - c.windowSeconds);
      assert (kept + [recorded[n]])[..|kept|] == kept;
    }
  }

  lemma StoredPrunes(c: Config, recorded: seq<real>, now: real)
    requires forall t :: t in recorded ==> t <= now
    ensures After(Stored(c, recorded), now - c.windowSeconds) == After(recorded, now - c.windowSeconds)
  {
    if recorded != [] {
      var n := |recorded| - 1;
      var front, last := recorded[..n], recorded[n];
      var early, late := last - c.windowSeconds, now - c.windowSeconds;
      assert early <= late by { assert last in recorded; }
      var stored, whole := After(front, early) + [last], front + [last];
      assert Stored(c, recorded) == stored && recorded == whole;
      assert After(stored, late) == After(whole, late) by { PruneKeepingLast(front, last, early, late); }
    }
  }

  lemma PruneKeepingLast(front: seq<real>, last: real, early: real, late: real)
    requires early <= late
    ensures After(After(front, early) + [last], late) == After(front + [last], late)
  {
    AfterAppend(After(front, early), [last], late);
    AfterAppend(front, [last], late);
    PruneTwice(front, early, late);
  }

  /** The recorded failures still inside the window at this moment. */
  function InWindow(c: Config, es: seq<Event>, now: real): set<nat> {
    set i: nat | i < |Recorded(c, es)| && Recorded(c, es)[i] > now - c.windowSeconds
  }

  /** A CLOSED breaker trips on a tracked failure exactly when the failures recorded
      while CLOSED since the last reset and still inside the window, this one
      included, reach the threshold. */
  lemma TripsIff(c: Config, es: seq<Event>, now: real)
    requires Monotone(es) && (es != [] ==> es[|es| - 1].now <= now)
    requires Run(c, es).state.Closed?
    ensures Run(c, es + [Failure(now, true)]).state.Open? <==> |InWindow(c, es, now)| + 1 >= c.failureThreshold
  {
    TripsOnWindow(c, es, now);
    WindowCount(c, es, now);
  }

  lemma TripsOnWindow(c: Config, es: seq<Event>, now: real)
    requires Monotone(es) && (es != [] ==> es[|es| - 1].now <= now)
    requires Run(c, es).state.Closed?
    ensures Run(c, es + [Failure(now, true)]).state.Open? <==>
      |After(Recorded(c, es), now - c.windowSeconds)| + 1 >= c.failureThreshold
  {
    PrunedInRun(c, es, now);
    Append(c, es, Failure(now, true));
    TripStep(c, Run(c, es), now);
  }

  lemma PrunedInRun(c: Config, es: seq<Event>, now: real)
    requires Monotone(es) && (es != [] ==> es[|es| - 1].now <= now)
    ensures After(Run(c, es).failures, now - c.windowSeconds) == After(Recorded(c, es), now - c.windowSeconds)
  {
    StoredInRun(c, es);
    RecordedNotLater(c, es);
    StoredPrunes(c, Recorded(c, es), now);
  }

  lemma WindowCount(c: Config, es: seq<Event>, now: real)
    ensures |After(Recorded(c, es), now - c.windowSeconds)| == |InWindow(c, es, now)|
  {
    var recorded, cutoff := Recorded(c, es), now - c.windowSeconds;
    var at := AfterIsFilter(recorded, cutoff);
    SelectsCount(at, recorded, After(recorded, cutoff), LaterThan(cutoff));
    assert InWindow(c, es, now) == Positions(recorded, LaterThan(cutoff));
  }

  lemma TripStep(c: Config, b: Core, now: real)
    requires b.state.Closed?
    ensures Step(c, b, Failure(now, true)).state.Open? <==>
      |After(b.failures, now - c.windowSeconds)| + 1 >= c.failureThreshold
  {
  }

  /** While CLOSED the list stays below the threshold, in every run, exactly when the
      threshold is positive. */
  lemma {:induction false} ClosedBelowThreshold(c: Config, es: seq<Event>)
    requires c.failureThreshold >= 1 && Run(c, es).state.Closed?
    ensures |Run(c, es).failures| < c.failureThreshold
  {
    if es != [] {
      var before := es[..|es| - 1];
      if Run(c, before).state.Closed? {
        ClosedBelowThreshold(c, before);
      }
    }
  }

  lemma ClosedBelowThresholdIff(c: Config)
    ensures c.failureThreshold >= 1 <==>
      forall es :: Run(c, es).state.Closed? ==> |Run(c, es).failures| < c.failureThreshold
  {
    forall es | c.failureThreshold >= 1 && Run(c, es).state.Closed?
      ensures |Run(c, es).failures| < c.failureThreshold
    {
      ClosedBelowThreshold(c, es);
    }
    assert Run(c, []) == INITIAL;
  }

  // ---------------------------------------------------------------------
  // Admission
  // ---------------------------------------------------------------------

  /** What a call rejected in these fields is told to wait. */
  function RetryAfter(c: Config, b: Core, now: real): real {
    c.recoveryTimeout - (now - b.openedAt)
  }

  /** Step i, one of steps j..k-1, opened the circuit at this time. */
  predicate OpenedAt(c: Config, es: seq<Event>, j: nat, k: nat, i: nat, time: real)
    requires k <= |es|
  {
    j <= i < k && Opens(c, es, i) && es[i].now == time
  }

  lemma OpensSetsTime(c: Config, es: seq<Event>, i: nat)
    requires i < |es| && Opens(c, es, i)
    ensures Run(c, es[..i + 1]).openedAt == es[i].now
  {
    RunTo(c, es, i);
  }

  lemma StaysOpen(c: Config, es: seq<Event>, i: nat)
    requires i < |es| && Run(c, es[..i]).state.Open? && Run(c, es[..i + 1]).state.Open?
    ensures Run(c, es[..i + 1]).openedAt == Run(c, es[..i]).openedAt
  {
    RunTo(c, es, i);
  }

  /** An open circuit has been open since step j, or the opening that counts came later. */
  lemma {:induction false} OpenSince(c: Config, es: seq<Event>, j: nat, k: nat)
    requires j <= k <= |es| && Run(c, es[..k]).state.Open?
    ensures (Run(c, es[..j]).state.Open? && Run(c, es[..j]).openedAt == Run(c, es[..k]).openedAt)
         || exists i :: OpenedAt(c, es, j, k, i, Run(c, es[..k]).openedAt)
  {
    if j < k {
      var last, time := k - 1, Run(c, es[..k]).openedAt;
      if Run(c, es[..last]).state.Open? {
        StaysOpen(c, es, last);
        OpenSince(c, es, j, last);
        if i: nat :| OpenedAt(c, es, j, last, i, time) {
          assert OpenedAt(c, es, j, k, i, time);
        }
      } else {
        OpensSetsTime(c, es, last);
        assert OpenedAt(c, es, j, k, last, time);
      }
    }
  }

  /** A call rejected at step j is told to wait a positive time. When a call at any later
      step k comes after that wait, whatever happened in between, it is let through exactly when
      every opening in between is a recovery timeout old. */
  lemma RetryAfterHonouredIff(c: Config, es: seq<Event>, j: nat, k: nat)
    requires Monotone(es) && j < k < |es|
    requires es[j].BeforeCall? && !Lets(c, es, j)
    requires es[k].BeforeCall? && es[k].now >= es[j].now + RetryAfter(c, Run(c, es[..j]), es[j].now)
    ensures RetryAfter(c, Run(c, es[..j]), es[j].now) > 0.0
    ensures Lets(c, es, k) <==>
      forall i :: j < i < k && Opens(c, es, i) ==> es[k].now >= es[i].now + c.recoveryTimeout
  {
    RunTo(c, es, j);
    if Lets(c, es, k) {
      forall i | j < i < k && Opens(c, es, i) ensures es[k].now >= es[i].now + c.recoveryTimeout {
        NoAdmissionWhileOpen(c, es, i, k);
      }
    } else {
      OpenSince(c, es, j + 1, k);
    }
  }

  /** The wait is not a moment too long: as long as nobody has been let through since the
      rejection, a call is let through exactly when the wait is over. */
  lemma RetryAfterIsExact(c: Config, es: seq<Event>, j: nat, k: nat)
    requires j < k < |es| && es[j].BeforeCall? && es[k].BeforeCall?
    requires forall i :: j <= i < k ==> !Lets(c, es, i)
    ensures Lets(c, es, k) <==> es[k].now >= es[j].now + RetryAfter(c, Run(c, es[..j]), es[j].now)
  {
    assert !Lets(c, es, j);
    OpenUntilLet(c, es, j, k);
  }

  lemma {:induction false} OpenUntilLet(c: Config, es: seq<Event>, j: nat, k: nat)
    requires j <= k <= |es| && Run(c, es[..j]).state.Open?
    requires forall i :: j <= i < k ==> !Lets(c, es, i)
    ensures Run(c, es[..k]) == Run(c, es[..j])
  {
    if j < k {
      OpenUntilLet(c, es, j, k - 1);
      assert !Lets(c, es, k - 1);
      RunTo(c, es, k - 1);
    }
  }

  /** A HALF_OPEN breaker that had opened at step i has since admitted a call, a recovery
      timeout after that opening or later. */
  lemma {:induction false} HalfOpenNeedsAdmission(c: Config, es: seq<Event>, i: nat, k: nat) returns (j: nat)
    requires Monotone(es) && i < k <= |es| && Opens(c, es, i) && Run(c, es[..k]).state.HalfOpen?
    ensures i < j < k && Lets(c, es, j) && Run(c, es[..j]).state.Open?
    ensures es[j].now >= es[i].now + c.recoveryTimeout
  {
    RunTo(c, es, k - 1);
    if Run(c, es[..k - 1]).state.HalfOpen? {
      j := HalfOpenNeedsAdmission(c, es, i, k - 1);
    } else {
      j := k - 1;
      NoAdmissionWhileOpen(c, es, i, j);
    }
  }

  lemma ClosesBySuccess(c: Config, es: seq<Event>, m: nat)
    requires m < |es| && !Run(c, es[..m]).state.Closed? && Run(c, es[..m + 1]).state.Closed?
    ensures es[m].Success? && Run(c, es[..m]).state.HalfOpen?
    ensures Run(c, es[..m + 1]) == Core(Closed, [], Run(c, es[..m]).openedAt)
  {
    RunTo(c, es, m);
  }

  /** Between an opening and any later CLOSED moment lie an admission, a recovery timeout
      after the opening or later, and then a success, which leaves no failure behind. */
  lemma {:induction false} ClosingNeedsProbe(c: Config, es: seq<Event>, i: nat, k: nat) returns (j: nat, m: nat)
    requires Monotone(es) && i < k <= |es| && Opens(c, es, i) && Run(c, es[..k]).state.Closed?
    ensures i < j < m < k && Lets(c, es, j) && es[j].now >= es[i].now + c.recoveryTimeout
    ensures es[m].Success? && Run(c, es[..m + 1]) == Core(Closed, [], Run(c, es[..m]).openedAt)
  {
    var last := k - 1;
    if Run(c, es[..last]).state.Closed? {
      j, m := ClosingNeedsProbe(c, es, i, last);
    } else {
      ClosesBySuccess(c, es, last);
      m := last;
      j := HalfOpenNeedsAdmission(c, es, i, m);
    }
  }

  /** A completion that counts: a success, or a tracked failure. */
  predicate Completes(e: Event) {
    e.Success? || (e.Failure? && e.tracked)
  }

  /** Nothing but the first completion that counts ends HALF_OPEN, whatever calls and
      untracked failures come before it. Its success closes the circuit and forgets every
      failure; its tracked failure opens the circuit again, from that moment. */
  lemma ProbeDecides(c: Config, es: seq<Event>, j: nat, m: nat)
    requires j <= m < |es| && Run(c, es[..j]).state.HalfOpen?
    requires Completes(es[m]) && forall i :: j <= i < m ==> !Completes(es[i])
    ensures Run(c, es[..m]) == Run(c, es[..j])
    ensures var after := Run(c, es[..m + 1]);
      if es[m].Success? then after.state.Closed? && after.failures == [] && Recorded(c, es[..m + 1]) == []
      else Opens(c, es, m) && after.openedAt == es[m].now
  {
    StaysHalfOpen(c, es, j, m);
    RunTo(c, es, m);
    assert es[..m + 1][..m] == es[..m];
  }

  lemma {:induction false} StaysHalfOpen(c: Config, es: seq<Event>, j: nat, m: nat)
    requires j <= m <= |es| && Run(c, es[..j]).state.HalfOpen?
    requires forall i :: j <= i < m ==> !Completes(es[i])
    ensures Run(c, es[..m]) == Run(c, es[..j])
  {
    if j < m {
      StaysHalfOpen(c, es, j, m - 1);
      RunTo(c, es, m - 1);
    }
  }

  /** The steps that count: everything but untracked failures. */
  function Relevant(es: seq<Event>): seq<Event> {
    if es == [] then []
    else
      var before, e := Relevant(es[..|es| - 1]), es[|es| - 1];
      if e.Failure? && !e.tracked then before else before + [e]
  }

  /** Exceptions that are not tracked have no effect on any run. */
  lemma {:induction false} UntrackedIgnored(c: Config, es: seq<Event>)
    ensures Run(c, es) == Run(c, Relevant(es))
  {
    if es != [] {
      var before, e := es[..|es| - 1], es[|es| - 1];
      UntrackedIgnored(c, before);
      Append(c, Relevant(before), e);
    }
  }

  /** HALF_OPEN is no gate: once recovery has begun any number of calls are let
      through before a completion, although the comments speak of a single probe. */
  lemma {:induction false} HalfOpenAdmitsAll(c: Config, b: Core, now: real, n: nat)
    requires b.state.Open? && Admits(c, b, now)
    ensures var probed := Probed(c, b, now, n);
      Admits(c, probed, now) && (n > 0 ==> probed == b.(state := HalfOpen))
  {
    if n > 0 {
      HalfOpenAdmitsAll(c, b, now, n - 1);
    }
  }

  /** n admissions in a row. */
  function Probed(c: Config, b: Core, now: real, n: nat): Core {
    if n == 0 then b else Step(c, Probed(c, b, now, n - 1), BeforeCall(now))
  }

  // ---------------------------------------------------------------------
  // The object
  // ---------------------------------------------------------------------

  datatype Admission = Admitted | Rejected(retryAfter: real)

  class Breaker {
    const config: Config
    var state: State
    var failures: seq<real>
    var openedAt: real

    /** The lock-protected steps taken so far. */
    ghost var log: seq<Event>

    ghost function Fields(): Core
      reads this
    {
      Core(state, failures, openedAt)
    }

    /** The fields are those of the run the object has made. */
    ghost predicate Valid()
      reads this
    {
      Fields() == Run(config, log)
    }

    constructor (config: Config)
      ensures Valid() && log == [] && this.config == config
    {
      this.config := config;
      state, failures, openedAt := Closed, [], 0.0;
      log := [];
    }

    method BeforeCall(now: real) returns (r: Admission)
      requires Valid()
      modifies this
      ensures Valid() && log == old(log) + [Event.BeforeCall(now)]
      ensures r.Admitted? <==> Lets(config, log, |old(log)|)
      ensures r.Rejected? ==> r.retryAfter > 0.0 && Admits(config, Fields(), now + r.retryAfter)
      ensures r.Rejected? ==> r.retryAfter == RetryAfter(config, old(Fields()), now)
    {
      r := Admitted;
      if state.Open? {
        var elapsed := now - openedAt;
        if elapsed >= config.recoveryTimeout {
          state := HalfOpen;
        } else {
          r := Rejected(config.recoveryTimeout - elapsed);
        }
      }
      Append(config, log, Event.BeforeCall(now));
      log := log + [Event.BeforeCall(now)];
      assert log[..|log| - 1] == old(log);
    }

    method OnSuccess(now: real)
      requires Valid()
      modifies this
      ensures Valid() && log == old(log) + [Success(now)]
    {
      if state.HalfOpen? {
        state, failures := Closed, [];
      }
      Append(config, log, Success(now));
      log := log + [Success(now)];
    }

    method OnFailure(now: real, tracked: bool)
      requires Valid()
      modifies this
      ensures Valid() && log == old(log) + [Failure(now, tracked)]
    {
      if tracked {
        if state.HalfOpen? {
          state, openedAt := Open, now;
        } else if state.Closed? {
          failures := After(failures, now - config.windowSeconds) + [now];
          if |failures| >= config.failureThreshold {
            state, openedAt := Open, now;
          }
        }
      }
      Append(config, log, Failure(now, tracked));
      log := log + [Failure(now, tracked)];
    }
  }

  lemma Append(c: Config, es: seq<Event>, e: Event)
    ensures Run(c, es + [e]) == Step(c, Run(c, es), e)
  {
    assert (es + [e])[..|es|] == es;
  }
}
