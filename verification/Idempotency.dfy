/** The idempotency middleware: many requests carrying one Idempotency-Key against
    two Redis keys, the cached response and the processing lock.

    Each awaited Redis command and each handler event is one step; a run is any
    interleaving of the steps of any number of requests, with the clock advancing
    in between. */
module Idempotency {
  import opened Market

  const TTL_SECONDS := 86400
  const LOCK_TTL_SECONDS := 60

  type Id = nat

  datatype Response = Response(status: int, body: string, contentType: string)

  /** Where one request is in `__call__`. Numbers are step numbers of the run. */
  datatype Phase =
    | Arrived
    | Missed(lookup: nat)                        // GET found nothing
    | Running(lookup: nat, started: nat)         // SET NX acquired the lock; the handler runs
    | Answered(lookup: nat, response: Response)  // the handler returned and the client has its response
    | Stored(response: Response)                 // the response is cached; the lock is still held
    | Unwinding                                  // an exception is on its way to `finally`
    | Finished(response: Response)               // cached and released
    | Failed                                     // released after an exception
    | Replayed(response: Response)               // answered from the cache
    | Conflicted                                 // 409
    | Crashed                                    // the process died between acquire and release

  /** `author` is not stored in Redis: the request whose handler gave the response. */
  datatype CacheEntry = CacheEntry(response: Response, expiresAt: int, author: Id)

  /** `holder` is not stored in Redis, whose value is always "1": DEL removes the lock
      whoever set it. */
  datatype Lock = Lock(holder: Id, expiresAt: int)

  datatype State = State(
    clock: int,
    step: nat,
    cache: Option<CacheEntry>,
    lock: Option<Lock>,
    requests: map<Id, Phase>,
    acquired: map<Id, int>,    // the clock when each request acquired the lock
    given: map<Id, Response>,  // the response each handler returned
    firstStore: Option<nat>)   // the step of the first cache write

  datatype Step =
    | Tick(seconds: nat)
    | Lookup(id: Id)
    | Acquire(id: Id)
    | Respond(id: Id, response: Response)
    | Store(id: Id)
    | Raise(id: Id)
    | Release(id: Id)
    | Crash(id: Id)

  const INITIAL := State(0, 0, None, None, map[], map[], map[], None)

  function PhaseOf(s: State, id: Id): Phase {
    if id in s.requests then s.requests[id] else Arrived
  }

  /** Holding the lock, as far as the request knows: from a successful SET NX until DEL. */
  predicate InFlight(p: Phase) {
    p.Running? || p.Answered? || p.Stored? || p.Unwinding?
  }

  predicate CacheLive(s: State) {
    s.cache.Some? && s.clock < s.cache.value.expiresAt
  }

  predicate LockLive(s: State) {
    s.lock.Some? && s.clock < s.lock.value.expiresAt
  }

  predicate Enabled(s: State, step: Step) {
    match step
    case Tick(_) => true
    case Lookup(id) => PhaseOf(s, id).Arrived?
    case Acquire(id) => PhaseOf(s, id).Missed?
    case Respond(id, _) => PhaseOf(s, id).Running?
    case Store(id) => PhaseOf(s, id).Answered?
    case Raise(id) => PhaseOf(s, id).Running? || PhaseOf(s, id).Answered?
    case Release(id) => PhaseOf(s, id).Stored? || PhaseOf(s, id).Unwinding?
    case Crash(id) => InFlight(PhaseOf(s, id))
  }

  function Moved(s: State, id: Id, p: Phase): State {
    s.(requests := s.requests[id := p])
  }

  function Effect(s: State, step: Step): State
    requires Enabled(s, step)
  {
    match step
    case Tick(seconds) => s.(clock := s.clock + seconds)
    case Lookup(id) =>
      if CacheLive(s) then Moved(s, id, Replayed(s.cache.value.response)) else Moved(s, id, Missed(s.step))
    case Acquire(id) =>
      if LockLive(s) then Moved(s, id, Conflicted)
      else Moved(s, id, Running(PhaseOf(s, id).lookup, s.step)).(
        lock := Some(Lock(id, s.clock + LOCK_TTL_SECONDS)), acquired := s.acquired[id := s.clock])
    case Respond(id, response) =>
      Moved(s, id, Answered(PhaseOf(s, id).lookup, response)).(given := s.given[id := response])
    case Store(id) =>
      var response := PhaseOf(s, id).response;
      Moved(s, id, Stored(response)).(
        cache := Some(CacheEntry(response, s.clock + TTL_SECONDS, id)),
        firstStore := if s.firstStore.None? then Some(s.step) else s.firstStore)
    case Raise(id) => Moved(s, id, Unwinding)
    case Release(id) =>
      var p := PhaseOf(s, id);
      Moved(s, id, if p.Stored? then Finished(p.response) else Failed).(lock := None)
    case Crash(id) => Moved(s, id, Crashed)
  }

  function Next(s: State, step: Step): State
    requires Enabled(s, step)
  {
    Effect(s, step).(step := s.step + 1)
  }

  /** The timing the property assumes: nobody in flight has outlived the lock it set,
      and a cached response has not lapsed. */
  ghost predicate Timely(s: State) {
    && (forall id :: InFlight(PhaseOf(s, id)) && s.lock.Some? && s.lock.value.holder == id ==> LockLive(s))
    && (s.cache.Some? ==> CacheLive(s))
  }

  /** The state after these steps from s; None if some step is not enabled. */
  function Exec(s: State, steps: seq<Step>): Option<State>
    decreases |steps|
  {
    if steps == [] then Some(s)
    else if Enabled(s, steps[0]) then Exec(Next(s, steps[0]), steps[1..])
    else None
  }

  ghost predicate TimelyRun(s: State, steps: seq<Step>)
    decreases |steps|
  {
    steps != [] && Enabled(s, steps[0]) ==> Timely(s) && TimelyRun(Next(s, steps[0]), steps[1..])
  }

  predicate LookedUp(p: Phase) {
    p.Missed? || p.Running? || p.Answered?
  }

  /** Whoever is in flight holds the lock, and a lock belongs to a request in flight or to
      one that crashed holding it, and ends its TTL after that request acquired it. */
  ghost predicate LockInvariant(s: State) {
    && (forall id :: InFlight(PhaseOf(s, id)) ==> s.lock.Some? && s.lock.value.holder == id)
    && (s.lock.Some? ==> InFlight(PhaseOf(s, s.lock.value.holder)) || PhaseOf(s, s.lock.value.holder).Crashed?)
    && (s.lock.Some? ==>
          var holder := s.lock.value.holder;
          && holder in s.acquired && s.acquired[holder] <= s.clock
          && s.lock.value.expiresAt == s.acquired[holder] + LOCK_TTL_SECONDS)
  }

  /** A request that has looked up and not yet stored did so before the first cache write. */
  ghost predicate LookupInvariant(s: State) {
    && (s.firstStore.Some? <==> s.cache.Some?)
    && (s.firstStore.Some? ==> s.firstStore.value < s.step)
    && (forall id :: LookedUp(PhaseOf(s, id)) ==>
          PhaseOf(s, id).lookup < (if s.firstStore.Some? then s.firstStore.value else s.step))
    && (forall id :: PhaseOf(s, id).Running? ==> PhaseOf(s, id).started < s.step)
  }

  ghost predicate GivenBySomeone(s: State, response: Response) {
    exists id :: id in s.given && s.given[id] == response
  }

  /** Cached and replayed responses were given by handlers, and the author of the
      cached one did not fail. */
  ghost predicate ResponseInvariant(s: State) {
    && (s.cache.Some? ==>
          var entry := s.cache.value;
          && entry.author in s.given && s.given[entry.author] == entry.response
          && var p := PhaseOf(s, entry.author); p.Stored? || p.Finished? || p.Crashed?)
    && forall id :: ResponseOf(s, id)
  }

  ghost predicate ResponseOf(s: State, id: Id) {
    var p := PhaseOf(s, id);
    && (p.Answered? || p.Stored? ==> id in s.given && s.given[id] == p.response)
    && (p.Replayed? ==> GivenBySomeone(s, p.response))
    && (p.Arrived? || p.Missed? || p.Running? ==> id !in s.given)
  }

  ghost predicate Invariant(s: State) {
    LockInvariant(s) && LookupInvariant(s) && ResponseInvariant(s)
  }

  /** A step moves at most one request. */
  lemma OthersStay(s: State, step: Step)
    requires Enabled(s, step)
    ensures forall id :: (step.Tick? || id != step.id) ==> PhaseOf(Next(s, step), id) == PhaseOf(s, id)
  {
  }

  /** A lock is acquired only while every handler in flight is within the TTL of its own acquisition. */
  ghost predicate InTime(s: State, step: Step) {
    step.Acquire? ==>
      forall id :: InFlight(PhaseOf(s, id)) && id in s.acquired ==> s.clock < s.acquired[id] + LOCK_TTL_SECONDS
  }

  lemma TimelyIsInTime(s: State, step: Step)
    requires LockInvariant(s) && Timely(s)
    ensures InTime(s, step)
  {
  }

  lemma StepKeepsLock(s: State, step: Step)
    requires LockInvariant(s) && InTime(s, step) && Enabled(s, step)
    ensures LockInvariant(Next(s, step))
  {
    OthersStay(s, step);
    var t := Next(s, step);
    forall id | InFlight(PhaseOf(t, id)) ensures t.lock.Some? && t.lock.value.holder == id {
      if !step.Tick? && id != step.id {
        assert InFlight(PhaseOf(s, id));
      }
    }
  }

  lemma StepKeepsLookup(s: State, step: Step)
    requires LookupInvariant(s) && Timely(s) && Enabled(s, step)
    ensures LookupInvariant(Next(s, step))
  {
    OthersStay(s, step);
  }

  lemma StepKeepsResponse(s: State, step: Step)
    requires ResponseInvariant(s) && Enabled(s, step)
    ensures ResponseInvariant(Next(s, step))
  {
    OthersStay(s, step);
    forall id ensures ResponseOf(Next(s, step), id) {
      if step.Tick? || id != step.id {
        OtherResponseStays(s, step, id);
      } else {
        OwnResponseKept(s, step);
      }
    }
    if s.cache.Some? {
      assert ResponseOf(s, s.cache.value.author);
    }
    if step.Store? {
      assert ResponseOf(s, step.id);
    }
  }

  lemma OtherResponseStays(s: State, step: Step, id: Id)
    requires ResponseOf(s, id) && (step.Respond? ==> ResponseInvariant(s))
    requires Enabled(s, step) && (step.Tick? || id != step.id)
    ensures ResponseOf(Next(s, step), id)
  {
    OthersStay(s, step);
    if PhaseOf(s, id).Replayed? {
      var g :| g in s.given && s.given[g] == PhaseOf(s, id).response;
      if step.Respond? {
        assert ResponseOf(s, step.id);
      }
      assert Next(s, step).given[g] == s.given[g];
    }
  }

  lemma OwnResponseKept(s: State, step: Step)
    requires ResponseInvariant(s) && Enabled(s, step) && !step.Tick?
    ensures ResponseOf(Next(s, step), step.id)
  {
    assert ResponseOf(s, step.id);
    if step.Lookup? && CacheLive(s) {
      assert Next(s, step).given[s.cache.value.author] == s.cache.value.response;
    }
  }

  lemma {:induction false} RunKeepsInvariant(s: State, steps: seq<Step>)
    requires Invariant(s) && TimelyRun(s, steps) && Exec(s, steps).Some?
    ensures Invariant(Exec(s, steps).value)
    decreases |steps|
  {
    if steps != [] {
      TimelyIsInTime(s, steps[0]);
      StepKeepsLock(s, steps[0]);
      StepKeepsLookup(s, steps[0]);
      StepKeepsResponse(s, steps[0]);
      RunKeepsInvariant(Next(s, steps[0]), steps[1..]);
    }
  }

  // ---------------------------------------------------------------------
  // Exclusion, in every run
  // ---------------------------------------------------------------------

  /** At most one request is between acquiring and releasing the lock. */
  ghost predicate Exclusive(s: State) {
    forall a, b :: InFlight(PhaseOf(s, a)) && InFlight(PhaseOf(s, b)) ==> a == b
  }

  ghost predicate ExclusiveRun(s: State, steps: seq<Step>)
    decreases |steps|
  {
    Exclusive(s) && (steps != [] && Enabled(s, steps[0]) ==> ExclusiveRun(Next(s, steps[0]), steps[1..]))
  }

  ghost predicate InTimeRun(s: State, steps: seq<Step>)
    decreases |steps|
  {
    steps != [] && Enabled(s, steps[0]) ==> InTime(s, steps[0]) && InTimeRun(Next(s, steps[0]), steps[1..])
  }

  lemma {:induction false} ExclusionIffFrom(s: State, steps: seq<Step>)
    requires LockInvariant(s)
    ensures ExclusiveRun(s, steps) <==> InTimeRun(s, steps)
    decreases |steps|
  {
    assert Exclusive(s);
    if steps != [] && Enabled(s, steps[0]) {
      var t := Next(s, steps[0]);
      if InTime(s, steps[0]) {
        StepKeepsLock(s, steps[0]);
        ExclusionIffFrom(t, steps[1..]);
      } else {
        LateAcquireJoins(s, steps[0]);
      }
    }
  }

  /** Acquiring over a request that has outlived its TTL succeeds, because nobody has renewed its lock. */
  lemma LateAcquireJoins(s: State, step: Step)
    requires LockInvariant(s) && Enabled(s, step) && !InTime(s, step)
    ensures !Exclusive(Next(s, step))
  {
    var t := Next(s, step);
    var id :| InFlight(PhaseOf(s, id)) && s.clock >= s.acquired[id] + LOCK_TTL_SECONDS;
    OthersStay(s, step);
    assert InFlight(PhaseOf(t, id)) && InFlight(PhaseOf(t, step.id));
  }

  /** In every run, at most one handler is in flight at every moment if and only if nobody
      acquires the lock LOCK_TTL_SECONDS or more after a request still in flight acquired it. */
  lemma ExclusionIff(steps: seq<Step>)
    ensures ExclusiveRun(INITIAL, steps) <==> InTimeRun(INITIAL, steps)
  {
    ExclusionIffFrom(INITIAL, steps);
  }

  /** s is reached from the initial state by a timely run. */
  ghost predicate Reached(steps: seq<Step>, s: State) {
    TimelyRun(INITIAL, steps) && Exec(INITIAL, steps) == Some(s)
  }

  /** At most one request at a time is between acquiring and releasing the lock, so at most
      one handler runs, in every run whose handlers are in time. Nothing is assumed of the cache. */
  lemma OneHandlerAtATime(steps: seq<Step>, s: State, a: Id, b: Id)
    requires InTimeRun(INITIAL, steps) && Exec(INITIAL, steps) == Some(s)
    requires InFlight(PhaseOf(s, a)) && InFlight(PhaseOf(s, b))
    ensures a == b
  {
    InTimeKeepsLock(INITIAL, steps);
  }

  lemma {:induction false} InTimeKeepsLock(s: State, steps: seq<Step>)
    requires LockInvariant(s) && InTimeRun(s, steps) && Exec(s, steps).Some?
    ensures LockInvariant(Exec(s, steps).value)
    decreases |steps|
  {
    if steps != [] {
      StepKeepsLock(s, steps[0]);
      InTimeKeepsLock(Next(s, steps[0]), steps[1..]);
    }
  }

  /** Timely runs are in time. */
  lemma {:induction false} TimelyRunInTime(s: State, steps: seq<Step>)
    requires LockInvariant(s) && TimelyRun(s, steps)
    ensures InTimeRun(s, steps)
    decreases |steps|
  {
    if steps != [] && Enabled(s, steps[0]) {
      TimelyIsInTime(s, steps[0]);
      StepKeepsLock(s, steps[0]);
      TimelyRunInTime(Next(s, steps[0]), steps[1..]);
    }
  }

  /** A second request joins one in flight exactly when the lock's TTL has passed since
      the first acquired it; the first's release then removes the second's lock. */
  lemma SecondJoinsIff(steps: seq<Step>, s: State, a: Id, b: Id, seconds: nat)
    requires Reached(steps, s) && InFlight(PhaseOf(s, a)) && PhaseOf(s, b).Missed?
    ensures s.lock.Some? && s.lock.value.holder == a && a in s.acquired
    ensures var t := Next(Next(s, Tick(seconds)), Acquire(b));
      var joined := InFlight(PhaseOf(t, a)) && InFlight(PhaseOf(t, b));
      && (joined <==> s.clock + seconds >= s.acquired[a] + 60)
      && (joined && PhaseOf(t, a).Running? ==>
            t.lock.value.holder == b && Next(Next(t, Raise(a)), Release(a)).lock.None?)
  {
    RunKeepsInvariant(INITIAL, steps);
  }

  // ---------------------------------------------------------------------
  // Guarantees of timely runs
  // ---------------------------------------------------------------------

  /** A handler that starts after something was cached belongs to a request that
      looked up before the first cache write. */
  lemma LateRunLookedUpEarly(steps: seq<Step>, s: State, id: Id)
    requires Reached(steps, s) && PhaseOf(s, id).Running? && s.firstStore.Some?
    ensures PhaseOf(s, id).lookup < s.firstStore.value
  {
    RunKeepsInvariant(INITIAL, steps);
  }

  /** A request that looks up after that is answered with a response some handler
      gave, and takes no further step in any continuation of the run. */
  lemma LateLookupReplays(steps: seq<Step>, s: State, id: Id, more: seq<Step>)
    requires Reached(steps, s) && Timely(s) && s.cache.Some? && PhaseOf(s, id).Arrived?
    ensures var t := Next(s, Lookup(id));
      && PhaseOf(t, id) == Replayed(s.cache.value.response) && GivenBySomeone(t, s.cache.value.response)
      && (Exec(t, more).Some? ==> PhaseOf(Exec(t, more).value, id) == PhaseOf(t, id))
  {
    RunKeepsInvariant(INITIAL, steps);
    var t := Next(s, Lookup(id));
    assert s.cache.value.author in t.given;
    AnsweredIsFinal(t, id, more);
  }

  lemma {:induction false} AnsweredIsFinal(s: State, id: Id, steps: seq<Step>)
    requires PhaseOf(s, id).Replayed? || PhaseOf(s, id).Conflicted?
    ensures Exec(s, steps).Some? ==> PhaseOf(Exec(s, steps).value, id) == PhaseOf(s, id)
    decreases |steps|
  {
    if steps != [] && Enabled(s, steps[0]) {
      OthersStay(s, steps[0]);
      AnsweredIsFinal(Next(s, steps[0]), id, steps[1..]);
    }
  }

  /** A failed request has cached nothing, and its release leaves the cache alone
      and the lock free for the next request. */
  lemma FailureLeavesNothing(steps: seq<Step>, s: State, id: Id, other: Id)
    requires Reached(steps, s) && PhaseOf(s, id).Unwinding?
    ensures s.cache.Some? ==> s.cache.value.author != id
    ensures var t := Next(s, Release(id));
      && PhaseOf(t, id).Failed? && t.cache == s.cache && t.lock.None?
      && (PhaseOf(t, other).Missed? ==> PhaseOf(Next(t, Acquire(other)), other).Running?)
  {
    RunKeepsInvariant(INITIAL, steps);
  }

  /** A request is refused only while another one is in flight or has crashed holding
      the lock, and a crash blocks the key for at most the lock's TTL. */
  lemma ConflictMeansBusy(steps: seq<Step>, s: State, id: Id)
    requires Reached(steps, s) && PhaseOf(s, id).Missed?
    ensures PhaseOf(Next(s, Acquire(id)), id).Conflicted? ==>
      exists other :: other != id && (InFlight(PhaseOf(s, other)) || PhaseOf(s, other).Crashed?)
    ensures !LockLive(Next(s, Tick(LOCK_TTL_SECONDS)))
  {
    RunKeepsInvariant(INITIAL, steps);
    if LockLive(s) {
      var holder := s.lock.value.holder;
      assert holder != id && (InFlight(PhaseOf(s, holder)) || PhaseOf(s, holder).Crashed?);
    }
  }

  /** A request that crashes while it holds the lock blocks the key until the lock's TTL has
      passed since it acquired it: whatever happens meanwhile, every other request that gets
      to the lock is refused. When the TTL has passed the next one runs. */
  lemma CrashBlocksForTtl(steps: seq<Step>, s: State, a: Id, more: seq<Step>, later: State, b: Id)
    requires Reached(steps, s) && InFlight(PhaseOf(s, a))
    requires Exec(Next(s, Crash(a)), more) == Some(later) && PhaseOf(later, b).Missed?
    ensures a in s.acquired
    ensures later.clock < s.acquired[a] + 60 ==> PhaseOf(Next(later, Acquire(b)), b).Conflicted?
    ensures (forall i :: 0 <= i < |more| ==> more[i].Tick?) && later.clock >= s.acquired[a] + 60 ==>
      PhaseOf(Next(later, Acquire(b)), b).Running?
  {
    RunKeepsInvariant(INITIAL, steps);
    var crashed := Next(s, Crash(a));
    OthersStay(s, Crash(a));
    if later.clock < s.acquired[a] + 60 {
      OrphanLockStays(crashed, more);
    }
    if forall i :: 0 <= i < |more| ==> more[i].Tick? {
      TicksKeepLock(crashed, more);
    }
  }

  lemma {:induction false} ClockGrows(s: State, steps: seq<Step>)
    requires Exec(s, steps).Some?
    ensures s.clock <= Exec(s, steps).value.clock
    decreases |steps|
  {
    if steps != [] {
      ClockGrows(Next(s, steps[0]), steps[1..]);
    }
  }

  lemma {:induction false} OrphanLockStays(s: State, steps: seq<Step>)
    requires s.lock.Some? && forall id :: !InFlight(PhaseOf(s, id))
    requires Exec(s, steps).Some? && Exec(s, steps).value.clock < s.lock.value.expiresAt
    ensures Exec(s, steps).value.lock == s.lock
    decreases |steps|
  {
    if steps != [] {
      ClockGrows(s, steps);
      OthersStay(s, steps[0]);
      OrphanLockStays(Next(s, steps[0]), steps[1..]);
    }
  }

  lemma {:induction false} TicksKeepLock(s: State, steps: seq<Step>)
    requires (forall i :: 0 <= i < |steps| ==> steps[i].Tick?) && Exec(s, steps).Some?
    ensures Exec(s, steps).value.lock == s.lock
    decreases |steps|
  {
    if steps != [] {
      assert forall i :: 0 <= i < |steps[1..]| ==> steps[1..][i] == steps[i + 1];
      TicksKeepLock(Next(s, steps[0]), steps[1..]);
    }
  }

  ghost predicate NoStore(steps: seq<Step>) {
    forall i :: 0 <= i < |steps| ==> !steps[i].Store?
  }

  lemma {:induction false} CacheStays(s: State, steps: seq<Step>)
    requires NoStore(steps) && Exec(s, steps).Some?
    ensures Exec(s, steps).value.cache == s.cache
    decreases |steps|
  {
    if steps != [] {
      assert forall i :: 0 <= i < |steps[1..]| ==> steps[1..][i] == steps[i + 1];
      CacheStays(Next(s, steps[0]), steps[1..]);
    }
  }

  /** Whatever happens after a response is cached, short of caching another one, a
      lookup replays it exactly until a day has passed. */
  lemma ReplayedForADay(s: State, id: Id, more: seq<Step>, other: Id)
    requires PhaseOf(s, id).Answered? && NoStore(more) && Exec(Next(s, Store(id)), more).Some?
    requires PhaseOf(Exec(Next(s, Store(id)), more).value, other).Arrived?
    ensures var later := Exec(Next(s, Store(id)), more).value;
      var answered := PhaseOf(Next(later, Lookup(other)), other);
      && (later.clock < s.clock + 24 * 60 * 60 ==> answered == Replayed(PhaseOf(s, id).response))
      && (later.clock >= s.clock + 24 * 60 * 60 ==> answered.Missed?)
  {
    CacheStays(Next(s, Store(id)), more);
  }

  // ---------------------------------------------------------------------
  // When a handler can start after a cached success
  // ---------------------------------------------------------------------

  /** These steps form a timely run in which a handler starts at or after step `mark`. */
  ghost predicate Starts(s: State, steps: seq<Step>, mark: nat) {
    TimelyRun(s, steps) && Exec(s, steps).Some? && RunningSince(Exec(s, steps).value, mark)
  }

  ghost predicate RunningSince(s: State, mark: nat) {
    exists id :: PhaseOf(s, id).Running? && PhaseOf(s, id).started >= mark
  }

  /** A crashed request's lock outlasts the cached response, so nothing can run before that lapses. */
  predicate Blocked(s: State) {
    && s.cache.Some? && LockLive(s)
    && PhaseOf(s, s.lock.value.holder).Crashed? && s.cache.value.expiresAt <= s.lock.value.expiresAt
  }

  lemma StartsCons(s: State, step: Step, rest: seq<Step>, mark: nat)
    requires Timely(s) && Enabled(s, step) && Starts(Next(s, step), rest, mark)
    ensures Starts(s, [step] + rest, mark)
  {
    ExecCons(s, step, rest);
  }

  /** An unlocked key lets a request that missed run at once. */
  lemma AcquireStarts(s: State, id: Id, mark: nat) returns (steps: seq<Step>)
    requires Timely(s) && !LockLive(s) && PhaseOf(s, id).Missed? && mark <= s.step
    ensures Starts(s, steps, mark)
  {
    var t := Next(s, Acquire(id));
    assert PhaseOf(t, id).Running? && PhaseOf(t, id).started >= mark;
    assert Starts(t, [], mark);
    StartsCons(s, Acquire(id), [], mark);
    steps := [Acquire(id)] + [];
  }

  /** So does a key whose holder is in flight: the holder may fail and release first. */
  lemma ReleaseThenStarts(s: State, holder: Id, id: Id, mark: nat) returns (steps: seq<Step>)
    requires LockInvariant(s) && Timely(s) && (PhaseOf(s, holder).Stored? || PhaseOf(s, holder).Unwinding?)
    requires PhaseOf(s, id).Missed? && mark <= s.step
    ensures Starts(s, steps, mark)
  {
    var t := Next(s, Release(holder));
    var rest := AcquireStarts(t, id, mark);
    StartsCons(s, Release(holder), rest, mark);
    steps := [Release(holder)] + rest;
  }

  lemma FailThenStarts(s: State, holder: Id, id: Id, mark: nat) returns (steps: seq<Step>)
    requires LockInvariant(s) && Timely(s) && InFlight(PhaseOf(s, holder))
    requires PhaseOf(s, id).Missed? && mark <= s.step
    ensures Starts(s, steps, mark)
  {
    if PhaseOf(s, holder).Stored? || PhaseOf(s, holder).Unwinding? {
      steps := ReleaseThenStarts(s, holder, id, mark);
    } else {
      var t := Next(s, Raise(holder));
      TimelyIsInTime(s, Raise(holder));
      StepKeepsLock(s, Raise(holder));
      OthersStay(s, Raise(holder));
      assert Timely(t) by {
        assert s.lock.value.holder == holder && LockLive(s);
      }
      var rest := ReleaseThenStarts(t, holder, id, mark);
      StartsCons(s, Raise(holder), rest, mark);
      steps := [Raise(holder)] + rest;
    }
  }

  /** A crashed holder's lock can be waited out if the cached response lasts longer. */
  lemma WaitThenStarts(s: State, id: Id, mark: nat) returns (steps: seq<Step>)
    requires LockInvariant(s) && Timely(s) && LockLive(s) && PhaseOf(s, s.lock.value.holder).Crashed?
    requires s.cache.Some? ==> s.lock.value.expiresAt < s.cache.value.expiresAt
    requires PhaseOf(s, id).Missed? && mark <= s.step
    ensures Starts(s, steps, mark)
  {
    var wait := Tick(s.lock.value.expiresAt - s.clock);
    var t := Next(s, wait);
    OthersStay(s, wait);
    assert forall other :: !InFlight(PhaseOf(s, other));
    assert Timely(t);
    var rest := AcquireStarts(t, id, mark);
    StartsCons(s, wait, rest, mark);
    steps := [wait] + rest;
  }

  /** Nobody new misses, and only those who had missed start to run. */
  ghost predicate OnlyMissersRun(s: State, t: State) {
    && t.cache.Some? && s.step <= t.step
    && (forall id :: PhaseOf(t, id).Missed? ==> PhaseOf(s, id).Missed?)
    && (forall id :: PhaseOf(t, id).Running? && PhaseOf(t, id).started >= s.step ==> PhaseOf(s, id).Missed?)
  }

  lemma {:induction false} OnlyMissersRunOn(s: State, t: State, steps: seq<Step>)
    requires OnlyMissersRun(s, t) && TimelyRun(t, steps) && Exec(t, steps).Some?
    ensures OnlyMissersRun(s, Exec(t, steps).value)
    decreases |steps|
  {
    if steps != [] {
      OthersStay(t, steps[0]);
      OnlyMissersRunOn(s, Next(t, steps[0]), steps[1..]);
    }
  }

  ghost predicate Stuck(s: State) {
    && s.cache.Some? && s.lock.Some? && s.cache.value.expiresAt <= s.lock.value.expiresAt
    && forall id :: !InFlight(PhaseOf(s, id))
  }

  lemma {:induction false} StuckStays(s: State, steps: seq<Step>)
    requires Stuck(s) && TimelyRun(s, steps) && Exec(s, steps).Some?
    ensures Stuck(Exec(s, steps).value)
    decreases |steps|
  {
    if steps != [] {
      OthersStay(s, steps[0]);
      StuckStays(Next(s, steps[0]), steps[1..]);
    }
  }

  /** With a response cached, a timely run can go on to start another handler exactly
      when some request has already missed the cache, and no crashed holder's lock
      outlasts the response: the cache is not read again once the lock is held. */
  lemma NewRunPossibleIff(steps: seq<Step>, s: State)
    requires Reached(steps, s) && Timely(s) && s.cache.Some?
    ensures (exists more :: Starts(s, more, s.step)) <==> (exists id :: PhaseOf(s, id).Missed?) && !Blocked(s)
  {
    RunKeepsInvariant(INITIAL, steps);
    if more :| Starts(s, more, s.step) {
      MissersOnly(s, more);
      NotBlocked(s, more);
    }
    if id :| PhaseOf(s, id).Missed? && !Blocked(s) {
      var more;
      if !LockLive(s) {
        more := AcquireStarts(s, id, s.step);
      } else if InFlight(PhaseOf(s, s.lock.value.holder)) {
        more := FailThenStarts(s, s.lock.value.holder, id, s.step);
      } else {
        more := WaitThenStarts(s, id, s.step);
      }
    }
  }

  lemma MissersOnly(s: State, more: seq<Step>)
    requires Invariant(s) && s.cache.Some? && Starts(s, more, s.step)
    ensures exists id :: PhaseOf(s, id).Missed?
  {
    assert OnlyMissersRun(s, s);
    OnlyMissersRunOn(s, s, more);
  }

  lemma NotBlocked(s: State, more: seq<Step>)
    requires Invariant(s) && Starts(s, more, s.step)
    ensures !Blocked(s)
  {
    if Blocked(s) {
      assert Stuck(s);
      StuckStays(s, more);
      assert false;
    }
  }

  lemma {:induction false} RunOn(s: State, steps: seq<Step>, step: Step)
    requires TimelyRun(s, steps) && Exec(s, steps).Some?
    requires Timely(Exec(s, steps).value) && Enabled(Exec(s, steps).value, step)
    ensures TimelyRun(s, steps + [step]) && Exec(s, steps + [step]) == Some(Next(Exec(s, steps).value, step))
    decreases |steps|
  {
    if steps == [] {
      assert steps + [step] == [step] && [step][1..] == [];
    } else {
      RunOn(Next(s, steps[0]), steps[1..], step);
      assert (steps + [step])[1..] == steps[1..] + [step];
    }
  }

  lemma ReachedOn(steps: seq<Step>, s: State, step: Step)
    requires Reached(steps, s) && Timely(s) && Enabled(s, step)
    ensures Reached(steps + [step], Next(s, step))
  {
    RunOn(INITIAL, steps, step);
  }

  /** Two requests miss the cache, and the first acquires the lock. */
  lemma FirstRunsSecondMissed() returns (steps: seq<Step>, s: State)
    ensures Reached(steps, s) && PhaseOf(s, 0).Running? && PhaseOf(s, 1).Missed?
    ensures s.cache.None? && s.firstStore.None? && s.lock == Some(Lock(0, s.clock + LOCK_TTL_SECONDS))
  {
    var s1 := Next(INITIAL, Lookup(0));
    var s2 := Next(s1, Lookup(1));
    s := Next(s2, Acquire(0));
    ReachedOn([], INITIAL, Lookup(0));
    ReachedOn([] + [Lookup(0)], s1, Lookup(1));
    ReachedOn([] + [Lookup(0)] + [Lookup(1)], s2, Acquire(0));
    steps := [] + [Lookup(0)] + [Lookup(1)] + [Acquire(0)];
  }

  /** The first handler's success is cached and released while the second request waits. */
  lemma FirstSucceeds(r: Response) returns (steps: seq<Step>, s: State)
    ensures Reached(steps, s) && PhaseOf(s, 0) == Finished(r) && PhaseOf(s, 1).Missed?
    ensures s.lock.None? && CacheLive(s) && s.firstStore.Some? && s.firstStore.value < s.step
  {
    var run, s0 := FirstRunsSecondMissed();
    var s1 := Next(s0, Respond(0, r));
    var s2 := Next(s1, Store(0));
    assert Timely(s1) && Timely(s2);
    s := Next(s2, Release(0));
    ReachedOn(run, s0, Respond(0, r));
    ReachedOn(run + [Respond(0, r)], s1, Store(0));
    ReachedOn(run + [Respond(0, r)] + [Store(0)], s2, Release(0));
    steps := run + [Respond(0, r)] + [Store(0)] + [Release(0)];
  }

  /** So the guard is met by real runs: a handler of a second request runs after the
      first one's success was cached. */
  lemma SecondRunAfterSuccess(r: Response)
    ensures exists steps, s :: Reached(steps, s) && PhaseOf(s, 0) == Finished(r) && RunsAfterStore(s, 1)
  {
    var steps, s := FirstSucceeds(r);
    ReachedOn(steps, s, Acquire(1));
    assert RunsAfterStore(Next(s, Acquire(1)), 1);
  }

  predicate RunsAfterStore(s: State, id: Id) {
    PhaseOf(s, id).Running? && s.firstStore.Some? && s.firstStore.value < PhaseOf(s, id).started
  }

  /** And a handler that outlives its lock is joined by a second one. */
  lemma SlowHandlerLosesExclusion()
    ensures exists steps, s ::
      (Exec(INITIAL, steps) == Some(s) && PhaseOf(s, 0).Running? && PhaseOf(s, 1).Running? &&
       Next(Next(s, Raise(0)), Release(0)).lock.None?)
  {
    var steps, s := FirstRunsSecondMissed();
    ReachedOn(steps, s, Tick(LOCK_TTL_SECONDS));
    var late := Next(s, Tick(LOCK_TTL_SECONDS));
    ExecOn(INITIAL, steps + [Tick(LOCK_TTL_SECONDS)], Acquire(1));
    var joined := Next(late, Acquire(1));
    assert PhaseOf(joined, 0).Running? && PhaseOf(joined, 1).Running?;
  }

  lemma {:induction false} ExecOn(s: State, steps: seq<Step>, step: Step)
    requires Exec(s, steps).Some? && Enabled(Exec(s, steps).value, step)
    ensures Exec(s, steps + [step]) == Some(Next(Exec(s, steps).value, step))
    decreases |steps|
  {
    if steps == [] {
      assert steps + [step] == [step] && [step][1..] == [];
    } else {
      ExecOn(Next(s, steps[0]), steps[1..], step);
      assert (steps + [step])[1..] == steps[1..] + [step];
    }
  }

  lemma ExecCons(s: State, step: Step, rest: seq<Step>)
    requires Enabled(s, step)
    ensures Exec(s, [step] + rest) == Exec(Next(s, step), rest)
    ensures Timely(s) && TimelyRun(Next(s, step), rest) ==> TimelyRun(s, [step] + rest)
  {
    assert ([step] + rest)[1..] == rest;
  }
}
