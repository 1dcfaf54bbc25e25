/** The two caches in front of the OpenFGA backend, under any interleaving of checks
    and tuple writes.

    A check that misses both caches asks the backend and stores the answer later; a
    write changes the backend and clears the global cache later. Those are separate
    steps, because other coroutines run in between. */
module AccessCache {
  import opened Market

  const CHECK_CACHE_TTL := 30

  datatype Key = Key(user: string, relation: string, object_: string)

  type Id = nat
  type RequestId = nat

  /** A global cache entry. `fetched`, `stored` and `storedAt` record the steps of the
      backend's answer and of the insertion, and the clock at the insertion. */
  datatype Entry = Entry(value: bool, expiresAt: int, fetched: nat, stored: nat, storedAt: int)

  /** A check waiting for, or holding, the backend's answer. `request` is None outside
      a request with an initialised per-request cache. */
  datatype Check =
    | Asked(request: Option<RequestId>, key: Key)
    | Fetched(request: Option<RequestId>, key: Key, value: bool, fetched: nat)

  datatype Write = Sent | Applied

  /** A change of the backend's answers: when, by which write (None from outside the
      client), and when that write's success cleared the cache. */
  datatype Change = Change(at: nat, writer: Option<Id>, cleared: Option<nat>)

  /** An answer returned to a caller, and the step at which the backend gave it. */
  datatype Answer = Answer(request: Option<RequestId>, key: Key, value: bool, fetched: nat)

  datatype Remembered = Remembered(value: bool, fetched: nat)

  datatype State = State(
    clock: int,
    backend: set<Key>,              // the keys the backend currently allows
    global: map<Key, Entry>,
    perRequest: map<(RequestId, Key), Remembered>,
    checks: map<Id, Check>,
    writes: map<Id, Write>,
    past: seq<set<Key>>,            // the backend before each step so far
    changes: seq<Change>,
    answers: seq<Answer>)

  datatype Step =
    | Tick(seconds: nat)
    | Evict(key: Key)
    | Begin(id: Id, request: Option<RequestId>, key: Key)
    | Fetch(id: Id)
    | Finish(id: Id)
    | Abandon(id: Id)                          // the check raises
    | BeginWrite(id: Id)
    | Apply(id: Id, allowed: set<Key>)         // the backend takes the write
    | EndWrite(id: Id)                         // the call returns and the cache is cleared
    | FailWrite(id: Id)                        // the call raises; nothing is cleared
    | ChangeOutside(allowed: set<Key>)         // somebody else changes the backend

  const INITIAL := State(0, {}, map[], map[], map[], map[], [], [], [])

  predicate Live(s: State, key: Key) {
    key in s.global && s.clock < s.global[key].expiresAt
  }

  predicate InRequest(s: State, request: Option<RequestId>, key: Key) {
    request.Some? && (request.value, key) in s.perRequest
  }

  predicate Enabled(s: State, step: Step) {
    match step
    case Tick(_) => true
    case Evict(_) => true
    case Begin(id, _, _) => id !in s.checks
    case Fetch(id) => id in s.checks && s.checks[id].Asked?
    case Finish(id) => id in s.checks && s.checks[id].Fetched?
    case Abandon(id) => id in s.checks
    case BeginWrite(id) => id !in s.writes
    case Apply(id, _) => id in s.writes
    case EndWrite(id) => id in s.writes && s.writes[id].Applied?
    case FailWrite(id) => id in s.writes
    case ChangeOutside(_) => true
  }

  /** Record an answer and, inside a request, remember it there. */
  function Answered(s: State, request: Option<RequestId>, key: Key, value: bool, fetched: nat): State {
    s.(answers := s.answers + [Answer(request, key, value, fetched)],
       perRequest := if request.Some? then s.perRequest[(request.value, key) := Remembered(value, fetched)] else s.perRequest)
  }

  function Changed(s: State, writer: Option<Id>, allowed: set<Key>): State {
    s.(backend := allowed, changes := s.changes + [Change(|s.past|, writer, None)])
  }

  function Cleared(changes: seq<Change>, writer: Id, now: nat): (r: seq<Change>)
    ensures |r| == |changes|
  {
    seq(|changes|, i requires 0 <= i < |changes| =>
      if changes[i].writer == Some(writer) && changes[i].cleared.None? then changes[i].(cleared := Some(now)) else changes[i])
  }

  function Effect(s: State, step: Step): State
    requires Enabled(s, step)
  {
    match step
    case Tick(seconds) => s.(clock := s.clock + seconds)
    case Evict(key) => s.(global := s.global - {key})
    case Begin(id, request, key) =>
      if InRequest(s, request, key) then
        var r := s.perRequest[(request.value, key)];
        s.(answers := s.answers + [Answer(request, key, r.value, r.fetched)])
      else if Live(s, key) then Answered(s, request, key, s.global[key].value, s.global[key].fetched)
      else s.(checks := s.checks[id := Asked(request, key)])
    case Fetch(id) =>
      var c := s.checks[id];
      s.(checks := s.checks[id := Fetched(c.request, c.key, c.key in s.backend, |s.past|)])
    case Finish(id) =>
      var c := s.checks[id];
      Answered(
        s.(global := s.global[c.key := Entry(c.value, s.clock + CHECK_CACHE_TTL, c.fetched, |s.past|, s.clock)],
           checks := s.checks - {id}),
        c.request, c.key, c.value, c.fetched)
    case Abandon(id) => s.(checks := s.checks - {id})
    case BeginWrite(id) => s.(writes := s.writes[id := Sent])
    case Apply(id, allowed) => Changed(s, Some(id), allowed).(writes := s.writes[id := Applied])
    case EndWrite(id) =>
      s.(global := map[], writes := s.writes - {id}, changes := Cleared(s.changes, id, |s.past|))
    case FailWrite(id) => s.(writes := s.writes - {id})
    case ChangeOutside(allowed) => Changed(s, None, allowed)
  }

  /** Steps are numbered by the length of `past`. */
  function Next(s: State, step: Step): State
    requires Enabled(s, step)
  {
    Effect(s, step).(past := s.past + [s.backend])
  }

  /** The state after these steps from s; None if some step is not enabled. */
  function Exec(s: State, steps: seq<Step>): Option<State>
    decreases |steps|
  {
    if steps == [] then Some(s)
    else if Enabled(s, steps[0]) then Exec(Next(s, steps[0]), steps[1..])
    else None
  }

  // ---------------------------------------------------------------------
  // Staleness in every interleaving
  // ---------------------------------------------------------------------

  /** The backend answered this value at that step. */
  predicate WasAnswer(s: State, key: Key, value: bool, at: nat) {
    at < |s.past| && (key in s.past[at]) == value
  }

  ghost predicate EntriesTrue(s: State) {
    forall k :: k in s.global ==>
      var e := s.global[k];
      WasAnswer(s, k, e.value, e.fetched) && e.storedAt <= s.clock && e.expiresAt == e.storedAt + CHECK_CACHE_TTL
  }

  ghost predicate PendingTrue(s: State) {
    forall id :: id in s.checks && s.checks[id].Fetched? ==>
      WasAnswer(s, s.checks[id].key, s.checks[id].value, s.checks[id].fetched)
  }

  ghost predicate RememberedTrue(s: State) {
    forall rk :: rk in s.perRequest ==> WasAnswer(s, rk.1, s.perRequest[rk].value, s.perRequest[rk].fetched)
  }

  ghost predicate AnswersTrue(s: State) {
    forall i :: 0 <= i < |s.answers| ==> WasAnswer(s, s.answers[i].key, s.answers[i].value, s.answers[i].fetched)
  }

  /** Everything cached, pending, remembered or returned is something the backend said. */
  ghost predicate HistoryInvariant(s: State) {
    EntriesTrue(s) && PendingTrue(s) && RememberedTrue(s) && AnswersTrue(s)
  }

  /** The past only grows. */
  lemma PastStays(s: State, step: Step, key: Key, value: bool, at: nat)
    requires Enabled(s, step) && WasAnswer(s, key, value, at)
    ensures WasAnswer(Next(s, step), key, value, at)
  {
  }

  lemma StepKeepsEntries(s: State, step: Step)
    requires EntriesTrue(s) && PendingTrue(s) && Enabled(s, step)
    ensures EntriesTrue(Next(s, step))
  {
    var t := Next(s, step);
    forall k | k in t.global
      ensures WasAnswer(t, k, t.global[k].value, t.global[k].fetched)
      ensures t.global[k].storedAt <= t.clock && t.global[k].expiresAt == t.global[k].storedAt + CHECK_CACHE_TTL
    {
      if step.Finish? && k == s.checks[step.id].key {
        PastStays(s, step, k, s.checks[step.id].value, s.checks[step.id].fetched);
      } else {
        PastStays(s, step, k, s.global[k].value, s.global[k].fetched);
      }
    }
  }

  lemma StepKeepsPending(s: State, step: Step)
    requires PendingTrue(s) && Enabled(s, step)
    ensures PendingTrue(Next(s, step))
  {
    var t := Next(s, step);
    forall id | id in t.checks && t.checks[id].Fetched?
      ensures WasAnswer(t, t.checks[id].key, t.checks[id].value, t.checks[id].fetched)
    {
      if step.Fetch? && id == step.id {
        assert t.past[|s.past|] == s.backend;
      } else {
        PastStays(s, step, s.checks[id].key, s.checks[id].value, s.checks[id].fetched);
      }
    }
  }

  /** The answer a step gives, if it gives one. */
  function Given(s: State, step: Step): seq<Answer>
    requires Enabled(s, step)
  {
    match step
    case Begin(_, request, key) =>
      if InRequest(s, request, key) then
        [Answer(request, key, s.perRequest[(request.value, key)].value, s.perRequest[(request.value, key)].fetched)]
      else if Live(s, key) then [Answer(request, key, s.global[key].value, s.global[key].fetched)]
      else []
    case Finish(id) => [Answer(s.checks[id].request, s.checks[id].key, s.checks[id].value, s.checks[id].fetched)]
    case _ => []
  }

  /** A step appends the answer it gives and remembers nothing else. */
  lemma StepGives(s: State, step: Step)
    requires Enabled(s, step)
    ensures var t, given := Next(s, step), Given(s, step);
      && t.answers == s.answers + given
      && t.perRequest ==
           if given != [] && given[0].request.Some? then
             s.perRequest[(given[0].request.value, given[0].key) := Remembered(given[0].value, given[0].fetched)]
           else s.perRequest
  {
  }

  /** What a step answers was cached, pending or remembered before. */
  lemma GivenTrue(s: State, step: Step)
    requires HistoryInvariant(s) && Enabled(s, step)
    ensures forall i :: 0 <= i < |Given(s, step)| ==>
      WasAnswer(s, Given(s, step)[i].key, Given(s, step)[i].value, Given(s, step)[i].fetched)
  {
  }

  lemma StepKeepsAnswers(s: State, step: Step)
    requires HistoryInvariant(s) && Enabled(s, step)
    ensures AnswersTrue(Next(s, step))
  {
    StepGives(s, step);
    GivenTrue(s, step);
  }

  lemma StepKeepsRememberedTrue(s: State, step: Step)
    requires HistoryInvariant(s) && Enabled(s, step)
    ensures RememberedTrue(Next(s, step))
  {
    StepGives(s, step);
    GivenTrue(s, step);
  }

  // ---------------------------------------------------------------------
  // Which changes a cached answer can miss
  // ---------------------------------------------------------------------

  /** A change at or after `fetched` whose clearing, if it has come, was before `stored`. */
  predicate Escapes(c: Change, fetched: nat, stored: nat) {
    c.at >= fetched && (c.cleared.None? || c.cleared.value < stored)
  }

  ghost predicate Excused(s: State, fetched: nat, stored: nat) {
    exists i :: 0 <= i < |s.changes| && Escapes(s.changes[i], fetched, stored)
  }

  ghost predicate ClearsPast(s: State) {
    forall i :: 0 <= i < |s.changes| && s.changes[i].cleared.Some? ==> s.changes[i].cleared.value < |s.past|
  }

  ghost predicate EntriesExcused(s: State) {
    forall k :: k in s.global ==>
      s.global[k].fetched <= |s.past| &&
      (s.global[k].value == (k in s.backend) || Excused(s, s.global[k].fetched, s.global[k].stored))
  }

  /** A pending answer disagrees with the backend only after a change. */
  ghost predicate PendingExcused(s: State) {
    forall id :: id in s.checks && s.checks[id].Fetched? ==>
      var c := s.checks[id];
      c.fetched <= |s.past| && (c.value == (c.key in s.backend) || ChangedSince(s, c.fetched))
  }

  ghost predicate ChangedSince(s: State, fetched: nat) {
    exists i :: 0 <= i < |s.changes| && s.changes[i].at >= fetched
  }

  ghost predicate StalenessInvariant(s: State) {
    ClearsPast(s) && EntriesExcused(s) && PendingExcused(s)
  }

  lemma StepKeepsClears(s: State, step: Step)
    requires ClearsPast(s) && Enabled(s, step)
    ensures ClearsPast(Next(s, step))
  {
  }

  lemma StepKeepsPendingExcused(s: State, step: Step)
    requires PendingExcused(s) && Enabled(s, step)
    ensures PendingExcused(Next(s, step))
  {
    var t := Next(s, step);
    forall id | id in t.checks && t.checks[id].Fetched?
      ensures t.checks[id].fetched <= |t.past|
      ensures t.checks[id].value == (t.checks[id].key in t.backend) || ChangedSince(t, t.checks[id].fetched)
    {
      var c := t.checks[id];
      if !(step.Fetch? && id == step.id) {
        assert s.checks[id] == c;
        StepKeepsChanged(s, step, c.fetched);
      }
    }
  }

  /** Once the backend has changed it has changed, and a step that changes it says so. */
  lemma StepKeepsChanged(s: State, step: Step, fetched: nat)
    requires fetched <= |s.past| && Enabled(s, step)
    ensures var t := Next(s, step);
      (t.backend != s.backend || ChangedSince(s, fetched)) ==> ChangedSince(t, fetched)
  {
    var t := Next(s, step);
    if step.Apply? || step.ChangeOutside? {
      assert t.changes[|s.changes|].at >= fetched;
    } else if ChangedSince(s, fetched) {
      var i :| 0 <= i < |s.changes| && s.changes[i].at >= fetched;
      assert t.changes[i].at >= fetched;
    }
  }

  lemma StepKeepsEntriesExcused(s: State, step: Step)
    requires StalenessInvariant(s) && Enabled(s, step)
    ensures EntriesExcused(Next(s, step))
  {
    var t := Next(s, step);
    forall k | k in t.global
      ensures t.global[k].fetched <= |t.past|
      ensures t.global[k].value == (k in t.backend) || Excused(t, t.global[k].fetched, t.global[k].stored)
    {
      var e := t.global[k];
      if step.Finish? && k == s.checks[step.id].key {
        if e.value != (k in s.backend) {
          var i :| 0 <= i < |s.changes| && s.changes[i].at >= e.fetched;
          assert Escapes(t.changes[i], e.fetched, e.stored);
        }
      } else {
        assert s.global[k] == e;
        if step.Apply? || step.ChangeOutside? {
          assert Escapes(t.changes[|s.changes|], e.fetched, e.stored);
        } else if Excused(s, e.fetched, e.stored) {
          var i :| 0 <= i < |s.changes| && Escapes(s.changes[i], e.fetched, e.stored);
          assert Escapes(t.changes[i], e.fetched, e.stored);
        }
      }
    }
  }

  lemma {:induction false} RunKeepsInvariants(s: State, steps: seq<Step>)
    requires HistoryInvariant(s) && StalenessInvariant(s) && Exec(s, steps).Some?
    ensures HistoryInvariant(Exec(s, steps).value) && StalenessInvariant(Exec(s, steps).value)
    decreases |steps|
  {
    if steps != [] {
      StepKeepsEntries(s, steps[0]);
      StepKeepsPending(s, steps[0]);
      StepKeepsAnswers(s, steps[0]);
      StepKeepsRememberedTrue(s, steps[0]);
      StepKeepsClears(s, steps[0]);
      StepKeepsPendingExcused(s, steps[0]);
      StepKeepsEntriesExcused(s, steps[0]);
      RunKeepsInvariants(Next(s, steps[0]), steps[1..]);
    }
  }

  /** In every interleaving, with failed writes and changes from outside: each answer
      ever returned is one the backend gave, and a live global entry was stored
      less than the TTL ago. */
  lemma AnswersComeFromBackend(steps: seq<Step>)
    requires Exec(INITIAL, steps).Some?
    ensures var s := Exec(INITIAL, steps).value;
      && AnswersTrue(s)
      && forall k :: Live(s, k) ==>
           WasAnswer(s, k, s.global[k].value, s.global[k].fetched) && s.clock - s.global[k].storedAt < CHECK_CACHE_TTL
  {
    RunKeepsInvariants(INITIAL, steps);
  }

  /** A step that leaves the key's entry alone: no eviction of it, no store under it, no clear. */
  predicate Leaves(s: State, step: Step, key: Key) {
    match step
    case Evict(k) => k != key
    case Finish(id) => id in s.checks ==> s.checks[id].key != key
    case EndWrite(_) => false
    case _ => true
  }

  predicate LeavesAll(s: State, steps: seq<Step>, key: Key)
    decreases |steps|
  {
    steps != [] && Enabled(s, steps[0]) ==> Leaves(s, steps[0], key) && LeavesAll(Next(s, steps[0]), steps[1..], key)
  }

  lemma {:induction false} EntryStays(s: State, steps: seq<Step>, key: Key)
    requires key in s.global && LeavesAll(s, steps, key) && Exec(s, steps).Some?
    ensures var t := Exec(s, steps).value; key in t.global && t.global[key] == s.global[key]
    decreases |steps|
  {
    if steps != [] {
      StepCaches(s, steps[0]);
      EntryStays(Next(s, steps[0]), steps[1..], key);
    }
  }

  /** An answer stored by a check is given to every later check of the key, by whatever
      request does not remember one of its own, exactly until thirty seconds have passed,
      whatever happens short of an eviction, another store or a clear; after that the
      backend is asked again. */
  lemma ServedForThirtySeconds(
      s: State, id: Id, more: seq<Step>, later: State, other: Id, request: Option<RequestId>)
    requires Enabled(s, Finish(id)) && Exec(Next(s, Finish(id)), more) == Some(later)
    requires LeavesAll(Next(s, Finish(id)), more, s.checks[id].key)
    requires var key := s.checks[id].key;
      other !in later.checks && (request.Some? ==> (request.value, key) !in later.perRequest)
    ensures var key, value := s.checks[id].key, s.checks[id].value;
      var answered := Next(later, Begin(other, request, key));
      if later.clock - s.clock < 30 then
        answered.answers == later.answers + [Answer(request, key, value, s.checks[id].fetched)] && other !in answered.checks
      else answered.answers == later.answers && answered.checks == later.checks[other := Asked(request, key)]
  {
    EntryStays(Next(s, Finish(id)), more, s.checks[id].key);
  }

  /** A cached answer disagrees with the backend only because of a change after it was
      fetched that no write has cleared, or that was cleared before it was stored. */
  lemma StaleOnlyByOverlap(steps: seq<Step>, key: Key)
    requires Exec(INITIAL, steps).Some?
    ensures var s := Exec(INITIAL, steps).value;
      key in s.global && s.global[key].value != (key in s.backend) ==>
        Excused(s, s.global[key].fetched, s.global[key].stored)
  {
    RunKeepsInvariants(INITIAL, steps);
  }

  // ---------------------------------------------------------------------
  // Runs that differ in the backend's answers only
  // ---------------------------------------------------------------------

  /** The same step, except that the backend may come to allow other keys. */
  predicate SameTiming(x: Step, y: Step) {
    x == y || (x.Apply? && y.Apply? && x.id == y.id) || (x.ChangeOutside? && y.ChangeOutside?)
  }

  /** The same steps in the same order, whatever the backend allows. */
  ghost predicate SameSchedule(a: seq<Step>, b: seq<Step>) {
    |a| == |b| && forall i :: 0 <= i < |a| ==> SameTiming(a[i], b[i])
  }

  predicate AlikeEntries(a: Entry, b: Entry) {
    a.(value := b.value) == b
  }

  predicate AlikeChecks(a: Check, b: Check) {
    if a.Asked? then a == b else b.Fetched? && a.(value := b.value) == b
  }

  /** The two states differ in answers only: the backend's, and the cached, remembered and waiting ones. */
  ghost predicate Alike(s: State, t: State) {
    AlikeTimes(s, t) && AlikeCaches(s, t) && AlikePending(s, t)
  }

  predicate AlikeTimes(s: State, t: State) {
    s.clock == t.clock && s.writes == t.writes && s.changes == t.changes && |s.past| == |t.past|
  }

  ghost predicate AlikeCaches(s: State, t: State) {
    && s.global.Keys == t.global.Keys && AlikeRemembered(s, t)
    && forall k :: k in s.global ==> AlikeEntries(s.global[k], t.global[k])
  }

  ghost predicate AlikeRemembered(s: State, t: State) {
    && s.perRequest.Keys == t.perRequest.Keys
    && forall rk :: rk in s.perRequest ==> s.perRequest[rk].fetched == t.perRequest[rk].fetched
  }

  ghost predicate AlikePending(s: State, t: State) {
    s.checks.Keys == t.checks.Keys && forall id :: id in s.checks ==> AlikeChecks(s.checks[id], t.checks[id])
  }

  lemma AlikeEnabled(s: State, t: State, x: Step, y: Step)
    requires Alike(s, t) && SameTiming(x, y)
    ensures Enabled(s, x) <==> Enabled(t, y)
  {
    if !x.Tick? && !x.Evict? && !x.ChangeOutside? && x.id in s.checks {
      assert x.id in t.checks && AlikeChecks(s.checks[x.id], t.checks[x.id]);
    }
  }

  lemma AlikeLookups(s: State, t: State, request: Option<RequestId>, key: Key)
    requires Alike(s, t)
    ensures InRequest(s, request, key) <==> InRequest(t, request, key)
    ensures Live(s, key) <==> Live(t, key)
  {
    if request.Some? {
      assert (request.value, key) in s.perRequest.Keys <==> (request.value, key) in t.perRequest.Keys;
    }
    assert key in s.global.Keys <==> key in t.global.Keys;
    if key in s.global {
      assert AlikeEntries(s.global[key], t.global[key]);
    }
  }

  lemma AlikeGiven(s: State, t: State, step: Step)
    requires Alike(s, t) && Enabled(s, step)
    ensures Enabled(t, step) && |Given(t, step)| == |Given(s, step)|
    ensures Given(s, step) != [] ==>
      && Given(t, step)[0].request == Given(s, step)[0].request
      && Given(t, step)[0].key == Given(s, step)[0].key && Given(t, step)[0].fetched == Given(s, step)[0].fetched
  {
    AlikeEnabled(s, t, step, step);
    if step.Begin? {
      AlikeLookups(s, t, step.request, step.key);
    } else if step.Finish? {
      assert AlikeChecks(s.checks[step.id], t.checks[step.id]);
    }
  }

  lemma AlikeNextPending(s: State, t: State, x: Step, y: Step)
    requires Alike(s, t) && SameTiming(x, y) && Enabled(s, x) && Enabled(t, y)
    ensures AlikePending(Next(s, x), Next(t, y))
  {
    if x.Begin? {
      AlikeLookups(s, t, x.request, x.key);
    } else if x.Fetch? {
      assert AlikeChecks(s.checks[x.id], t.checks[x.id]);
    }
  }

  lemma AlikeNextCaches(s: State, t: State, x: Step, y: Step)
    requires Alike(s, t) && SameTiming(x, y) && Enabled(s, x) && Enabled(t, y)
    ensures AlikeCaches(Next(s, x), Next(t, y))
  {
    AlikeNextRemembered(s, t, x, y);
    StepCaches(s, x);
    StepCaches(t, y);
    if x.Finish? {
      assert AlikeChecks(s.checks[x.id], t.checks[x.id]);
    }
  }

  lemma AlikeNextRemembered(s: State, t: State, x: Step, y: Step)
    requires Alike(s, t) && SameTiming(x, y) && Enabled(s, x) && Enabled(t, y)
    ensures AlikeRemembered(Next(s, x), Next(t, y))
  {
    StepGives(s, x);
    StepGives(t, y);
    if x.Begin? || x.Finish? {
      AlikeGiven(s, t, x);
    }
  }

  lemma StepCaches(s: State, step: Step)
    requires Enabled(s, step)
    ensures Next(s, step).global ==
      match step
      case Evict(key) => s.global - {key}
      case Finish(id) =>
        var c := s.checks[id];
        s.global[c.key := Entry(c.value, s.clock + CHECK_CACHE_TTL, c.fetched, |s.past|, s.clock)]
      case EndWrite(_) => map[]
      case _ => s.global
  {
  }

  lemma AlikeNextTimes(s: State, t: State, x: Step, y: Step)
    requires Alike(s, t) && SameTiming(x, y) && Enabled(s, x) && Enabled(t, y)
    ensures AlikeTimes(Next(s, x), Next(t, y))
  {
    StepTimes(s, x);
    StepTimes(t, y);
  }

  lemma StepTimes(s: State, step: Step)
    requires Enabled(s, step)
    ensures var t := Next(s, step);
      && |t.past| == |s.past| + 1 && t.clock == s.clock + (if step.Tick? then step.seconds else 0)
      && t.changes ==
           (match step
            case Apply(id, _) => s.changes + [Change(|s.past|, Some(id), None)]
            case ChangeOutside(_) => s.changes + [Change(|s.past|, None, None)]
            case EndWrite(id) => Cleared(s.changes, id, |s.past|)
            case _ => s.changes)
      && t.writes ==
           (match step
            case BeginWrite(id) => s.writes[id := Sent]
            case Apply(id, _) => s.writes[id := Applied]
            case EndWrite(id) => s.writes - {id}
            case FailWrite(id) => s.writes - {id}
            case _ => s.writes)
  {
  }

  lemma AlikeNext(s: State, t: State, x: Step, y: Step)
    requires Alike(s, t) && SameTiming(x, y) && Enabled(s, x) && Enabled(t, y)
    ensures Alike(Next(s, x), Next(t, y))
  {
    AlikeNextTimes(s, t, x, y);
    AlikeNextPending(s, t, x, y);
    AlikeNextCaches(s, t, x, y);
  }

  /** What the backend answers does not change what a run does, only what it says. */
  lemma {:induction false} AlikeRuns(s: State, t: State, a: seq<Step>, b: seq<Step>)
    requires Alike(s, t) && SameSchedule(a, b)
    ensures Exec(s, a).Some? <==> Exec(t, b).Some?
    ensures Exec(s, a).Some? ==> Alike(Exec(s, a).value, Exec(t, b).value)
    decreases |a|
  {
    if a != [] {
      assert SameTiming(a[0], b[0]);
      AlikeEnabled(s, t, a[0], b[0]);
      if Enabled(s, a[0]) {
        AlikeNext(s, t, a[0], b[0]);
        assert forall i :: 0 <= i < |a[1..]| ==> a[1..][i] == a[i + 1] && b[1..][i] == b[i + 1];
        AlikeRuns(Next(s, a[0]), Next(t, b[0]), a[1..], b[1..]);
      }
    }
  }

  // ---------------------------------------------------------------------
  // A schedule told so that nobody is allowed the key before step m, and then somebody is
  // ---------------------------------------------------------------------

  function Told(step: Step, now: nat, m: nat, key: Key): Step {
    var allowed := if now < m then {} else {key};
    match step
    case Apply(id, _) => Apply(id, allowed)
    case ChangeOutside(_) => ChangeOutside(allowed)
    case _ => step
  }

  function Retold(steps: seq<Step>, now: nat, m: nat, key: Key): seq<Step> {
    if steps == [] then [] else [Told(steps[0], now, m, key)] + Retold(steps[1..], now + 1, m, key)
  }

  lemma {:induction false} RetoldIsSameSchedule(steps: seq<Step>, now: nat, m: nat, key: Key)
    ensures SameSchedule(steps, Retold(steps, now, m, key))
  {
    if steps != [] {
      RetoldIsSameSchedule(steps[1..], now + 1, m, key);
    }
  }

  /** The backend allowed nothing up to step m, and allows exactly the key once it has changed since. */
  ghost predicate Turned(s: State, m: nat, key: Key) {
    && (forall j :: 0 <= j < |s.past| && j <= m ==> s.past[j] == {})
    && (|s.past| <= m ==> s.backend == {})
    && (ChangedSince(s, m) ==> s.backend == {key})
    && forall i :: 0 <= i < |s.changes| ==> s.changes[i].at < |s.past|
  }

  lemma StepKeepsTurned(s: State, step: Step, m: nat, key: Key)
    requires Turned(s, m, key) && Enabled(s, step) && step == Told(step, |s.past|, m, key)
    ensures Turned(Next(s, step), m, key)
  {
    var t := Next(s, step);
    if ChangedSince(t, m) && !step.Apply? && !step.ChangeOutside? {
      var i :| 0 <= i < |t.changes| && t.changes[i].at >= m;
      assert s.changes[i].at >= m;
    }
    if |s.past| == m && (step.Apply? || step.ChangeOutside?) {
      assert t.backend == {key};
    }
  }

  lemma {:induction false} RetoldTurns(s: State, steps: seq<Step>, m: nat, key: Key)
    requires Turned(s, m, key)
    ensures var told := Exec(s, Retold(steps, |s.past|, m, key)); told.Some? ==> Turned(told.value, m, key)
    decreases |steps|
  {
    var told := Retold(steps, |s.past|, m, key);
    if steps != [] && Enabled(s, told[0]) {
      assert told[1..] == Retold(steps[1..], |s.past| + 1, m, key);
      StepKeepsTurned(s, told[0], m, key);
      RetoldTurns(Next(s, told[0]), steps[1..], m, key);
    }
  }

  /** Another run of the same schedule ends in t. */
  ghost predicate Variant(steps: seq<Step>, other: seq<Step>, t: State) {
    SameSchedule(steps, other) && Exec(INITIAL, other) == Some(t)
  }

  lemma VariantIsAlike(steps: seq<Step>, other: seq<Step>, t: State)
    requires Variant(steps, other, t)
    ensures Exec(INITIAL, steps).Some? && Alike(Exec(INITIAL, steps).value, t)
    ensures HistoryInvariant(t) && PastHolds(t)
  {
    AlikeRuns(INITIAL, INITIAL, steps, other);
    RunKeepsInvariants(INITIAL, other);
    RunKeepsPast(INITIAL, other);
  }

  /** The telling in which nobody is allowed the key before step m and somebody is from then on. */
  lemma TurningVariant(steps: seq<Step>, m: nat, key: Key) returns (other: seq<Step>, t: State)
    requires Exec(INITIAL, steps).Some?
    ensures Variant(steps, other, t) && Turned(t, m, key)
  {
    other := Retold(steps, 0, m, key);
    RetoldIsSameSchedule(steps, 0, m, key);
    AlikeRuns(INITIAL, INITIAL, steps, other);
    t := Exec(INITIAL, other).value;
    RetoldTurns(INITIAL, steps, m, key);
  }

  // ---------------------------------------------------------------------
  // When an answer can be wrong
  // ---------------------------------------------------------------------

  /** What the backend allowed before a step it still allows, unless it has changed since. */
  ghost predicate PastHolds(s: State) {
    forall at :: 0 <= at < |s.past| ==> s.past[at] == s.backend || ChangedSince(s, at)
  }

  lemma StepKeepsPast(s: State, step: Step)
    requires PastHolds(s) && Enabled(s, step)
    ensures PastHolds(Next(s, step))
  {
    var t := Next(s, step);
    forall at | 0 <= at < |t.past| ensures t.past[at] == t.backend || ChangedSince(t, at) {
      StepKeepsChanged(s, step, at);
    }
  }

  lemma {:induction false} RunKeepsPast(s: State, steps: seq<Step>)
    requires PastHolds(s) && Exec(s, steps).Some?
    ensures PastHolds(Exec(s, steps).value)
    decreases |steps|
  {
    if steps != [] {
      StepKeepsPast(s, steps[0]);
      RunKeepsPast(Next(s, steps[0]), steps[1..]);
    }
  }

  lemma TurnedIsWrong(t: State, m: nat, key: Key, value: bool, at: nat)
    requires Turned(t, m, key) && ChangedSince(t, m) && WasAnswer(t, key, value, at) && at <= m
    ensures value != (key in t.backend)
  {
  }

  lemma WrongMeansChanged(s: State, t: State, key: Key, value: bool, at: nat)
    requires s.changes == t.changes && PastHolds(t) && WasAnswer(t, key, value, at) && value != (key in t.backend)
    ensures ChangedSince(s, at)
  {
    assert t.past[at] != t.backend;
    var i :| 0 <= i < |t.changes| && t.changes[i].at >= at;
    assert s.changes[i].at >= at;
  }

  /** If the backend has changed since `at`, some run of the same schedule ends with every
      answer of that step to the key wrong. */
  lemma SomeVariantIsWrong(steps: seq<Step>, key: Key, at: nat) returns (other: seq<Step>, t: State)
    requires Exec(INITIAL, steps).Some? && ChangedSince(Exec(INITIAL, steps).value, at)
    ensures Variant(steps, other, t)
    ensures forall value :: WasAnswer(t, key, value, at) ==> value != (key in t.backend)
  {
    var s := Exec(INITIAL, steps).value;
    var i :| 0 <= i < |s.changes| && s.changes[i].at >= at;
    var m := s.changes[i].at;
    other, t := TurningVariant(steps, m, key);
    VariantIsAlike(steps, other, t);
    assert t.changes[i].at >= m;
    forall value | WasAnswer(t, key, value, at) ensures value != (key in t.backend) {
      TurnedIsWrong(t, m, key, value, at);
    }
  }

  predicate GivesWrong(s: State, step: Step) {
    Enabled(s, step) && Given(s, step) != [] && Given(s, step)[0].value != (Given(s, step)[0].key in s.backend)
  }

  /** The answer a check is about to give, whether remembered by its request, cached or fetched,
      can be wrong for some contents of the backend exactly when a change has reached the
      backend since it was fetched. */
  lemma AnswerCanBeWrongIff(steps: seq<Step>, step: Step)
    requires Exec(INITIAL, steps).Some?
    requires var s := Exec(INITIAL, steps).value; Enabled(s, step) && Given(s, step) != []
    ensures var s := Exec(INITIAL, steps).value;
      (exists other, t :: Variant(steps, other, t) && GivesWrong(t, step)) <==> ChangedSince(s, Given(s, step)[0].fetched)
  {
    var s := Exec(INITIAL, steps).value;
    var answer := Given(s, step)[0];
    forall other, t | Variant(steps, other, t) ensures GivesLike(t, step, answer) {
      VariantIsAlike(steps, other, t);
      AlikeGiven(s, t, step);
      GivenTrue(t, step);
    }
    if ChangedSince(s, answer.fetched) {
      var other, t := SomeVariantIsWrong(steps, answer.key, answer.fetched);
      assert GivesLike(t, step, answer);
      assert GivesWrong(t, step);
    }
    forall other, t | Variant(steps, other, t) && GivesWrong(t, step) ensures ChangedSince(s, answer.fetched) {
      assert GivesLike(t, step, answer);
      VariantIsAlike(steps, other, t);
      WrongMeansChanged(s, t, answer.key, Given(t, step)[0].value, answer.fetched);
    }
  }

  /** The same question is answered, from the same fetch. */
  predicate GivesLike(t: State, step: Step, answer: Answer) {
    && Enabled(t, step) && Given(t, step) != []
    && var given := Given(t, step)[0];
       given.key == answer.key && given.fetched == answer.fetched && WasAnswer(t, given.key, given.value, given.fetched)
  }

  // ---------------------------------------------------------------------
  // Agreement with the backend
  // ---------------------------------------------------------------------

  predicate WrongEntry(s: State, key: Key) {
    Live(s, key) && s.global[key].value != (key in s.backend)
  }

  predicate WrongPending(s: State, id: Id) {
    id in s.checks && s.checks[id].Fetched? && s.checks[id].value != (s.checks[id].key in s.backend)
  }

  /** A change has reached the backend since a live entry, or a waiting answer, was fetched. */
  ghost predicate OvertakenEntry(s: State, key: Key) {
    Live(s, key) && ChangedSince(s, s.global[key].fetched)
  }

  ghost predicate OvertakenPending(s: State, id: Id) {
    id in s.checks && s.checks[id].Fetched? && ChangedSince(s, s.checks[id].fetched)
  }

  /** Every live entry, and every fetched answer still to be stored, is the backend's current answer. */
  ghost predicate Agrees(s: State) {
    (forall k :: !WrongEntry(s, k)) && forall id :: !WrongPending(s, id)
  }

  /** No live entry and no fetched answer still to be stored is older than a change of the backend. */
  ghost predicate Fresh(s: State) {
    (forall k :: !OvertakenEntry(s, k)) && forall id :: !OvertakenPending(s, id)
  }

  /** No write has changed the backend without having cleared the cache yet. */
  predicate Settled(s: State) {
    forall id :: id in s.writes.Keys ==> s.writes[id].Sent?
  }

  /** At every moment of the run with no write between its change and its clear, the cache agrees. */
  ghost predicate FaithfulRun(steps: seq<Step>) {
    forall n :: 0 <= n <= |steps| && Exec(INITIAL, steps[..n]).Some? ==>
      var s := Exec(INITIAL, steps[..n]).value; Settled(s) ==> Agrees(s)
  }

  /** At every such moment nothing cached or waiting is older than a change. This is about
      the order of the steps alone: it does not look at any answer. */
  ghost predicate FreshRun(steps: seq<Step>) {
    forall n :: 0 <= n <= |steps| && Exec(INITIAL, steps[..n]).Some? ==>
      var s := Exec(INITIAL, steps[..n]).value; Settled(s) ==> Fresh(s)
  }

  /** Whenever nothing cached or waiting is older than a change, the cache agrees with the
      backend, whatever happened before. */
  lemma CacheAgreement(steps: seq<Step>)
    requires Exec(INITIAL, steps).Some?
    requires Fresh(Exec(INITIAL, steps).value)
    ensures Agrees(Exec(INITIAL, steps).value)
  {
    RunKeepsInvariants(INITIAL, steps);
    RunKeepsPast(INITIAL, steps);
    FreshAgrees(Exec(INITIAL, steps).value);
  }

  lemma FreshAgrees(s: State)
    requires EntriesTrue(s) && PendingTrue(s) && PastHolds(s) && Fresh(s)
    ensures Agrees(s)
  {
    forall k | Live(s, k) ensures !WrongEntry(s, k) {
      assert !OvertakenEntry(s, k) && s.past[s.global[k].fetched] == s.backend;
    }
    forall id | id in s.checks && s.checks[id].Fetched? ensures !WrongPending(s, id) {
      assert !OvertakenPending(s, id) && s.past[s.checks[id].fetched] == s.backend;
    }
  }

  /** ... and at such a moment every check answered by the global cache or the backend gets
      the backend's answer of that moment. */
  lemma FreshAnswersAreCurrent(steps: seq<Step>, step: Step)
    requires Exec(INITIAL, steps).Some?
    requires var s := Exec(INITIAL, steps).value;
      && Fresh(s) && Enabled(s, step)
      && (step.Finish? || (step.Begin? && !InRequest(s, step.request, step.key)))
    ensures !GivesWrong(Exec(INITIAL, steps).value, step)
  {
    var s := Exec(INITIAL, steps).value;
    CacheAgreement(steps);
    if step.Finish? {
      assert !WrongPending(s, step.id);
    } else {
      assert !WrongEntry(s, step.key);
    }
  }

  lemma AlikeFresh(s: State, t: State)
    requires Alike(s, t)
    ensures Settled(s) <==> Settled(t)
    ensures Fresh(s) <==> Fresh(t)
  {
    forall k ensures OvertakenEntry(s, k) <==> OvertakenEntry(t, k) {
      AlikeLookups(s, t, None, k);
    }
    forall id ensures OvertakenPending(s, id) <==> OvertakenPending(t, id) {
      if id in s.checks {
        assert AlikeChecks(s.checks[id], t.checks[id]);
      }
    }
  }

  /** A state that is not fresh is in disagreement in some run of the same schedule. */
  lemma OvertakenCanDisagree(steps: seq<Step>) returns (other: seq<Step>, t: State)
    requires Exec(INITIAL, steps).Some? && !Fresh(Exec(INITIAL, steps).value)
    ensures Variant(steps, other, t) && !Agrees(t)
  {
    var s := Exec(INITIAL, steps).value;
    if k :| OvertakenEntry(s, k) {
      other, t := SomeVariantIsWrong(steps, k, s.global[k].fetched);
      VariantIsAlike(steps, other, t);
      AlikeLookups(s, t, None, k);
      assert WrongEntry(t, k);
    } else {
      var id :| OvertakenPending(s, id);
      other, t := SomeVariantIsWrong(steps, s.checks[id].key, s.checks[id].fetched);
      VariantIsAlike(steps, other, t);
      assert AlikeChecks(s.checks[id], t.checks[id]);
      assert WrongPending(t, id);
    }
  }

  /** A schedule keeps the cache in agreement at every settled moment, whatever the backend
      allows, if and only if at none of those moments anything cached or waiting is older
      than a change of the backend. */
  lemma AgreementIff(steps: seq<Step>)
    ensures (forall other :: SameSchedule(steps, other) ==> FaithfulRun(other)) <==> FreshRun(steps)
  {
    if FreshRun(steps) {
      forall other | SameSchedule(steps, other) ensures FaithfulRun(other) {
        FreshIsFaithful(steps, other);
      }
    } else {
      var n :| 0 <= n <= |steps| && Exec(INITIAL, steps[..n]).Some? &&
        Settled(Exec(INITIAL, steps[..n]).value) && !Fresh(Exec(INITIAL, steps[..n]).value);
      var front, t := OvertakenCanDisagree(steps[..n]);
      var other := front + steps[n..];
      assert SameSchedule(steps, other) by {
        assert forall i :: 0 <= i < n ==> SameTiming(steps[..n][i], front[i]);
      }
      assert other[..n] == front;
      VariantIsAlike(steps[..n], front, t);
      AlikeFresh(Exec(INITIAL, steps[..n]).value, t);
      assert !FaithfulRun(other);
    }
  }

  lemma FreshIsFaithful(steps: seq<Step>, other: seq<Step>)
    requires FreshRun(steps) && SameSchedule(steps, other)
    ensures FaithfulRun(other)
  {
    forall n | 0 <= n <= |other| && Exec(INITIAL, other[..n]).Some? && Settled(Exec(INITIAL, other[..n]).value)
      ensures Agrees(Exec(INITIAL, other[..n]).value)
    {
      assert SameSchedule(steps[..n], other[..n]);
      VariantIsAlike(steps[..n], other[..n], Exec(INITIAL, other[..n]).value);
      AlikeFresh(Exec(INITIAL, steps[..n]).value, Exec(INITIAL, other[..n]).value);
      CacheAgreement(other[..n]);
    }
  }

  predicate StoresWrong(s: State, id: Id) {
    Enabled(s, Finish(id)) && WrongEntry(Next(s, Finish(id)), s.checks[id].key)
  }

  /** A check can store a live entry that disagrees with the backend, for some contents of
      the backend, exactly when a change has reached the backend since the check's answer
      was fetched. No clear in between helps. */
  lemma StaleStoreIff(steps: seq<Step>, id: Id)
    requires Exec(INITIAL, steps).Some?
    ensures (exists other, t :: Variant(steps, other, t) && StoresWrong(t, id)) <==>
            OvertakenPending(Exec(INITIAL, steps).value, id)
  {
    var s := Exec(INITIAL, steps).value;
    if OvertakenPending(s, id) {
      var other, t := SomeVariantIsWrong(steps, s.checks[id].key, s.checks[id].fetched);
      VariantIsAlike(steps, other, t);
      assert AlikeChecks(s.checks[id], t.checks[id]);
      assert StoresWrong(t, id);
    }
    forall other, t | Variant(steps, other, t) && StoresWrong(t, id) ensures OvertakenPending(s, id) {
      VariantIsAlike(steps, other, t);
      assert AlikeChecks(s.checks[id], t.checks[id]);
      WrongMeansChanged(s, t, t.checks[id].key, t.checks[id].value, t.checks[id].fetched);
    }
  }

  /** Checks start only while no write is in flight and writes only while no check is;
      writes that have reached the backend succeed; nobody else changes the backend. */
  predicate Apart(s: State, step: Step) {
    match step
    case Begin(_, _, _) => s.writes.Keys == {}
    case BeginWrite(_) => s.checks.Keys == {}
    case FailWrite(id) => id in s.writes ==> s.writes[id].Sent?
    case ChangeOutside(_) => false
    case _ => true
  }

  ghost predicate ApartRun(s: State, steps: seq<Step>)
    decreases |steps|
  {
    steps != [] && Enabled(s, steps[0]) ==> Apart(s, steps[0]) && ApartRun(Next(s, steps[0]), steps[1..])
  }

  /** Nothing cached, live or not, and nothing waiting is older than a change that no write in flight made. */
  ghost predicate ApartInvariant(s: State) {
    && (s.writes.Keys == {} || s.checks.Keys == {})
    && (forall i :: 0 <= i < |s.changes| ==> s.changes[i].at < |s.past|)
    && (Settled(s) ==> forall k :: k in s.global ==> !ChangedSince(s, s.global[k].fetched))
    && forall id :: !OvertakenPending(s, id)
  }

  lemma NotChangedBy(s: State, step: Step, at: nat)
    requires Enabled(s, step) && !step.Apply? && !step.ChangeOutside? && ChangedSince(Next(s, step), at)
    ensures ChangedSince(s, at)
  {
    StepTimes(s, step);
    var t := Next(s, step);
    var i :| 0 <= i < |t.changes| && t.changes[i].at >= at;
    assert s.changes[i].at >= at;
  }

  lemma ApplyUnsettles(s: State, step: Step)
    requires Enabled(s, step) && step.Apply?
    ensures !Settled(Next(s, step))
  {
    var t := Next(s, step);
    assert step.id in t.writes.Keys && t.writes[step.id].Applied?;
  }

  lemma SettledBefore(s: State, step: Step)
    requires Enabled(s, step) && Apart(s, step) && !step.Apply? && !step.EndWrite? && Settled(Next(s, step))
    ensures Settled(s)
  {
    StepTimes(s, step);
    var t := Next(s, step);
    forall id | id in s.writes.Keys ensures s.writes[id].Sent? {
      assert id in t.writes.Keys || (step.FailWrite? && id == step.id);
    }
  }

  lemma StepKeepsPendingApart(s: State, step: Step, id: Id)
    requires ApartInvariant(s) && Enabled(s, step) && Apart(s, step)
    ensures !OvertakenPending(Next(s, step), id)
  {
    var t := Next(s, step);
    if !step.Apply? && OvertakenPending(t, id) {
      NotChangedBy(s, step, t.checks[id].fetched);
      assert OvertakenPending(s, id);
    }
  }

  lemma StepKeepsEntriesApart(s: State, step: Step, key: Key)
    requires ApartInvariant(s) && Enabled(s, step) && Apart(s, step) && !step.Apply?
    requires Settled(Next(s, step)) && key in Next(s, step).global
    ensures !ChangedSince(Next(s, step), Next(s, step).global[key].fetched)
  {
    StepCaches(s, step);
    SettledBefore(s, step);
    if step.Finish? {
      assert !OvertakenPending(s, step.id);
    }
    var t := Next(s, step);
    if ChangedSince(t, t.global[key].fetched) {
      NotChangedBy(s, step, t.global[key].fetched);
      assert false;
    }
  }

  lemma StepKeepsApart(s: State, step: Step)
    requires ApartInvariant(s) && Enabled(s, step) && Apart(s, step)
    ensures ApartInvariant(Next(s, step))
  {
    var t := Next(s, step);
    StepTimes(s, step);
    forall id ensures !OvertakenPending(t, id) {
      StepKeepsPendingApart(s, step, id);
    }
    if step.Apply? {
      ApplyUnsettles(s, step);
    } else {
      forall k | Settled(t) && k in t.global ensures !ChangedSince(t, t.global[k].fetched) {
        StepKeepsEntriesApart(s, step, k);
      }
    }
  }

  lemma {:induction false} ApartTo(s: State, steps: seq<Step>, n: nat)
    requires ApartInvariant(s) && ApartRun(s, steps) && n <= |steps| && Exec(s, steps[..n]).Some?
    ensures ApartInvariant(Exec(s, steps[..n]).value)
    decreases n
  {
    if n > 0 {
      assert steps[..n][1..] == steps[1..][..n - 1];
      StepKeepsApart(s, steps[0]);
      ApartTo(Next(s, steps[0]), steps[1..], n - 1);
    }
  }

  /** Checks and writes that never overlap keep the run fresh in particular, so that the cache agrees. */
  lemma NoOverlapIsFresh(steps: seq<Step>)
    requires ApartRun(INITIAL, steps)
    ensures FreshRun(steps) && FaithfulRun(steps)
  {
    forall n | 0 <= n <= |steps| && Exec(INITIAL, steps[..n]).Some? && Settled(Exec(INITIAL, steps[..n]).value)
      ensures Fresh(Exec(INITIAL, steps[..n]).value)
    {
      ApartTo(INITIAL, steps, n);
    }
    FreshIsFaithful(steps, steps);
  }

  lemma ExecCons(s: State, step: Step, rest: seq<Step>)
    requires Enabled(s, step)
    ensures Exec(s, [step] + rest) == Exec(Next(s, step), rest)
  {
    assert ([step] + rest)[1..] == rest;
  }

  lemma {:induction false} ExecAppend(s: State, a: seq<Step>, b: seq<Step>)
    requires Exec(s, a).Some?
    ensures Exec(s, a + b) == Exec(Exec(s, a).value, b)
    decreases |a|
  {
    if a == [] {
      assert a + b == b;
    } else {
      ExecAppend(Next(s, a[0]), a[1..], b);
      assert (a + b)[1..] == a[1..] + b;
    }
  }

  lemma ExecTwo(s: State, a: Step, b: Step)
    requires Enabled(s, a) && Enabled(Next(s, a), b)
    ensures Exec(s, [a, b]) == Some(Next(Next(s, a), b))
  {
    ExecCons(s, a, [b]);
    ExecCons(Next(s, a), b, []);
    assert [a, b] == [a] + [b];
  }

  lemma ExecJoin(s: State, a: seq<Step>, mid: State, b: seq<Step>, end: State)
    requires Exec(s, a) == Some(mid) && Exec(mid, b) == Some(end)
    ensures Exec(s, a + b) == Some(end)
  {
    ExecAppend(s, a, b);
  }

  /** One check that has fetched the answer "no", and nothing else. */
  ghost predicate OneFetched(s: State, request: Option<RequestId>, key: Key) {
    && s.checks == map[0 := Fetched(request, key, false, 1)]
    && s.backend == {} && s.writes == map[] && s.global == map[] && s.perRequest == map[] && s.answers == []
  }

  lemma FetchFirst(request: Option<RequestId>, key: Key) returns (steps: seq<Step>, s: State)
    ensures Exec(INITIAL, steps) == Some(s) && OneFetched(s, request, key)
  {
    steps := [Begin(0, request, key), Fetch(0)];
    s := Next(Next(INITIAL, Begin(0, request, key)), Fetch(0));
    ExecTwo(INITIAL, Begin(0, request, key), Fetch(0));
  }

  lemma WriteMeanwhile(s: State, key: Key) returns (steps: seq<Step>, t: State)
    requires OneFetched(s, None, key)
    ensures Exec(s, steps) == Some(t)
    ensures t.checks == s.checks && t.backend == {key} && t.writes == map[0 := Applied]
  {
    steps := [BeginWrite(0), Apply(0, {key})];
    t := Next(Next(s, BeginWrite(0)), Apply(0, {key}));
    ExecTwo(s, BeginWrite(0), Apply(0, {key}));
  }

  lemma StoreAfterClear(s: State, key: Key) returns (steps: seq<Step>, t: State)
    requires s.checks == map[0 := Fetched(None, key, false, 1)] && s.backend == {key} && s.writes == map[0 := Applied]
    ensures Exec(s, steps) == Some(t)
    ensures t.checks.Keys == {} && t.writes.Keys == {} && Live(t, key) && !t.global[key].value && key in t.backend
  {
    steps := [EndWrite(0), Finish(0)];
    t := Next(Next(s, EndWrite(0)), Finish(0));
    ExecTwo(s, EndWrite(0), Finish(0));
  }

  /** With overlap the cache can go stale: an answer fetched before a write and stored
      after the write's clear stays, although no check and no write is left. */
  lemma OverlapCanLeaveStaleEntry(key: Key)
    ensures exists steps, s ::
      (Exec(INITIAL, steps) == Some(s) && s.checks.Keys == {} && s.writes.Keys == {} &&
       Live(s, key) && s.global[key].value != (key in s.backend))
  {
    var before, s2 := FetchFirst(None, key);
    var during, s4 := WriteMeanwhile(s2, key);
    var after, s6 := StoreAfterClear(s4, key);
    ExecJoin(INITIAL, before, s2, during, s4);
    ExecJoin(INITIAL, before + during, s4, after, s6);
  }

  // ---------------------------------------------------------------------
  // One request's answers for one key
  // ---------------------------------------------------------------------

  predicate PendingFor(s: State, id: Id, request: RequestId, key: Key) {
    id in s.checks && s.checks[id].request == Some(request) && s.checks[id].key == key
  }

  predicate IsFor(a: Answer, request: RequestId, key: Key) {
    a.request == Some(request) && a.key == key
  }

  predicate BeginsFor(step: Step, request: RequestId, key: Key) {
    step.Begin? && step.request == Some(request) && step.key == key
  }

  /** The request does not check the key while a check of it is pending. */
  ghost predicate Sequential(s: State, step: Step, request: RequestId, key: Key) {
    BeginsFor(step, request, key) ==> forall id :: !PendingFor(s, id, request, key)
  }

  ghost predicate SequentialRun(s: State, steps: seq<Step>, request: RequestId, key: Key)
    decreases |steps|
  {
    steps != [] && Enabled(s, steps[0]) ==>
      Sequential(s, steps[0], request, key) && SequentialRun(Next(s, steps[0]), steps[1..], request, key)
  }

  /** Every answer the request got for the key is the one it remembers. */
  ghost predicate AnswersRemembered(s: State, request: RequestId, key: Key) {
    forall i :: 0 <= i < |s.answers| && IsFor(s.answers[i], request, key) ==>
      (request, key) in s.perRequest && s.perRequest[(request, key)].value == s.answers[i].value
  }

  /** A pending check is for a key the request does not remember, and there is at most one. */
  ghost predicate OneNewPending(s: State, request: RequestId, key: Key) {
    && (forall id :: PendingFor(s, id, request, key) ==> (request, key) !in s.perRequest)
    && (forall a, b :: PendingFor(s, a, request, key) && PendingFor(s, b, request, key) ==> a == b)
  }

  ghost predicate StickyInvariant(s: State, request: RequestId, key: Key) {
    AnswersRemembered(s, request, key) && OneNewPending(s, request, key)
  }

  /** What a request remembers for a key changes only when it has a check of that key pending. */
  lemma RememberedStays(s: State, step: Step, request: RequestId, key: Key)
    requires Enabled(s, step) && (request, key) in s.perRequest && OneNewPending(s, request, key)
    ensures var t := Next(s, step);
      (request, key) in t.perRequest && t.perRequest[(request, key)] == s.perRequest[(request, key)]
  {
    if step.Finish? {
      assert !PendingFor(s, step.id, request, key);
    }
  }

  lemma StepKeepsRemembered(s: State, step: Step, request: RequestId, key: Key)
    requires StickyInvariant(s, request, key) && Enabled(s, step)
    ensures AnswersRemembered(Next(s, step), request, key)
  {
    if (request, key) in s.perRequest {
      RememberedStays(s, step, request, key);
    }
  }

  /** A step makes a check of the key pending only by beginning one. */
  lemma PendingBefore(s: State, step: Step, id: Id, request: RequestId, key: Key)
    requires Enabled(s, step) && PendingFor(Next(s, step), id, request, key)
    ensures (BeginsFor(step, request, key) && id == step.id) || PendingFor(s, id, request, key)
  {
  }

  lemma StepKeepsPendingNew(s: State, step: Step, id: Id, request: RequestId, key: Key)
    requires OneNewPending(s, request, key) && Enabled(s, step) && Sequential(s, step, request, key)
    requires PendingFor(Next(s, step), id, request, key)
    ensures (request, key) !in Next(s, step).perRequest
  {
    if BeginsFor(step, request, key) {
      assert !PendingFor(s, id, request, key);
    } else {
      PendingBefore(s, step, id, request, key);
      if step.Finish? && PendingFor(s, step.id, request, key) {
        assert false;
      }
    }
  }

  lemma StepKeepsOnePending(s: State, step: Step, request: RequestId, key: Key)
    requires OneNewPending(s, request, key) && Enabled(s, step) && Sequential(s, step, request, key)
    ensures OneNewPending(Next(s, step), request, key)
  {
    var t := Next(s, step);
    forall id | PendingFor(t, id, request, key) ensures (request, key) !in t.perRequest {
      StepKeepsPendingNew(s, step, id, request, key);
    }
    forall a, b | PendingFor(t, a, request, key) && PendingFor(t, b, request, key) ensures a == b {
      PendingBefore(s, step, a, request, key);
      PendingBefore(s, step, b, request, key);
    }
  }

  lemma {:induction false} RunKeepsSticky(s: State, steps: seq<Step>, request: RequestId, key: Key)
    requires StickyInvariant(s, request, key) && SequentialRun(s, steps, request, key) && Exec(s, steps).Some?
    ensures StickyInvariant(Exec(s, steps).value, request, key)
    decreases |steps|
  {
    if steps != [] {
      StepKeepsRemembered(s, steps[0], request, key);
      StepKeepsOnePending(s, steps[0], request, key);
      RunKeepsSticky(Next(s, steps[0]), steps[1..], request, key);
    }
  }

  /** The request has got two different answers for the key. */
  ghost predicate Disagreement(s: State, request: RequestId, key: Key) {
    exists i, j :: DifferAt(s.answers, i, j, request, key)
  }

  predicate DifferAt(answers: seq<Answer>, i: int, j: int, request: RequestId, key: Key) {
    && 0 <= i < |answers| && 0 <= j < |answers|
    && IsFor(answers[i], request, key) && IsFor(answers[j], request, key) && answers[i].value != answers[j].value
  }

  /** A request that checks a key's answer one check after another, whatever it does with
      other keys and whatever is written, evicted, expired or checked by others, never
      sees it change. */
  lemma RequestAnswersNeverChange(steps: seq<Step>, request: RequestId, key: Key)
    requires SequentialRun(INITIAL, steps, request, key) && Exec(INITIAL, steps).Some?
    ensures !Disagreement(Exec(INITIAL, steps).value, request, key)
  {
    RunKeepsSticky(INITIAL, steps, request, key);
  }

  // ---------------------------------------------------------------------
  // When a check can end up disagreeing
  // ---------------------------------------------------------------------

  ghost predicate NoBegin(steps: seq<Step>, request: RequestId, key: Key) {
    forall i :: 0 <= i < |steps| ==> !BeginsFor(steps[i], request, key)
  }

  /** These steps, which begin no further check of the key by the request, lead to a disagreement. */
  ghost predicate Spoils(s: State, steps: seq<Step>, request: RequestId, key: Key) {
    NoBegin(steps, request, key) && Exec(s, steps).Some? && Disagreement(Exec(s, steps).value, request, key)
  }

  ghost predicate Said(s: State, request: RequestId, key: Key, value: bool) {
    exists i :: 0 <= i < |s.answers| && IsFor(s.answers[i], request, key) && s.answers[i].value == value
  }

  lemma SpoilsCons(s: State, step: Step, rest: seq<Step>, request: RequestId, key: Key)
    requires Enabled(s, step) && !BeginsFor(step, request, key) && Spoils(Next(s, step), rest, request, key)
    ensures Spoils(s, [step] + rest, request, key)
  {
    ExecCons(s, step, rest);
  }

  /** A fetched answer that differs from one already given spoils the request when stored. */
  lemma SpoilFetched(s: State, id: Id, request: RequestId, key: Key) returns (steps: seq<Step>)
    requires PendingFor(s, id, request, key) && s.checks[id].Fetched? && Said(s, request, key, !s.checks[id].value)
    ensures Spoils(s, steps, request, key)
  {
    var t := Next(s, Finish(id));
    var i :| 0 <= i < |s.answers| && IsFor(s.answers[i], request, key) && s.answers[i].value != s.checks[id].value;
    assert DifferAt(t.answers, i, |s.answers|, request, key);
    assert Spoils(t, [], request, key);
    SpoilsCons(s, Finish(id), [], request, key);
    steps := [Finish(id)] + [];
  }

  /** A check that has yet to be asked can be made to differ by a change of the backend. */
  lemma SpoilAsked(s: State, id: Id, request: RequestId, key: Key, value: bool) returns (steps: seq<Step>)
    requires PendingFor(s, id, request, key) && s.checks[id].Asked? && Said(s, request, key, value)
    ensures Spoils(s, steps, request, key)
  {
    var change := ChangeOutside(if value then {} else {key});
    var changed := Next(s, change);
    var fetched := Next(changed, Fetch(id));
    assert fetched.answers == s.answers && Said(fetched, request, key, value);
    var rest := SpoilFetched(fetched, id, request, key);
    SpoilsCons(changed, Fetch(id), rest, request, key);
    SpoilsCons(s, change, [Fetch(id)] + rest, request, key);
    steps := [change] + ([Fetch(id)] + rest);
  }

  /** Of two pending checks of a key, one fetched and one not, the two can be driven apart. */
  lemma SpoilFetchedAndAsked(s: State, a: Id, b: Id, request: RequestId, key: Key) returns (steps: seq<Step>)
    requires PendingFor(s, a, request, key) && s.checks[a].Fetched?
    requires PendingFor(s, b, request, key) && s.checks[b].Asked?
    ensures Spoils(s, steps, request, key)
  {
    var t := Next(s, Finish(a));
    assert IsFor(t.answers[|s.answers|], request, key);
    var rest := SpoilAsked(t, b, request, key, s.checks[a].value);
    SpoilsCons(s, Finish(a), rest, request, key);
    steps := [Finish(a)] + rest;
  }

  lemma SpoilPendingPair(s: State, a: Id, b: Id, request: RequestId, key: Key) returns (steps: seq<Step>)
    requires a != b && PendingFor(s, a, request, key)
    requires PendingFor(s, b, request, key) && s.checks[b].Asked?
    ensures Spoils(s, steps, request, key)
  {
    if s.checks[a].Fetched? {
      steps := SpoilFetchedAndAsked(s, a, b, request, key);
    } else {
      var rest := SpoilFetchedAndAsked(Next(s, Fetch(a)), a, b, request, key);
      SpoilsCons(s, Fetch(a), rest, request, key);
      steps := [Fetch(a)] + rest;
    }
  }

  /** An answer given inside a request is remembered, though perhaps overwritten later. */
  ghost predicate AnswersKnown(s: State, request: RequestId, key: Key) {
    (request, key) !in s.perRequest ==> forall i :: 0 <= i < |s.answers| ==> !IsFor(s.answers[i], request, key)
  }

  lemma {:induction false} RunKeepsKnown(s: State, steps: seq<Step>, request: RequestId, key: Key)
    requires AnswersKnown(s, request, key) && Exec(s, steps).Some?
    ensures AnswersKnown(Exec(s, steps).value, request, key)
    decreases |steps|
  {
    if steps != [] {
      StepGives(s, steps[0]);
      RunKeepsKnown(Next(s, steps[0]), steps[1..], request, key);
    }
  }

  lemma {:induction false} NoBeginIsSequential(s: State, steps: seq<Step>, request: RequestId, key: Key)
    requires NoBegin(steps, request, key)
    ensures SequentialRun(s, steps, request, key)
    decreases |steps|
  {
    if steps != [] && Enabled(s, steps[0]) {
      assert forall i :: 0 <= i < |steps[1..]| ==> steps[1..][i] == steps[i + 1];
      NoBeginIsSequential(Next(s, steps[0]), steps[1..], request, key);
    }
  }

  /** A check that misses both caches can end up disagreeing with another answer of its
      request exactly when the request has a check of the same key pending already. */
  lemma MissCanDisagreeIff(steps: seq<Step>, id: Id, request: RequestId, key: Key)
    requires Exec(INITIAL, steps).Some?
    requires var s := Exec(INITIAL, steps).value;
      id !in s.checks && !InRequest(s, Some(request), key) && !Live(s, key)
    ensures var s := Exec(INITIAL, steps).value;
      (exists more :: Spoils(Next(s, Begin(id, Some(request), key)), more, request, key)) <==>
      (exists other :: PendingFor(s, other, request, key))
  {
    var s := Exec(INITIAL, steps).value;
    var t := Next(s, Begin(id, Some(request), key));
    if other :| PendingFor(s, other, request, key) {
      var more := SpoilPendingPair(t, other, id, request, key);
    } else {
      RunKeepsKnown(INITIAL, steps, request, key);
      assert StickyInvariant(t, request, key) by {
        assert forall a :: PendingFor(t, a, request, key) ==> a == id || PendingFor(s, a, request, key);
      }
      forall more ensures !Spoils(t, more, request, key) {
        if Spoils(t, more, request, key) {
          NoBeginIsSequential(t, more, request, key);
          RunKeepsSticky(t, more, request, key);
          assert false;
        }
      }
    }
  }

  /** Whatever the request has been, or will be, told about the key is this value. */
  ghost predicate AllSay(s: State, request: RequestId, key: Key, value: bool) {
    && (forall i :: 0 <= i < |s.answers| && IsFor(s.answers[i], request, key) ==> s.answers[i].value == value)
    && (forall id :: PendingFor(s, id, request, key) ==> s.checks[id].Fetched? && s.checks[id].value == value)
  }

  lemma {:induction false} AllSayStays(s: State, steps: seq<Step>, request: RequestId, key: Key, value: bool)
    requires AllSay(s, request, key, value) && NoBegin(steps, request, key) && Exec(s, steps).Some?
    ensures AllSay(Exec(s, steps).value, request, key, value)
    decreases |steps|
  {
    if steps != [] {
      assert forall i :: 0 <= i < |steps[1..]| ==> steps[1..][i] == steps[i + 1];
      AllSayStep(s, steps[0], request, key, value);
      AllSayStays(Next(s, steps[0]), steps[1..], request, key, value);
    }
  }

  lemma AllSayStep(s: State, step: Step, request: RequestId, key: Key, value: bool)
    requires AllSay(s, request, key, value) && !BeginsFor(step, request, key) && Enabled(s, step)
    ensures AllSay(Next(s, step), request, key, value)
  {
    var t := Next(s, step);
    StepGives(s, step);
    if step.Finish? || step.Fetch? {
      assert PendingFor(s, step.id, request, key) ==> s.checks[step.id].Fetched? && s.checks[step.id].value == value;
    }
    forall id | PendingFor(t, id, request, key) ensures t.checks[id].Fetched? && t.checks[id].value == value {
      PendingBefore(s, step, id, request, key);
    }
  }

  /** A check answered by the global cache can end up disagreeing exactly when the request
      has a check of the same key pending that is not certain to store the same answer. */
  lemma HitCanDisagreeIff(steps: seq<Step>, id: Id, request: RequestId, key: Key)
    requires Exec(INITIAL, steps).Some?
    requires var s := Exec(INITIAL, steps).value;
      id !in s.checks && !InRequest(s, Some(request), key) && Live(s, key)
    ensures var s := Exec(INITIAL, steps).value;
      (exists more :: Spoils(Next(s, Begin(id, Some(request), key)), more, request, key)) <==>
      (exists other :: PendingFor(s, other, request, key) &&
        (s.checks[other].Asked? || s.checks[other].value != s.global[key].value))
  {
    var s := Exec(INITIAL, steps).value;
    var t, value := Next(s, Begin(id, Some(request), key)), s.global[key].value;
    RunKeepsKnown(INITIAL, steps, request, key);
    assert IsFor(t.answers[|s.answers|], request, key) && Said(t, request, key, value);
    if other :| PendingFor(s, other, request, key) && (s.checks[other].Asked? || s.checks[other].value != value) {
      var more;
      if s.checks[other].Asked? {
        more := SpoilAsked(t, other, request, key, value);
      } else {
        more := SpoilFetched(t, other, request, key);
      }
    } else {
      assert AllSay(t, request, key, value) by {
        assert forall a :: PendingFor(t, a, request, key) ==> PendingFor(s, a, request, key);
      }
      forall more ensures !Spoils(t, more, request, key) {
        if Spoils(t, more, request, key) {
          AllSayStays(t, more, request, key, value);
          assert false;
        }
      }
    }
  }

  /** The first of these conditions is met by real runs: checks made in parallel inside
      one request can disagree. */
  lemma ParallelChecksCanDisagree(request: RequestId, key: Key)
    ensures exists steps, s :: Exec(INITIAL, steps) == Some(s) && Disagreement(s, request, key)
  {
    var first, second := Begin(0, Some(request), key), Begin(1, Some(request), key);
    var s := Next(INITIAL, first);
    ExecCons(INITIAL, first, []);
    assert PendingFor(s, 0, request, key);
    MissCanDisagreeIff([first] + [], 1, request, key);
    var more :| Spoils(Next(s, second), more, request, key);
    ExecCons(s, second, more);
    ExecCons(INITIAL, first, [second] + more);
  }

  // ---------------------------------------------------------------------
  // The object
  // ---------------------------------------------------------------------

  /** The client's two caches. Its methods are the stretches of code between awaits,
      each proved to be one step of the machine; `world` is the machine's state. */
  class FgaClient {
    var checkCache: map<Key, Entry>
    var requestCaches: map<(RequestId, Key), Remembered>
    ghost var world: State

    ghost predicate Valid()
      reads this
    {
      checkCache == world.global && requestCaches == world.perRequest
    }

    constructor ()
      ensures Valid() && world == INITIAL
    {
      checkCache, requestCaches := map[], map[];
      world := INITIAL;
    }

    /** check, up to the call of the backend: None when it has to be asked. */
    method Look(id: Id, request: Option<RequestId>, key: Key, now: int) returns (cached: Option<bool>)
      requires Valid() && now == world.clock && Enabled(world, Begin(id, request, key))
      modifies this
      ensures Valid() && world == Next(old(world), Begin(id, request, key))
      ensures cached.None? ==> world.answers == old(world.answers) && id in world.checks
      ensures cached.Some? ==>
        |world.answers| == |old(world.answers)| + 1 && world.answers[|world.answers| - 1].value == cached.value
    {
      world := Next(world, Begin(id, request, key));
      if request.Some? && (request.value, key) in requestCaches {
        return Some(requestCaches[(request.value, key)].value);
      }
      if key in checkCache && now < checkCache[key].expiresAt {
        var entry := checkCache[key];
        if request.Some? {
          requestCaches := requestCaches[(request.value, key) := Remembered(entry.value, entry.fetched)];
        }
        return Some(entry.value);
      }
      return None;
    }

    /** check, from the backend's answer on. */
    method Keep(id: Id, request: Option<RequestId>, key: Key, value: bool, fetched: nat, step: nat, now: int)
      requires Valid() && now == world.clock && step == |world.past|
      requires id in world.checks && world.checks[id] == Fetched(request, key, value, fetched)
      modifies this
      ensures Valid() && world == Next(old(world), Finish(id))
    {
      world := Next(world, Finish(id));
      checkCache := checkCache[key := Entry(value, now + CHECK_CACHE_TTL, fetched, step, now)];
      if request.Some? {
        requestCaches := requestCaches[(request.value, key) := Remembered(value, fetched)];
      }
    }

    /** The end of write_tuples and delete_tuples. */
    method Clear(id: Id)
      requires Valid() && Enabled(world, Step.EndWrite(id))
      modifies this
      ensures Valid() && world == Next(old(world), Step.EndWrite(id))
    {
      world := Next(world, Step.EndWrite(id));
      checkCache := map[];
    }
  }
}
