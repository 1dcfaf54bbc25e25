/** The scenario engine: load, start, stop and reset, interleaved with phase tasks.

    A phase task runs from one sleep to the next without interruption, so a step
    wakes one task. Starting again does not cancel the earlier task, so any number
    of leftover tasks can be alive. */
module ScenarioEngine {
  import opened Market

  datatype Mode = Idle | Loaded | Running

  datatype Regime = Regime(drift: real, volatility: real, correlation: real)

  datatype Execution = Execution(fillDelayMs: int, rejectRate: real, partialFillRate: real, slippageBps: real)

  datatype Phase = Phase(name: string, regime: Regime, execution: Option<Execution>)

  datatype Scenario = Scenario(name: string, phases: seq<Phase>)

  /** The simulator's regime and the execution settings a scenario controls. */
  datatype Settings = Settings(regime: Regime, execution: Execution)

  /** Which collaborators the engine was given. */
  datatype Wiring = Wiring(simulator: bool, executionEngine: bool)

  const DEFAULTS := Settings(Regime(1.0, 1.0, 0.0), Execution(50, 0.0, 0.0, 2.0))

  /** A task that is alive: not yet run, or asleep with these phases still to come. */
  datatype Task = Created | Asleep(rest: seq<Phase>)

  type TaskId = nat

  datatype State = State(
    mode: Mode,
    scenario: Option<Scenario>,
    phase: Option<Phase>,
    task: Option<TaskId>,        // created by the latest start
    tasks: map<TaskId, Task>,
    nextTask: TaskId,
    settings: Settings)

  datatype Step = Load(scenario: Scenario) | Start | Stop | Reset | Wake(id: TaskId)

  const INITIAL := State(Idle, None, None, None, map[], 0, DEFAULTS)

  function PhaseApplied(w: Wiring, settings: Settings, phase: Phase): Settings {
    Settings(
      if w.simulator then phase.regime else settings.regime,
      if w.executionEngine && phase.execution.Some? then phase.execution.value else settings.execution)
  }

  function ParamsReset(w: Wiring, settings: Settings): Settings {
    Settings(
      if w.simulator then DEFAULTS.regime else settings.regime,
      if w.executionEngine then DEFAULTS.execution else settings.execution)
  }

  /** The end of `_run_phases`, whether all phases ran or the loop broke off. */
  function Completed(w: Wiring, s: State, id: TaskId): State {
    s.(tasks := s.tasks - {id}, settings := ParamsReset(w, s.settings), mode := Idle, phase := None)
  }

  /** From the top of the loop to the next sleep, or to the end. Logging the scenario's
      name raises if there is none, which ends that task. */
  function Looped(w: Wiring, s: State, id: TaskId, rest: seq<Phase>): State {
    if rest == [] || !s.mode.Running? then Completed(w, s, id)
    else if s.scenario.None? then s.(phase := Some(rest[0]), tasks := s.tasks - {id})
    else
      s.(phase := Some(rest[0]), settings := PhaseApplied(w, s.settings, rest[0]), tasks := s.tasks[id := Asleep(rest[1..])])
  }

  function Woken(w: Wiring, s: State, id: TaskId): State
    requires id in s.tasks
  {
    match s.tasks[id]
    case Created =>
      if s.scenario.None? then s.(tasks := s.tasks - {id}) else Looped(w, s, id, s.scenario.value.phases)
    case Asleep(rest) => Looped(w, s, id, rest)
  }

  function Started(s: State): State {
    if s.scenario.None? then s
    else s.(mode := Running, task := Some(s.nextTask), tasks := s.tasks[s.nextTask := Created], nextTask := s.nextTask + 1)
  }

  function Stopped(w: Wiring, s: State): State {
    s.(mode := Idle, tasks := if s.task.Some? then s.tasks - {s.task.value} else s.tasks,
       settings := ParamsReset(w, s.settings), phase := None)
  }

  predicate Enabled(s: State, step: Step) {
    step.Wake? ==> step.id in s.tasks
  }

  function Next(w: Wiring, s: State, step: Step): State
    requires Enabled(s, step)
  {
    match step
    case Load(scenario) => s.(scenario := Some(scenario), mode := Loaded)
    case Start => Started(s)
    case Stop => Stopped(w, s)
    case Reset => Stopped(w, s).(scenario := None)
    case Wake(id) => Woken(w, s, id)
  }

  function Exec(w: Wiring, s: State, steps: seq<Step>): Option<State>
    decreases |steps|
  {
    if steps == [] then Some(s)
    else if Enabled(s, steps[0]) then Exec(w, Next(w, s, steps[0]), steps[1..])
    else None
  }

  // ---------------------------------------------------------------------
  // Idle means defaults
  // ---------------------------------------------------------------------

  /** A collaborator that is missing is never touched. */
  predicate Untouched(w: Wiring, settings: Settings) {
    && (!w.simulator ==> settings.regime == DEFAULTS.regime)
    && (!w.executionEngine ==> settings.execution == DEFAULTS.execution)
  }

  ghost predicate Invariant(w: Wiring, s: State) {
    && Untouched(w, s.settings)
    && (s.mode.Idle? ==> s.settings == DEFAULTS && s.phase.None?)
    && (s.mode.Running? ==> s.scenario.Some?)
    && (forall id :: id in s.tasks ==> id < s.nextTask)
  }

  lemma StepKeepsInvariant(w: Wiring, s: State, step: Step)
    requires Invariant(w, s) && Enabled(s, step)
    ensures Invariant(w, Next(w, s, step))
  {
  }

  lemma {:induction false} RunKeepsInvariant(w: Wiring, s: State, steps: seq<Step>)
    requires Invariant(w, s) && Exec(w, s, steps).Some?
    ensures Invariant(w, Exec(w, s, steps).value)
    decreases |steps|
  {
    if steps != [] {
      StepKeepsInvariant(w, s, steps[0]);
      RunKeepsInvariant(w, Next(w, s, steps[0]), steps[1..]);
    }
  }

  /** In every interleaving, an idle engine has the simulator regime and the scenario's
      execution settings at their defaults, and a running one has a scenario, so a
      phase task never fails on a missing one. */
  lemma IdleMeansDefaults(w: Wiring, steps: seq<Step>)
    requires Exec(w, INITIAL, steps).Some?
    ensures var s := Exec(w, INITIAL, steps).value;
      && (s.mode.Idle? ==>
            s.phase.None? && s.settings.regime == Regime(1.0, 1.0, 0.0) && s.settings.execution == Execution(50, 0.0, 0.0, 2.0))
      && (s.mode.Running? ==> s.scenario.Some?)
  {
    RunKeepsInvariant(w, INITIAL, steps);
  }

  // ---------------------------------------------------------------------
  // Stopping
  // ---------------------------------------------------------------------

  ghost predicate Quiet(w: Wiring, s: State) {
    Untouched(w, s.settings) && !s.mode.Running? && s.settings == DEFAULTS
  }

  ghost predicate NoStart(steps: seq<Step>) {
    forall i :: 0 <= i < |steps| ==> !steps[i].Start?
  }

  lemma {:induction false} QuietUntilStart(w: Wiring, s: State, steps: seq<Step>)
    requires Quiet(w, s) && NoStart(steps) && Exec(w, s, steps).Some?
    ensures Quiet(w, Exec(w, s, steps).value)
    decreases |steps|
  {
    if steps != [] {
      assert forall i :: 0 <= i < |steps[1..]| ==> steps[1..][i] == steps[i + 1];
      QuietUntilStart(w, Next(w, s, steps[0]), steps[1..]);
    }
  }

  /** After a stop or reset, no leftover task, load or further stop disturbs the default
      settings until the next start. */
  lemma StopHolds(w: Wiring, before: seq<Step>, step: Step, more: seq<Step>)
    requires Exec(w, INITIAL, before).Some? && (step.Stop? || step.Reset?) && NoStart(more)
    ensures var stopped := Next(w, Exec(w, INITIAL, before).value, step);
      Exec(w, stopped, more).Some? ==>
        Exec(w, stopped, more).value.settings == DEFAULTS && !Exec(w, stopped, more).value.mode.Running?
  {
    RunKeepsInvariant(w, INITIAL, before);
    var stopped := Next(w, Exec(w, INITIAL, before).value, step);
    if Exec(w, stopped, more).Some? {
      QuietUntilStart(w, stopped, more);
    }
  }

  /** The task cancelled by a stop or reset never runs again, so that a start is disturbed
      by earlier tasks only, those of starts on top of a running scenario. A reset also
      forgets the scenario. */
  lemma StopCancels(w: Wiring, before: seq<Step>, step: Step, more: seq<Step>)
    requires Exec(w, INITIAL, before).Some? && (step.Stop? || step.Reset?)
    ensures var s := Exec(w, INITIAL, before).value;
      var stopped := Next(w, s, step);
      && stopped.scenario == (if step.Reset? then None else s.scenario)
      && (s.task.Some? ==> stopped.tasks == s.tasks - {s.task.value})
      && (s.task.Some? && Exec(w, stopped, more).Some? ==> s.task.value !in Exec(w, stopped, more).value.tasks)
  {
    RunKeepsInvariant(w, INITIAL, before);
    var s := Exec(w, INITIAL, before).value;
    RunKeepsTaskKnown(w, INITIAL, before);
    if s.task.Some? && Exec(w, Next(w, s, step), more).Some? {
      GoneForGood(w, Next(w, s, step), s.task.value, more);
    }
  }

  lemma {:induction false} RunKeepsTaskKnown(w: Wiring, s: State, steps: seq<Step>)
    requires (s.task.Some? ==> s.task.value < s.nextTask) && Exec(w, s, steps).Some?
    ensures var t := Exec(w, s, steps).value; t.task.Some? ==> t.task.value < t.nextTask
    decreases |steps|
  {
    if steps != [] {
      RunKeepsTaskKnown(w, Next(w, s, steps[0]), steps[1..]);
    }
  }

  lemma {:induction false} GoneForGood(w: Wiring, s: State, id: TaskId, steps: seq<Step>)
    requires id < s.nextTask && id !in s.tasks && Exec(w, s, steps).Some?
    ensures id !in Exec(w, s, steps).value.tasks
    decreases |steps|
  {
    if steps != [] {
      GoneForGood(w, Next(w, s, steps[0]), id, steps[1..]);
    }
  }

  /** Loading while a scenario runs ends it: the next task to wake applies no phase of
      either scenario and leaves the engine idle at its defaults, with the new one loaded. */
  lemma LoadEndsRun(w: Wiring, before: seq<Step>, scenario: Scenario, id: TaskId)
    requires Exec(w, INITIAL, before).Some?
    requires id in Exec(w, INITIAL, before).value.tasks
    ensures var end := Exec(w, Exec(w, INITIAL, before).value, [Load(scenario), Wake(id)]);
      && end.Some? && end.value.mode.Idle? && end.value.settings == DEFAULTS && end.value.phase.None?
      && end.value.scenario == Some(scenario) && id !in end.value.tasks
  {
    RunKeepsInvariant(w, INITIAL, before);
    var s := Exec(w, INITIAL, before).value;
    var loaded := Next(w, s, Load(scenario));
    assert [Load(scenario), Wake(id)][1..] == [Wake(id)] && [Wake(id)][1..] == [];
    assert Exec(w, loaded, [Wake(id)]) == Some(Next(w, loaded, Wake(id)));
  }

  // ---------------------------------------------------------------------
  // Playing a scenario through
  // ---------------------------------------------------------------------

  function Wakes(id: TaskId, n: nat): seq<Step> {
    seq(n, i requires 0 <= i < n => Wake(id))
  }

  /** The settings after these phases, one on top of the other. */
  function Played(w: Wiring, settings: Settings, phases: seq<Phase>): Settings
    decreases |phases|
  {
    if phases == [] then settings else Played(w, PhaseApplied(w, settings, phases[0]), phases[1..])
  }

  /** Phase j is the last of these that has execution settings. */
  ghost predicate LastExecution(phases: seq<Phase>, j: nat)
    requires j < |phases|
  {
    phases[j].execution.Some? && forall k :: j < k < |phases| ==> phases[k].execution.None?
  }

  /** What these phases turn the settings into: the simulator has the regime of the last
      one, the execution engine the settings of the last one that has any, and whatever no
      phase sets, or has no collaborator to set it on, is as before. */
  ghost predicate Shows(w: Wiring, before: Settings, phases: seq<Phase>, after: Settings) {
    && (w.simulator && phases != [] ==> after.regime == phases[|phases| - 1].regime)
    && (!w.simulator || phases == [] ==> after.regime == before.regime)
    && (forall j :: 0 <= j < |phases| && LastExecution(phases, j) && w.executionEngine ==>
          after.execution == phases[j].execution.value)
    && (!w.executionEngine || (forall j :: 0 <= j < |phases| ==> phases[j].execution.None?) ==>
          after.execution == before.execution)
  }

  lemma {:induction false} PlayedShows(w: Wiring, settings: Settings, phases: seq<Phase>)
    ensures Shows(w, settings, phases, Played(w, settings, phases))
    decreases |phases|
  {
    if phases != [] {
      var tail := phases[1..];
      PlayedShows(w, PhaseApplied(w, settings, phases[0]), tail);
      assert forall j :: 0 <= j < |tail| ==> tail[j] == phases[j + 1];
      forall j | 0 < j < |phases| && LastExecution(phases, j) ensures LastExecution(tail, j - 1) {
      }
    }
  }

  /** A task asleep in a running engine applies its remaining phases one per wake, in
      order, and the wake after the last returns the engine to idle. */
  lemma TaskPlaysRest(w: Wiring, s: State, id: TaskId, n: nat)
    requires Untouched(w, s.settings) && s.mode.Running? && s.scenario.Some?
    requires id in s.tasks && s.tasks[id].Asleep? && n <= |s.tasks[id].rest| + 1
    ensures var rest := s.tasks[id].rest;
      var end := Exec(w, s, Wakes(id, n));
      && end.Some?
      && (n <= |rest| ==>
            end.value.mode.Running? && Shows(w, s.settings, rest[..n], end.value.settings) &&
            (n > 0 ==> end.value.phase == Some(rest[n - 1])))
      && (n == |rest| + 1 ==> end.value.mode.Idle? && end.value.settings == DEFAULTS && id !in end.value.tasks)
  {
    TaskPlayed(w, s, id, n);
    if n <= |s.tasks[id].rest| {
      PlayedShows(w, s.settings, s.tasks[id].rest[..n]);
    }
  }

  lemma {:induction false} TaskPlayed(w: Wiring, s: State, id: TaskId, n: nat)
    requires Untouched(w, s.settings) && s.mode.Running? && s.scenario.Some?
    requires id in s.tasks && s.tasks[id].Asleep? && n <= |s.tasks[id].rest| + 1
    ensures var rest := s.tasks[id].rest;
      var end := Exec(w, s, Wakes(id, n));
      && end.Some?
      && (n <= |rest| ==>
            end.value.mode.Running? && end.value.settings == Played(w, s.settings, rest[..n]) &&
            (n > 0 ==> end.value.phase == Some(rest[n - 1])))
      && (n == |rest| + 1 ==> end.value.mode.Idle? && end.value.settings == DEFAULTS && id !in end.value.tasks)
    decreases n
  {
    var rest := s.tasks[id].rest;
    if n > 0 {
      assert Wakes(id, n)[1..] == Wakes(id, n - 1);
      var t := Woken(w, s, id);
      if rest != [] {
        TaskPlayed(w, t, id, n - 1);
        if n <= |rest| {
          assert rest[..n][1..] == rest[1..][..n - 1];
        }
      } else {
        assert n == 1 && Wakes(id, 0) == [];
      }
    }
  }

  /** A scenario started on an engine with no other task plays its phases in order, one
      per wake, and one more wake leaves the engine idle at its defaults. */
  lemma ScenarioPlaysThrough(w: Wiring, s: State, n: nat)
    requires Invariant(w, s) && s.mode.Loaded? && s.settings == DEFAULTS && s.tasks == map[]
    requires s.scenario.Some? && 0 < n <= |s.scenario.value.phases| + 1
    ensures var phases, id := s.scenario.value.phases, s.nextTask;
      var end := Exec(w, s, [Start] + Wakes(id, n));
      && end.Some?
      && (n <= |phases| ==>
            Shows(w, DEFAULTS, phases[..n], end.value.settings) && end.value.phase == Some(phases[n - 1]))
      && (n == |phases| + 1 ==> end.value.mode.Idle? && end.value.settings == DEFAULTS && end.value.tasks == map[])
  {
    var phases, id := s.scenario.value.phases, s.nextTask;
    var started := Started(s);
    assert ([Start] + Wakes(id, n))[1..] == Wakes(id, n);
    var asleep := started.(tasks := map[id := Asleep(phases)]);
    TaskPlaysRest(w, asleep, id, n);
    assert Wakes(id, n)[1..] == Wakes(id, n - 1);
    assert Woken(w, started, id) == Woken(w, asleep, id);
    TasksStayOne(w, asleep, id, n);
  }

  lemma {:induction false} TasksStayOne(w: Wiring, s: State, id: TaskId, n: nat)
    requires s.tasks.Keys <= {id}
    ensures Exec(w, s, Wakes(id, n)).Some? ==> Exec(w, s, Wakes(id, n)).value.tasks.Keys <= {id}
    decreases n
  {
    if n > 0 && id in s.tasks {
      assert Wakes(id, n)[1..] == Wakes(id, n - 1);
      TasksStayOne(w, Woken(w, s, id), id, n - 1);
    }
  }

  // ---------------------------------------------------------------------
  // Leftover tasks
  // ---------------------------------------------------------------------

  ghost predicate OnlyWakes(steps: seq<Step>) {
    forall i :: 0 <= i < |steps| ==> steps[i].Wake?
  }

  /** After these wakes the engine is running, or the task is gone. */
  ghost predicate RunsWhileAlive(w: Wiring, s: State, id: TaskId, steps: seq<Step>) {
    var end := Exec(w, s, steps);
    end.Some? && id in end.value.tasks ==> end.value.mode.Running?
  }

  lemma {:induction false} LoneTaskKeepsRunning(w: Wiring, s: State, id: TaskId, steps: seq<Step>)
    requires s.tasks.Keys <= {id} && (id in s.tasks ==> s.mode.Running? && s.scenario.Some?)
    requires OnlyWakes(steps)
    ensures RunsWhileAlive(w, s, id, steps)
    decreases |steps|
  {
    if steps != [] && Enabled(s, steps[0]) {
      assert forall i :: 0 <= i < |steps[1..]| ==> steps[1..][i] == steps[i + 1];
      LoneTaskKeepsRunning(w, Next(w, s, steps[0]), id, steps[1..]);
    }
  }

  /** Waking one task often enough finishes it, whatever phases it has left, and that
      idles the engine while every other task lives on. */
  lemma WokenToTheEnd(w: Wiring, s: State, id: TaskId) returns (n: nat)
    requires Untouched(w, s.settings) && s.mode.Running? && s.scenario.Some? && id in s.tasks
    ensures var end := Exec(w, s, Wakes(id, n));
      && end.Some? && end.value.mode.Idle?
      && forall other :: other in s.tasks && other != id ==> other in end.value.tasks
  {
    var rest := if s.tasks[id].Asleep? then s.tasks[id].rest else s.scenario.value.phases;
    var asleep := s.(tasks := s.tasks[id := Asleep(rest)]);
    n := |rest| + 1;
    TaskPlaysRest(w, asleep, id, n);
    assert Wakes(id, n)[1..] == Wakes(id, n - 1);
    assert s.tasks[id].Asleep? ==> s.tasks == asleep.tasks;
    assert asleep.tasks - {id} == s.tasks - {id};
    assert rest != [] ==> s.tasks[id := Asleep(rest[1..])] == asleep.tasks[id := Asleep(rest[1..])];
    assert Woken(w, s, id) == Woken(w, asleep, id);
    OthersLiveOn(w, s, id, n);
  }

  lemma {:induction false} OthersLiveOn(w: Wiring, s: State, id: TaskId, n: nat)
    ensures Exec(w, s, Wakes(id, n)).Some? ==>
      forall other :: other in s.tasks && other != id ==> other in Exec(w, s, Wakes(id, n)).value.tasks
    decreases n
  {
    if n > 0 && id in s.tasks {
      assert Wakes(id, n)[1..] == Wakes(id, n - 1);
      OthersLiveOn(w, Woken(w, s, id), id, n - 1);
    }
  }

  /** A started scenario runs for as long as its task lives, however tasks are woken,
      exactly when no earlier task was alive at the start: any leftover task can idle
      the engine before the new task is done. */
  lemma StartUndisturbedIff(w: Wiring, s: State)
    requires Invariant(w, s) && s.scenario.Some?
    ensures (forall steps :: OnlyWakes(steps) ==> RunsWhileAlive(w, Started(s), s.nextTask, steps)) <==> s.tasks == map[]
  {
    var started := Started(s);
    if s.tasks == map[] {
      forall steps | OnlyWakes(steps) ensures RunsWhileAlive(w, started, s.nextTask, steps) {
        LoneTaskKeepsRunning(w, started, s.nextTask, steps);
      }
    } else {
      if forall id :: id !in s.tasks {
        assert false;
      }
      var leftover :| leftover in s.tasks;
      assert leftover != s.nextTask && leftover in started.tasks;
      var n := WokenToTheEnd(w, started, leftover);
      assert OnlyWakes(Wakes(leftover, n));
      assert !RunsWhileAlive(w, started, s.nextTask, Wakes(leftover, n));
    }
  }

  // ---------------------------------------------------------------------
  // The object
  // ---------------------------------------------------------------------

  class Engine {
    const wiring: Wiring
    var mode: Mode
    var activeScenario: Option<Scenario>
    var currentPhase: Option<Phase>
    var task: Option<TaskId>
    var settings: Settings

    /** The event loop's live tasks. */
    var tasks: map<TaskId, Task>
    var nextTask: TaskId

    ghost function Value(): State
      reads this
    {
      State(mode, activeScenario, currentPhase, task, tasks, nextTask, settings)
    }

    ghost predicate Valid()
      reads this
    {
      Invariant(wiring, Value())
    }

    constructor (wiring: Wiring)
      ensures Valid() && Value() == INITIAL && this.wiring == wiring
    {
      this.wiring := wiring;
      mode, activeScenario, currentPhase, task := Idle, None, None, None;
      tasks, nextTask, settings := map[], 0, DEFAULTS;
    }

    method LoadPreset(scenario: Scenario)
      requires Valid()
      modifies this
      ensures Valid() && Value() == Next(wiring, old(Value()), Load(scenario))
    {
      activeScenario, mode := Some(scenario), Loaded;
    }

    /** False stands for the ValueError of an engine with nothing loaded. */
    method StartScenario() returns (ok: bool)
      requires Valid()
      modifies this
      ensures Valid() && Value() == Next(wiring, old(Value()), Start)
      ensures ok <==> old(activeScenario).Some?
    {
      if activeScenario.None? {
        return false;
      }
      mode := Running;
      task, tasks, nextTask := Some(nextTask), tasks[nextTask := Created], nextTask + 1;
      return true;
    }

    method StopScenario()
      requires Valid()
      modifies this
      ensures Valid() && Value() == Next(wiring, old(Value()), Stop)
    {
      mode := Idle;
      if task.Some? {
        tasks := tasks - {task.value};
      }
      ResetParams();
      currentPhase := None;
    }

    method ResetEngine()
      requires Valid()
      modifies this
      ensures Valid() && Value() == Next(wiring, old(Value()), Reset)
    {
      StopScenario();
      activeScenario := None;
    }

    /** One task's run from where it slept to its next sleep or its end. */
    method WakeTask(id: TaskId)
      requires Valid() && id in tasks
      modifies this
      ensures Valid() && Value() == Next(wiring, old(Value()), Wake(id))
    {
      StepKeepsInvariant(wiring, Value(), Wake(id));
      var rest;
      if tasks[id].Created? {
        if activeScenario.None? {
          tasks := tasks - {id};
          return;
        }
        rest := activeScenario.value.phases;
      } else {
        rest := tasks[id].rest;
      }
      if rest != [] && mode.Running? {
        currentPhase := Some(rest[0]);
        ApplyPhase(rest[0]);
        tasks := tasks[id := Asleep(rest[1..])];
        return;
      }
      tasks := tasks - {id};
      ResetParams();
      mode := Idle;
      currentPhase := None;
    }

    method ApplyPhase(phase: Phase)
      modifies this`settings
      ensures settings == PhaseApplied(wiring, old(settings), phase)
      ensures Shows(wiring, old(settings), [phase], settings)
    {
      PlayedShows(wiring, settings, [phase]);
      assert [phase][1..] == [] && Played(wiring, settings, [phase]) == PhaseApplied(wiring, settings, phase);
      if wiring.simulator {
        settings := settings.(regime := phase.regime);
      }
      if wiring.executionEngine && phase.execution.Some? {
        settings := settings.(execution := phase.execution.value);
      }
    }

    method ResetParams()
      modifies this`settings
      ensures settings == ParamsReset(wiring, old(settings))
    {
      if wiring.simulator {
        settings := settings.(regime := DEFAULTS.regime);
      }
      if wiring.executionEngine {
        settings := settings.(execution := DEFAULTS.execution);
      }
    }
  }
}
