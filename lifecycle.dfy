/**
 * The run of one scenario (Unobtainium.java:112-160) as a function of its
 * descriptors and of the global and scenario Contexts: the events the
 * notifier receives, how `run` ends, and what the two shared Contexts hold
 * afterwards.
 */
module Lifecycle {
  import opened Wrappers
  import opened Contexts
  import opened Failures
  import opened Steps
  import opened Injection
  import opened Descriptors
  import Inject

  /** The calls the runner makes on the notifier, with step descriptions reduced to names. */
  datatype Event =
    | SuiteStarted
    | Started(name: string)
    | Failure(name: string, error: Throwable)
    | Finished(name: string)
    | SuiteFinished

  /** `run` returns normally, or a throwable escapes it. */
  datatype RunResult = Returned | Escaped(error: Throwable)

  /** `runStep` (preExecute, execute, postExecute) for setup steps. */
  const SetupPhases: seq<Phase> := [PreExecute, Execute, PostExecute]
  /** `runStep` then `verify` for main steps. */
  const MainPhases: seq<Phase> := [PreExecute, Execute, PostExecute, Verify]

  /** The Contexts after some hooks, the hooks that ran, and the throwable that stopped them. */
  datatype PhaseRun = PhaseRun(env: Env, ran: seq<Phase>, error: Option<Throwable>)

  /** Calls the hooks of `phases` in order until one throws. */
  function RunPhases(env: Env, script: StepScript, phases: seq<Phase>): PhaseRun
    decreases |phases|
  {
    if phases == [] then PhaseRun(env, [], None)
    else
      var h := script.HookFor(phases[0]);
      var env' := ApplyWrites(env, h.writes);
      match h.outcome
      case Threw(e) => PhaseRun(env', [phases[0]], Some(e))
      case Completed =>
        var r := RunPhases(env', script, phases[1..]);
        PhaseRun(r.env, [phases[0]] + r.ran, r.error)
  }

  /**
   * Hooks run in the given order and stop at the first that throws: the hooks
   * that ran are a prefix of `phases`, all of them when none throws; when one
   * throws it is the last that ran, every earlier one completed, and its
   * throwable is the result.
   */
  lemma {:induction false} PhasesRunInOrder(env: Env, script: StepScript, phases: seq<Phase>)
    ensures var r := RunPhases(env, script, phases);
      && |r.ran| <= |phases| && r.ran == phases[..|r.ran|]
      && (r.error.None? ==> r.ran == phases)
      && (|r.ran| < |phases| ==> r.error.Some?)
      && (forall i :: 0 <= i < |r.ran| - 1 ==> script.HookFor(r.ran[i]).outcome.Completed?)
      && (r.error.Some? ==> r.ran != [] && script.HookFor(r.ran[|r.ran| - 1]).outcome == Threw(r.error.value))
    decreases |phases|
  {
    if phases != [] {
      var h := script.HookFor(phases[0]);
      if h.outcome.Completed? {
        var env' := ApplyWrites(env, h.writes);
        PhasesRunInOrder(env', script, phases[1..]);
        var r := RunPhases(env', script, phases[1..]);
        var ran := [phases[0]] + r.ran;
        assert RunPhases(env, script, phases) == PhaseRun(r.env, ran, r.error);
        assert phases[..|ran|] == [phases[0]] + phases[1..][..|r.ran|];
        forall i | 0 <= i < |ran| - 1 ensures script.HookFor(ran[i]).outcome.Completed? {
          if i > 0 { assert ran[i] == r.ran[i - 1]; }
        }
        if r.error.None? {
          assert ran == phases by { assert phases == [phases[0]] + phases[1..]; }
        } else {
          assert ran[|ran| - 1] == r.ran[|r.ran| - 1];
        }
      } else {
        assert RunPhases(env, script, phases) == PhaseRun(ApplyWrites(env, h.writes), [phases[0]], Some(h.outcome.error));
      }
    }
  }

  /**
   * Only `execute` can end the lifecycle with a StepFailureException, since it
   * is the only hook that declares it.
   */
  lemma {:induction false} StepFailureComesFromExecute(env: Env, script: StepScript, phases: seq<Phase>)
    requires script.OnlyExecuteThrowsChecked()
    requires RunPhases(env, script, phases).error.Some?
    requires RunPhases(env, script, phases).error.value.IsStepFailureException()
    ensures var r := RunPhases(env, script, phases); r.ran[|r.ran| - 1] == Execute
  {
    PhasesRunInOrder(env, script, phases);
    var r := RunPhases(env, script, phases);
    var last := r.ran[|r.ran| - 1];
    assert script.HookFor(last).outcome == Threw(r.error.value);
  }

  /** The hooks' writes to the shared Contexts do not depend on what the step's own Context holds. */
  lemma SharedWritesIgnoreStepContext(env: Env, local: Store, ws: seq<Write>)
    ensures ApplyWrites(env.(local := local), ws).global == ApplyWrites(env, ws).global
    ensures ApplyWrites(env.(local := local), ws).scenario == ApplyWrites(env, ws).scenario
  {
    WritesReachTheirOwnScope(env, ws);
    WritesReachTheirOwnScope(env.(local := local), ws);
  }

  /**
   * With hooks given as scripts (fixed writes and a fixed outcome), a step's
   * own Context never changes which hooks run, how they end, or what they
   * leave in the shared Contexts.
   */
  lemma {:induction false} PhasesIgnoreStepContext(env: Env, local: Store, script: StepScript, phases: seq<Phase>)
    ensures var r := RunPhases(env, script, phases);
      var q := RunPhases(env.(local := local), script, phases);
      && q.env.global == r.env.global && q.env.scenario == r.env.scenario
      && q.ran == r.ran && q.error == r.error
    decreases |phases|
  {
    if phases != [] {
      var h := script.HookFor(phases[0]);
      var e1 := ApplyWrites(env, h.writes);
      var e2 := ApplyWrites(env.(local := local), h.writes);
      SharedWritesIgnoreStepContext(env, local, h.writes);
      assert e2 == e1.(local := e2.local);
      if h.outcome.Completed? {
        PhasesIgnoreStepContext(e1, e2.local, script, phases[1..]);
      }
    }
  }

  /** Running `a` then, if nothing threw, `b` is running `a + b`. */
  lemma {:induction false} RunPhasesAppend(env: Env, script: StepScript, a: seq<Phase>, b: seq<Phase>)
    ensures var ra := RunPhases(env, script, a);
      RunPhases(env, script, a + b) ==
        if ra.error.Some? then ra
        else var rb := RunPhases(ra.env, script, b); PhaseRun(rb.env, ra.ran + rb.ran, rb.error)
    decreases |a|
  {
    if a == [] {
      assert a + b == b;
    } else {
      assert (a + b)[0] == a[0] && (a + b)[1..] == a[1..] + b;
      var h := script.HookFor(a[0]);
      if h.outcome.Completed? {
        RunPhasesAppend(ApplyWrites(env, h.writes), script, a[1..], b);
      }
    }
  }

  /** A created step: its descriptor's name and the script its factory produced. */
  datatype Instance = Instance(name: string, script: StepScript)

  /** `createStep` for each descriptor, in order; the first factory that throws stops it. */
  function Instantiate(ds: seq<Descriptor>): Result<seq<Instance>, Throwable>
    decreases |ds|
  {
    if ds == [] then Ok([])
    else
      match ds[0].factory
      case FactoryThrows(e) => Err(e)
      case Produces(script) =>
        match Instantiate(ds[1..])
        case Err(e) => Err(e)
        case Ok(rest) => Ok([Instance(ds[0].name, script)] + rest)
  }

  /** Created steps carry the names and scripts of their descriptors, one per descriptor. */
  lemma {:induction false} InstancesFollowDescriptors(ds: seq<Descriptor>)
    requires Instantiate(ds).Ok?
    ensures var insts := Instantiate(ds).value;
      |insts| == |ds| && forall i :: 0 <= i < |ds| ==>
        insts[i].name == ds[i].name && ds[i].factory == Produces(insts[i].script)
    decreases |ds|
  {
    if ds != [] {
      InstancesFollowDescriptors(ds[1..]);
      var insts := Instantiate(ds).value;
      assert forall i :: 1 <= i < |ds| ==> insts[i] == Instantiate(ds[1..]).value[i - 1] && ds[i] == ds[1..][i - 1];
    }
  }

  /** The two shared Contexts after one step, the step's fields, the hooks it ran, and its failure. */
  datatype Attempt = Attempt(global: Store, scenario: Store, fields: map<string, Value>, ran: seq<Phase>, error: Option<Throwable>)

  /**
   * One step with a fresh, empty step Context: injection into its fields, then
   * its hooks, none of them when injection fails.
   */
  function AttemptStep(global: Store, scenario: Store, script: StepScript, phases: seq<Phase>): Attempt
  {
    var env := Env(global, scenario, map[]);
    var inj := InjectAll(env, script.decls, map[]);
    if inj.error.Some? then Attempt(global, scenario, inj.fields, [], inj.error)
    else
      var r := RunPhases(env, script, phases);
      Attempt(r.env.global, r.env.scenario, inj.fields, r.ran, r.error)
  }

  /**
   * Injection completes before `preExecute`: a step whose injection fails
   * runs no hook and changes no shared Context, and a step whose injection
   * succeeds runs its hooks in order from the Contexts injection read.
   */
  lemma InjectionPrecedesHooks(global: Store, scenario: Store, script: StepScript, phases: seq<Phase>)
    ensures var a := AttemptStep(global, scenario, script, phases);
      var inj := InjectAll(Env(global, scenario, map[]), script.decls, map[]);
      && (inj.error.Some? ==> a.ran == [] && a.error == inj.error && a.global == global && a.scenario == scenario)
      && (inj.error.None? ==> a.ran == RunPhases(Env(global, scenario, map[]), script, phases).ran)
      && |a.ran| <= |phases| && a.ran == phases[..|a.ran|]
      && (a.error.None? ==> inj.error.None? && a.ran == phases)
  {
    PhasesRunInOrder(Env(global, scenario, map[]), script, phases);
  }

  /** The shared Contexts after the setup steps, and the throwable that escaped, if any. */
  datatype SetupRun = SetupRun(global: Store, scenario: Store, error: Option<Throwable>)

  /**
   * `runBeforeScenarios`: each setup step in order, without `verify`; a
   * StepFailureException is rethrown wrapped in an AssertionError, any other
   * throwable escapes as it is.
   */
  function RunSetup(global: Store, scenario: Store, steps: seq<Instance>): SetupRun
    decreases |steps|
  {
    if steps == [] then SetupRun(global, scenario, None)
    else
      var a := AttemptStep(global, scenario, steps[0].script, SetupPhases);
      if a.error.Some? then
        var e := a.error.value;
        SetupRun(a.global, a.scenario, Some(if e.IsStepFailureException() then WrappedAssertion(e) else e))
      else RunSetup(a.global, a.scenario, steps[1..])
  }

  /**
   * The events of the main loop, how it ended (a caught failure, or an
   * escaping throwable), the shared Contexts afterwards, and how many steps
   * were started.
   */
  datatype MainRun = MainRun(events: seq<Event>, failure: Option<Throwable>, escaped: Option<Throwable>,
                             global: Store, scenario: Store, attempted: nat)

  /** What one pass of the main loop reports for a step named `n` whose attempt ended with `error`. */
  function PassEvents(n: string, error: Option<Throwable>): seq<Event>
  {
    if error.Some? && error.value.CaughtByMainLoop() then [Started(n), Failure(n, error.value), Finished(n)]
    else [Started(n), Finished(n)]
  }

  /**
   * The main loop: started, then injection, `runStep` and `verify`, and
   * finished in any case; a caught failure is reported before `finished` and
   * breaks the loop, any other throwable escapes after `finished`.
   */
  function RunMain(global: Store, scenario: Store, steps: seq<Instance>): MainRun
    decreases |steps|
  {
    if steps == [] then MainRun([], None, None, global, scenario, 0)
    else
      var a := AttemptStep(global, scenario, steps[0].script, MainPhases);
      var pass := PassEvents(steps[0].name, a.error);
      if a.error.None? then
        var rest := RunMain(a.global, a.scenario, steps[1..]);
        MainRun(pass + rest.events, rest.failure, rest.escaped, rest.global, rest.scenario, rest.attempted + 1)
      else if a.error.value.CaughtByMainLoop() then MainRun(pass, a.error, None, a.global, a.scenario, 1)
      else MainRun(pass, None, a.error, a.global, a.scenario, 1)
  }

  /** The writes the hooks of `phases` make, in order, when none of them throws. */
  function HookWrites(script: StepScript, phases: seq<Phase>): seq<Write>
    decreases |phases|
  {
    if phases == [] then [] else script.HookFor(phases[0]).writes + HookWrites(script, phases[1..])
  }

  /** Writing `a` then `b` is writing `a + b`. */
  lemma {:induction false} ApplyWritesAppend(env: Env, a: seq<Write>, b: seq<Write>)
    ensures ApplyWrites(env, a + b) == ApplyWrites(ApplyWrites(env, a), b)
    decreases |a|
  {
    if a != [] {
      assert (a + b)[0] == a[0] && (a + b)[1..] == a[1..] + b;
      ApplyWritesAppend(ApplyWrite(env, a[0]), a[1..], b);
    } else {
      assert a + b == b;
    }
  }

  /** When no hook throws, the Contexts afterwards are the hooks' writes applied in order. */
  lemma {:induction false} CompletedPhasesApplyTheirWrites(env: Env, script: StepScript, phases: seq<Phase>)
    requires RunPhases(env, script, phases).error.None?
    ensures RunPhases(env, script, phases).env == ApplyWrites(env, HookWrites(script, phases))
    decreases |phases|
  {
    if phases != [] {
      var h := script.HookFor(phases[0]);
      CompletedPhasesApplyTheirWrites(ApplyWrites(env, h.writes), script, phases[1..]);
      ApplyWritesAppend(env, h.writes, HookWrites(script, phases[1..]));
    }
  }

  /**
   * The shared Contexts carry values from one main step to the next: when a
   * step passes, the next step is attempted from the Contexts it left, and a
   * GLOBAL or SCENARIO declaration of the next step resolves to the value of
   * the passing step's last `set` of that key in that scope.
   */
  lemma LaterStepSeesEarlierWrites(global: Store, scenario: Store, steps: seq<Instance>, d: Inject.InjectDecl, v: Value)
    requires |steps| >= 2
    requires AttemptStep(global, scenario, steps[0].script, MainPhases).error.None?
    requires d.scope == Inject.Global || d.scope == Inject.Scenario
    requires LastSet(CallsOn(HookWrites(steps[0].script, MainPhases), d.scope), d.key) == Some(v)
    ensures var a := AttemptStep(global, scenario, steps[0].script, MainPhases);
      var m := RunMain(global, scenario, steps);
      && m.attempted >= 2
      && m.events[..2] == [Started(steps[0].name), Finished(steps[0].name)]
      && m.events[2..] == RunMain(a.global, a.scenario, steps[1..]).events
      && Resolve(Env(a.global, a.scenario, map[]), d) == Some(v)
      && (Accepts(d.fieldType, v) ==> Resolvable(Env(a.global, a.scenario, map[]), d))
  {
    var script := steps[0].script;
    var env := Env(global, scenario, map[]);
    var a := AttemptStep(global, scenario, script, MainPhases);
    var ws := HookWrites(script, MainPhases);
    CompletedPhasesApplyTheirWrites(env, script, MainPhases);
    WritesReachTheirOwnScope(env, ws);
    assert a.global == SetAll(global, CallsOn(ws, Inject.Global));
    assert a.scenario == SetAll(scenario, CallsOn(ws, Inject.Scenario));
    if d.scope == Inject.Global {
      GetAfterSets(global, CallsOn(ws, Inject.Global), d.key);
    } else {
      GetAfterSets(scenario, CallsOn(ws, Inject.Scenario), d.key);
    }
    var rest := RunMain(a.global, a.scenario, steps[1..]);
    assert RunMain(global, scenario, steps).events == [Started(steps[0].name), Finished(steps[0].name)] + rest.events;
    assert rest.attempted >= 1;
  }

  /** The hooks' writes of setup steps that all pass, step after step in list order. */
  function SetupWrites(steps: seq<Instance>): seq<Write>
    decreases |steps|
  {
    if steps == [] then [] else HookWrites(steps[0].script, SetupPhases) + SetupWrites(steps[1..])
  }

  /**
   * A setup phase in which no step fails runs every setup step in list order:
   * each shared Context ends as its old contents after all the setup steps'
   * `set` calls aimed at it, step after step and hook after hook.
   */
  lemma {:induction false} SetupAppliesWritesInOrder(global: Store, scenario: Store, steps: seq<Instance>)
    requires RunSetup(global, scenario, steps).error.None?
    ensures RunSetup(global, scenario, steps).global == SetAll(global, CallsOn(SetupWrites(steps), Inject.Global))
    ensures RunSetup(global, scenario, steps).scenario == SetAll(scenario, CallsOn(SetupWrites(steps), Inject.Scenario))
    decreases |steps|
  {
    if steps != [] {
      var env := Env(global, scenario, map[]);
      var a := AttemptStep(global, scenario, steps[0].script, SetupPhases);
      var ws, rest := HookWrites(steps[0].script, SetupPhases), SetupWrites(steps[1..]);
      CompletedPhasesApplyTheirWrites(env, steps[0].script, SetupPhases);
      WritesReachTheirOwnScope(env, ws);
      assert a.global == SetAll(global, CallsOn(ws, Inject.Global));
      assert a.scenario == SetAll(scenario, CallsOn(ws, Inject.Scenario));
      assert RunSetup(global, scenario, steps) == RunSetup(a.global, a.scenario, steps[1..]);
      SetupAppliesWritesInOrder(a.global, a.scenario, steps[1..]);
      CallsOnAppend(ws, rest, Inject.Global);
      CallsOnAppend(ws, rest, Inject.Scenario);
      SetAllAppend(global, CallsOn(ws, Inject.Global), CallsOn(rest, Inject.Global));
      SetAllAppend(scenario, CallsOn(ws, Inject.Scenario), CallsOn(rest, Inject.Scenario));
    }
  }

  /**
   * The setup phase stopped at step `k`: the steps before it all passed, `k`
   * failed from the Contexts they left, and its throwable escapes, wrapped in
   * an AssertionError exactly when it is a StepFailureException.
   */
  ghost predicate SetupStopsAt(global: Store, scenario: Store, steps: seq<Instance>, k: int)
  {
    && 0 <= k < |steps|
    && RunSetup(global, scenario, steps[..k]).error.None?
    && var before := RunSetup(global, scenario, steps[..k]);
       var a := AttemptStep(before.global, before.scenario, steps[k].script, SetupPhases);
       && a.error.Some?
       && RunSetup(global, scenario, steps).global == a.global
       && RunSetup(global, scenario, steps).scenario == a.scenario
       && RunSetup(global, scenario, steps).error ==
            Some(if a.error.value.IsStepFailureException() then WrappedAssertion(a.error.value) else a.error.value)
  }

  /** A failing setup phase stops at its first failing step; no later setup step runs. */
  lemma {:induction false} SetupStopsAtFirstFailure(global: Store, scenario: Store, steps: seq<Instance>)
    requires RunSetup(global, scenario, steps).error.Some?
    ensures exists k :: SetupStopsAt(global, scenario, steps, k)
    decreases |steps|
  {
    var a := AttemptStep(global, scenario, steps[0].script, SetupPhases);
    if a.error.Some? {
      assert steps[..0] == [];
      assert SetupStopsAt(global, scenario, steps, 0);
    } else {
      SetupStopsAtFirstFailure(a.global, a.scenario, steps[1..]);
      var k :| SetupStopsAt(a.global, a.scenario, steps[1..], k);
      assert steps[..k + 1][0] == steps[0] && steps[..k + 1][1..] == steps[1..][..k];
      assert RunSetup(global, scenario, steps[..k + 1]) == RunSetup(a.global, a.scenario, steps[1..][..k]);
      assert steps[k + 1] == steps[1..][k];
      assert RunSetup(global, scenario, steps) == RunSetup(a.global, a.scenario, steps[1..]);
      assert SetupStopsAt(global, scenario, steps, k + 1);
    }
  }

  /** The events of main steps that all passed: `started`, `finished` for each, in order. */
  function Passed(names: seq<string>): seq<Event>
    decreases |names|
  {
    if names == [] then [] else [Started(names[0]), Finished(names[0])] + Passed(names[1..])
  }

  function InstanceNames(steps: seq<Instance>): (ns: seq<string>)
    ensures |ns| == |steps| && forall i :: 0 <= i < |steps| ==> ns[i] == steps[i].name
  {
    seq(|steps|, i requires 0 <= i < |steps| => steps[i].name)
  }

  lemma PassedAppend(a: seq<string>, b: seq<string>)
    ensures Passed(a + b) == Passed(a) + Passed(b)
    decreases |a|
  {
    if a != [] {
      assert (a + b)[0] == a[0] && (a + b)[1..] == a[1..] + b;
      PassedAppend(a[1..], b);
      calc {
        Passed(a + b);
        [Started(a[0]), Finished(a[0])] + Passed(a[1..] + b);
        [Started(a[0]), Finished(a[0])] + (Passed(a[1..]) + Passed(b));
        ([Started(a[0]), Finished(a[0])] + Passed(a[1..])) + Passed(b);
      }
    } else {
      assert a + b == b;
    }
  }

  /**
   * The shape of a main-loop trace over steps named `names`: every step
   * before the last one started passed (`started`, `finished`); the loop stops
   * early only at a failure; a caught failure gives `started`, `failure`,
   * `finished` for its step and nothing after it; an escaping throwable gives
   * `started`, `finished` and nothing after it.
   */
  ghost predicate TraceShape(r: MainRun, names: seq<string>)
  {
    && r.attempted <= |names|
    && !(r.failure.Some? && r.escaped.Some?)
    && (r.failure.None? && r.escaped.None? ==> r.attempted == |names| && r.events == Passed(names))
    && (r.failure.Some? ==>
          && r.attempted >= 1 && r.failure.value.CaughtByMainLoop()
          && r.events == Passed(names[..r.attempted - 1]) +
               [Started(names[r.attempted - 1]), Failure(names[r.attempted - 1], r.failure.value), Finished(names[r.attempted - 1])])
    && (r.escaped.Some? ==>
          && r.attempted >= 1 && !r.escaped.value.CaughtByMainLoop()
          && r.events == Passed(names[..r.attempted - 1]) + [Started(names[r.attempted - 1]), Finished(names[r.attempted - 1])])
  }

  /** A passing first step extends the shape of the rest of the trace. */
  lemma ShapeAfterPass(n: string, tail: seq<string>, rest: MainRun)
    requires TraceShape(rest, tail)
    ensures TraceShape(MainRun([Started(n), Finished(n)] + rest.events, rest.failure, rest.escaped,
                               rest.global, rest.scenario, rest.attempted + 1), [n] + tail)
  {
    var names := [n] + tail;
    assert names[1..] == tail;
    if rest.failure.None? && rest.escaped.None? {
      assert Passed(names) == [Started(n), Finished(n)] + Passed(tail);
    } else {
      var k := rest.attempted;
      assert names[..k + 1][1..] == tail[..k - 1 + 1][..k];
      assert names[..k] == [n] + tail[..k - 1];
      assert Passed(names[..k]) == [Started(n), Finished(n)] + Passed(tail[..k - 1]);
      assert names[k] == tail[k - 1];
    }
  }

  /** A first step that throws ends the trace, with or without a reported failure. */
  lemma ShapeAtFirstFailure(names: seq<string>, e: Throwable, global: Store, scenario: Store)
    requires names != []
    ensures TraceShape(
      if e.CaughtByMainLoop() then MainRun([Started(names[0]), Failure(names[0], e), Finished(names[0])], Some(e), None, global, scenario, 1)
      else MainRun([Started(names[0]), Finished(names[0])], None, Some(e), global, scenario, 1), names)
  {
    assert names[..0] == [];
  }

  /** The events of a trace of the shape above: the passed steps, then the last attempted step's events, if it failed. */
  lemma TraceEvents(r: MainRun, names: seq<string>)
    requires TraceShape(r, names)
    ensures r.failure.None? && r.escaped.None? ==> r.events == Passed(names)
    ensures r.failure.Some? || r.escaped.Some? ==>
      && 1 <= r.attempted <= |names|
      && var n := names[r.attempted - 1];
         r.events == Passed(names[..r.attempted - 1]) +
           (if r.failure.Some? then [Started(n), Failure(n, r.failure.value), Finished(n)] else [Started(n), Finished(n)])
  {
  }

  /** The main loop's trace has the shape above, over the steps' names. */
  lemma {:induction false} MainTrace(global: Store, scenario: Store, steps: seq<Instance>)
    ensures TraceShape(RunMain(global, scenario, steps), InstanceNames(steps))
    decreases |steps|
  {
    var names := InstanceNames(steps);
    if steps != [] {
      var n := steps[0].name;
      var a := AttemptStep(global, scenario, steps[0].script, MainPhases);
      var r := RunMain(global, scenario, steps);
      if a.error.None? {
        var rest := RunMain(a.global, a.scenario, steps[1..]);
        assert r == MainRun([Started(n), Finished(n)] + rest.events, rest.failure, rest.escaped,
                            rest.global, rest.scenario, rest.attempted + 1);
        MainTrace(a.global, a.scenario, steps[1..]);
        assert InstanceNames(steps[1..]) == names[1..];
        assert names == [n] + names[1..];
        ShapeAfterPass(n, names[1..], rest);
      } else {
        var e := a.error.value;
        assert r == if e.CaughtByMainLoop() then MainRun([Started(n), Failure(n, e), Finished(n)], Some(e), None, a.global, a.scenario, 1)
                    else MainRun([Started(n), Finished(n)], None, Some(e), a.global, a.scenario, 1);
        ShapeAtFirstFailure(names, e, a.global, a.scenario);
      }
    }
  }

  /** The events of a whole run, how it ended, and the shared Contexts afterwards. */
  datatype Report = Report(events: seq<Event>, result: RunResult, global: Store, scenario: Store)

  /**
   * `run` once its steps exist: `suite started`; the setup steps; the main
   * loop; `suite finished` unless a throwable escaped.
   */
  function RunInstances(setupSteps: seq<Instance>, mainSteps: seq<Instance>, global: Store, scenario: Store): Report
  {
    var su := RunSetup(global, scenario, setupSteps);
    if su.error.Some? then Report([SuiteStarted], Escaped(su.error.value), su.global, su.scenario)
    else
      var m := RunMain(su.global, su.scenario, mainSteps);
      if m.escaped.Some? then Report([SuiteStarted] + m.events, Escaped(m.escaped.value), m.global, m.scenario)
      else Report([SuiteStarted] + m.events + [SuiteFinished], Returned, m.global, m.scenario)
  }

  /**
   * `run`: create every setup step, then every main step (a factory that
   * throws aborts with an AssertionError before any event), then run them.
   */
  function RunSpec(setup: seq<Descriptor>, main: seq<Descriptor>, global: Store, scenario: Store): Report
  {
    match Instantiate(setup)
    case Err(e) => Report([], Escaped(WrappedAssertion(e)), global, scenario)
    case Ok(setupSteps) =>
      match Instantiate(main)
      case Err(e) => Report([], Escaped(WrappedAssertion(e)), global, scenario)
      case Ok(mainSteps) => RunInstances(setupSteps, mainSteps, global, scenario)
  }

  /** If creating any setup or main step throws, `run` throws an AssertionError and the notifier hears nothing. */
  lemma InstantiationFailureIsSilent(setup: seq<Descriptor>, main: seq<Descriptor>, global: Store, scenario: Store)
    requires Instantiate(setup).Err? || Instantiate(main).Err?
    ensures RunSpec(setup, main, global, scenario).events == []
    ensures RunSpec(setup, main, global, scenario).result.Escaped?
    ensures RunSpec(setup, main, global, scenario).result.error.WrappedAssertion?
    ensures RunSpec(setup, main, global, scenario).global == global
    ensures RunSpec(setup, main, global, scenario).scenario == scenario
  {
  }

  /** If a setup step fails, `suite started` has been sent, no main step starts, and `suite finished` is never sent. */
  lemma SetupFailureStopsScenario(setup: seq<Descriptor>, main: seq<Descriptor>, global: Store, scenario: Store)
    requires Instantiate(setup).Ok? && Instantiate(main).Ok?
    requires RunSetup(global, scenario, Instantiate(setup).value).error.Some?
    ensures RunSpec(setup, main, global, scenario).events == [SuiteStarted]
    ensures RunSpec(setup, main, global, scenario).result.Escaped?
  {
  }

  predicate IsStepEvent(e: Event)
  {
    e.Started? || e.Failure? || e.Finished?
  }

  lemma {:induction false} PassedHasOnlyStepEvents(names: seq<string>)
    ensures forall e :: e in Passed(names) ==> IsStepEvent(e)
    decreases |names|
  {
    if names != [] { PassedHasOnlyStepEvents(names[1..]); }
  }

  lemma MainHasOnlyStepEvents(global: Store, scenario: Store, steps: seq<Instance>)
    ensures forall e :: e in RunMain(global, scenario, steps).events ==> IsStepEvent(e)
  {
    MainTrace(global, scenario, steps);
    var r := RunMain(global, scenario, steps);
    var names := InstanceNames(steps);
    TraceEvents(r, names);
    if r.failure.None? && r.escaped.None? {
      PassedHasOnlyStepEvents(names);
    } else {
      PassedHasOnlyStepEvents(names[..r.attempted - 1]);
    }
  }

  /** Step events between `suite started` and an optional `suite finished` leave both suite events in place, once each. */
  lemma SuiteAroundStepEvents(m: seq<Event>, finished: bool)
    requires forall e :: e in m ==> IsStepEvent(e)
    ensures var es := [SuiteStarted] + m + (if finished then [SuiteFinished] else []);
      && es[0] == SuiteStarted && (forall i :: 0 < i < |es| ==> es[i] != SuiteStarted)
      && (finished <==> SuiteFinished in es)
      && (finished ==> es[|es| - 1] == SuiteFinished && forall i :: 0 <= i < |es| - 1 ==> es[i] != SuiteFinished)
  {
    var es := [SuiteStarted] + m + (if finished then [SuiteFinished] else []);
    forall i | 0 < i <= |m| ensures IsStepEvent(es[i]) {
      assert es[i] == m[i - 1] && m[i - 1] in m;
    }
  }

  /**
   * A run whose steps were all created sends events, and only such a run;
   * then exactly one `suite started`, first; `suite finished` is sent exactly
   * when `run` returns normally, once, last.
   */
  lemma SuiteEventsBracketTheRun(setup: seq<Descriptor>, main: seq<Descriptor>, global: Store, scenario: Store)
    ensures var r := RunSpec(setup, main, global, scenario);
      (Instantiate(setup).Ok? && Instantiate(main).Ok? <==> r.events != [])
    ensures var r := RunSpec(setup, main, global, scenario);
      && (r.events != [] ==> r.events[0] == SuiteStarted && forall i :: 0 < i < |r.events| ==> r.events[i] != SuiteStarted)
      && (r.result.Returned? <==> SuiteFinished in r.events)
      && (r.result.Returned? ==>
            && r.events[|r.events| - 1] == SuiteFinished
            && forall i :: 0 <= i < |r.events| - 1 ==> r.events[i] != SuiteFinished)
  {
    var r := RunSpec(setup, main, global, scenario);
    if Instantiate(setup).Ok? && Instantiate(main).Ok? {
      var su := RunSetup(global, scenario, Instantiate(setup).value);
      if su.error.None? {
        var m := RunMain(su.global, su.scenario, Instantiate(main).value);
        MainHasOnlyStepEvents(su.global, su.scenario, Instantiate(main).value);
        SuiteAroundStepEvents(m.events, m.escaped.None?);
        assert r.events == [SuiteStarted] + m.events + (if m.escaped.None? then [SuiteFinished] else []);
      } else {
        SuiteAroundStepEvents([], false);
        assert r.events == [SuiteStarted] + [] + [];
      }
    }
  }

  /** The names in the `started` events of a trace, in order. */
  function Starts(events: seq<Event>): seq<string>
    decreases |events|
  {
    if events == [] then []
    else (if events[0].Started? then [events[0].name] else []) + Starts(events[1..])
  }

  lemma {:induction false} StartsAppend(a: seq<Event>, b: seq<Event>)
    ensures Starts(a + b) == Starts(a) + Starts(b)
    decreases |a|
  {
    if a == [] {
      assert a + b == b;
    } else {
      assert (a + b)[0] == a[0] && (a + b)[1..] == a[1..] + b;
      StartsAppend(a[1..], b);
    }
  }

  lemma {:induction false} StartsOfPassed(names: seq<string>)
    ensures Starts(Passed(names)) == names
    decreases |names|
  {
    if names != [] {
      StartsOfPassed(names[1..]);
      StartsAppend([Started(names[0]), Finished(names[0])], Passed(names[1..]));
      assert Starts([Started(names[0]), Finished(names[0])]) == [names[0]];
      assert names == [names[0]] + names[1..];
    }
  }

  lemma StartsOfLastStep(n: string, failure: Option<Throwable>)
    ensures failure.Some? ==> Starts([Started(n), Failure(n, failure.value), Finished(n)]) == [n]
    ensures Starts([Started(n), Finished(n)]) == [n]
  {
    var f := [Finished(n)];
    assert Starts(f) == [] by { assert f[1..] == []; }
    if failure.Some? {
      var l := [Started(n), Failure(n, failure.value), Finished(n)];
      assert l[1..][1..] == f && l[1..] == [Failure(n, failure.value)] + f;
    }
    var p := [Started(n), Finished(n)];
    assert p[1..] == f;
  }

  /** The suite events carry no step name. */
  lemma StartsOfSuite(events: seq<Event>, tail: seq<Event>)
    requires tail == [] || tail == [SuiteFinished]
    ensures Starts([SuiteStarted] + events + tail) == Starts(events)
  {
    StartsAppend([SuiteStarted], events);
    StartsAppend([SuiteStarted] + events, tail);
    assert Starts([SuiteStarted]) == [] by { assert [SuiteStarted][1..] == []; }
    assert Starts(tail) == [] by { if tail != [] { assert tail[1..] == []; } }
  }

  /** A trace of this shape starts exactly the attempted steps, in order. */
  lemma StartsOfShape(r: MainRun, names: seq<string>)
    requires TraceShape(r, names)
    ensures Starts(r.events) == names[..r.attempted]
  {
    TraceEvents(r, names);
    if r.failure.None? && r.escaped.None? {
      StartsOfPassed(names);
      assert names[..r.attempted] == names;
    } else {
      var k := r.attempted - 1;
      var last := if r.failure.Some? then [Started(names[k]), Failure(names[k], r.failure.value), Finished(names[k])]
                  else [Started(names[k]), Finished(names[k])];
      assert r.events == Passed(names[..k]) + last;
      StartsAppend(Passed(names[..k]), last);
      StartsOfPassed(names[..k]);
      StartsOfLastStep(names[k], r.failure);
      assert names[..k + 1] == names[..k] + [names[k]];
    }
  }

  /** The main loop starts a prefix of its steps, in their order: the ones it attempted. */
  lemma MainStartsPrefix(global: Store, scenario: Store, steps: seq<Instance>)
    ensures var r := RunMain(global, scenario, steps);
      r.attempted <= |steps| && Starts(r.events) == InstanceNames(steps)[..r.attempted]
  {
    MainTrace(global, scenario, steps);
    StartsOfShape(RunMain(global, scenario, steps), InstanceNames(steps));
  }

  /**
   * Main steps are started in the order of the main descriptors: the names in
   * the `started` events of a run are a prefix of the descriptors' names.
   */
  lemma MainStepsStartInDescriptorOrder(setup: seq<Descriptor>, main: seq<Descriptor>, global: Store, scenario: Store)
    ensures exists k :: 0 <= k <= |main| && Starts(RunSpec(setup, main, global, scenario).events) == Names(main)[..k]
  {
    var r := RunSpec(setup, main, global, scenario);
    if Instantiate(setup).Ok? && Instantiate(main).Ok? {
      var su := RunSetup(global, scenario, Instantiate(setup).value);
      if su.error.None? {
        var insts := Instantiate(main).value;
        var m := RunMain(su.global, su.scenario, insts);
        MainStartsPrefix(su.global, su.scenario, insts);
        InstanceNamesAreDescriptorNames(main);
        var tail := if m.escaped.Some? then [] else [SuiteFinished];
        assert r.events == [SuiteStarted] + m.events + tail;
        StartsOfSuite(m.events, tail);
      } else {
        assert Starts(r.events) == Names(main)[..0];
      }
    } else {
      assert Starts(r.events) == Names(main)[..0];
    }
  }

  lemma InstanceNamesAreDescriptorNames(ds: seq<Descriptor>)
    requires Instantiate(ds).Ok?
    ensures InstanceNames(Instantiate(ds).value) == Names(ds)
  {
    InstancesFollowDescriptors(ds);
  }

  /**
   * With the main descriptors sorted by name (as `createTestInstance` leaves
   * them), main steps start in ascending order of their names.
   */
  lemma MainStepsStartInNameOrder(setup: seq<Descriptor>, main: seq<Descriptor>, global: Store, scenario: Store)
    requires SortedByName(main)
    ensures var starts := Starts(RunSpec(setup, main, global, scenario).events);
      forall i, j :: 0 <= i < j < |starts| ==> NameLe(starts[i], starts[j])
  {
    MainStepsStartInDescriptorOrder(setup, main, global, scenario);
  }

  /** Every event of a trace of the shape above is a step event naming one of the attempted steps. */
  lemma EventsNameAttemptedSteps(r: MainRun, names: seq<string>)
    requires TraceShape(r, names)
    ensures forall e :: e in r.events ==> IsStepEvent(e) && e.name in names[..r.attempted]
  {
    TraceEvents(r, names);
    forall e | e in r.events ensures IsStepEvent(e) && e.name in names[..r.attempted] {
      if r.failure.None? && r.escaped.None? {
        PassedNames(names, e);
        assert names[..r.attempted] == names;
      } else {
        var k := r.attempted - 1;
        if e in Passed(names[..k]) {
          PassedNames(names[..k], e);
          assert names[..k] <= names[..r.attempted];
        } else {
          assert e.name == names[k] == names[..r.attempted][k];
        }
      }
    }
  }

  /**
   * Fail-fast: with distinct step names, every step event of the main loop
   * names one of the attempted steps, and a step after the last attempted
   * one appears in no event at all.
   */
  lemma SkippedStepsSendNothing(global: Store, scenario: Store, steps: seq<Instance>)
    requires forall i, j :: 0 <= i < j < |steps| ==> steps[i].name != steps[j].name
    ensures var r := RunMain(global, scenario, steps);
      && r.attempted <= |steps|
      && (forall e :: e in r.events ==> IsStepEvent(e) && e.name in InstanceNames(steps)[..r.attempted])
      && (forall j, e :: r.attempted <= j < |steps| && e in r.events ==> e.name != steps[j].name)
  {
    MainTrace(global, scenario, steps);
    var r := RunMain(global, scenario, steps);
    var names := InstanceNames(steps);
    EventsNameAttemptedSteps(r, names);
    forall j, e | r.attempted <= j < |steps| && e in r.events ensures e.name != steps[j].name {
      var i :| 0 <= i < r.attempted && names[..r.attempted][i] == e.name;
      assert e.name == steps[i].name;
    }
  }

  lemma {:induction false} PassedNames(names: seq<string>, e: Event)
    requires e in Passed(names)
    ensures IsStepEvent(e) && e.name in names
    decreases |names|
  {
    if e != Started(names[0]) && e != Finished(names[0]) {
      PassedNames(names[1..], e);
    }
  }
}
