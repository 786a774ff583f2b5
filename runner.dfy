/**
 * Unobtainium.java: the runner. It is built from a scenario class
 * (`createTestInstance`), holds the scenario Context and the shared global
 * Context, creates and wires the steps, injects their configuration and
 * drives them through their lifecycle, reporting to the notifier.
 */
module Runner {
  import opened Wrappers
  import opened Contexts
  import opened Inject
  import opened Failures
  import opened Steps
  import opened Injection
  import opened Descriptors
  import opened Lifecycle

  /** A JUnit Description: a display name and child descriptions. */
  datatype Description = Description(displayName: string, children: seq<Description>)

  /**
   * A scenario class: its name, how its only constructor ends, and its
   * `@Step` and `@BeforeScenario` methods in the order `getAnnotatedMethods`
   * returns them.
   */
  datatype TestClass = TestClass(name: string, construction: Outcome, stepMethods: seq<Descriptor>, beforeScenarioMethods: seq<Descriptor>)

  /** What makes the runner's constructor throw: the scenario constructor, or a repeated main step name. */
  function ConstructionError(tc: TestClass): Option<Throwable>
  {
    if tc.construction.Threw? then Some(tc.construction.error)
    else
      match NameIndex(SortByName(tc.stepMethods))
      case Err(e) => Some(e)
      case Ok(_) => None
  }

  /**
   * Construction fails exactly when the scenario constructor throws or two
   * main steps share a name; setup step names may repeat.
   */
  lemma ConstructionFailsOnDuplicateMainNames(tc: TestClass)
    ensures ConstructionError(tc).None? <==> tc.construction.Completed? && DistinctNames(tc.stepMethods)
    ensures tc.construction.Completed? && !DistinctNames(tc.stepMethods) ==> ConstructionError(tc).value.DuplicateKey?
  {
    NameIndexCorrect(SortByName(tc.stepMethods));
    SortKeepsDistinctness(tc.stepMethods);
  }

  /** One child description per descriptor, in order. */
  function Children(ds: seq<Descriptor>): (cs: seq<Description>)
    ensures |cs| == |ds| && forall i :: 0 <= i < |ds| ==> cs[i] == Description(ds[i].name, [])
  {
    seq(|ds|, i requires 0 <= i < |ds| => Description(ds[i].name, []))
  }

  /** Steps wired to the runner's two shared Contexts, each with a step Context of its own. */
  ghost predicate WiredTo(ts: seq<TestStep>, g: Context, s: Context)
    reads ts`globalContext, ts`scenarioContext, ts`stepContext
  {
    && g != s
    && forall k :: 0 <= k < |ts| ==>
         && ts[k].globalContext == g && ts[k].scenarioContext == s
         && ts[k].stepContext != null && ts[k].stepContext != g && ts[k].stepContext != s
  }

  /** The steps run the scripts of these instances, in order. */
  ghost predicate ScriptsOf(ts: seq<TestStep>, insts: seq<Instance>)
  {
    |ts| == |insts| && forall k :: 0 <= k < |ts| ==> ts[k].script == insts[k].script
  }

  /** The steps were created from these instances, in order. */
  ghost predicate CreatedFrom(ts: seq<TestStep>, insts: seq<Instance>)
    reads ts`name
  {
    ScriptsOf(ts, insts) && forall k :: 0 <= k < |ts| ==> ts[k].name == Some(insts[k].name)
  }

  lemma PrependNothing(r: Result<seq<Instance>, Throwable>)
    ensures Prepend([], r) == r
  {
    if r.Ok? {
      assert [] + r.value == r.value;
    }
  }

  /** The main loop's invariant carried across one pass. */
  lemma MainLoopAdvance(g: Store, s: Store, insts: seq<Instance>, i: nat, events: seq<Event>, whole: MainRun)
    requires i < |insts|
    requires var rest := RunMain(g, s, insts[i..]);
      && events + rest.events == whole.events && rest.escaped == whole.escaped
      && rest.global == whole.global && rest.scenario == whole.scenario
    ensures var a := AttemptStep(g, s, insts[i].script, MainPhases);
      var done := events + PassEvents(insts[i].name, a.error);
      if a.error.None? then
        var rest := RunMain(a.global, a.scenario, insts[i + 1..]);
        && done + rest.events == whole.events && rest.escaped == whole.escaped
        && rest.global == whole.global && rest.scenario == whole.scenario
      else
        && done == whole.events && a.global == whole.global && a.scenario == whole.scenario
        && whole.escaped == (if a.error.value.CaughtByMainLoop() then None else a.error)
  {
    assert insts[i..][0] == insts[i] && insts[i..][1..] == insts[i + 1..];
    var a := AttemptStep(g, s, insts[i].script, MainPhases);
    var n := insts[i].name;
    if a.error.None? {
      var rest := RunMain(a.global, a.scenario, insts[i + 1..]);
      assert RunMain(g, s, insts[i..]).events == [Started(n), Finished(n)] + rest.events;
      assert (events + PassEvents(n, a.error)) + rest.events == events + (PassEvents(n, a.error) + rest.events);
    } else {
      assert RunMain(g, s, insts[i..]).events == PassEvents(n, a.error);
    }
  }

  lemma PrependOne(done: seq<Instance>, inst: Instance, r: Result<seq<Instance>, Throwable>)
    ensures Prepend(done + [inst], r) == Prepend(done, if r.Ok? then Ok([inst] + r.value) else r)
  {
    if r.Ok? {
      assert (done + [inst]) + r.value == done + ([inst] + r.value);
    }
  }

  /**
   * The main loop's three calls for one step (injection, `runStep`, then
   * `verify`) amount to one attempt through all four phases.
   */
  lemma MainAttemptInPieces(env: Env, script: StepScript)
    ensures var r := RunPhases(env, script, SetupPhases);
      RunPhases(env, script, MainPhases) ==
        if r.error.Some? then r
        else
          var h := script.verify;
          PhaseRun(ApplyWrites(r.env, h.writes), r.ran + [Verify], if h.outcome.Threw? then Some(h.outcome.error) else None)
  {
    assert SetupPhases + [Verify] == MainPhases;
    RunPhasesAppend(env, script, SetupPhases, [Verify]);
    assert [Verify][1..] == [];
  }

  /** `done` followed by the outcome of creating the remaining steps. */
  function Prepend(done: seq<Instance>, r: Result<seq<Instance>, Throwable>): Result<seq<Instance>, Throwable>
  {
    match r
    case Ok(rest) => Ok(done + rest)
    case Err(e) => Err(e)
  }

  class Unobtainium {
    const testClass: TestClass
    var scenarioDescription: Option<Description>
    var stepNameToDescription: map<string, Description>
    var frameworkSteps: seq<Descriptor>
    var steps: seq<TestStep>
    var scenarioContext: Context
    var globalContext: Context?
    var stepNameToFrameworkStep: map<string, Descriptor>
    var beforeScenarioSteps: seq<Descriptor>
    var beforeScenarios: seq<TestStep>

    /** The field initialisations and the constructor's first statements, before `createTestInstance`. */
    constructor Init(testClass: TestClass)
      ensures this.testClass == testClass
      ensures steps == [] && beforeScenarios == [] && frameworkSteps == [] && beforeScenarioSteps == []
      ensures fresh(scenarioContext) && scenarioContext.contextInformation == map[] && globalContext == null
      ensures scenarioDescription == None && stepNameToDescription == map[] && stepNameToFrameworkStep == map[]
    {
      this.testClass := testClass;
      scenarioDescription := None;
      stepNameToDescription := map[];
      frameworkSteps := [];
      beforeScenarioSteps := [];
      stepNameToFrameworkStep := map[];
      steps := [];
      beforeScenarios := [];
      globalContext := null;
      scenarioContext := new Context();
    }

    /** What `createTestInstance` leaves behind when it succeeds. */
    ghost predicate Constructed()
      reads this
    {
      && frameworkSteps == SortByName(testClass.stepMethods)
      && beforeScenarioSteps == SortByName(testClass.beforeScenarioMethods)
      && NameIndex(frameworkSteps) == Ok(stepNameToFrameworkStep)
      && stepNameToDescription.Keys == NameSet(frameworkSteps)
      && (forall n :: n in stepNameToDescription ==> stepNameToDescription[n] == Description(n, []))
    }

    /** `new Unobtainium(testClass)`: either a constructed runner or the throwable the constructor raised. */
    static method Create(testClass: TestClass) returns (runner: Unobtainium?, error: Option<Throwable>)
      ensures error == ConstructionError(testClass)
      ensures runner == null <==> error.Some?
      ensures runner != null ==>
        && fresh(runner) && fresh(runner.scenarioContext) && runner.testClass == testClass && runner.Constructed()
        && runner.steps == [] && runner.beforeScenarios == [] && runner.globalContext == null
        && runner.scenarioDescription == None && runner.scenarioContext.contextInformation == map[]
    {
      var r := new Unobtainium.Init(testClass);
      error := r.CreateTestInstance();
      runner := if error.None? then r else null;
    }

    method CreateTestInstance() returns (error: Option<Throwable>)
      requires stepNameToDescription == map[]
      modifies this`frameworkSteps, this`stepNameToFrameworkStep, this`beforeScenarioSteps, this`stepNameToDescription
      ensures error == ConstructionError(testClass)
      ensures error.None? ==> Constructed()
    {
      if testClass.construction.Threw? {
        return Some(testClass.construction.error);
      }
      var sorted := SortByName(testClass.stepMethods);
      var index := NameIndex(sorted);
      assert ConstructionError(testClass) == if index.Err? then Some(index.error) else None;
      if index.Err? {
        return Some(index.error);
      }
      frameworkSteps := sorted;
      stepNameToFrameworkStep := index.value;
      beforeScenarioSteps := SortByName(testClass.beforeScenarioMethods);
      CreateStepDescriptions();
      error := None;
    }

    method SetGlobalContext(c: Context?)
      modifies this`globalContext
      ensures globalContext == c
    {
      globalContext := c;
    }

    /** `createStep`: invoke the factory, then name the step and wire its three Contexts. */
    method CreateStep(d: Descriptor) returns (step: TestStep?, error: Option<Throwable>)
      ensures error.Some? <==> d.factory.FactoryThrows?
      ensures error.Some? ==> error.value == d.factory.error && step == null
      ensures error.None? ==>
        && step != null && fresh(step) && step.stepContext != null && fresh(step.stepContext)
        && step.name == Some(d.name) && d.factory == Produces(step.script)
        && step.globalContext == globalContext && step.scenarioContext == scenarioContext
        && step.fields == map[] && step.stepContext.contextInformation == map[]
    {
      match d.factory {
        case FactoryThrows(e) =>
          return null, Some(e);
        case Produces(script) =>
          step := new TestStep(script);
          step.SetName(d.name);
          step.SetGlobalContext(globalContext);
          step.SetScenarioContext(scenarioContext);
          var c := new Context();
          step.SetStepContext(c);
          error := None;
      }
    }

    /** `createStepDescriptions`: a cached description per main step name. */
    method CreateStepDescriptions()
      modifies this`stepNameToDescription
      ensures stepNameToDescription.Keys == old(stepNameToDescription).Keys + NameSet(frameworkSteps)
      ensures forall n :: n in stepNameToDescription ==>
        stepNameToDescription[n] == if n in old(stepNameToDescription) then old(stepNameToDescription)[n] else Description(n, [])
    {
      for i := 0 to |frameworkSteps|
        invariant stepNameToDescription.Keys == old(stepNameToDescription).Keys + NameSet(frameworkSteps[..i])
        invariant forall n :: n in stepNameToDescription ==>
          stepNameToDescription[n] == if n in old(stepNameToDescription) then old(stepNameToDescription)[n] else Description(n, [])
      {
        CreateStepDescription(frameworkSteps[i]);
        assert NameSet(frameworkSteps[..i + 1]) == NameSet(frameworkSteps[..i]) + {frameworkSteps[i].name} by {
          assert forall k :: 0 <= k < i ==> frameworkSteps[..i + 1][k] == frameworkSteps[..i][k];
          forall n | n in NameSet(frameworkSteps[..i + 1]) ensures n in NameSet(frameworkSteps[..i]) + {frameworkSteps[i].name} {
            var k :| 0 <= k < i + 1 && frameworkSteps[..i + 1][k].name == n;
            if k < i { assert frameworkSteps[..i][k].name == n; }
          }
          assert frameworkSteps[..i + 1][i] == frameworkSteps[i];
        }
      }
      assert frameworkSteps[..|frameworkSteps|] == frameworkSteps;
    }

    /** `createStepDescription`: get, then `putIfAbsent` a new description when none is cached. */
    method CreateStepDescription(step: Descriptor)
      modifies this`stepNameToDescription
      ensures stepNameToDescription ==
        if step.name in old(stepNameToDescription) then old(stepNameToDescription)
        else old(stepNameToDescription)[step.name := Description(step.name, [])]
    {
      if step.name !in stepNameToDescription {
        var description := Description(step.name, []);
        stepNameToDescription := stepNameToDescription[step.name := description];
      }
    }

    /** `getDescription`: built once, one child per main step in their (sorted) order, then cached. */
    method GetDescription() returns (d: Description)
      modifies this`scenarioDescription
      ensures old(scenarioDescription).Some? ==> d == old(scenarioDescription).value && scenarioDescription == old(scenarioDescription)
      ensures old(scenarioDescription).None? ==>
        d == Description(testClass.name, Children(frameworkSteps)) && scenarioDescription == Some(d)
    {
      if scenarioDescription.Some? {
        return scenarioDescription.value;
      }
      var children: seq<Description> := [];
      for i := 0 to |frameworkSteps|
        invariant children == Children(frameworkSteps[..i])
      {
        children := children + [Description(frameworkSteps[i].name, [])];
      }
      assert frameworkSteps[..|frameworkSteps|] == frameworkSteps;
      d := Description(testClass.name, children);
      scenarioDescription := Some(d);
    }

    /** `injectConfigsInto`: resolve each annotated field in turn and assign it. */
    method InjectConfigsInto(step: TestStep) returns (error: Option<Throwable>)
      requires step.Wired() && step.globalContext == globalContext && step.scenarioContext == scenarioContext
      modifies step`fields
      ensures var inj := InjectAll(step.EnvOf(), step.script.decls, old(step.fields));
        step.fields == inj.fields && error == inj.error
    {
      var configFields := step.script.decls;
      var i := 0;
      while i < |configFields|
        invariant 0 <= i <= |configFields|
        invariant InjectAll(step.EnvOf(), configFields[i..], step.fields) == InjectAll(step.EnvOf(), configFields, old(step.fields))
      {
        var configField := configFields[i];
        assert configFields[i..][0] == configField && configFields[i..][1..] == configFields[i + 1..];
        var configVal: Option<Value> := None;
        match configField.scope {
          case Global =>
            configVal := globalContext.Get(configField.key);
          case Scenario =>
            configVal := scenarioContext.Get(configField.key);
          case Step =>
            // the value read here is never stored in configVal
            var discarded := step.stepContext.Get(configField.key);
        }
        if configVal.None? {
          return Some(MissingConfiguration(configField.key, configField.scope));
        }
        if !Accepts(configField.fieldType, configVal.value) {
          return Some(BindingError(configField));
        }
        step.fields := step.fields[configField.field := configVal.value];
        i := i + 1;
      }
      error := None;
    }

    /** `runStep`: preExecute, execute, postExecute, stopping at the first that throws. */
    method RunStep(step: TestStep) returns (error: Option<Throwable>)
      requires step.Wired()
      modifies step.globalContext, step.scenarioContext, step.stepContext
      ensures var r := RunPhases(old(step.EnvOf()), step.script, SetupPhases);
        step.EnvOf() == r.env && error == r.error
    {
      ghost var env := step.EnvOf();
      var outcome := step.PreExecute();
      if outcome.Threw? {
        return Some(outcome.error);
      }
      outcome := step.Execute();
      if outcome.Threw? {
        assert SetupPhases[1..] == [Execute, PostExecute];
        return Some(outcome.error);
      }
      outcome := step.PostExecute();
      assert SetupPhases[1..] == [Execute, PostExecute] && SetupPhases[1..][1..] == [PostExecute];
      if outcome.Threw? {
        return Some(outcome.error);
      }
      error := None;
    }

    /** The try block of `runBeforeScenarios` for one step: injection, then `runStep`. */
    method AttemptSetupStep(step: TestStep) returns (error: Option<Throwable>)
      requires step.Wired() && step.globalContext == globalContext && step.scenarioContext == scenarioContext
      modifies step`fields, step.globalContext, step.scenarioContext, step.stepContext
      ensures var a := AttemptStep(old(step.globalContext.contextInformation), old(step.scenarioContext.contextInformation),
                                   step.script, SetupPhases);
        && error == a.error
        && step.globalContext.contextInformation == a.global && step.scenarioContext.contextInformation == a.scenario
        && (old(step.fields) == map[] ==> step.fields == a.fields)
      ensures step.fields == InjectAll(Env(old(step.globalContext.contextInformation), old(step.scenarioContext.contextInformation), map[]),
                                       step.script.decls, old(step.fields)).fields
    {
      ghost var shared := Env(globalContext.contextInformation, scenarioContext.contextInformation, map[]);
      InjectIgnoresStepContext(shared, step.stepContext.contextInformation, step.script.decls, step.fields);
      InjectOutcomeIgnoresStepState(shared, step.stepContext.contextInformation, step.script.decls, step.fields, map[]);
      PhasesIgnoreStepContext(shared, step.stepContext.contextInformation, step.script, SetupPhases);
      error := InjectConfigsInto(step);
      if error.None? {
        error := RunStep(step);
      }
    }

    /** The try block of `run`'s main loop for one step: injection, `runStep`, then `verify`. */
    method AttemptMainStep(step: TestStep) returns (error: Option<Throwable>)
      requires step.Wired() && step.globalContext == globalContext && step.scenarioContext == scenarioContext
      modifies step`fields, step.globalContext, step.scenarioContext, step.stepContext
      ensures var a := AttemptStep(old(step.globalContext.contextInformation), old(step.scenarioContext.contextInformation),
                                   step.script, MainPhases);
        && error == a.error
        && step.globalContext.contextInformation == a.global && step.scenarioContext.contextInformation == a.scenario
        && (old(step.fields) == map[] ==> step.fields == a.fields)
      ensures step.fields == InjectAll(Env(old(step.globalContext.contextInformation), old(step.scenarioContext.contextInformation), map[]),
                                       step.script.decls, old(step.fields)).fields
    {
      ghost var shared := Env(globalContext.contextInformation, scenarioContext.contextInformation, map[]);
      InjectIgnoresStepContext(shared, step.stepContext.contextInformation, step.script.decls, step.fields);
      InjectOutcomeIgnoresStepState(shared, step.stepContext.contextInformation, step.script.decls, step.fields, map[]);
      PhasesIgnoreStepContext(shared, step.stepContext.contextInformation, step.script, MainPhases);
      MainAttemptInPieces(step.EnvOf(), step.script);
      error := InjectConfigsInto(step);
      if error.None? {
        error := RunStep(step);
        if error.None? {
          var outcome := step.Verify();
          if outcome.Threw? {
            error := Some(outcome.error);
          }
        }
      }
    }

    /**
     * `runBeforeScenarios`: inject into and run each setup step in order; a
     * StepFailureException becomes an AssertionError, anything else escapes as is.
     */
    method RunBeforeScenarios(ghost insts: seq<Instance>, ghost stepContexts: set<Context>) returns (error: Option<Throwable>)
      requires globalContext != null
      requires WiredTo(beforeScenarios, globalContext, scenarioContext) && ScriptsOf(beforeScenarios, insts)
      requires forall k :: 0 <= k < |beforeScenarios| ==> beforeScenarios[k].stepContext in stepContexts
      modifies globalContext, scenarioContext, beforeScenarios`fields, stepContexts
      ensures var r := RunSetup(old(globalContext.contextInformation), old(scenarioContext.contextInformation), insts);
        error == r.error && globalContext.contextInformation == r.global && scenarioContext.contextInformation == r.scenario
    {
      var i := 0;
      assert insts[0..] == insts;
      while i < |beforeScenarios|
        invariant 0 <= i <= |beforeScenarios|
        invariant RunSetup(globalContext.contextInformation, scenarioContext.contextInformation, insts[i..])
               == RunSetup(old(globalContext.contextInformation), old(scenarioContext.contextInformation), insts)
      {
        var step := beforeScenarios[i];
        assert insts[i..][0] == insts[i] && insts[i..][1..] == insts[i + 1..];
        error := AttemptSetupStep(step);
        if error.Some? {
          if error.value.IsStepFailureException() {
            error := Some(WrappedAssertion(error.value));
          }
          return;
        }
        i := i + 1;
      }
      error := None;
    }

    /** One creation loop of `run`: a step per descriptor, in order, until a step method throws. */
    method CreateSteps(ds: seq<Descriptor>) returns (created: seq<TestStep>, error: Option<Throwable>, ghost stepContexts: set<Context>)
      requires globalContext != null && globalContext != scenarioContext
      ensures error.Some? <==> Instantiate(ds).Err?
      ensures error.Some? ==> error.value == Instantiate(ds).error
      ensures error.None? ==>
        && CreatedFrom(created, Instantiate(ds).value)
        && WiredTo(created, globalContext, scenarioContext)
        && (forall k :: 0 <= k < |created| ==> fresh(created[k]) && created[k].stepContext in stepContexts)
        && fresh(stepContexts)
    {
      created := [];
      stepContexts := {};
      ghost var insts: seq<Instance> := [];
      assert ds[0..] == ds;
      PrependNothing(Instantiate(ds));
      var i := 0;
      while i < |ds|
        invariant 0 <= i <= |ds|
        invariant Prepend(insts, Instantiate(ds[i..])) == Instantiate(ds)
        invariant CreatedFrom(created, insts)
        invariant WiredTo(created, globalContext, scenarioContext)
        invariant forall k :: 0 <= k < |created| ==> fresh(created[k]) && created[k].stepContext in stepContexts
        invariant fresh(stepContexts)
      {
        assert ds[i..][0] == ds[i] && ds[i..][1..] == ds[i + 1..];
        var step, err := CreateStep(ds[i]);
        if err.Some? {
          return [], err, {};
        }
        PrependOne(insts, Instance(ds[i].name, step.script), Instantiate(ds[i + 1..]));
        created := created + [step];
        stepContexts := stepContexts + {step.stepContext};
        insts := insts + [Instance(ds[i].name, step.script)];
        i := i + 1;
      }
      assert ds[i..] == [] && insts + [] == insts;
      error := None;
    }

    /** The first loop of `run`'s try block: one step per setup descriptor, in order. */
    method CreateSetupSteps() returns (error: Option<Throwable>, ghost insts: seq<Instance>, ghost stepContexts: set<Context>)
      requires globalContext != null && globalContext != scenarioContext
      requires beforeScenarios == []
      modifies this`beforeScenarios
      ensures error.Some? <==> Instantiate(beforeScenarioSteps).Err?
      ensures error.Some? ==> error.value == Instantiate(beforeScenarioSteps).error
      ensures error.None? ==>
        && Instantiate(beforeScenarioSteps) == Ok(insts)
        && WiredTo(beforeScenarios, globalContext, scenarioContext) && ScriptsOf(beforeScenarios, insts)
        && (forall k :: 0 <= k < |beforeScenarios| ==> fresh(beforeScenarios[k]) && beforeScenarios[k].stepContext in stepContexts)
        && fresh(stepContexts)
    {
      var created;
      created, error, stepContexts := CreateSteps(beforeScenarioSteps);
      if error.Some? {
        return error, [], {};
      }
      beforeScenarios := beforeScenarios + created;
      insts := Instantiate(beforeScenarioSteps).value;
    }

    /** The second loop of `run`'s try block: one step per main descriptor, in order. */
    method CreateMainSteps() returns (error: Option<Throwable>, ghost insts: seq<Instance>, ghost stepContexts: set<Context>)
      requires globalContext != null && globalContext != scenarioContext
      requires steps == []
      modifies this`steps
      ensures error.Some? <==> Instantiate(frameworkSteps).Err?
      ensures error.Some? ==> error.value == Instantiate(frameworkSteps).error
      ensures error.None? ==>
        && Instantiate(frameworkSteps) == Ok(insts)
        && WiredTo(steps, globalContext, scenarioContext) && CreatedFrom(steps, insts)
        && (forall k :: 0 <= k < |steps| ==> fresh(steps[k]) && steps[k].stepContext in stepContexts)
        && fresh(stepContexts)
    {
      var created;
      created, error, stepContexts := CreateSteps(frameworkSteps);
      if error.Some? {
        return error, [], {};
      }
      steps := steps + created;
      insts := Instantiate(frameworkSteps).value;
    }

    /** The try block of `run`: create every setup step, then every main step; a throw becomes an AssertionError. */
    method CreateScenarioSteps() returns (error: Option<Throwable>, ghost setupInsts: seq<Instance>, ghost mainInsts: seq<Instance>,
                                         ghost setupContexts: set<Context>, ghost mainContexts: set<Context>)
      requires globalContext != null && globalContext != scenarioContext
      requires steps == [] && beforeScenarios == []
      modifies this`beforeScenarios, this`steps
      ensures error.Some? <==> Instantiate(beforeScenarioSteps).Err? || Instantiate(frameworkSteps).Err?
      ensures error.Some? ==> error.value == WrappedAssertion(
        if Instantiate(beforeScenarioSteps).Err? then Instantiate(beforeScenarioSteps).error else Instantiate(frameworkSteps).error)
      ensures error.None? ==>
        && Instantiate(beforeScenarioSteps) == Ok(setupInsts) && Instantiate(frameworkSteps) == Ok(mainInsts)
        && ReadyToRun(setupInsts, mainInsts, setupContexts, mainContexts)
        && (forall k :: 0 <= k < |beforeScenarios| ==> fresh(beforeScenarios[k]))
        && (forall k :: 0 <= k < |steps| ==> fresh(steps[k]))
        && fresh(setupContexts) && fresh(mainContexts)
    {
      error, setupInsts, setupContexts := CreateSetupSteps();
      if error.Some? {
        return Some(WrappedAssertion(error.value)), [], [], {}, {};
      }
      error, mainInsts, mainContexts := CreateMainSteps();
      if error.Some? {
        return Some(WrappedAssertion(error.value)), [], [], {}, {};
      }
    }

    /** Every step exists, is wired to the shared Contexts, and owns a step Context from the given sets. */
    ghost predicate ReadyToRun(setupInsts: seq<Instance>, mainInsts: seq<Instance>,
                               setupContexts: set<Context>, mainContexts: set<Context>)
      reads this`globalContext, this`scenarioContext, this`beforeScenarios, this`steps
      reads beforeScenarios`name, beforeScenarios`globalContext, beforeScenarios`scenarioContext, beforeScenarios`stepContext
      reads steps`name, steps`globalContext, steps`scenarioContext, steps`stepContext
    {
      && globalContext != null
      && WiredTo(beforeScenarios, globalContext, scenarioContext) && ScriptsOf(beforeScenarios, setupInsts)
      && (forall k :: 0 <= k < |beforeScenarios| ==> beforeScenarios[k].stepContext in setupContexts)
      && WiredTo(steps, globalContext, scenarioContext) && CreatedFrom(steps, mainInsts)
      && (forall k :: 0 <= k < |steps| ==> steps[k].stepContext in mainContexts)
    }

    /**
     * `run`: create every step, announce the suite, run the setup steps, then
     * each main step until one fails; each outcome goes to the notifier,
     * modelled as the list of events sent to it.
     */
    method Run() returns (events: seq<Event>, result: RunResult)
      requires globalContext != null && globalContext != scenarioContext
      requires steps == [] && beforeScenarios == []
      modifies this`beforeScenarios, this`steps, this`scenarioDescription, globalContext, scenarioContext
      ensures Report(events, result, globalContext.contextInformation, scenarioContext.contextInformation)
           == RunSpec(beforeScenarioSteps, frameworkSteps,
                      old(globalContext.contextInformation), old(scenarioContext.contextInformation))
    {
      var error;
      ghost var setupInsts, mainInsts, setupContexts, mainContexts;
      error, setupInsts, mainInsts, setupContexts, mainContexts := CreateScenarioSteps();
      if error.Some? {
        return [], Escaped(error.value);
      }
      events, result := RunCreated(setupInsts, mainInsts, setupContexts, mainContexts);
    }

    /**
     * The rest of `run` once every step exists: announce the suite, run the
     * setup steps, then the main loop, and close the suite unless a
     * throwable escaped.
     */
    method RunCreated(ghost setupInsts: seq<Instance>, ghost mainInsts: seq<Instance>,
                      ghost setupContexts: set<Context>, ghost mainContexts: set<Context>)
      returns (events: seq<Event>, result: RunResult)
      requires ReadyToRun(setupInsts, mainInsts, setupContexts, mainContexts)
      modifies this`scenarioDescription, globalContext, scenarioContext, beforeScenarios`fields, steps`fields
      modifies setupContexts, mainContexts
      ensures Report(events, result, globalContext.contextInformation, scenarioContext.contextInformation)
           == RunInstances(setupInsts, mainInsts, old(globalContext.contextInformation), old(scenarioContext.contextInformation))
    {
      var description := GetDescription();
      events := [SuiteStarted];
      var failure := RunBeforeScenarios(setupInsts, setupContexts);
      if failure.Some? {
        return events, Escaped(failure.value);
      }
      var stepEvents;
      stepEvents, result := RunMainSteps(mainInsts, mainContexts);
      events := events + stepEvents;
      if result.Returned? {
        description := GetDescription();
        events := events + [SuiteFinished];
      }
    }

    /**
     * One pass of `run`'s main loop: `test started`, the attempt, `test
     * failure` when the error is one the loop catches, and `test finished`
     * in any case.
     */
    method RunMainStep(step: TestStep) returns (events: seq<Event>, error: Option<Throwable>)
      requires step.Wired() && step.globalContext == globalContext && step.scenarioContext == scenarioContext
      requires step.name.Some?
      modifies step`fields, step.globalContext, step.scenarioContext, step.stepContext
      ensures var a := AttemptStep(old(step.globalContext.contextInformation), old(step.scenarioContext.contextInformation),
                                   step.script, MainPhases);
        && error == a.error
        && step.globalContext.contextInformation == a.global && step.scenarioContext.contextInformation == a.scenario
      ensures events == PassEvents(step.name.value, error)
    {
      var name := step.GetName();
      events := [Started(name.value)];
      error := AttemptMainStep(step);
      if error.Some? && error.value.CaughtByMainLoop() {
        events := events + [Failure(name.value, error.value)];
      }
      events := events + [Finished(name.value)];
    }

    /**
     * The main loop of `run`: each step is announced, attempted and finished,
     * in order; a caught failure is reported and ends the loop, any other
     * throwable escapes after the step is finished.
     */
    method RunMainSteps(ghost insts: seq<Instance>, ghost stepContexts: set<Context>) returns (events: seq<Event>, result: RunResult)
      requires globalContext != null
      requires WiredTo(steps, globalContext, scenarioContext) && CreatedFrom(steps, insts)
      requires forall k :: 0 <= k < |steps| ==> steps[k].stepContext in stepContexts
      modifies globalContext, scenarioContext, steps`fields, stepContexts
      ensures var m := RunMain(old(globalContext.contextInformation), old(scenarioContext.contextInformation), insts);
        && events == m.events && result == (if m.escaped.Some? then Escaped(m.escaped.value) else Returned)
        && globalContext.contextInformation == m.global && scenarioContext.contextInformation == m.scenario
    {
      ghost var whole := RunMain(globalContext.contextInformation, scenarioContext.contextInformation, insts);
      events := [];
      var i := 0;
      assert insts[0..] == insts && [] + whole.events == whole.events;
      while i < |steps|
        invariant 0 <= i <= |steps|
        invariant var rest := RunMain(globalContext.contextInformation, scenarioContext.contextInformation, insts[i..]);
          && events + rest.events == whole.events && rest.escaped == whole.escaped
          && rest.global == whole.global && rest.scenario == whole.scenario
      {
        var step := steps[i];
        MainLoopAdvance(globalContext.contextInformation, scenarioContext.contextInformation, insts, i, events, whole);
        var stepEvents, error := RunMainStep(step);
        events := events + stepEvents;
        if error.Some? {
          if error.value.CaughtByMainLoop() {
            break;
          }
          return events, Escaped(error.value);
        }
        i := i + 1;
      }
      result := Returned;
    }
  }
}
