/**
 * TestStep.java: the step record (a name and three Context references) and
 * its four lifecycle hooks. What a concrete step does in a hook is given as a
 * script: the Context writes it makes and how the hook ends.
 */
module Steps {
  import opened Wrappers
  import opened Contexts
  import opened Inject
  import opened Failures

  datatype Phase = PreExecute | Execute | PostExecute | Verify

  /** How one hook call ends: normally, or by throwing. */
  datatype Outcome = Completed | Threw(error: Throwable)

  /** One `getXContext().set(key, value)` made inside a hook. */
  datatype Write = Write(scope: Scope, key: string, value: Value)

  /** The behaviour of one hook: its writes, in order, then its outcome. */
  datatype Hook = Hook(writes: seq<Write>, outcome: Outcome)

  /** The inherited `preExecute`, `postExecute` and `verify`: empty bodies. */
  const NoOp: Hook := Hook([], Completed)

  /** A concrete step class: its annotated fields and its four hooks. */
  datatype StepScript = StepScript(decls: seq<InjectDecl>, preExecute: Hook, execute: Hook, postExecute: Hook, verify: Hook)
  {
    function HookFor(p: Phase): Hook
    {
      match p
      case PreExecute => preExecute
      case Execute => execute
      case PostExecute => postExecute
      case Verify => verify
    }

    /**
     * `execute` is the only hook declared `throws StepFailureException`; the
     * others can only end by unchecked throwables.
     */
    predicate OnlyExecuteThrowsChecked()
    {
      forall p: Phase :: p != Execute && HookFor(p).outcome.Threw? ==>
        !HookFor(p).outcome.error.IsStepFailureException()
    }
  }

  /** A step class that overrides only `execute`. */
  function ExecuteOnly(decls: seq<InjectDecl>, execute: Hook): (s: StepScript)
    ensures s.decls == decls && s.HookFor(Execute) == execute
    ensures forall p: Phase :: p != Execute ==> s.HookFor(p) == NoOp
    ensures s.OnlyExecuteThrowsChecked()
  {
    StepScript(decls, NoOp, execute, NoOp, NoOp)
  }

  /** The contents of the three Contexts one step sees: global, scenario, and its own. */
  datatype Env = Env(global: Store, scenario: Store, local: Store)

  function ApplyWrite(env: Env, w: Write): Env
  {
    match w.scope
    case Global => env.(global := env.global[w.key := w.value])
    case Scenario => env.(scenario := env.scenario[w.key := w.value])
    case Step => env.(local := env.local[w.key := w.value])
  }

  /** The Contexts after a hook's writes, made in order. */
  function ApplyWrites(env: Env, ws: seq<Write>): Env
    decreases |ws|
  {
    if ws == [] then env else ApplyWrites(ApplyWrite(env, ws[0]), ws[1..])
  }

  /** The writes in `ws` aimed at `scope`, as `set` calls on that Context. */
  function CallsOn(ws: seq<Write>, scope: Scope): seq<Assignment>
    decreases |ws|
  {
    if ws == [] then []
    else (if ws[0].scope == scope then [Assignment(ws[0].key, ws[0].value)] else []) + CallsOn(ws[1..], scope)
  }

  /** The calls aimed at a scope by `a + b` are those of `a`, then those of `b`. */
  lemma {:induction false} CallsOnAppend(a: seq<Write>, b: seq<Write>, scope: Scope)
    ensures CallsOn(a + b, scope) == CallsOn(a, scope) + CallsOn(b, scope)
    decreases |a|
  {
    if a == [] {
      assert a + b == b;
    } else {
      assert (a + b)[0] == a[0] && (a + b)[1..] == a[1..] + b;
      CallsOnAppend(a[1..], b, scope);
    }
  }

  /**
   * Each write reaches the Context of its own scope and no other: the three
   * Contexts after a hook are each their old contents after the `set` calls
   * aimed at them.
   */
  lemma {:induction false} WritesReachTheirOwnScope(env: Env, ws: seq<Write>)
    ensures ApplyWrites(env, ws) ==
      Env(SetAll(env.global, CallsOn(ws, Global)),
          SetAll(env.scenario, CallsOn(ws, Scenario)),
          SetAll(env.local, CallsOn(ws, Step)))
    decreases |ws|
  {
    if ws != [] {
      var w, rest := ws[0], ws[1..];
      var a := Assignment(w.key, w.value);
      WritesReachTheirOwnScope(ApplyWrite(env, w), rest);
      assert ([a] + CallsOn(rest, w.scope))[1..] == CallsOn(rest, w.scope);
      match w.scope
      case Global =>
        assert CallsOn(ws, Scenario) == CallsOn(rest, Scenario) && CallsOn(ws, Step) == CallsOn(rest, Step);
      case Scenario =>
        assert CallsOn(ws, Global) == CallsOn(rest, Global) && CallsOn(ws, Step) == CallsOn(rest, Step);
      case Step =>
        assert CallsOn(ws, Global) == CallsOn(rest, Global) && CallsOn(ws, Scenario) == CallsOn(rest, Scenario);
    }
  }

  class TestStep {
    var name: Option<string>
    var stepContext: Context?
    var scenarioContext: Context?
    var globalContext: Context?
    /** The values of the step's `@Inject` fields; a field that is absent holds null. */
    var fields: map<string, Value>
    /** What the step's class declares and does. */
    const script: StepScript

    /** A fresh instance, as a step factory method returns it. */
    constructor (script: StepScript)
      ensures this.script == script && name == None && fields == map[]
      ensures globalContext == null && scenarioContext == null && stepContext == null
    {
      this.script := script;
      name := None;
      fields := map[];
      globalContext, scenarioContext, stepContext := null, null, null;
    }

    method SetName(name: string)
      modifies this`name
      ensures this.name == Some(name)
    {
      this.name := Some(name);
    }

    method GetName() returns (r: Option<string>)
      ensures r == name
    {
      r := name;
    }

    method GetGlobalContext() returns (c: Context?)
      ensures c == globalContext
    {
      c := globalContext;
    }

    method SetGlobalContext(c: Context?)
      modifies this`globalContext
      ensures globalContext == c
      ensures scenarioContext == old(scenarioContext) && stepContext == old(stepContext) && name == old(name)
    {
      globalContext := c;
    }

    method GetScenarioContext() returns (c: Context?)
      ensures c == scenarioContext
    {
      c := scenarioContext;
    }

    method SetScenarioContext(c: Context?)
      modifies this`scenarioContext
      ensures scenarioContext == c
      ensures globalContext == old(globalContext) && stepContext == old(stepContext) && name == old(name)
    {
      scenarioContext := c;
    }

    method GetStepContext() returns (c: Context?)
      ensures c == stepContext
    {
      c := stepContext;
    }

    method SetStepContext(c: Context?)
      modifies this`stepContext
      ensures stepContext == c
      ensures globalContext == old(globalContext) && scenarioContext == old(scenarioContext) && name == old(name)
    {
      stepContext := c;
    }

    /** The step is wired to three distinct Contexts. */
    ghost predicate Wired()
      reads this
    {
      && globalContext != null && scenarioContext != null && stepContext != null
      && globalContext != scenarioContext && globalContext != stepContext && scenarioContext != stepContext
    }

    /** What the step's three Contexts hold. */
    ghost function EnvOf(): Env
      reads this, globalContext, scenarioContext, stepContext
      requires Wired()
    {
      Env(globalContext.contextInformation, scenarioContext.contextInformation, stepContext.contextInformation)
    }

    /** Runs one hook body: its writes through the step's Context getters, then its outcome. */
    method Perform(h: Hook) returns (outcome: Outcome)
      requires Wired()
      modifies globalContext, scenarioContext, stepContext
      ensures EnvOf() == ApplyWrites(old(EnvOf()), h.writes)
      ensures outcome == h.outcome
    {
      var i := 0;
      while i < |h.writes|
        invariant 0 <= i <= |h.writes|
        invariant ApplyWrites(EnvOf(), h.writes[i..]) == ApplyWrites(old(EnvOf()), h.writes)
      {
        var w := h.writes[i];
        match w.scope {
          case Global => globalContext.Set(w.key, w.value);
          case Scenario => scenarioContext.Set(w.key, w.value);
          case Step => stepContext.Set(w.key, w.value);
        }
        assert h.writes[i..][1..] == h.writes[i + 1..];
        i := i + 1;
      }
      outcome := h.outcome;
    }

    method PreExecute() returns (outcome: Outcome)
      requires Wired()
      modifies globalContext, scenarioContext, stepContext
      ensures EnvOf() == ApplyWrites(old(EnvOf()), script.preExecute.writes)
      ensures outcome == script.preExecute.outcome
      ensures script.preExecute == NoOp ==> outcome == Completed && EnvOf() == old(EnvOf())
    {
      outcome := Perform(script.preExecute);
    }

    method Execute() returns (outcome: Outcome)
      requires Wired()
      modifies globalContext, scenarioContext, stepContext
      ensures EnvOf() == ApplyWrites(old(EnvOf()), script.execute.writes)
      ensures outcome == script.execute.outcome
    {
      outcome := Perform(script.execute);
    }

    method PostExecute() returns (outcome: Outcome)
      requires Wired()
      modifies globalContext, scenarioContext, stepContext
      ensures EnvOf() == ApplyWrites(old(EnvOf()), script.postExecute.writes)
      ensures outcome == script.postExecute.outcome
      ensures script.postExecute == NoOp ==> outcome == Completed && EnvOf() == old(EnvOf())
    {
      outcome := Perform(script.postExecute);
    }

    method Verify() returns (outcome: Outcome)
      requires Wired()
      modifies globalContext, scenarioContext, stepContext
      ensures EnvOf() == ApplyWrites(old(EnvOf()), script.verify.writes)
      ensures outcome == script.verify.outcome
      ensures script.verify == NoOp ==> outcome == Completed && EnvOf() == old(EnvOf())
    {
      outcome := Perform(script.verify);
    }
  }
}
