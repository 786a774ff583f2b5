/**
 * Injection resolution, `injectConfigsInto` (Unobtainium.java:162-189): each
 * declaration in turn is looked up in the Context of its scope; an absent
 * value stops with a missing-configuration StepFailureException, a value the
 * field cannot hold with a wrapped binding failure, and otherwise the field is
 * assigned.
 */
module Injection {
  import opened Wrappers
  import opened Contexts
  import opened Inject
  import opened Failures
  import opened Steps

  /**
   * The value `configVal` holds after the scope switch. As written, the STEP
   * branch calls `getStepContext().get(key)` and drops the answer, so
   * `configVal` stays null whatever the step Context holds.
   */
  function Resolve(env: Env, d: InjectDecl): Option<Value>
  {
    match d.scope
    case Global => Lookup(env.global, d.key)
    case Scenario => Lookup(env.scenario, d.key)
    case Step => None
  }

  /** `Field.set` accepts a value of the field's type (or any value for an Object field). */
  predicate Accepts(t: FieldType, v: Value)
  {
    match t
    case IntegerField => v.IntegerValue?
    case StringField => v.StringValue?
    case ObjectField => true
  }

  /** Injection of this declaration succeeds. */
  predicate Resolvable(env: Env, d: InjectDecl)
  {
    Resolve(env, d).Some? && Accepts(d.fieldType, Resolve(env, d).value)
  }

  /** StepFailureException(ex) around `Field.set`'s IllegalArgumentException for a value the field cannot hold. */
  function BindingError(d: InjectDecl): Throwable
  {
    BindingFailure(IllegalArgument("Can not set field " + d.field))
  }

  /** The exception injection of an unresolvable declaration raises. */
  function ErrorFor(env: Env, d: InjectDecl): Throwable
  {
    if Resolve(env, d).None? then MissingConfiguration(d.key, d.scope) else BindingError(d)
  }

  /** The step's fields after injection, and the exception that stopped it, if any. */
  datatype Injected = Injected(fields: map<string, Value>, error: Option<Throwable>)

  function InjectAll(env: Env, decls: seq<InjectDecl>, fields: map<string, Value>): Injected
    decreases |decls|
  {
    if decls == [] then Injected(fields, None)
    else
      var d := decls[0];
      match Resolve(env, d)
      case None => Injected(fields, Some(ErrorFor(env, d)))
      case Some(v) =>
        if Accepts(d.fieldType, v) then InjectAll(env, decls[1..], fields[d.field := v])
        else Injected(fields, Some(ErrorFor(env, d)))
  }

  /** The fields after assigning every declaration of `decls`, all resolvable, in order. */
  function AssignAll(env: Env, decls: seq<InjectDecl>, fields: map<string, Value>): map<string, Value>
    requires forall i :: 0 <= i < |decls| ==> Resolvable(env, decls[i])
    decreases |decls|
  {
    if decls == [] then fields
    else
      assert Resolvable(env, decls[0]);
      assert forall i :: 0 <= i < |decls[1..]| ==> decls[1..][i] == decls[i + 1];
      AssignAll(env, decls[1..], fields[decls[0].field := Resolve(env, decls[0]).value])
  }

  /** Injection succeeds exactly when every declaration is resolvable. */
  lemma {:induction false} InjectSucceedsIff(env: Env, decls: seq<InjectDecl>, fields: map<string, Value>)
    ensures InjectAll(env, decls, fields).error.None? <==> forall i :: 0 <= i < |decls| ==> Resolvable(env, decls[i])
    decreases |decls|
  {
    if decls != [] {
      var d := decls[0];
      if Resolvable(env, d) {
        InjectSucceedsIff(env, decls[1..], fields[d.field := Resolve(env, d).value]);
        assert forall i :: 1 <= i < |decls| ==> decls[i] == decls[1..][i - 1];
      }
    }
  }

  /**
   * Injection stopped at declaration `k`: every declaration before it was
   * resolvable and assigned, and `k` itself was not, with the exception
   * naming its key and scope (or its binding failure).
   */
  ghost predicate StopsAt(env: Env, decls: seq<InjectDecl>, fields: map<string, Value>, k: int)
  {
    && 0 <= k < |decls|
    && (forall i :: 0 <= i < k ==> Resolvable(env, decls[i]))
    && !Resolvable(env, decls[k])
    && InjectAll(env, decls, fields).error == Some(ErrorFor(env, decls[k]))
    && InjectAll(env, decls, fields).fields == AssignAll(env, decls[..k], fields)
  }

  /**
   * A failing injection fails at the first unresolvable declaration, and the
   * declarations before it have all been assigned: injection is not atomic.
   */
  lemma {:induction false} InjectStopsAtFirstFailure(env: Env, decls: seq<InjectDecl>, fields: map<string, Value>)
    requires InjectAll(env, decls, fields).error.Some?
    ensures exists k :: StopsAt(env, decls, fields, k)
    decreases |decls|
  {
    var d := decls[0];
    if Resolvable(env, d) {
      var f' := fields[d.field := Resolve(env, d).value];
      InjectStopsAtFirstFailure(env, decls[1..], f');
      var k :| StopsAt(env, decls[1..], f', k);
      assert forall i :: 0 <= i < k + 1 ==> Resolvable(env, decls[i]) by {
        forall i | 0 <= i < k + 1 ensures Resolvable(env, decls[i]) {
          if i > 0 { assert decls[i] == decls[1..][i - 1]; }
        }
      }
      assert decls[..k + 1][0] == d && decls[..k + 1][1..] == decls[1..][..k];
      assert AssignAll(env, decls[..k + 1], fields) == AssignAll(env, decls[1..][..k], f');
      assert decls[k + 1] == decls[1..][k];
      assert StopsAt(env, decls, fields, k + 1);
    } else {
      assert decls[..0] == [];
      assert StopsAt(env, decls, fields, 0);
    }
  }

  /**
   * After a successful injection each declared field holds the value found
   * under its key in its scope's Context, and every other field is untouched.
   */
  lemma {:induction false} InjectedFieldsHoldResolvedValues(env: Env, decls: seq<InjectDecl>, fields: map<string, Value>)
    requires DistinctFields(decls)
    requires InjectAll(env, decls, fields).error.None?
    ensures forall i :: 0 <= i < |decls| ==>
      Resolve(env, decls[i]).Some? && Lookup(InjectAll(env, decls, fields).fields, decls[i].field) == Resolve(env, decls[i])
    ensures forall f :: (forall i :: 0 <= i < |decls| ==> decls[i].field != f) ==>
      Lookup(InjectAll(env, decls, fields).fields, f) == Lookup(fields, f)
    decreases |decls|
  {
    if decls != [] {
      var d := decls[0];
      var f' := fields[d.field := Resolve(env, d).value];
      InjectedFieldsHoldResolvedValues(env, decls[1..], f');
      var r := InjectAll(env, decls, fields).fields;
      assert r == InjectAll(env, decls[1..], f').fields;
      forall i | 0 <= i < |decls|
        ensures Resolve(env, decls[i]).Some? && Lookup(r, decls[i].field) == Resolve(env, decls[i])
      {
        if i == 0 {
          assert forall j :: 0 <= j < |decls[1..]| ==> decls[1..][j].field != d.field;
        } else {
          assert decls[i] == decls[1..][i - 1];
        }
      }
      forall f | forall i :: 0 <= i < |decls| ==> decls[i].field != f
        ensures Lookup(r, f) == Lookup(fields, f)
      {
        assert forall j :: 0 <= j < |decls[1..]| ==> decls[1..][j].field != f;
      }
    }
  }

  /**
   * As written, a STEP-scoped declaration always fails with "not found":
   * whatever the step Context holds, injection of any list of declarations
   * that contains one raises an exception.
   */
  lemma StepScopedInjectionAlwaysFails(env: Env, decls: seq<InjectDecl>, fields: map<string, Value>, k: nat)
    requires k < |decls| && decls[k].scope == Step
    ensures InjectAll(env, decls, fields).error.Some?
  {
    InjectSucceedsIff(env, decls, fields);
    assert !Resolvable(env, decls[k]);
  }

  /**
   * Whether injection fails, and how, depends neither on the step's own
   * Context nor on what its fields held before.
   */
  lemma {:induction false} InjectOutcomeIgnoresStepState(env: Env, local: Store, decls: seq<InjectDecl>,
                                                         before: map<string, Value>, other: map<string, Value>)
    ensures InjectAll(env.(local := local), decls, before).error == InjectAll(env, decls, other).error
    decreases |decls|
  {
    if decls != [] {
      var d := decls[0];
      assert Resolve(env.(local := local), d) == Resolve(env, d);
      if Resolve(env, d).Some? {
        var v := Resolve(env, d).value;
        InjectOutcomeIgnoresStepState(env, local, decls[1..], before[d.field := v], other[d.field := v]);
      }
    }
  }

  /** The step's own Context plays no part in injection: fields and error alike. */
  lemma {:induction false} InjectIgnoresStepContext(env: Env, local: Store, decls: seq<InjectDecl>, fields: map<string, Value>)
    ensures InjectAll(env.(local := local), decls, fields) == InjectAll(env, decls, fields)
    decreases |decls|
  {
    if decls != [] {
      var d := decls[0];
      assert Resolve(env.(local := local), d) == Resolve(env, d);
      if Resolve(env, d).Some? {
        InjectIgnoresStepContext(env, local, decls[1..], fields[d.field := Resolve(env, d).value]);
      }
    }
  }

  /** GLOBAL declarations read only the global Context, SCENARIO ones only the scenario Context. */
  lemma ResolveReadsItsOwnScope(env: Env, other: Env, d: InjectDecl)
    requires d.scope == Global ==> other.global == env.global
    requires d.scope == Scenario ==> other.scenario == env.scenario
    ensures Resolve(other, d) == Resolve(env, d)
    ensures d.scope == Global ==> Resolve(env, d) == Lookup(env.global, d.key)
    ensures d.scope == Scenario ==> Resolve(env, d) == Lookup(env.scenario, d.key)
  {
  }
}
