/**
 * Inject.java: the annotation a step puts on a field to have it filled from
 * one of the three Contexts before its lifecycle starts.
 */
module Inject {
  import opened Wrappers

  /** `Inject.Scope`: which Context a declaration reads. */
  datatype Scope = Global | Scenario | Step

  /** `scope()` defaults to SCENARIO when the annotation leaves it out. */
  const DefaultScope: Scope := Scenario

  /** `Scope.name()`, as it appears in error messages. */
  function ScopeName(scope: Scope): string
  {
    match scope
    case Global => "GLOBAL"
    case Scenario => "SCENARIO"
    case Step => "STEP"
  }

  /** The declared Java type of an annotated field. */
  datatype FieldType = IntegerField | StringField | ObjectField

  /** One annotated field: its name and type, the annotation's `key()` and `scope()`. */
  datatype InjectDecl = InjectDecl(field: string, fieldType: FieldType, key: string, scope: Scope)

  /** An `@Inject(key = ...)` annotation, with or without an explicit scope. */
  function Annotate(field: string, fieldType: FieldType, key: string, scope: Option<Scope>): (d: InjectDecl)
    ensures d.field == field && d.fieldType == fieldType && d.key == key
    ensures scope.None? ==> d.scope == Scenario
    ensures scope.Some? ==> d.scope == scope.value
  {
    InjectDecl(field, fieldType, key, if scope.Some? then scope.value else DefaultScope)
  }

  /** Distinct annotated fields of one step class. */
  ghost predicate DistinctFields(decls: seq<InjectDecl>)
  {
    forall i, j :: 0 <= i < j < |decls| ==> decls[i].field != decls[j].field
  }
}
