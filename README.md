# Unobtainium scenario runner, modelled in Dafny

Unobtainium is a JUnit runner for multi-step test scenarios. A scenario class declares
`@BeforeScenario` (setup) and `@Step` (main) factory methods, each returning a `TestStep`.
The runner does the following:

- sorts both lists by step name;
- indexes the main steps by name;
- creates every step and wires it to three Contexts: the global Context shared across
  scenarios, the scenario's own Context, and a fresh step Context;
- fills each step's `@Inject` fields from the Context of the declared scope;
- runs each setup step through `preExecute`, `execute` and `postExecute`;
- runs each main step through the same three hooks plus `verify`, stopping at the first
  failure.

The suite's start and end and every main step's outcome are reported to a JUnit `RunNotifier`; setup steps and step creation send no event of their own.

The project models the three core classes:

- `Context` is a string-keyed store with last-write-wins `set`.
- `TestStep` is the step record with its getters, setters and default hooks.
- `Unobtainium` is the runner itself.

Modules:

- `Contexts`: the `Context` class and what `get` answers after any sequence of `set` calls.
- `Inject` and `Failures`: the annotation, its scopes, and the throwables the runner tells apart.
- `Steps`: the `TestStep` class.
  - A concrete step class is a *script*: its annotated fields, plus, for each hook, the Context
    writes it makes and how it ends.
  - Each hook method is proved to apply exactly those writes.
- `Injection`: `injectConfigsInto` as a function over the contents of the Contexts, with its
  success, failure and non-atomicity properties.
- `Descriptors`: the sort and `toMap` pipelines of `createTestInstance`.
  - The sort is an ascending, stable permutation.
  - `toMap` succeeds exactly on distinct names.
- `Lifecycle`: the whole of `run` as a pure function, `RunSpec`. It maps the descriptors and the
  two shared stores to:
  - the notifier events;
  - how `run` ends;
  - the shared stores afterwards.

  It also holds the lemmas on event order, fail-fast and the suite bracket.
- `Runner`: the `Unobtainium` class.
  - Its fields are the Java fields.
  - Its methods (`CreateTestInstance`, `CreateStep`, `GetDescription`, `InjectConfigsInto`,
    `RunStep`, `RunBeforeScenarios`, `Run`, …) mutate the runner, the steps and the Contexts in
    place.
  - Each is proved equal to the corresponding specification function.
  - `Run` ends with events, result and final Context contents that are exactly `RunSpec` of its
    descriptors and the Contexts' initial contents.

The notifier is modelled as the list of `Event`s it receives. A Description is reduced to its
display name and children.

Where the code behaves in ways a reader might not expect, the model follows the code:

- **STEP-scoped injection.** `injectConfigsInto` calls `getStepContext().get(key)` for a STEP
  declaration but never stores the answer, so `configVal` stays null. A STEP-scoped injection
  therefore always fails with "not found", whatever the step Context holds
  (`Injection.StepScopedInjectionAlwaysFails`). In `run` a step's Context is freshly created
  and empty when injection happens, so reading it would not help either. This is why no
  corrected variant is modelled.
- **Injection is not atomic.** Fields are assigned one by one, so the declarations before the
  failing one are already assigned (`Injection.InjectStopsAtFirstFailure`).
- **Event order on a caught failure.** The step's `failure` event is sent before its
  `finished` event, because the catch block runs before the finally block.
- **Which throwables the main loop catches.** Only StepFailureException, AssertionError and
  AssumptionViolatedException are caught. Any other throwable escapes `run` after the step's
  `finished`, and `suite finished` is then not sent.
- **Setup failures.** A StepFailureException from a setup step is rethrown wrapped in an
  AssertionError. Other throwables escape as they are. In both cases `suite started` has already
  been sent and `suite finished` is not sent.
- **Duplicate names.** Only main step names must be distinct: `Collectors.toMap` throws
  IllegalStateException from the constructor. Setup step names may repeat.

## Model

| member | source | states |
|---|---|---|
| Injection.Resolve | src/main/java/org/unobtanium/Unobtainium.java:166-178 | definition: the value `configVal` holds after the scope switch, the global or scenario Context's entry for the key, and none for STEP |
| Injection.Accepts | src/main/java/org/unobtanium/Unobtainium.java:236-246 | definition: `Field.set` accepts a value of the field's declared type |
| Injection.BindingError | src/main/java/org/unobtanium/Unobtainium.java:183-187 | definition: the StepFailureException wrapping `Field.set`'s IllegalArgumentException |
| Lifecycle.SetupWrites | src/main/java/org/unobtanium/Unobtainium.java:151-160 | definition: the hooks' writes of setup steps that all pass, in list order |
| Injection.ErrorFor | src/main/java/org/unobtanium/Unobtainium.java:179-187 | definition: the missing-configuration StepFailureException for an absent value, the wrapped binding failure for an ill-typed one |
| Injection.InjectAll | src/main/java/org/unobtanium/Unobtainium.java:162-189 | definition: `injectConfigsInto`, the declarations in order, assigning each resolved value and stopping at the first failure |
| Descriptors.NameLe | src/main/java/org/unobtanium/Unobtainium.java:60 | definition: the `compareTo` order on step names the sort uses |
| Descriptors.IndexFrom | src/main/java/org/unobtanium/Unobtainium.java:63-64 | definition: the `toMap` fold, adding each name in turn and failing with a duplicate-key error on a name already present |
| Descriptors.NameIndex | src/main/java/org/unobtanium/Unobtainium.java:63-64 | definition: `toMap` from step name to step, starting from the empty map |
| Lifecycle.RunPhases | src/main/java/org/unobtanium/Unobtainium.java:145-149 | definition: hooks called in order until one throws; with the hooks' writes, the hooks that ran and the throwable |
| Lifecycle.Instantiate | src/main/java/org/unobtanium/Unobtainium.java:113-122 | definition: `createStep` for each descriptor in order, stopping at the first factory that throws |
| Lifecycle.AttemptStep | src/main/java/org/unobtanium/Unobtainium.java:131-134 | definition: one step from a fresh step Context: injection, then its hooks unless injection failed |
| Lifecycle.RunSetup | src/main/java/org/unobtanium/Unobtainium.java:151-160 | definition: `runBeforeScenarios`, each setup step in order, a StepFailureException wrapped in an AssertionError and any other throwable escaping as is |
| Lifecycle.RunMain | src/main/java/org/unobtanium/Unobtainium.java:129-141 | definition: the main loop, `started`, the attempt, `failure` for a caught throwable, `finished`; break on a caught failure, escape on any other |
| Lifecycle.RunInstances | src/main/java/org/unobtanium/Unobtainium.java:127-142 | definition: `suite started`, the setup steps, the main loop, and `suite finished` unless a throwable escaped |
| Lifecycle.RunSpec | src/main/java/org/unobtanium/Unobtainium.java:111-143 | definition: the whole of `run`; creation failures become an AssertionError before any event |
| Runner.ConstructionError | src/main/java/org/unobtanium/Unobtainium.java:49-64 | definition: what makes the runner's constructor throw, the scenario constructor's throwable or `toMap`'s duplicate-key error |
| Failures.Throwable.IsStepFailureException | src/main/java/org/unobtanium/Unobtainium.java:156-158 | definition: the throwables that are StepFailureExceptions, the class `runBeforeScenarios` catches and wraps |
| Failures.Throwable.IsAssertionError | src/main/java/org/unobtanium/Unobtainium.java:135 | definition: the throwables that are AssertionErrors, one of the classes the main loop catches |
| Failures.Throwable.CaughtByMainLoop | src/main/java/org/unobtanium/Unobtainium.java:135 | definition: the multi-catch of the main loop, StepFailureException, AssertionError or AssumptionViolatedException |
| Failures.Throwable.Message | src/main/java/org/unobtanium/Unobtainium.java:180-181 | definition: `getMessage()`, the composed missing-configuration message for MissingConfiguration |
| Inject.ScopeName | src/main/java/org/unobtanium/Inject.java:15-19 | definition: the enum constant's name, as string concatenation of the scope prints it |
| Lifecycle.PassEvents | src/main/java/org/unobtanium/Unobtainium.java:130-140 | definition: one pass's events, `started`, then `failure` for a caught throwable, then `finished` |
| Contexts.Lookup | src/main/java/org/unobtanium/Context.java:9-11 | `get` answers a value exactly when the key is present, and then the stored value |
| Contexts.Context.constructor | src/main/java/org/unobtanium/Context.java:6 | a new Context is empty |
| Contexts.Context.Get | src/main/java/org/unobtanium/Context.java:8-11 | answers present iff the key was stored, with the stored value; never fails |
| Contexts.Context.Set | src/main/java/org/unobtanium/Context.java:13-15 | upsert: the key now holds the value, every other key is unchanged, no key disappears |
| Contexts.GetAfterSets | src/main/java/org/unobtanium/Context.java:8-15 | last write wins: after any sequence of `set` calls, `get(k)` answers the last value set under `k`, else the old value |
| Contexts.KeysOnlyGrow | src/main/java/org/unobtanium/Context.java:13-15 | there is no removal: the keys afterwards are the old keys plus exactly the keys set |
| Inject.Annotate | src/main/java/org/unobtanium/Inject.java:12-13 | an annotation without an explicit scope reads the SCENARIO Context |
| Failures.MissingConfigurationMessage | src/main/java/org/unobtanium/Unobtainium.java:180-181 | the missing-configuration message contains the key at its fixed offset and ends with the scope's name |
| Steps.ExecuteOnly | src/main/java/org/unobtanium/TestStep.java:41-53 | a step overriding only `execute` inherits no-op `preExecute`, `postExecute` and `verify`, so only `execute` can throw StepFailureException |
| Steps.WritesReachTheirOwnScope | src/main/java/org/unobtanium/TestStep.java:17-39 | a hook's `set` calls through the three Context getters reach their own Context and no other: each Context ends as its old contents after the calls aimed at it |
| Steps.TestStep.constructor | src/main/java/org/unobtanium/TestStep.java:3-7 | a new step has no name, no Contexts and no injected fields |
| Steps.TestStep.SetName | src/main/java/org/unobtanium/TestStep.java:9-11 | the name becomes the given one |
| Steps.TestStep.GetName | src/main/java/org/unobtanium/TestStep.java:13-15 | answers the current name |
| Steps.TestStep.GetGlobalContext | src/main/java/org/unobtanium/TestStep.java:17-19 | answers the global Context reference |
| Steps.TestStep.SetGlobalContext | src/main/java/org/unobtanium/TestStep.java:21-23 | sets the global reference, leaves the other references and the name |
| Steps.TestStep.GetScenarioContext | src/main/java/org/unobtanium/TestStep.java:25-27 | answers the scenario Context reference |
| Steps.TestStep.SetScenarioContext | src/main/java/org/unobtanium/TestStep.java:29-31 | sets the scenario reference, leaves the other references and the name |
| Steps.TestStep.GetStepContext | src/main/java/org/unobtanium/TestStep.java:33-35 | answers the step Context reference |
| Steps.TestStep.SetStepContext | src/main/java/org/unobtanium/TestStep.java:37-39 | sets the step reference, leaves the other references and the name |
| Steps.TestStep.Perform | src/main/java/org/unobtanium/TestStep.java:41-53 | running a hook body leaves the three Contexts as its writes applied in order, and ends as the hook ends |
| Steps.TestStep.PreExecute | src/main/java/org/unobtanium/TestStep.java:43-45 | applies the hook's writes and ends as it does; the inherited no-op completes and changes nothing |
| Steps.TestStep.Execute | src/main/java/org/unobtanium/TestStep.java:41 | applies the step's `execute` writes and ends as it does |
| Steps.TestStep.PostExecute | src/main/java/org/unobtanium/TestStep.java:47-49 | as `PreExecute`, for `postExecute` |
| Steps.TestStep.Verify | src/main/java/org/unobtanium/TestStep.java:51-53 | as `PreExecute`, for `verify` |
| Injection.InjectSucceedsIff | src/main/java/org/unobtanium/Unobtainium.java:164-188 | injection succeeds exactly when every declaration finds a value its field accepts |
| Injection.InjectStopsAtFirstFailure | src/main/java/org/unobtanium/Unobtainium.java:179-187 | a failing injection stops at the first unresolvable declaration; the error names its key and scope (or wraps the binding failure), and every earlier field is already assigned |
| Injection.InjectedFieldsHoldResolvedValues | src/main/java/org/unobtanium/Unobtainium.java:164-188 | after a successful injection each declared field holds the value under its key in its scope's Context; undeclared fields are untouched |
| Injection.StepScopedInjectionAlwaysFails | src/main/java/org/unobtanium/Unobtainium.java:173-175 | a STEP-scoped declaration makes injection fail whatever the Contexts hold |
| Injection.InjectIgnoresStepContext | src/main/java/org/unobtanium/Unobtainium.java:173-175 | the step Context, whose read is dropped, changes neither the injected fields nor the error |
| Injection.InjectOutcomeIgnoresStepState | src/main/java/org/unobtanium/Unobtainium.java:166-178 | whether and how injection fails depends neither on the step Context nor on the fields' earlier values |
| Injection.ResolveReadsItsOwnScope | src/main/java/org/unobtanium/Unobtainium.java:166-172 | GLOBAL declarations read only the global Context, SCENARIO ones only the scenario Context |
| Descriptors.SortByName | src/main/java/org/unobtanium/Unobtainium.java:57-61 | the sorted descriptors are ascending by name and a permutation of the declared ones |
| Descriptors.SortIsStable | src/main/java/org/unobtanium/Unobtainium.java:60 | the sort is stable: descriptors sharing a name keep the order `getAnnotatedMethods` returns them in |
| Descriptors.SortKeepsDistinctness | src/main/java/org/unobtanium/Unobtainium.java:57-64 | the sorted list repeats a name iff the declared list does |
| Descriptors.IndexFromSucceedsIff | src/main/java/org/unobtanium/Unobtainium.java:63-64 | folding names into a map succeeds iff they are distinct and new to the map |
| Descriptors.IndexFromContents | src/main/java/org/unobtanium/Unobtainium.java:63-64 | a successful fold keeps the old entries and maps each name to its descriptor |
| Descriptors.IndexFromFailure | src/main/java/org/unobtanium/Unobtainium.java:63-64 | a failed fold names a descriptor whose name was already present |
| Descriptors.NameIndexCorrect | src/main/java/org/unobtanium/Unobtainium.java:63-64 | `toMap` succeeds iff the main names are distinct, then maps each name to its descriptor with exactly those keys; otherwise it throws a duplicate-key error naming a repeated name |
| Lifecycle.PhasesRunInOrder | src/main/java/org/unobtanium/Unobtainium.java:145-149 | hooks run in order and stop at the first that throws: the hooks run form a prefix, all of them when none throws, every earlier one completed, and the last one's throwable is the result |
| Lifecycle.StepFailureComesFromExecute | src/main/java/org/unobtanium/TestStep.java:41-53 | when only `execute` declares StepFailureException, a lifecycle ending with one ended in `execute` |
| Lifecycle.PhasesIgnoreStepContext | src/main/java/org/unobtanium/Unobtainium.java:86 | a consequence of modelling hooks as scripts with fixed writes and outcomes: the step's own Context, created fresh for each step, then never changes which hooks run, how they end, or what they leave in the shared Contexts |
| Lifecycle.RunPhasesAppend | src/main/java/org/unobtanium/Unobtainium.java:133-134 | running `a` then, if nothing threw, `b` is the same as running `a + b` |
| Lifecycle.InstancesFollowDescriptors | src/main/java/org/unobtanium/Unobtainium.java:113-122 | when creation succeeds, there is one step per descriptor, with its name and the script its factory produced, in order |
| Lifecycle.InjectionPrecedesHooks | src/main/java/org/unobtanium/Unobtainium.java:131-133 | a step whose injection fails runs no hook and changes no shared Context; otherwise it runs its hooks in order |
| Lifecycle.CompletedPhasesApplyTheirWrites | src/main/java/org/unobtanium/Unobtainium.java:145-149 | when no hook throws, the Contexts end as all the hooks' writes applied in order |
| Lifecycle.LaterStepSeesEarlierWrites | src/main/java/org/unobtanium/Unobtainium.java:129-141 | the shared Contexts carry values between main steps: after a passing step, the next step runs from the Contexts it left, and a GLOBAL or SCENARIO declaration of the next step resolves to the passing step's last `set` of that key in that scope |
| Lifecycle.MainTrace | src/main/java/org/unobtanium/Unobtainium.java:129-141 | the main loop's trace: `started`/`finished` for each passing step; at a caught failure, `started`, `failure`, `finished` and nothing after; at any other throwable, `started`, `finished` and nothing after |
| Lifecycle.InstantiationFailureIsSilent | src/main/java/org/unobtanium/Unobtainium.java:113-125 | if any factory throws, `run` throws an AssertionError before any event and the shared Contexts are untouched |
| Lifecycle.SetupAppliesWritesInOrder | src/main/java/org/unobtanium/Unobtainium.java:151-160 | a setup phase in which no step fails runs every setup step in list order (the sorted order construction leaves): each shared Context ends as its old contents after all the setup steps' `set` calls aimed at it, step after step and hook after hook |
| Lifecycle.SetupStopsAtFirstFailure | src/main/java/org/unobtanium/Unobtainium.java:151-160 | a failing setup phase stops at a step `k`: every earlier setup step passed, `k` failed from the Contexts they left, no later step runs, and `k`'s throwable escapes wrapped in an AssertionError exactly when it is a StepFailureException |
| Lifecycle.SetupFailureStopsScenario | src/main/java/org/unobtanium/Unobtainium.java:151-160 | if a setup step fails, only `suite started` is sent, no main step starts, and `run` throws |
| Lifecycle.MainHasOnlyStepEvents | src/main/java/org/unobtanium/Unobtainium.java:129-141 | the main loop sends only step events |
| Lifecycle.SuiteEventsBracketTheRun | src/main/java/org/unobtanium/Unobtainium.java:127-142 | events are sent iff every step was created; then exactly one `suite started`, first; `suite finished` is sent iff `run` returns normally, once, last |
| Lifecycle.MainStartsPrefix | src/main/java/org/unobtanium/Unobtainium.java:129-141 | the main loop starts exactly the attempted steps, a prefix, in order |
| Lifecycle.MainStepsStartInDescriptorOrder | src/main/java/org/unobtanium/Unobtainium.java:119-141 | the names in a run's `started` events are a prefix of the main descriptors' names |
| Lifecycle.MainStepsStartInNameOrder | src/main/java/org/unobtanium/Unobtainium.java:57-61 | with the main descriptors sorted as construction leaves them, steps start in ascending name order |
| Lifecycle.SkippedStepsSendNothing | src/main/java/org/unobtanium/Unobtainium.java:129-141 | fail-fast: every event names an attempted step, and no step after the failing one appears in any event |
| Runner.ConstructionFailsOnDuplicateMainNames | src/main/java/org/unobtanium/Unobtainium.java:57-64 | construction fails exactly when the scenario constructor throws or two main steps share a name (duplicate-key error); setup names may repeat |
| Runner.Children | src/main/java/org/unobtanium/Unobtainium.java:104-107 | one child description per main step, in order |
| Runner.MainLoopAdvance | src/main/java/org/unobtanium/Unobtainium.java:129-141 | one pass of the main loop keeps the events sent so far plus the rest of the loop equal to the whole loop's trace |
| Runner.MainAttemptInPieces | src/main/java/org/unobtanium/Unobtainium.java:131-134 | injection, `runStep`, then `verify` equals one attempt through all four hooks |
| Runner.Unobtainium.Init | src/main/java/org/unobtanium/Unobtainium.java:37-41 | empty step lists, a fresh empty scenario Context, no global Context yet |
| Runner.Unobtainium.Create | src/main/java/org/unobtanium/Unobtainium.java:37-43 | either a constructed runner (sorted lists, name index, cached descriptions, no steps yet) or exactly the construction error |
| Runner.Unobtainium.CreateTestInstance | src/main/java/org/unobtanium/Unobtainium.java:49-73 | fails with the constructor's throwable or the duplicate-key error; otherwise both lists are sorted, the index is built and every main name has a description |
| Runner.Unobtainium.SetGlobalContext | src/main/java/org/unobtanium/Unobtainium.java:45-47 | the runner now uses the given global Context |
| Runner.Unobtainium.CreateStep | src/main/java/org/unobtanium/Unobtainium.java:75-88 | a throwing factory is rethrown; otherwise a fresh step named after its descriptor, wired to the runner's Contexts and a fresh empty step Context |
| Runner.Unobtainium.CreateStepDescriptions | src/main/java/org/unobtanium/Unobtainium.java:90-94 | afterwards every main name has a description; existing entries are kept |
| Runner.Unobtainium.CreateStepDescription | src/main/java/org/unobtanium/Unobtainium.java:199-207 | `putIfAbsent`: adds a description only for a name not yet cached |
| Runner.Unobtainium.GetDescription | src/main/java/org/unobtanium/Unobtainium.java:96-109 | built once, with one child per main step in sorted order; later calls answer the cached one |
| Runner.Unobtainium.InjectConfigsInto | src/main/java/org/unobtanium/Unobtainium.java:162-189 | the step's fields and the error are exactly those of `InjectAll` over its Contexts |
| Runner.Unobtainium.RunStep | src/main/java/org/unobtanium/Unobtainium.java:145-149 | the shared Contexts and the error are those of running `preExecute`, `execute`, `postExecute` in order |
| Runner.Unobtainium.AttemptSetupStep | src/main/java/org/unobtanium/Unobtainium.java:153-155 | injection then `runStep`: the error and shared Contexts of `AttemptStep` over the setup hooks; the step's fields are its old fields with the injected values assigned, exactly `AttemptStep`'s for a fresh step |
| Runner.Unobtainium.AttemptMainStep | src/main/java/org/unobtanium/Unobtainium.java:131-134 | injection, `runStep` and `verify`: the error and shared Contexts of `AttemptStep` over all four hooks; the step's fields are its old fields with the injected values assigned, exactly `AttemptStep`'s for a fresh step |
| Runner.Unobtainium.RunBeforeScenarios | src/main/java/org/unobtanium/Unobtainium.java:151-160 | the error and the shared Contexts are exactly `RunSetup` of the setup steps |
| Runner.Unobtainium.CreateSteps | src/main/java/org/unobtanium/Unobtainium.java:113-122 | fails iff some factory throws, with that throwable; otherwise fresh, wired steps created from the descriptors in order |
| Runner.Unobtainium.CreateSetupSteps | src/main/java/org/unobtanium/Unobtainium.java:114-117 | the setup loop: fails iff a setup factory throws; otherwise the setup steps exist, wired, in order |
| Runner.Unobtainium.CreateMainSteps | src/main/java/org/unobtanium/Unobtainium.java:119-122 | the main loop: fails iff a main factory throws; otherwise the main steps exist, named, wired, in order |
| Runner.Unobtainium.CreateScenarioSteps | src/main/java/org/unobtanium/Unobtainium.java:113-125 | a factory's throwable becomes an AssertionError; otherwise every step exists and is ready to run |
| Runner.Unobtainium.Run | src/main/java/org/unobtanium/Unobtainium.java:111-143 | the events sent, how `run` ends and the shared Contexts afterwards are exactly `RunSpec` of the descriptors and the Contexts' initial contents |
| Runner.Unobtainium.RunCreated | src/main/java/org/unobtanium/Unobtainium.java:127-142 | once the steps exist, the run equals `RunInstances` of their instances |
| Runner.Unobtainium.RunMainStep | src/main/java/org/unobtanium/Unobtainium.java:129-140 | one pass: the step's attempt, and `started`, [`failure`], `finished` as the catch decides |
| Runner.Unobtainium.RunMainSteps | src/main/java/org/unobtanium/Unobtainium.java:129-141 | the events, the result and the shared Contexts are exactly `RunMain` of the main steps |

## Left out

- The JUnit notifier, `Description` and `Failure` objects are modelled as `Event` values carrying the step name (and the throwable for a failure). Description display formatting, the Java class argument and the annotations argument are not modelled.
- Steps.StepScript: a hook is modelled as a fixed script, its writes and its outcome given in advance. A hook cannot read a Context or its injected fields and branch on them, as a real hook can (a `verify` that fails unless an injected value is right). So `PhasesIgnoreStepContext`, `StepFailureComesFromExecute` and every trace lemma hold of hooks whose behaviour does not depend on what they read; the runner's own code (injection, event order, fail-fast, the suite bracket) is modelled in full.
- Contexts.Value, Inject.FieldType: a Context holds any Java `Object`, but the model's values are only integers and strings, and field types only Integer, String and Object. Only `Injection.Accepts` looks at a value's kind, so a richer value domain would change only which values a field accepts.
- Reflection is modelled as data.
  - A scenario class is a `TestClass`: its constructor's outcome, then its annotated methods in the order `getAnnotatedMethods` returns them.
  - A factory method either produces a step script or throws.
  - `getConfigFields` is the script's list of declarations, in the order `getFieldsListWithAnnotation` returns them.
  - `Field.set` is a map update guarded by a type check (`Accepts`). The exact JDK message of its IllegalArgumentException is not modelled.
- `ReflectiveCallable`'s unwrapping of InvocationTargetException is assumed: a factory's throwable reaches `run` as itself. A factory returning a non-`TestStep` (ClassCastException) is not modelled.
- Concurrency is not modelled. ConcurrentHashMap and ConcurrentMap are plain maps. Scenarios running at the same time on a shared global Context are not modelled.
- `Context.set(key, null)` (which ConcurrentHashMap rejects by throwing) cannot be expressed: stored values are never null. Likewise the `default` branch of the scope switch (a null scope) cannot be expressed, because `Scope` has exactly three values.
- Runner.Unobtainium.Run: requires a runner that is run once (no steps created yet) and whose global Context was set to a Context distinct from the scenario Context. A runner run twice is not modelled.
- Runner.Unobtainium.Run, Runner.Unobtainium.RunCreated, Runner.Unobtainium.CreateSteps, Runner.Unobtainium.CreateSetupSteps, Runner.Unobtainium.CreateMainSteps, Runner.Unobtainium.CreateScenarioSteps, Runner.Unobtainium.RunBeforeScenarios, Runner.Unobtainium.RunMainSteps, Runner.Unobtainium.InjectConfigsInto, Runner.Unobtainium.RunStep, Runner.Unobtainium.AttemptSetupStep, Runner.Unobtainium.AttemptMainStep, Runner.Unobtainium.RunMainStep, Steps.TestStep.Perform, Steps.TestStep.PreExecute, Steps.TestStep.Execute, Steps.TestStep.PostExecute, Steps.TestStep.Verify: a runner used without `setGlobalContext` is not modelled. Each requires a set global Context: the runner-level members directly (`RunCreated` through `ReadyToRun`), the step-level ones through `step.Wired()`.
  - Only `UnobtainiumSuite` calls `setGlobalContext`; a scenario class run directly with `@RunWith(Unobtainium.class)` keeps a null global Context.
  - A GLOBAL declaration then throws a NullPointerException at `globalContext.get` (Unobtainium.java:168), and so does a hook's `getGlobalContext().set`.
  - In a setup step that throwable escapes `run` as is. In a main step the loop does not catch it: `finished` is sent, the throwable escapes, and `suite finished` is not sent.
  - It is left out because the Contexts are modelled as stores that always exist. A missing global Context would need an optional store and a throwing path in every GLOBAL read and write.
- Runner.Unobtainium.CreateScenarioSteps: when a factory throws part-way, the runner's step lists are left unchanged rather than holding the steps created before the throw. `run` then throws and never reads them.
- Descriptors.NameLe, Descriptors.SortByName: names are compared character by character (Dafny `char`), whereas `String.compareTo` compares UTF-16 code units. The two orders differ only for characters outside the Basic Multilingual Plane.
- `UnobtainiumSuite` (a JUnit `Suite` that shares one global Context across scenario runners) is not part of this model, and neither is the example client with its tests. Only the `setGlobalContext` call it makes is modelled.
