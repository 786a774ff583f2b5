/**
 * The throwables the runner distinguishes: StepFailureException (checked,
 * StepFailureException.java), AssertionError, JUnit's
 * AssumptionViolatedException, and everything else.
 */
module Failures {
  import opened Wrappers
  import opened Inject

  datatype Throwable =
    /** StepFailureException("Configuration with key: ... not found in scope: ...") */
    | MissingConfiguration(key: string, scope: Scope)
    /** A StepFailureException a step raises itself, with its message. */
    | StepFailure(message: string)
    /** StepFailureException(cause) around a failed field assignment. */
    | BindingFailure(cause: Throwable)
    /** An AssertionError a step raises (e.g. Assert.fail). */
    | AssertionFailure(message: string)
    /** AssertionError(cause) the runner raises around another throwable. */
    | WrappedAssertion(cause: Throwable)
    | AssumptionViolation(message: string)
    /** IllegalArgumentException from Field.set when the value does not fit the field. */
    | IllegalArgument(message: string)
    /** IllegalStateException from Collectors.toMap on a repeated key. */
    | DuplicateKey(key: string)
    /** Any other unchecked throwable. */
    | OtherThrowable(message: string)
  {
    predicate IsStepFailureException()
    {
      MissingConfiguration? || StepFailure? || BindingFailure?
    }

    predicate IsAssertionError()
    {
      AssertionFailure? || WrappedAssertion?
    }

    /** The multi-catch of the main loop: StepFailureException | AssertionError | AssumptionViolatedException. */
    predicate CaughtByMainLoop()
    {
      IsStepFailureException() || IsAssertionError() || AssumptionViolation?
    }

    /**
     * `getMessage()` of the throwables whose message is a composed string; a
     * wrapper's message is its cause's `toString()` and `toMap`'s message
     * names both merged values, neither of which is modelled.
     */
    function Message(): Option<string>
    {
      match this
      case MissingConfiguration(key, scope) => Some(MissingConfigurationMessage(key, scope))
      case StepFailure(message) => Some(message)
      case AssertionFailure(message) => Some(message)
      case AssumptionViolation(message) => Some(message)
      case IllegalArgument(message) => Some(message)
      case OtherThrowable(message) => Some(message)
      case BindingFailure(_) => None
      case WrappedAssertion(_) => None
      case DuplicateKey(_) => None
    }
  }

  /** The message of the missing-configuration failure, naming the key and the scope. */
  function MissingConfigurationMessage(key: string, scope: Scope): (m: string)
    ensures |m| >= 24 + |key| && m[24..24 + |key|] == key
    ensures m[|m| - |ScopeName(scope)|..] == ScopeName(scope)
  {
    "Configuration with key: " + key + " not found in scope: " + ScopeName(scope)
  }
}
