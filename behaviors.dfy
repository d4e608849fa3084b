/**
 * The interceptors (`IMethodInterceptor`) are user code. Each is modelled as a
 * script of the context operations its hooks perform, so that the dispatcher
 * can be reasoned about for every interceptor at once.
 */
module Behaviors {
  import opened Wrappers
  import opened Reflection

  datatype ArgumentWrite = ArgumentWrite(position: int, newValue: Value)

  /**
   * What `BeforeInvoke` does with its context, in this order: an optional
   * `SetParameterValue`, an optional `OverrideMethodReturnValue`, an optional
   * `BypassInvocation`, then it returns or throws.
   */
  datatype BeforeScript = BeforeScript(
    rewrite: Option<ArgumentWrite>,
    returnOverride: Option<Value>,
    bypass: bool,
    throws: bool)

  /** An interceptor instance: its before script and whether `AfterInvoke` throws. */
  datatype Behavior = Behavior(before: BeforeScript, afterThrows: bool)

  /** An interceptor that only observes. */
  const Observer: Behavior := Behavior(BeforeScript(None, None, false, false), false)
}
