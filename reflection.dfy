/**
 * The runtime notions the interception pipeline compares and passes around:
 * argument and return values, CLR types, attribute instances, interceptor
 * types and the exceptions that escape a call.
 */
module Reflection {

  /** A runtime object reference; `Null` is C#'s `null`. */
  datatype Value = Null | Obj(id: nat)

  /** A CLR type, reduced to its full name and its generic type arguments. */
  datatype ClrType = ClrType(name: string, typeArguments: seq<ClrType>)

  const TaskName: string := "System.Threading.Tasks.Task"

  /** `typeof(Task)` */
  const TaskType: ClrType := ClrType(TaskName, [])

  /** The closed generic `Task<T>` */
  function TaskOf(t: ClrType): ClrType
  {
    ClrType(TaskName, [t])
  }

  /**
   * The runtime type of an attribute; `isInterceptionMarker` stands for
   * `IsSubclassOf(typeof(MethodInterceptionAttribute))`.
   */
  datatype AttributeType = AttributeType(name: string, isInterceptionMarker: bool)

  /** One attribute instance declared on a method. */
  datatype Attribute = Attribute(attributeType: AttributeType, id: nat)

  predicate IsInterceptionMarker(a: Attribute)
  {
    a.attributeType.isInterceptionMarker
  }

  /** A type implementing `IMethodInterceptor`, identified by name. */
  datatype InterceptorType = InterceptorType(name: string)

  /** The exceptions that can escape an intercepted call. */
  datatype Exception =
    | ConfigurationError(attribute: Attribute)  // an unmapped marker, ignore flag off
    | BeforeHookFailed(order: int)              // thrown by BeforeInvoke
    | AfterHookFailed(order: int)               // thrown by AfterInvoke
    | ProceedFailed                             // thrown by the target method
    | TaskFaulted                               // Task.WaitAll on a faulted task
    | NullTaskWaited                            // Task.WaitAll given a null task
    | NullReturnValue                           // GetType() on a null ReturnValue
    | ResultFaulted                             // .Result of a faulted Task<T>
    | NotGenericType                            // GetGenericTypeDefinition on a type that is not generic
    | IndexOutOfRange                           // argument position outside the argument array
}
