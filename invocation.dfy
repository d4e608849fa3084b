/**
 * The call handle the proxy library hands to the interceptor: the intercepted
 * method's metadata, its argument array and its return slot.
 */
module Invocations {
  import opened Wrappers
  import opened Reflection
  import opened AsyncMethods

  /**
   * What the pipeline reads from the method: its declared return type, its
   * parameter types, the attributes declared on the concrete target method
   * and those declared on the interface method.
   */
  datatype MethodInfo = MethodInfo(
    returnType: ClrType,
    parameterTypes: seq<ClrType>,
    targetAttributes: seq<Attribute>,
    interfaceAttributes: seq<Attribute>)

  /** The runtime content of `IInvocation.ReturnValue`. */
  datatype ReturnSlot =
    | Plain(value: Value)       // a synchronous result, or null: before Proceed, or a null task
    | ResultTask(result: Value) // a completed task whose runtime type is exactly Task<T>, T not VoidTaskResult
    | SubclassResultTask(result: Value) // a completed task whose runtime type derives from Task<T>
    | VoidTask                  // a completed value-less Task (Task<VoidTaskResult>)
    | NonGenericTask            // a completed task whose runtime type is not generic, such as Task.CompletedTask
    | FaultedResultTask         // a faulted Task<T>
    | FaultedVoidTask           // a faulted value-less Task

  /** What the target method does when `Proceed` runs it. */
  datatype ProceedOutcome =
    | SyncValue(value: Value)   // a synchronous method returns
    | AsyncValue(value: Value)  // an async method returns a Task<T> that completes with a value
    | AsyncValueSubclass(value: Value) // the same, with a task of a type derived from Task<T>
    | AsyncVoid                 // a Task method returns a value-less task that completes
    | AsyncNonGeneric           // a Task method returns a completed task of a non-generic runtime type
    | AsyncNull                 // an async method returns a null task
    | Fails                     // the call throws synchronously
    | AsyncFaults               // the returned task faults

  /** The runtime return slot agrees with the declared return type. */
  predicate SlotFits(returnType: ClrType, slot: ReturnSlot)
  {
    if CheckIfMethodIsAsync(returnType) then slot.Plain? ==> slot.value == Null
    else slot.Plain?
  }

  /** A method's outcome agrees with its declared return type. */
  predicate OutcomeFits(returnType: ClrType, o: ProceedOutcome)
  {
    match o
    case SyncValue(_) => !CheckIfMethodIsAsync(returnType)
    case AsyncValue(_) => CheckIfMethodIsAsync(returnType)
    case AsyncValueSubclass(_) => CheckIfMethodIsAsync(returnType)
    case AsyncVoid => returnType == TaskType
    case AsyncNonGeneric => returnType == TaskType
    case Fails => true
    case AsyncNull => CheckIfMethodIsAsync(returnType)
    case AsyncFaults => CheckIfMethodIsAsync(returnType)
  }

  /** The target method returns values of its declared shape whatever its arguments. */
  ghost predicate ProceedFits(returnType: ClrType, target: seq<Value> -> ProceedOutcome)
  {
    forall args :: OutcomeFits(returnType, target(args))
  }

  /** The return slot once `Proceed` has run with the given outcome. */
  function ProceededSlot(returnType: ClrType, o: ProceedOutcome, slot: ReturnSlot): (r: ReturnSlot)
    ensures OutcomeFits(returnType, o) && SlotFits(returnType, slot) ==> SlotFits(returnType, r)
  {
    match o
    case SyncValue(v) => Plain(v)
    case AsyncValue(v) => ResultTask(v)
    case AsyncValueSubclass(v) => SubclassResultTask(v)
    case AsyncVoid => VoidTask
    case AsyncNonGeneric => NonGenericTask
    case AsyncNull => Plain(Null)
    case Fails => slot
    case AsyncFaults => if returnType == TaskType then FaultedVoidTask else FaultedResultTask
  }

  /** `IInvocation.GetArgumentValue`: indexing the argument array. */
  function GetArgumentValue(args: seq<Value>, position: int): Result<Value, Exception>
  {
    if 0 <= position < |args| then Ok(args[position]) else Err(IndexOutOfRange)
  }

  /** `IInvocation.SetArgumentValue`: writing into the argument array. */
  function SetArgumentValue(args: seq<Value>, position: int, newValue: Value): Result<seq<Value>, Exception>
  {
    if 0 <= position < |args| then Ok(args[position := newValue]) else Err(IndexOutOfRange)
  }

  /** Setting an argument and reading it back gives the new value; the other slots keep theirs. */
  lemma SetThenGetArgument(args: seq<Value>, position: int, newValue: Value, other: int)
    ensures SetArgumentValue(args, position, newValue).Ok? <==> 0 <= position < |args|
    ensures SetArgumentValue(args, position, newValue).Ok? ==>
      var updated := SetArgumentValue(args, position, newValue).value;
      && |updated| == |args|
      && GetArgumentValue(updated, position) == Ok(newValue)
      && (other != position ==> GetArgumentValue(updated, other) == GetArgumentValue(args, other))
  {
  }

  /** The intercepted call (`IInvocation`). */
  class Invocation {
    const methodInfo: MethodInfo
    var arguments: seq<Value>
    var returnValue: ReturnSlot

    ghost predicate Valid()
      reads this
    {
      SlotFits(methodInfo.returnType, returnValue)
    }

    constructor (methodInfo: MethodInfo, arguments: seq<Value>)
      ensures this.methodInfo == methodInfo && this.arguments == arguments
      ensures returnValue == Plain(Null) && Valid()
    {
      this.methodInfo := methodInfo;
      this.arguments := arguments;
      this.returnValue := Plain(Null);
    }

    /** `IInvocation.Proceed`: runs the target with the current arguments. */
    method Proceed(target: seq<Value> -> ProceedOutcome) returns (failure: Option<Exception>)
      requires Valid() && ProceedFits(methodInfo.returnType, target)
      modifies this`returnValue
      ensures Valid()
      ensures returnValue == ProceededSlot(methodInfo.returnType, target(arguments), old(returnValue))
      ensures failure.Some? <==> target(arguments).Fails?
      ensures failure.Some? ==> failure.value == ProceedFailed
    {
      var o := target(arguments);
      returnValue := ProceededSlot(methodInfo.returnType, o, returnValue);
      failure := if o.Fails? then Some(ProceedFailed) else None;
    }
  }
}
