/** `InvocationContext`: the per-call record of one matched (attribute, interceptor) pair. */
module InvocationContexts {
  import opened Wrappers
  import opened Reflection
  import opened AsyncMethods
  import opened Invocations
  import opened Behaviors

  /** `ConcurrentDictionary.TryAdd`: a key that is already present keeps its value. */
  function TryAdd(data: map<string, Value>, key: string, value: Value): (r: map<string, Value>)
    ensures r.Keys == data.Keys + {key}
    ensures forall k :: k in data ==> r[k] == data[k]
    ensures key !in data ==> r[key] == value
  {
    if key in data then data else data[key := value]
  }

  /** `GetValueOrDefault`: the stored value, or null for an absent key. */
  function GetValueOrDefault(data: map<string, Value>, key: string): Value
  {
    if key in data then data[key] else Null
  }

  /** The first value stored under a key wins; later stores leave it unchanged. */
  lemma {:induction false} FirstWriteWins(data: map<string, Value>, key: string, first: Value, later: seq<Value>)
    ensures key in TryAddAll(data[key := first], key, later)
    ensures GetValueOrDefault(TryAddAll(data[key := first], key, later), key) == first
  {
    if later != [] {
      FirstWriteWins(data, key, first, later[..|later| - 1]);
    }
  }

  /** Stores `values` under `key`, one `TryAdd` after another. */
  function TryAddAll(data: map<string, Value>, key: string, values: seq<Value>): map<string, Value>
  {
    if values == [] then data
    else TryAdd(TryAddAll(data, key, values[..|values| - 1]), key, values[|values| - 1])
  }

  /** Reading an absent key gives null; reading what one store put there gives it back. */
  lemma TemporaryDataRoundTrip(data: map<string, Value>, key: string, value: Value)
    ensures key !in data ==> GetValueOrDefault(data, key) == Null
    ensures key !in data ==> GetValueOrDefault(TryAdd(data, key, value), key) == value
    ensures key in data ==> GetValueOrDefault(TryAdd(data, key, value), key) == data[key]
  {
  }

  /**
   * `GetMethodReturnValue` on a return type, an error flag and a return slot:
   * null in error state; for an async method the settled `Task<T>`'s result,
   * null for a value-less task or one whose runtime type only derives from
   * `Task<T>`, and the exceptions of `GetType()` on null, of
   * `GetGenericTypeDefinition()` on a task type that is not generic and of
   * `.Result` on a faulted `Task<T>`; otherwise the raw return value.
   */
  function ReadReturnValue(returnType: ClrType, errored: bool, slot: ReturnSlot): (r: Result<Value, Exception>)
    requires SlotFits(returnType, slot)
    ensures errored ==> r == Ok(Null)
    ensures r.Err? <==> !errored && CheckIfMethodIsAsync(returnType) && (slot.Plain? || slot.FaultedResultTask? || slot.NonGenericTask?)
  {
    if errored then Ok(Null)
    else if CheckIfMethodIsAsync(returnType) then
      match slot
      case Plain(_) => Err(NullReturnValue)
      case ResultTask(v) => Ok(v)
      case SubclassResultTask(_) => Ok(Null)  // its generic definition is not Task<>: read as value-less
      case VoidTask => Ok(Null)
      case NonGenericTask => Err(NotGenericType)
      case FaultedResultTask => Err(ResultFaulted)
      case FaultedVoidTask => Ok(Null)  // the un-awaited AwaitVoidAsyncMethod swallows the fault
    else Ok(slot.value)
  }

  /** `OverrideMethodReturnValue`: async methods get a completed task wrapping the value. */
  function OverrideSlot(returnType: ClrType, value: Value): (r: ReturnSlot)
    ensures SlotFits(returnType, r)
  {
    if CheckIfMethodIsAsync(returnType) then ResultTask(value) else Plain(value)
  }

  /** A context in error state never shows a result to its interceptor. */
  lemma ErroredReadsNull(returnType: ClrType, slot: ReturnSlot)
    requires SlotFits(returnType, slot)
    ensures ReadReturnValue(returnType, true, slot) == Ok(Null)
  {
  }

  /** Overriding the return value and reading it back gives the value, sync or async. */
  lemma OverrideThenRead(returnType: ClrType, value: Value)
    ensures ReadReturnValue(returnType, false, OverrideSlot(returnType, value)) == Ok(value)
  {
  }

  /**
   * After a successful `Proceed` the read gives the synchronous value, the
   * awaited `Task<T>` result, or null for a value-less task.
   */
  lemma ReadAfterProceed(returnType: ClrType, o: ProceedOutcome, slot: ReturnSlot)
    requires SlotFits(returnType, slot) && OutcomeFits(returnType, o)
    requires o.SyncValue? || o.AsyncValue? || o.AsyncVoid?
    ensures ReadReturnValue(returnType, false, ProceededSlot(returnType, o, slot))
         == Ok(if o.AsyncVoid? then Null else o.value)
  {
  }

  /**
   * A task whose runtime type only derives from `Task<T>` fails the
   * `GetGenericTypeDefinition() == typeof(Task<>)` test, so its result is lost:
   * every after hook is handed null.
   */
  lemma SubclassTaskReadsNull(returnType: ClrType, v: Value, slot: ReturnSlot)
    requires CheckIfMethodIsAsync(returnType)
    ensures ReadReturnValue(returnType, false, ProceededSlot(returnType, AsyncValueSubclass(v), slot)) == Ok(Null)
    ensures ReadReturnValue(returnType, false, ProceededSlot(returnType, AsyncValue(v), slot)) == Ok(v)
  {
  }

  /**
   * A completed task whose runtime type is not generic, as a `Task` method may
   * return, cannot be read: `GetGenericTypeDefinition()` throws, unless the
   * context is in error state.
   */
  lemma NonGenericTaskReadFails(slot: ReturnSlot)
    ensures ReadReturnValue(TaskType, false, ProceededSlot(TaskType, AsyncNonGeneric, slot)) == Err(NotGenericType)
    ensures ReadReturnValue(TaskType, true, ProceededSlot(TaskType, AsyncNonGeneric, slot)) == Ok(Null)
  {
  }

  /** An async method whose task was never set (bypassed without override) cannot be read. */
  lemma AsyncReadWithoutTaskFails(returnType: ClrType)
    requires CheckIfMethodIsAsync(returnType)
    ensures ReadReturnValue(returnType, false, Plain(Null)) == Err(NullReturnValue)
  {
  }

  class InvocationContext {
    const invocation: Invocation
    const attribute: Attribute
    const interceptor: Behavior
    const order: int
    var tempData: map<string, Value>
    var invocationIsBypassed: bool
    var invocationIsInErrorState: bool

    /** A fresh context: empty scratch data, both flags off. */
    constructor (attribute: Attribute, interceptor: Behavior, invocation: Invocation, order: int)
      ensures this.attribute == attribute && this.interceptor == interceptor
      ensures this.invocation == invocation && this.order == order
      ensures tempData == map[]
      ensures !invocationIsBypassed && !invocationIsInErrorState
    {
      this.attribute := attribute;
      this.interceptor := interceptor;
      this.invocation := invocation;
      this.order := order;
      tempData := map[];
      invocationIsBypassed := false;
      invocationIsInErrorState := false;
    }

    /** Reads one argument slot; a position outside the array throws. */
    function GetParameterValue(parameterPosition: int): (r: Result<Value, Exception>)
      reads invocation
      ensures r.Ok? <==> 0 <= parameterPosition < |invocation.arguments|
      ensures r.Ok? ==> r.value == invocation.arguments[parameterPosition]
      ensures r.Err? ==> r.error == IndexOutOfRange
    {
      GetArgumentValue(invocation.arguments, parameterPosition)
    }

    /** Writes one argument slot; a position outside the array throws and writes nothing. */
    method SetParameterValue(parameterPosition: int, newValue: Value) returns (failure: Option<Exception>)
      modifies invocation`arguments
      ensures match SetArgumentValue(old(invocation.arguments), parameterPosition, newValue)
        case Ok(updated) => failure == None && invocation.arguments == updated
        case Err(e) => failure == Some(e) && invocation.arguments == old(invocation.arguments)
    {
      match SetArgumentValue(invocation.arguments, parameterPosition, newValue)
      case Ok(updated) =>
        invocation.arguments := updated;
        failure := None;
      case Err(e) =>
        failure := Some(e);
    }

    /** Stores scratch data unless the key is already present. */
    method SetTemporaryData(name: string, value: Value)
      modifies this`tempData
      ensures tempData == TryAdd(old(tempData), name, value)
    {
      tempData := TryAdd(tempData, name, value);
    }

    function GetTemporaryData(name: string): Value
      reads this
    {
      GetValueOrDefault(tempData, name)
    }

    /** Sets the bypass flag; no member of the class clears it. */
    method BypassInvocation()
      modifies this`invocationIsBypassed
      ensures invocationIsBypassed
    {
      invocationIsBypassed := true;
    }

    /** Sets the error flag; no member of the class clears it. */
    method SetInvocationInErrorState()
      modifies this`invocationIsInErrorState
      ensures invocationIsInErrorState
    {
      invocationIsInErrorState := true;
    }

    function CheckIfInvocationInErrorState(): bool
      reads this
    {
      invocationIsInErrorState
    }

    /** Replaces the return slot, wrapping the value in a completed task for async methods. */
    method OverrideMethodReturnValue(returnValue: Value)
      modifies invocation`returnValue
      ensures invocation.returnValue == OverrideSlot(invocation.methodInfo.returnType, returnValue)
    {
      invocation.returnValue := OverrideSlot(invocation.methodInfo.returnType, returnValue);
    }

    function GetMethodReturnValue(): Result<Value, Exception>
      reads this, invocation
      requires invocation.Valid()
    {
      ReadReturnValue(invocation.methodInfo.returnType, CheckIfInvocationInErrorState(), invocation.returnValue)
    }

    /**
     * Scans the parameter types from the last one down and stops at the first
     * match: the greatest position of that type, or -1 when there is none.
     */
    method GetParameterPosition(typeToFind: ClrType) returns (position: int)
      ensures -1 <= position < |invocation.methodInfo.parameterTypes|
      ensures position == -1 <==> typeToFind !in invocation.methodInfo.parameterTypes
      ensures position >= 0 ==> invocation.methodInfo.parameterTypes[position] == typeToFind
      ensures forall j :: position < j < |invocation.methodInfo.parameterTypes| ==>
                invocation.methodInfo.parameterTypes[j] != typeToFind
    {
      var parameters := invocation.methodInfo.parameterTypes;
      var i := |parameters| - 1;
      while i >= 0
        invariant -1 <= i < |parameters|
        invariant forall j :: i < j < |parameters| ==> parameters[j] != typeToFind
      {
        if parameters[i] == typeToFind {
          return i;
        }
        i := i - 1;
      }
      return -1;
    }
  }
}
