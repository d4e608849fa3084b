# NetCoreTransactable interception pipeline in Dafny

NetCoreTransactable wraps service objects in dynamic proxies. The proxy sends every call through one
`CoreInterceptor`. For the invoked method, the interceptor finds the marker attributes
(subclasses of `MethodInterceptionAttribute`) on the concrete target method. It maps each marker to an
`IMethodInterceptor` type through the `CoreProxyConfiguration`, and builds one `InvocationContext` per
mapped marker. Then it:

1. runs the `BeforeInvoke`s in the before order of the configured `IOrderingStrategy` until one throws;
2. either honours a bypass or calls `Proceed` (waiting for the task of an async method);
3. marks every context errored if the call fails;
4. from a `finally` block, runs the `AfterInvoke`s in after order until one throws, each handed the
   context's `GetMethodReturnValue()`.

The project models that pipeline and proves what it does.

- `Reflection`, `Invocations`: values, CLR types, attributes and the exceptions that can escape a
  call, plus the intercepted call handle (`IInvocation`). The handle is a class with an argument
  array and a return slot. The slot records one of: a plain value; a completed `Task<T>`; a completed
  task of a type derived from `Task<T>`; a completed value-less task; a completed task whose runtime
  type is not generic; or a faulted task.
- `AsyncMethods`, `InvocationExtensions`: the return-shape test `CheckIfMethodIsAsync` and the
  resolver `GetInterceptorContextForMethod`. The resolver is an imperative loop, proved equal to the
  reference definition `Resolve`.
- `InvocationContexts`: the `InvocationContext` class. It has the scratch data
  (`ConcurrentDictionary.TryAdd` / `GetValueOrDefault`), the bypass and error flags, the return-value
  override and read, and the parameter-position scan.
- `Configuration`, `InterceptorMappings`: the configuration class, with its fluent setters. An
  `InterceptorMapping` is an immutable (interceptor type, marker attribute type) pair.
- `PyramidOrderStrategy`, `SequentialOrderStrategy`, `OrderingStrategies`, `Sequences`: the two
  shipped ordering strategies, and the choice between them the configuration makes.
- `Behaviors`: interceptors are user code, so each interceptor is modelled as a script of what its
  hooks do. A before hook may write an argument, override the return value, bypass and throw. An
  after hook may throw. The proofs therefore hold for every interceptor of that shape.
- `CoreInterceptors`: `CoreInterceptor.Intercept` as imperative methods over the contexts. It is
  proved to compute exactly the reference function `InterceptSpec`: same outcome, same trace of
  hook and `Proceed` events, same final arguments and return slot.
- `DispatchProperties`: what one interception does, proved about `InterceptSpec` and `RunContexts`.

Paths in the table are relative to the repository root.

## Model

| member | source | states |
|---|---|---|
| CoreInterceptors.CoreInterceptor.constructor | src/NetCoreTransactable.Domain/NetCoreProxy/Internal/CoreInterceptor.cs:20-25 | the interceptor keeps the configuration and the interceptor activation it is given |
| CoreInterceptors.CoreInterceptor.Intercept | src/NetCoreTransactable.Domain/NetCoreProxy/Internal/CoreInterceptor.cs:27-65 | the outcome, the event trace and the final arguments and return slot of one interception are those of the reference interception `InterceptSpec` on the call's initial arguments and slot; the call handle stays well-formed |
| CoreInterceptors.InterceptSpec | src/NetCoreTransactable.Domain/NetCoreProxy/Internal/CoreInterceptor.cs:27-65 | the reference definition of one interception: a configuration error, a bare `Proceed` with no context, or `RunContexts`; `Intercept` is proved to compute it and `DispatchProperties` states what it does |
| CoreInterceptors.RunContexts | src/NetCoreTransactable.Domain/NetCoreProxy/Internal/CoreInterceptor.cs:38-64 | the reference definition once contexts exist; its paths are stated by `BeforeFailureStops`, `ProceedPath`, `BypassPath` and the lemmas built on them |
| CoreInterceptors.InterceptContexts | src/NetCoreTransactable.Domain/NetCoreProxy/Internal/CoreInterceptor.cs:38-64 | for a non-empty list of distinct contexts with both flags off, the before loop, bypass check, proceed-and-wait, catch and finally loop together yield exactly `RunContexts` |
| CoreInterceptors.BeforePhase | src/NetCoreTransactable.Domain/NetCoreProxy/Internal/CoreInterceptor.cs:40-41 | the before loop's events, exception, arguments and return slot are those of `RunBefore` over the before order; when it completes, each context is bypassed exactly when its own hook bypassed |
| CoreInterceptors.BeforeInvoke | src/NetCoreTransactable.Domain/NetCoreProxy/Internal/CoreInterceptor.cs:41 | one before hook acting through its context changes the arguments, the return slot and the bypass flag exactly as the hook model `BeforeHook` does, and fails the same way |
| CoreInterceptors.BeforeHook | src/NetCoreTransactable.Domain/NetCoreProxy/Internal/CoreInterceptor.cs:41 | a before hook never changes the number of arguments and always leaves a return slot that fits the declared return type |
| CoreInterceptors.RunBefore | src/NetCoreTransactable.Domain/NetCoreProxy/Internal/CoreInterceptor.cs:40-41 | the whole before loop keeps the argument count and a well-formed return slot |
| CoreInterceptors.RunBeforeBypass | src/NetCoreTransactable.Domain/NetCoreProxy/Internal/CoreInterceptor.cs:45 | when the before loop completes, `Any(ic => ic.InvocationIsBypassed)` holds exactly when some hook bypassed the call |
| CoreInterceptors.ProceedPhase | src/NetCoreTransactable.Domain/NetCoreProxy/Internal/CoreInterceptor.cs:48-59 | the return slot after `Proceed`; the pending exception is the target's failure or, for an async method, `Task.WaitAll`'s on a faulted or null task; every context ends errored exactly when an exception is pending |
| CoreInterceptors.WaitForTask | src/NetCoreTransactable.Domain/NetCoreProxy/Internal/CoreInterceptor.cs:50-51 | `Task.WaitAll` on the settled task: a faulted task raises `TaskFaulted`, a null task raises `NullTaskWaited`, a completed one passes, whatever its runtime type; its effect on the interception is stated by `ProceedPathReads` |
| CoreInterceptors.ProceedException | src/NetCoreTransactable.Domain/NetCoreProxy/Internal/CoreInterceptor.cs:48-51 | the exception pending after the `try` block's calls; stated by `ProceedPathReads` |
| CoreInterceptors.MarkErrored | src/NetCoreTransactable.Domain/NetCoreProxy/Internal/CoreInterceptor.cs:53-56 | every context ends in error state |
| CoreInterceptors.AfterPhase | src/NetCoreTransactable.Domain/NetCoreProxy/Internal/CoreInterceptor.cs:60-64 | the `finally` loop's events and exception are those of `RunAfter` over the after order |
| CoreInterceptors.AfterHook | src/NetCoreTransactable.Domain/NetCoreProxy/Internal/CoreInterceptor.cs:62-63 | one iteration of the `finally` loop: the read, then the hook; stated over the loop by `RunAfterShape` |
| CoreInterceptors.RunAfter | src/NetCoreTransactable.Domain/NetCoreProxy/Internal/CoreInterceptor.cs:60-64 | the `finally` loop over the after order, stopping at the first exception; stated by `RunAfterShape`, `RunAfterHooks` and `AfterLoopStopsAt` |
| CoreInterceptors.Finish | src/NetCoreTransactable.Domain/NetCoreProxy/Internal/CoreInterceptor.cs:53-64 | an exception from the `finally` block replaces the pending one, which is otherwise rethrown; stated by `AfterHookFailureStopsLoop` and `ProceedFailureMarksEveryContext` |
| CoreInterceptors.AfterOne | src/NetCoreTransactable.Domain/NetCoreProxy/Internal/CoreInterceptor.cs:62-63 | one iteration reads the context's return value and then calls its after hook, exactly as the hook model `AfterHook` does: the hook sees the context's order and error flag and the value read, and throws exactly when its interceptor does; a read that throws calls no hook |
| DispatchProperties.RunBeforeShape | src/NetCoreTransactable.Domain/NetCoreProxy/Internal/CoreInterceptor.cs:40-41 | before hooks run in order, one event each. The loop stops right after the first hook that throws, and fails exactly when some hook throws, with that hook's exception. When it completes, the call is bypassed exactly when some hook bypassed it |
| DispatchProperties.RunBeforeArguments | src/NetCoreTransactable.Domain/NetCoreProxy/InvocationContext.cs:123-124 | after the before loop, an argument no hook writes keeps its value, and one that hooks write holds the last write |
| DispatchProperties.RunBeforeOverride | src/NetCoreTransactable.Domain/NetCoreProxy/InvocationContext.cs:192-198 | after the before loop, the return slot is untouched if no hook overrides it, and holds the last override otherwise |
| DispatchProperties.QuietBeforePhase | src/NetCoreTransactable.Domain/NetCoreProxy/Internal/CoreInterceptor.cs:40-41 | before hooks that only observe leave the call state unchanged and never fail |
| DispatchProperties.RunAfterShape | src/NetCoreTransactable.Domain/NetCoreProxy/Internal/CoreInterceptor.cs:60-64 | every after hook is handed the same read value. If the read throws, no hook runs and the loop fails with that exception. Otherwise the hooks run in order, one event each, until the first that throws, whose exception ends the loop |
| DispatchProperties.RunAfterHooks | src/NetCoreTransactable.Domain/NetCoreProxy/Internal/CoreInterceptor.cs:62-63 | once the read succeeds, the after loop is the in-order run of the hooks, stopping at the first that throws |
| DispatchProperties.AfterLoopStopsAt | src/NetCoreTransactable.Domain/NetCoreProxy/Internal/CoreInterceptor.cs:62-63 | when hook `k` is the first whose after hook throws, exactly hooks `0..k` run and the loop fails with hook `k`'s exception |
| DispatchProperties.BeforeHooksAllRun | src/NetCoreTransactable.Domain/NetCoreProxy/Internal/CoreInterceptor.cs:40-41 | when no before hook throws, every hook runs once in declaration order, and the call is bypassed exactly when some hook bypasses |
| DispatchProperties.BeforeFailureStops | src/NetCoreTransactable.Domain/NetCoreProxy/Internal/CoreInterceptor.cs:40-41 | a throwing before hook ends the interception with its exception. The hooks up to it have run in declaration order; later hooks, the target and every after hook never run |
| DispatchProperties.ProceedPath | src/NetCoreTransactable.Domain/NetCoreProxy/Internal/CoreInterceptor.cs:40-64 | without a throw or bypass, the trace is the before events, one `Proceed`, then the after loop on the proceeded slot; the outcome is the after loop's exception, else the pending one |
| DispatchProperties.BypassPath | src/NetCoreTransactable.Domain/NetCoreProxy/Internal/CoreInterceptor.cs:40-64 | with a bypass, the trace is the before events followed by the after loop on the slot the before hooks left, and no exception is pending |
| DispatchProperties.BypassSkipsProceed | src/NetCoreTransactable.Domain/NetCoreProxy/Internal/CoreInterceptor.cs:45-46 | a bypassed call never reaches the target: the trace has no `Proceed`, starts with every before event, and the return slot is the one the before hooks left |
| DispatchProperties.BypassAfterPhase | src/NetCoreTransactable.Domain/NetCoreProxy/Internal/CoreInterceptor.cs:45-64 | after a bypass, a failing return-value read ends the interception with that exception before any after hook. Otherwise each after hook that runs is handed the value read; when none throws, all run and the call returns |
| DispatchProperties.BypassReturnsOverride | src/NetCoreTransactable.Domain/NetCoreProxy/Internal/CoreInterceptor.cs:40-64 | a bypassed call returns the last override of the before phase; every after hook that runs is handed that value; when no after hook throws, the call returns normally |
| DispatchProperties.AsyncBypassWithoutOverrideFails | src/NetCoreTransactable.Domain/NetCoreProxy/InvocationContext.cs:209-212 | an async method bypassed without an override fails with a null-reference error from the first return-value read, and no after hook runs |
| DispatchProperties.ProceedPathReads | src/NetCoreTransactable.Domain/NetCoreProxy/Internal/CoreInterceptor.cs:48-59 | on the path that calls the target, an exception is pending exactly when the call throws, its task faults or it returns a null task, and it is that failure; reading the return value afterwards throws exactly when the call completed with a task whose runtime type is not generic, and then with `NotGenericType` |
| DispatchProperties.NestingOrder | src/NetCoreTransactable.Domain/NetCoreProxy/Internal/CoreInterceptor.cs:40-64 | when nothing throws or bypasses and the target returns a value, a `Task<T>` or a value-less `Task<VoidTaskResult>` (the outcomes whose read succeeds; the others are `ProceedFailureMarksEveryContext`, `NonGenericTaskFailsFirstRead` and `SubclassTaskReadsNull`), the trace is every before hook in declaration order, `Proceed` once, then every after hook in the strategy's after order, each handed the target's result; the call returns with the rewritten arguments and the proceeded slot |
| DispatchProperties.ProceedFailureMarksEveryContext | src/NetCoreTransactable.Domain/NetCoreProxy/Internal/CoreInterceptor.cs:53-63 | when the target throws, its task faults or it returns a null task, every after hook that runs is told the call errored and is handed null. The interception throws; when no after hook throws, all run and the original failure is rethrown |
| DispatchProperties.AfterHookFailureStopsLoop | src/NetCoreTransactable.Domain/NetCoreProxy/Internal/CoreInterceptor.cs:60-64 | after `Proceed`, a throwing after hook ends the `finally` loop. The hooks after it do not run, and its exception replaces whatever the call threw. When the target's task has a non-generic runtime type, the read throws `NotGenericType` first, before any hook |
| DispatchProperties.NonGenericTaskFailsFirstRead | src/NetCoreTransactable.Domain/NetCoreProxy/Internal/CoreInterceptor.cs:50-63 | a `Task` method whose completed task has a non-generic runtime type passes `WaitAll`. The first `GetMethodReturnValue()` of the `finally` loop then throws: no after hook runs, and the call ends in `NotGenericType` (with no context, it returns) |
| DispatchProperties.RunContextsRaisesNoConfigurationError | src/NetCoreTransactable.Domain/NetCoreProxy/Internal/CoreInterceptor.cs:38-64 | once contexts exist, no exception that escapes reports a configuration error |
| DispatchProperties.RunContextsTrace | src/NetCoreTransactable.Domain/NetCoreProxy/Internal/CoreInterceptor.cs:40-64 | when the call proceeds, the trace is hook events, one `Proceed`, then hook events; on every other path the target is not called |
| DispatchProperties.NoContextsProceedsOnce | src/NetCoreTransactable.Domain/NetCoreProxy/Internal/CoreInterceptor.cs:32-36 | with no context the target is called exactly once with the original arguments; the interception throws exactly when the target throws, and does not wait for an async task |
| DispatchProperties.ConfigurationErrorIffUnmappedMarker | src/NetCoreTransactable.Domain/NetCoreProxy/Internal/Extensions/InvocationExtensions.cs:55-61 | the interception fails with a configuration error exactly when invalid configurations are not ignored and the method carries an unmapped marker. The error then names the first such marker, and no hook or target runs |
| DispatchProperties.ProceedAtMostOnce | src/NetCoreTransactable.Domain/NetCoreProxy/Internal/CoreInterceptor.cs:27-65 | the target is called at most once. It is called exactly when resolution succeeds and either no context exists or no before hook throws or bypasses |
| DispatchProperties.InterfaceMarkersIgnored | src/NetCoreTransactable.Domain/NetCoreProxy/Internal/Extensions/InvocationExtensions.cs:41-46 | markers declared on the interface method play no part: changing them leaves the whole interception unchanged |
| DispatchProperties.ObserversNest | src/NetCoreTransactable.Domain/NetCoreProxy/Internal/CoreInterceptor.cs:27-65 | with observer-only interceptors and a target that returns a value or a `Task<T>`, the trace is `Before(0..n-1)`, `Proceed`, then the after hooks at the strategy's after positions, each handed the result; the call returns with unchanged arguments |
| DispatchProperties.PyramidNesting | src/NetCoreTransactable.Domain/NetCoreProxy/Strategies/PyramidOrderStrategy.cs:14-19 | under the pyramid strategy the hooks nest: `Before(0..n-1)`, `Proceed`, `After(n-1..0)` |
| DispatchProperties.SequentialOrder | src/NetCoreTransactable.Domain/NetCoreProxy/Strategies/SequentialOrderStrategy.cs:12-17 | under the sequential strategy both phases run in declaration order: `Before(0..n-1)`, `Proceed`, `After(0..n-1)` |
| AsyncMethods.CheckIfMethodIsAsync | src/NetCoreTransactable.Domain/NetCoreProxy/Internal/Extensions/InvocationExtensions.cs:79-82 | the name-and-arity test on the declared return type: `Task`, or a generic type named `Task` with one type argument; `AsyncExactlyForTasks` restates it with `TaskOf` |
| AsyncMethods.AsyncExactlyForTasks | src/NetCoreTransactable.Domain/NetCoreProxy/Internal/Extensions/InvocationExtensions.cs:79-82 | the name-and-arity test rephrased with `TaskOf`: a method counts as async exactly when it returns `Task` or some closed `Task<T>`; a reformulation of the test, relied on by the return-slot lemmas, not an independent characterization |
| InvocationExtensions.MarkerAttributes | src/NetCoreTransactable.Domain/NetCoreProxy/Internal/Extensions/InvocationExtensions.cs:41-46 | the filter keeps exactly the interception markers among the target method's attributes, and no more elements than it is given |
| InvocationExtensions.MarkerAttributesAppend | src/NetCoreTransactable.Domain/NetCoreProxy/Internal/Extensions/InvocationExtensions.cs:41-46 | the filter keeps order: filtering a concatenation gives the concatenation of the filtered parts, so markers keep their declaration order |
| InvocationExtensions.GetInterceptorContextForMethod | src/NetCoreTransactable.Domain/NetCoreProxy/Internal/Extensions/InvocationExtensions.cs:23-74 | the resolver throws exactly when `Resolve` fails, with the same error. Otherwise it returns one distinct fresh context per binding: the marker, the activated interceptor, `Order` equal to its list position, empty scratch data and both flags off |
| InvocationExtensions.FindMapping | src/NetCoreTransactable.Domain/NetCoreProxy/Internal/Extensions/InvocationExtensions.cs:51-53 | `FirstOrDefault(i => i.AttributeType == ...)?.InterceptorType`; what it finds is stated by `FindMappingIsFirst` and `LaterMappingsDoNotOverride` |
| InvocationExtensions.NonMarkersUnmapped | src/NetCoreTransactable.Domain/NetCoreProxy/Internal/Configuration/InterceptorMapping.cs:9-10 | every mapping's attribute type satisfies `TAttribute : MethodInterceptionAttribute`, so an attribute that is not an interception marker never finds a mapping |
| InvocationExtensions.Resolve | src/NetCoreTransactable.Domain/NetCoreProxy/Internal/Extensions/InvocationExtensions.cs:48-71 | the reference definition of the resolver loop; `GetInterceptorContextForMethod` is proved to follow it and `ResolveCharacterized` states its result for all inputs |
| InvocationExtensions.ResolveTakesMapped | src/NetCoreTransactable.Domain/NetCoreProxy/Internal/Extensions/InvocationExtensions.cs:63-70 | a mapped marker adds one binding, in declaration position, with its first mapping's interceptor type |
| InvocationExtensions.ResolveSkipsUnmapped | src/NetCoreTransactable.Domain/NetCoreProxy/Internal/Extensions/InvocationExtensions.cs:57-58 | with the ignore flag on, an unmapped marker adds nothing and resolution goes on |
| InvocationExtensions.ResolveStopsAtUnmapped | src/NetCoreTransactable.Domain/NetCoreProxy/Internal/Extensions/InvocationExtensions.cs:60 | with the ignore flag off, an unmapped marker ends resolution with a configuration error naming it |
| InvocationExtensions.ResolveSeesOnlyMarkers | src/NetCoreTransactable.Domain/NetCoreProxy/Internal/Extensions/InvocationExtensions.cs:41-46 | attributes that are not interception markers never affect the resolution |
| InvocationExtensions.FindMappingIsFirst | src/NetCoreTransactable.Domain/NetCoreProxy/Internal/Extensions/InvocationExtensions.cs:51-53 | the lookup finds nothing exactly when no mapping has that attribute type; otherwise it returns the interceptor type of the first mapping for it |
| InvocationExtensions.LaterMappingsDoNotOverride | src/NetCoreTransactable.Domain/NetCoreProxy/Internal/Extensions/InvocationExtensions.cs:51-53 | mappings added later never change the interceptor chosen for an attribute type that is already mapped |
| InvocationExtensions.ResolveCharacterized | src/NetCoreTransactable.Domain/NetCoreProxy/Internal/Extensions/InvocationExtensions.cs:48-71 | resolution fails exactly when the ignore flag is off and some marker is unmapped, and the error names the first such marker. Otherwise it yields the mapped markers in declaration order, each with its first mapping |
| InvocationExtensions.ResolveIgnoringUnmapped | src/NetCoreTransactable.Domain/NetCoreProxy/Internal/Extensions/InvocationExtensions.cs:55-58 | with the ignore flag on, resolution never fails and drops exactly the unmapped markers |
| InvocationExtensions.AllMappedKeepsEveryMarker | src/NetCoreTransactable.Domain/NetCoreProxy/Internal/Extensions/InvocationExtensions.cs:48-71 | when every marker is mapped, each marker yields exactly one binding, in declaration order |
| InvocationContexts.InvocationContext.constructor | src/NetCoreTransactable.Domain/NetCoreProxy/InvocationContext.cs:65-78 | a new context holds its marker, interceptor, call and order, with empty scratch data and neither flag set |
| InvocationContexts.InvocationContext.SetParameterValue | src/NetCoreTransactable.Domain/NetCoreProxy/InvocationContext.cs:123-124 | writes one argument when the position is inside the argument array; otherwise it throws and leaves the arguments unchanged |
| InvocationContexts.InvocationContext.GetParameterValue | src/NetCoreTransactable.Domain/NetCoreProxy/InvocationContext.cs:114-115 | `Invocation.GetArgumentValue` on the call's arguments: succeeds exactly for a position inside the array and gives the argument there, and throws `IndexOutOfRange` outside it; `SetThenGetArgument` gives its round trip with writes |
| Invocations.SetThenGetArgument | src/NetCoreTransactable.Domain/NetCoreProxy/InvocationContext.cs:107-124 | writing an argument succeeds exactly for a position inside the array; reading it back gives the new value, every other position keeps its value, and the length is kept |
| InvocationContexts.InvocationContext.SetTemporaryData | src/NetCoreTransactable.Domain/NetCoreProxy/InvocationContext.cs:131-132 | the scratch data becomes `TryAdd` of the old data: a key already present keeps its value |
| InvocationContexts.TryAdd | src/NetCoreTransactable.Domain/NetCoreProxy/InvocationContext.cs:131-132 | the key becomes present; existing keys keep their values; a new key gets the given value |
| InvocationContexts.FirstWriteWins | src/NetCoreTransactable.Domain/NetCoreProxy/InvocationContext.cs:131-132 | after a first store under a key, any number of later stores leave the first value readable |
| InvocationContexts.TemporaryDataRoundTrip | src/NetCoreTransactable.Domain/NetCoreProxy/InvocationContext.cs:131-140 | reading an absent key gives null; reading a key stored once gives that value back; storing under a present key keeps the old value |
| InvocationContexts.GetValueOrDefault | src/NetCoreTransactable.Domain/NetCoreProxy/InvocationContext.cs:139-140 | the stored value, null for an absent key; its round trip with `TryAdd` is `TemporaryDataRoundTrip` |
| InvocationContexts.InvocationContext.GetTemporaryData | src/NetCoreTransactable.Domain/NetCoreProxy/InvocationContext.cs:139-140 | `GetValueOrDefault` on this context's own scratch data; what it returns after stores is stated by `TemporaryDataRoundTrip` and `FirstWriteWins` |
| InvocationContexts.InvocationContext.BypassInvocation | src/NetCoreTransactable.Domain/NetCoreProxy/InvocationContext.cs:145-146 | the bypass flag is set and nothing else changes |
| InvocationContexts.InvocationContext.SetInvocationInErrorState | src/NetCoreTransactable.Domain/NetCoreProxy/InvocationContext.cs:151-152 | the error flag is set and nothing else changes |
| InvocationContexts.InvocationContext.CheckIfInvocationInErrorState | src/NetCoreTransactable.Domain/NetCoreProxy/InvocationContext.cs:157-158 | the error flag: `SetInvocationInErrorState` sets it, no member clears it, and `AfterOne` hands it to each after hook |
| InvocationContexts.InvocationContext.OverrideMethodReturnValue | src/NetCoreTransactable.Domain/NetCoreProxy/InvocationContext.cs:192-198 | the return slot becomes the value, wrapped in a completed task when the method is async |
| InvocationContexts.OverrideSlot | src/NetCoreTransactable.Domain/NetCoreProxy/InvocationContext.cs:192-198 | an override always leaves a return slot that fits the declared return type |
| InvocationContexts.ReadReturnValue | src/NetCoreTransactable.Domain/NetCoreProxy/InvocationContext.cs:204-227 | in error state the read always gives null; otherwise it throws exactly for an async method whose slot holds no task (`GetType()` on null), a task whose runtime type is not generic (`GetGenericTypeDefinition()`), or a faulted `Task<T>` (`.Result`) |
| InvocationContexts.InvocationContext.GetMethodReturnValue | src/NetCoreTransactable.Domain/NetCoreProxy/InvocationContext.cs:204-227 | the context's read: `ReadReturnValue` on its own error flag and its call's return slot, with the properties stated there and in the lemmas below |
| InvocationContexts.OverrideThenRead | src/NetCoreTransactable.Domain/NetCoreProxy/InvocationContext.cs:192-227 | overriding the return value and reading it back gives the value, sync or async |
| InvocationContexts.ErroredReadsNull | src/NetCoreTransactable.Domain/NetCoreProxy/InvocationContext.cs:206-207 | a context in error state always reads the return value as null |
| InvocationContexts.ReadAfterProceed | src/NetCoreTransactable.Domain/NetCoreProxy/InvocationContext.cs:209-226 | after a successful call the read gives the synchronous value, the `Task<T>` result, or null for a value-less task |
| InvocationContexts.SubclassTaskReadsNull | src/NetCoreTransactable.Domain/NetCoreProxy/InvocationContext.cs:214-222 | a completed task whose runtime type only derives from `Task<T>` fails the `GetGenericTypeDefinition() == typeof(Task<>)` test and reads as null, while an exact `Task<T>` reads as its result |
| InvocationContexts.NonGenericTaskReadFails | src/NetCoreTransactable.Domain/NetCoreProxy/InvocationContext.cs:212-214 | a completed task whose runtime type is not generic cannot be read: `GetGenericTypeDefinition()` throws `NotGenericType` unless the context is in error state, where the read gives null first |
| InvocationContexts.AsyncReadWithoutTaskFails | src/NetCoreTransactable.Domain/NetCoreProxy/InvocationContext.cs:211-212 | for an async method whose return slot still holds null, the read throws |
| InvocationContexts.InvocationContext.GetParameterPosition | src/NetCoreTransactable.Domain/NetCoreProxy/InvocationContext.cs:234-251 | returns -1 exactly when no parameter has the type; otherwise a position of that type with no later one of that type, i.e. the greatest such position |
| Invocations.Invocation.Proceed | src/NetCoreTransactable.Domain/NetCoreProxy/Internal/CoreInterceptor.cs:48 | runs the target on the current arguments; the return slot becomes its result; it throws exactly when the target throws |
| Configuration.CoreProxyConfiguration.constructor | src/NetCoreTransactable.Domain/NetCoreProxy/Configuration/CoreProxyConfiguration.cs:18-30 | the defaults: no mappings, invalid configurations not ignored, pyramid ordering |
| Configuration.CoreProxyConfiguration.AddInterceptor | src/NetCoreTransactable.Domain/NetCoreProxy/Configuration/CoreProxyConfiguration.cs:38-46 | appends exactly one mapping, without checking for an earlier one, and returns the same configuration for chaining |
| Configuration.CoreProxyConfiguration.IgnoreInvalidInterceptorConfigurations | src/NetCoreTransactable.Domain/NetCoreProxy/Configuration/CoreProxyConfiguration.cs:52-59 | sets the ignore flag, changes nothing else, and returns the same configuration |
| Configuration.CoreProxyConfiguration.WithOrderingStrategy | src/NetCoreTransactable.Domain/NetCoreProxy/Configuration/CoreProxyConfiguration.cs:66-74 | replaces only the strategy and returns the same configuration |
| OrderingStrategies.OrderBeforeInterception | src/NetCoreTransactable.Domain/NetCoreProxy/Internal/CoreInterceptor.cs:40 | the configured strategy's before order; `BeforeIsDeclarationOrder` and `StrategyPermutes` state it |
| OrderingStrategies.OrderAfterInterception | src/NetCoreTransactable.Domain/NetCoreProxy/Internal/CoreInterceptor.cs:62 | the configured strategy's after order; `AfterOrderAt` and `StrategyPermutes` state it |
| OrderingStrategies.BeforeIsDeclarationOrder | src/NetCoreTransactable.Domain/NetCoreProxy/Internal/CoreInterceptor.cs:40 | both shipped strategies run the before hooks in declaration order |
| OrderingStrategies.AfterOrderAt | src/NetCoreTransactable.Domain/NetCoreProxy/Internal/CoreInterceptor.cs:62 | the j-th after-phase context is the one at the strategy's after position: reversed for pyramid, the same for sequential |
| OrderingStrategies.StrategyPermutes | src/NetCoreTransactable.Domain/NetCoreProxy/Internal/CoreInterceptor.cs:38 | for either shipped strategy, each of its orders is a permutation of the contexts, so none is added, dropped or duplicated |
| PyramidOrderStrategy.OrderBeforeInterception | src/NetCoreTransactable.Domain/NetCoreProxy/Strategies/PyramidOrderStrategy.cs:14-15 | the interceptors as given; stated by `PyramidOrders` |
| PyramidOrderStrategy.OrderAfterInterception | src/NetCoreTransactable.Domain/NetCoreProxy/Strategies/PyramidOrderStrategy.cs:18-19 | `interceptors.Reverse()`; stated by `PyramidOrders`, `PyramidPermutes` and `PyramidRoundTrip` |
| PyramidOrderStrategy.PyramidOrders | src/NetCoreTransactable.Domain/NetCoreProxy/Strategies/PyramidOrderStrategy.cs:14-19 | the before order is the declaration order; the after order is its exact reverse |
| PyramidOrderStrategy.PyramidPermutes | src/NetCoreTransactable.Domain/NetCoreProxy/Strategies/PyramidOrderStrategy.cs:14-19 | both pyramid orders are permutations of the input |
| PyramidOrderStrategy.PyramidRoundTrip | src/NetCoreTransactable.Domain/NetCoreProxy/Strategies/PyramidOrderStrategy.cs:14-19 | reversing the after order gives the before order back |
| SequentialOrderStrategy.OrderBeforeInterception | src/NetCoreTransactable.Domain/NetCoreProxy/Strategies/SequentialOrderStrategy.cs:12-13 | the interceptors as given; stated by `SequentialOrders` |
| SequentialOrderStrategy.OrderAfterInterception | src/NetCoreTransactable.Domain/NetCoreProxy/Strategies/SequentialOrderStrategy.cs:16-17 | the interceptors as given; stated by `SequentialOrders` |
| SequentialOrderStrategy.SequentialOrders | src/NetCoreTransactable.Domain/NetCoreProxy/Strategies/SequentialOrderStrategy.cs:12-17 | both sequential orders are the declaration order, so they agree and are permutations of the input |
| Sequences.Reverse | src/NetCoreTransactable.Domain/NetCoreProxy/Strategies/PyramidOrderStrategy.cs:18-19 | `Enumerable.Reverse`: same length, and position j holds the element from position n-1-j |
| Sequences.ReversePermutes | src/NetCoreTransactable.Domain/NetCoreProxy/Strategies/PyramidOrderStrategy.cs:18-19 | reversal only rearranges: the multiset of elements is kept |
| Sequences.ReverseInvolutive | src/NetCoreTransactable.Domain/NetCoreProxy/Strategies/PyramidOrderStrategy.cs:18-19 | reversing twice gives the sequence back |

## Behaviour worth knowing

- After hooks: the `finally` loop in `CoreInterceptor.cs:60-64` has no `try` around each call. An
  `AfterInvoke` that throws therefore ends the loop. The later after hooks do not run, and its
  exception replaces the pending one (`AfterHookFailureStopsLoop`).
- `GetParameterPosition` is documented as giving "the position of the type"
  (`InvocationContext.cs:229-233`). It scans from the last parameter and returns at the first match
  (`InvocationContext.cs:241-247`). With several parameters of that type, it gives the greatest
  position.
- Scratch data is documented as data "which can be passed between interceptors"
  (`InvocationContext.cs:32-35`). But every context gets its own dictionary (`InvocationContext.cs:71`),
  and the resolver builds one context per mapped marker, each with its own interceptor instance (`InvocationExtensions.cs:66-69`). So a value
  one interceptor stores is not visible through another interceptor's context.
- `BypassInvocation` and `OverrideMethodReturnValue` are documented as not working with async
  methods (`InvocationContext.cs:143`, `189`).
  - Inside the pipeline, an async override is wrapped in a completed task, and the after hooks read
    it back (`OverrideThenRead`).
  - An async method bypassed without an override makes the first `GetMethodReturnValue()` call
    `GetType()` on null and throw (`AsyncBypassWithoutOverrideFails`).
- With no context, `Proceed` runs and `Intercept` returns without waiting for an async method's task
  (`CoreInterceptor.cs:32-36`).
- An async method that returns a null task makes `Task.WaitAll` throw inside the `try` block. Every
  context is then marked errored and the exception is rethrown (`ProceedFailureMarksEveryContext`).
- A method declared `Task` whose task is at run time a `Task<T>` with a value hands that value to
  the after hooks. The test at `InvocationContext.cs:214-215` looks at the runtime type.
- A completed task whose runtime type only derives from `Task<T>` reads as null, and its result is
  lost (`SubclassTaskReadsNull`). An example is the box a suspended `async` method returns.
- A `Task` method may return a completed task whose runtime type is not generic, such as
  `Task.CompletedTask` or `Task.Run(action)`. `WaitAll` passes it. Then the first
  `GetMethodReturnValue()` reaches `GetGenericTypeDefinition()` at `InvocationContext.cs:214`, which
  throws on a non-generic type. So a call that succeeded ends in that exception, and no after hook
  runs (`NonGenericTaskFailsFirstRead`).
- A faulted value-less task reads as null. `AwaitVoidAsyncMethod` (`InvocationContext.cs:221`, `260`)
  is not awaited, so `GetMethodReturnValue` never observes its fault. Inside `Intercept` such a slot is
  only ever read while the contexts are errored, because a faulted task makes `WaitAll` throw and
  marks every context errored first (`ProceedFailureMarksEveryContext`).

## Left out

- Service provider and `ActivatorUtilities.CreateInstance`: interceptor construction is the
  parameter `activate`, a total function from interceptor type to behaviour. Construction failures
  are not modelled.
- Interceptors as arbitrary code: each `IMethodInterceptor` is a script (at most one argument write,
  an optional override, an optional bypass, then return or throw; an after hook returns or throws).
  Hooks that read scratch data, or branch on the value they are handed, are not covered.
- The target method is a total function from arguments to an outcome: a value, a completed task, a
  null task, a synchronous throw or a faulted task. Tasks are already settled when `Proceed`
  returns. Scheduling, concurrency and `ConfigureAwait` are not modelled.
- Runtime task types are reduced to the shapes the read tells apart. `ResultTask` stands for a runtime
  type that is exactly `Task<T>`, and `SubclassResultTask` for a generic type derived from it.
  `SubclassResultTask` also covers a generic task type derived from `Task`, which reads as null
  too. `VoidTask` stands for `Task<VoidTaskResult>`, and `NonGenericTask` for any task type that is
  not generic. `FaultedVoidTask` stands for a faulted value-less task of any of these types; it is
  only read while the contexts are errored, so its shape does not matter.
- What the caller receives once `Intercept` returns. The proxy converts `ReturnValue` to the declared
  return type outside `Intercept` and outside this model. For example, a `Task<object>` override
  cannot be converted to a `Task<int>`.
- User-defined `IOrderingStrategy` implementations. `WithOrderingStrategy<TStrategy>` accepts any
  (`CoreProxyConfiguration.cs:66-74`), but the model's `OrderingStrategy` covers only the two
  shipped strategies. A user strategy may drop, duplicate or reorder contexts, and no ordering
  lemma covers it.
- `CoreInterceptors.InterceptContexts` and `CoreInterceptors.BeforePhase`: they require the contexts
  to be distinct and to start with both flags off. That is what the resolver returns, and
  `Intercept` only calls them on its result.
- The informational getters `GetOwningAttribute`, `GetOwningType`, `GetServiceProvider`,
  `GetExecutingMethodInfo`, `GetExecutingMethodName` and `GetAttributeFromMethod`
  (`InvocationContext.cs:84-99`, `164-178`). They only return stored fields or reflection data.
- `GetParameterValue<T>`: the cast to `T` is not modelled; the untyped `GetParameterValue` is
  `GetArgumentValue` on the argument array.
- `GetParameterPosition<TTypeToFind>` is the same scan with `typeof(TTypeToFind)`. The
  `ArgumentNullException` for a missing method cannot arise, because a call always has its method
  here.
- `TryAdd` and `GetValueOrDefault` on the scratch data: the `ArgumentNullException` that
  `ConcurrentDictionary` throws for a null key (`InvocationContext.cs:131-132`, `139-140`) is not
  modelled, because the model's keys are strings and cannot be null.
- `CheckIfMethodIsAsync` compares types by name and arity; assembly identity is not modelled.
- The exception message text of the configuration error; the error carries the unmapped marker.
- `ServiceCollectionExtensions` and `ProxyFactory` (proxy registration and creation) are not part of
  this model.
