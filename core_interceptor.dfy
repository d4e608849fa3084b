/**
 * `CoreInterceptor.Intercept`: resolve the contexts, run the before hooks,
 * honour a bypass or proceed (waiting for an async task), mark every context
 * errored on failure, and run the after hooks from the `finally` block.
 */
module CoreInterceptors {
  import opened Wrappers
  import opened Reflection
  import opened AsyncMethods
  import opened Invocations
  import opened InterceptorMappings
  import opened OrderingStrategies
  import opened Configuration
  import opened Behaviors
  import opened InvocationContexts
  import opened InvocationExtensions

  /** What an observer of the pipeline sees: the hooks called and the call of the target. */
  datatype Event =
    | Before(order: int)
    | Proceed
    | After(order: int, errored: bool, result: Value)

  /** How `Intercept` ends: it returns, or an exception escapes it. */
  datatype Outcome = Returned | Threw(exception: Exception)

  /** A resolved context as the specification sees it: its order and its interceptor. */
  datatype Entry = Entry(order: int, behavior: Behavior)

  /** The contexts for the resolved bindings, numbered by position. */
  function Entries(bindings: seq<Binding>, activate: InterceptorType -> Behavior): (es: seq<Entry>)
    ensures |es| == |bindings|
    ensures forall k :: 0 <= k < |es| ==> es[k] == Entry(k, activate(bindings[k].interceptorType))
  {
    seq(|bindings|, k requires 0 <= k < |bindings| => Entry(k, activate(bindings[k].interceptorType)))
  }

  // The before phase

  /** The part of the call state that before hooks change. */
  datatype BeforeState = BeforeState(args: seq<Value>, slot: ReturnSlot, bypassed: bool)

  datatype BeforeRun = BeforeRun(trace: seq<Event>, state: BeforeState, failure: Option<Exception>)

  /** One `BeforeInvoke` call, following the interceptor's script. */
  function BeforeHook(e: Entry, returnType: ClrType, st: BeforeState): (r: BeforeRun)
    requires SlotFits(returnType, st.slot)
    ensures SlotFits(returnType, r.state.slot)
    ensures |r.state.args| == |st.args|
  {
    var script := e.behavior.before;
    var written := if script.rewrite.Some?
      then SetArgumentValue(st.args, script.rewrite.value.position, script.rewrite.value.newValue)
      else Ok(st.args);
    match written
    case Err(x) => BeforeRun([Before(e.order)], st, Some(x))
    case Ok(args) =>
      var slot := if script.returnOverride.Some? then OverrideSlot(returnType, script.returnOverride.value) else st.slot;
      BeforeRun([Before(e.order)], BeforeState(args, slot, st.bypassed || script.bypass),
                if script.throws then Some(BeforeHookFailed(e.order)) else None)
  }

  /** The before hooks in the given order; the first exception stops the loop. */
  function RunBefore(es: seq<Entry>, returnType: ClrType, st: BeforeState): (r: BeforeRun)
    requires SlotFits(returnType, st.slot)
    ensures SlotFits(returnType, r.state.slot)
    ensures |r.state.args| == |st.args|
  {
    if es == [] then BeforeRun([], st, None)
    else
      var h := BeforeHook(es[0], returnType, st);
      if h.failure.Some? then h
      else PrependBefore(h.trace, RunBefore(es[1..], returnType, h.state))
  }

  function PrependBefore(done: seq<Event>, r: BeforeRun): BeforeRun
  {
    r.(trace := done + r.trace)
  }

  lemma PrependBeforeTwice(a: seq<Event>, b: seq<Event>, r: BeforeRun)
    ensures PrependBefore(a, PrependBefore(b, r)) == PrependBefore(a + b, r)
  {
    assert a + (b + r.trace) == (a + b) + r.trace;
  }

  /** A hook's bypass only adds to the flag it starts from. */
  lemma BeforeHookFlag(e: Entry, returnType: ClrType, args: seq<Value>, slot: ReturnSlot, bypassed: bool)
    requires SlotFits(returnType, slot)
    ensures var h := BeforeHook(e, returnType, BeforeState(args, slot, false));
      BeforeHook(e, returnType, BeforeState(args, slot, bypassed))
      == h.(state := h.state.(bypassed := h.state.bypassed || bypassed))
  {
  }

  /** One iteration of the before loop, unfolded at position `i`. */
  lemma BeforeStep(es: seq<Entry>, i: int, returnType: ClrType, st: BeforeState)
    requires 0 <= i < |es| && SlotFits(returnType, st.slot)
    ensures var h := BeforeHook(es[i], returnType, st);
      RunBefore(es[i..], returnType, st)
      == if h.failure.Some? then h else PrependBefore(h.trace, RunBefore(es[i + 1..], returnType, h.state))
  {
    assert es[i..][1..] == es[i + 1..];
  }

  /** When the before loop completes, the call is bypassed exactly when some hook bypassed it. */
  lemma {:induction false} RunBeforeBypass(es: seq<Entry>, returnType: ClrType, st: BeforeState)
    requires SlotFits(returnType, st.slot)
    requires RunBefore(es, returnType, st).failure.None?
    ensures RunBefore(es, returnType, st).state.bypassed
        <==> st.bypassed || exists j :: 0 <= j < |es| && es[j].behavior.before.bypass
  {
    if es != [] {
      var h := BeforeHook(es[0], returnType, st);
      RunBeforeBypass(es[1..], returnType, h.state);
      assert forall j :: 1 <= j < |es| ==> es[1..][j - 1] == es[j];
      if RunBefore(es[1..], returnType, h.state).state.bypassed && !st.bypassed && !es[0].behavior.before.bypass {
        var j :| 0 <= j < |es[1..]| && es[1..][j].behavior.before.bypass;
        assert es[j + 1].behavior.before.bypass;
      }
    }
  }

  // The after phase

  datatype AfterRun = AfterRun(trace: seq<Event>, failure: Option<Exception>)

  /**
   * One iteration of the `finally` loop: read `GetMethodReturnValue()`, which
   * may throw, then call `AfterInvoke` with it, which may throw.
   */
  function AfterHook(e: Entry, returnType: ClrType, errored: bool, slot: ReturnSlot): AfterRun
    requires SlotFits(returnType, slot)
  {
    match ReadReturnValue(returnType, errored, slot)
    case Err(x) => AfterRun([], Some(x))
    case Ok(v) =>
      AfterRun([After(e.order, errored, v)], if e.behavior.afterThrows then Some(AfterHookFailed(e.order)) else None)
  }

  /** The after hooks in the given order; an exception leaves the loop at once. */
  function RunAfter(es: seq<Entry>, returnType: ClrType, errored: bool, slot: ReturnSlot): AfterRun
    requires SlotFits(returnType, slot)
  {
    if es == [] then AfterRun([], None)
    else
      var h := AfterHook(es[0], returnType, errored, slot);
      if h.failure.Some? then h
      else PrependAfter(h.trace, RunAfter(es[1..], returnType, errored, slot))
  }

  function PrependAfter(done: seq<Event>, r: AfterRun): AfterRun
  {
    r.(trace := done + r.trace)
  }

  lemma PrependAfterTwice(a: seq<Event>, b: seq<Event>, r: AfterRun)
    ensures PrependAfter(a, PrependAfter(b, r)) == PrependAfter(a + b, r)
  {
    assert a + (b + r.trace) == (a + b) + r.trace;
  }

  /** One iteration of the after loop, unfolded at position `i`. */
  lemma AfterStep(es: seq<Entry>, i: int, returnType: ClrType, errored: bool, slot: ReturnSlot)
    requires 0 <= i < |es| && SlotFits(returnType, slot)
    ensures var h := AfterHook(es[i], returnType, errored, slot);
      RunAfter(es[i..], returnType, errored, slot)
      == if h.failure.Some? then h else PrependAfter(h.trace, RunAfter(es[i + 1..], returnType, errored, slot))
  {
    assert es[i..][1..] == es[i + 1..];
  }

  // Proceed and the wait

  /** `Task.WaitAll` on the settled task left in the return slot; a null task is refused. */
  function WaitForTask(slot: ReturnSlot): Option<Exception>
  {
    if slot.FaultedResultTask? || slot.FaultedVoidTask? then Some(TaskFaulted)
    else if slot.Plain? then Some(NullTaskWaited)
    else None
  }

  /** The exception the `try` block raises after `Proceed`, if any. */
  function ProceedException(returnType: ClrType, o: ProceedOutcome, slot: ReturnSlot): Option<Exception>
  {
    if o.Fails? then Some(ProceedFailed)
    else if CheckIfMethodIsAsync(returnType) then WaitForTask(ProceededSlot(returnType, o, slot))
    else None
  }

  /** The whole interception: its outcome, its trace and the call's final arguments and return slot. */
  datatype Dispatch = Dispatch(outcome: Outcome, trace: seq<Event>, args: seq<Value>, slot: ReturnSlot)

  /** The configuration as `Intercept` reads it. */
  datatype InterceptSettings = InterceptSettings(mappings: seq<InterceptorMapping>, ignoreInvalid: bool, strategy: OrderingStrategy)

  /** An exception from the `finally` block replaces the one pending from the `try` block. */
  function Finish(afterFailure: Option<Exception>, pending: Option<Exception>): Outcome
  {
    if afterFailure.Some? then Threw(afterFailure.value)
    else if pending.Some? then Threw(pending.value)
    else Returned
  }

  /** The reference definition of one interception. */
  function InterceptSpec(m: MethodInfo, settings: InterceptSettings, activate: InterceptorType -> Behavior,
                         target: seq<Value> -> ProceedOutcome, args: seq<Value>, slot: ReturnSlot): Dispatch
    requires SlotFits(m.returnType, slot) && ProceedFits(m.returnType, target)
  {
    match Resolve(m.targetAttributes, settings.mappings, settings.ignoreInvalid)
    case Err(x) => Dispatch(Threw(x), [], args, slot)
    case Ok(bindings) =>
      if |bindings| == 0 then
        var o := target(args);
        Dispatch(if o.Fails? then Threw(ProceedFailed) else Returned, [Proceed], args, ProceededSlot(m.returnType, o, slot))
      else RunContexts(Entries(bindings, activate), settings.strategy, m.returnType, target, args, slot)
  }

  /** The interception once there is at least one context: before hooks, the `try` block and the `finally` block. */
  function RunContexts(es: seq<Entry>, strategy: OrderingStrategy, rt: ClrType,
                       target: seq<Value> -> ProceedOutcome, args: seq<Value>, slot: ReturnSlot): Dispatch
    requires SlotFits(rt, slot) && ProceedFits(rt, target)
  {
    var b := RunBefore(OrderBeforeInterception(strategy, es), rt, BeforeState(args, slot, false));
    if b.failure.Some? then Dispatch(Threw(b.failure.value), b.trace, b.state.args, b.state.slot)
    else if b.state.bypassed then
      var a := RunAfter(OrderAfterInterception(strategy, es), rt, false, b.state.slot);
      Dispatch(Finish(a.failure, None), b.trace + a.trace, b.state.args, b.state.slot)
    else
      var o := target(b.state.args);
      var slot' := ProceededSlot(rt, o, b.state.slot);
      var pending := ProceedException(rt, o, b.state.slot);
      var a := RunAfter(OrderAfterInterception(strategy, es), rt, pending.Some?, slot');
      Dispatch(Finish(a.failure, pending), b.trace + [Proceed] + a.trace, b.state.args, slot')
  }

  // The imperative pipeline

  /** `invocationContext.Interceptor.BeforeInvoke(invocationContext)` for a scripted interceptor. */
  method BeforeInvoke(c: InvocationContext) returns (events: seq<Event>, failure: Option<Exception>)
    requires c.invocation.Valid()
    modifies c`invocationIsBypassed, c.invocation
    ensures c.invocation.Valid()
    ensures var h := BeforeHook(Entry(c.order, c.interceptor), c.invocation.methodInfo.returnType,
                                BeforeState(old(c.invocation.arguments), old(c.invocation.returnValue),
                                            old(c.invocationIsBypassed)));
      && events == h.trace && failure == h.failure
      && c.invocation.arguments == h.state.args && c.invocation.returnValue == h.state.slot
      && c.invocationIsBypassed == h.state.bypassed
  {
    events := [Before(c.order)];
    var script := c.interceptor.before;
    if script.rewrite.Some? {
      failure := c.SetParameterValue(script.rewrite.value.position, script.rewrite.value.newValue);
      if failure.Some? {
        return;
      }
    }
    if script.returnOverride.Some? {
      c.OverrideMethodReturnValue(script.returnOverride.value);
    }
    if script.bypass {
      c.BypassInvocation();
    }
    failure := if script.throws then Some(BeforeHookFailed(c.order)) else None;
  }

  /**
   * One iteration of the `finally` loop: read the return value, then call
   * `Interceptor.AfterInvoke` with it, here the scripted interceptor's hook.
   */
  method AfterOne(c: InvocationContext) returns (events: seq<Event>, failure: Option<Exception>)
    requires c.invocation.Valid()
    ensures AfterHook(Entry(c.order, c.interceptor), c.invocation.methodInfo.returnType,
                      c.invocationIsInErrorState, c.invocation.returnValue) == AfterRun(events, failure)
  {
    var read := c.GetMethodReturnValue();
    if read.Err? {
      return [], Some(read.error);
    }
    events := [After(c.order, c.CheckIfInvocationInErrorState(), read.value)];
    failure := if c.interceptor.afterThrows then Some(AfterHookFailed(c.order)) else None;
  }

  /** The contexts in `order` stand for `es`, position by position, and all share `invocation`. */
  ghost predicate Represents(order: seq<InvocationContext>, es: seq<Entry>, invocation: Invocation)
  {
    && |order| == |es|
    && forall j :: 0 <= j < |order| ==>
         order[j].invocation == invocation && Entry(order[j].order, order[j].interceptor) == es[j]
  }

  /** The `foreach` over `OrderBeforeInterception`, calling each before hook. */
  method BeforePhase(contexts: seq<InvocationContext>, ghost es: seq<Entry>, invocation: Invocation)
    returns (trace: seq<Event>, failure: Option<Exception>)
    requires Represents(contexts, es, invocation) && invocation.Valid()
    requires forall j, k :: 0 <= j < k < |contexts| ==> contexts[j] != contexts[k]
    requires forall j :: 0 <= j < |contexts| ==> !contexts[j].invocationIsBypassed
    modifies contexts`invocationIsBypassed, invocation
    ensures invocation.Valid()
    ensures var b := RunBefore(es, invocation.methodInfo.returnType,
                               BeforeState(old(invocation.arguments), old(invocation.returnValue), false));
      && trace == b.trace && failure == b.failure
      && invocation.arguments == b.state.args && invocation.returnValue == b.state.slot
      && (failure.None? ==>
            forall j :: 0 <= j < |contexts| ==> contexts[j].invocationIsBypassed == es[j].behavior.before.bypass)
  {
    ghost var rt := invocation.methodInfo.returnType;
    ghost var st0 := BeforeState(invocation.arguments, invocation.returnValue, false);
    ghost var anyBypassed := false;
    trace := [];
    var i := 0;
    assert es[0..] == es;
    while i < |contexts|
      invariant 0 <= i <= |contexts|
      invariant invocation.Valid()
      invariant RunBefore(es, rt, st0)
             == PrependBefore(trace, RunBefore(es[i..], rt,
                                               BeforeState(invocation.arguments, invocation.returnValue, anyBypassed)))
      invariant forall j :: 0 <= j < i ==> contexts[j].invocationIsBypassed == es[j].behavior.before.bypass
      invariant forall j :: i <= j < |contexts| ==> !contexts[j].invocationIsBypassed
    {
      var c := contexts[i];
      assert c.invocation == invocation && Entry(c.order, c.interceptor) == es[i] && !c.invocationIsBypassed;
      ghost var args, slot, wasBypassed := invocation.arguments, invocation.returnValue, anyBypassed;
      BeforeStep(es, i, rt, BeforeState(args, slot, anyBypassed));
      BeforeHookFlag(es[i], rt, args, slot, anyBypassed);
      ghost var h := BeforeHook(es[i], rt, BeforeState(args, slot, false));
      var events, hookFailure := BeforeInvoke(c);
      assert events == h.trace && hookFailure == h.failure;
      if hookFailure.Some? {
        trace := trace + events;
        failure := hookFailure;
        return;
      }
      assert c.invocationIsBypassed == es[i].behavior.before.bypass;
      anyBypassed := anyBypassed || c.invocationIsBypassed;
      ghost var rest := RunBefore(es[i + 1..], rt, BeforeState(invocation.arguments, invocation.returnValue, anyBypassed));
      assert BeforeState(invocation.arguments, invocation.returnValue, anyBypassed)
          == h.state.(bypassed := h.state.bypassed || wasBypassed);
      assert RunBefore(es[i..], rt, BeforeState(args, slot, wasBypassed)) == PrependBefore(events, rest);
      PrependBeforeTwice(trace, events, rest);
      trace := trace + events;
      i := i + 1;
    }
    failure := None;
  }

  /** The `catch` block's loop: every context is put in error state. */
  method MarkErrored(contexts: seq<InvocationContext>)
    modifies contexts`invocationIsInErrorState
    ensures forall j :: 0 <= j < |contexts| ==> contexts[j].invocationIsInErrorState
  {
    for j := 0 to |contexts|
      invariant forall k :: 0 <= k < j ==> contexts[k].invocationIsInErrorState
    {
      contexts[j].SetInvocationInErrorState();
    }
  }

  /**
   * The `finally` block's loop over `OrderAfterInterception`: each after hook
   * receives its context's `GetMethodReturnValue()`; the first exception ends it.
   */
  method AfterPhase(contexts: seq<InvocationContext>, ghost es: seq<Entry>, ghost errored: bool, invocation: Invocation)
    returns (trace: seq<Event>, failure: Option<Exception>)
    requires Represents(contexts, es, invocation) && invocation.Valid()
    requires forall j :: 0 <= j < |contexts| ==> contexts[j].invocationIsInErrorState == errored
    ensures RunAfter(es, invocation.methodInfo.returnType, errored, invocation.returnValue) == AfterRun(trace, failure)
  {
    ghost var rt := invocation.methodInfo.returnType;
    trace := [];
    var i := 0;
    assert es[0..] == es;
    while i < |contexts|
      invariant 0 <= i <= |contexts|
      invariant RunAfter(es, rt, errored, invocation.returnValue)
             == PrependAfter(trace, RunAfter(es[i..], rt, errored, invocation.returnValue))
    {
      var c := contexts[i];
      assert c.invocation == invocation && Entry(c.order, c.interceptor) == es[i] && c.invocationIsInErrorState == errored;
      AfterStep(es, i, rt, errored, invocation.returnValue);
      var events, hookFailure := AfterOne(c);
      assert AfterHook(es[i], rt, errored, invocation.returnValue) == AfterRun(events, hookFailure);
      if hookFailure.Some? {
        trace := trace + events;
        failure := hookFailure;
        return;
      }
      PrependAfterTwice(trace, events, RunAfter(es[i + 1..], rt, errored, invocation.returnValue));
      trace := trace + events;
      i := i + 1;
    }
    failure := None;
  }

  /**
   * The `try` block when nothing bypassed the call, with its `catch`: proceed,
   * wait for an async method's task, and on failure mark every context errored.
   */
  method ProceedPhase(afterOrder: seq<InvocationContext>, invocation: Invocation, target: seq<Value> -> ProceedOutcome)
    returns (pending: Option<Exception>)
    requires invocation.Valid() && ProceedFits(invocation.methodInfo.returnType, target)
    requires forall j :: 0 <= j < |afterOrder| ==> !afterOrder[j].invocationIsInErrorState
    modifies invocation`returnValue, afterOrder`invocationIsInErrorState
    ensures invocation.Valid()
    ensures invocation.returnValue
         == ProceededSlot(invocation.methodInfo.returnType, target(invocation.arguments), old(invocation.returnValue))
    ensures pending == ProceedException(invocation.methodInfo.returnType, target(invocation.arguments), old(invocation.returnValue))
    ensures forall j :: 0 <= j < |afterOrder| ==> afterOrder[j].invocationIsInErrorState == pending.Some?
  {
    pending := invocation.Proceed(target);
    if pending.None? && CheckIfMethodIsAsync(invocation.methodInfo.returnType) {
      pending := WaitForTask(invocation.returnValue);
    }
    if pending.Some? {
      MarkErrored(afterOrder);
    }
  }

  /** The after order of the contexts stands for the after order of their entries, none of them errored. */
  lemma AfterOrderRepresents(strategy: OrderingStrategy, contexts: seq<InvocationContext>, es: seq<Entry>,
                             invocation: Invocation)
    requires Represents(contexts, es, invocation)
    requires forall j :: 0 <= j < |contexts| ==> !contexts[j].invocationIsInErrorState
    ensures Represents(OrderAfterInterception(strategy, contexts), OrderAfterInterception(strategy, es), invocation)
    ensures var afterOrder := OrderAfterInterception(strategy, contexts);
      forall j :: 0 <= j < |afterOrder| ==> !afterOrder[j].invocationIsInErrorState
  {
    var afterOrder := OrderAfterInterception(strategy, contexts);
    var afterEntries := OrderAfterInterception(strategy, es);
    forall j | 0 <= j < |afterOrder|
      ensures afterOrder[j].invocation == invocation
      ensures Entry(afterOrder[j].order, afterOrder[j].interceptor) == afterEntries[j]
      ensures !afterOrder[j].invocationIsInErrorState
    {
      AfterOrderAt(strategy, contexts, j);
      AfterOrderAt(strategy, es, j);
    }
  }

  /** `Intercept` from the first `foreach` on, for a non-empty context list. */
  method InterceptContexts(contexts: seq<InvocationContext>, ghost es: seq<Entry>, strategy: OrderingStrategy,
                           invocation: Invocation, target: seq<Value> -> ProceedOutcome)
    returns (outcome: Outcome, trace: seq<Event>)
    requires invocation.Valid() && ProceedFits(invocation.methodInfo.returnType, target)
    requires Represents(contexts, es, invocation)
    requires forall j, k :: 0 <= j < k < |contexts| ==> contexts[j] != contexts[k]
    requires forall j :: 0 <= j < |contexts| ==>
               !contexts[j].invocationIsBypassed && !contexts[j].invocationIsInErrorState
    modifies contexts`invocationIsBypassed, contexts`invocationIsInErrorState, invocation
    ensures invocation.Valid()
    ensures var d := RunContexts(es, strategy, invocation.methodInfo.returnType, target,
                                 old(invocation.arguments), old(invocation.returnValue));
      && outcome == d.outcome && trace == d.trace
      && invocation.arguments == d.args && invocation.returnValue == d.slot
  {
    ghost var rt := invocation.methodInfo.returnType;
    ghost var b := RunBefore(es, rt, BeforeState(invocation.arguments, invocation.returnValue, false));
    var afterOrder := OrderAfterInterception(strategy, contexts);
    ghost var afterEntries := OrderAfterInterception(strategy, es);
    AfterOrderRepresents(strategy, contexts, es, invocation);

    var beforeOrder := OrderBeforeInterception(strategy, contexts);
    BeforeIsDeclarationOrder(strategy, contexts);
    BeforeIsDeclarationOrder(strategy, es);
    var beforeFailure;
    trace, beforeFailure := BeforePhase(beforeOrder, es, invocation);
    if beforeFailure.Some? {
      outcome := Threw(beforeFailure.value);
      return;
    }

    // try / catch
    var pending: Option<Exception> := None;
    var bypassed := exists j :: 0 <= j < |contexts| && contexts[j].invocationIsBypassed;
    assert bypassed == b.state.bypassed by {
      RunBeforeBypass(es, rt, BeforeState(old(invocation.arguments), old(invocation.returnValue), false));
      if b.state.bypassed {
        var j :| 0 <= j < |es| && es[j].behavior.before.bypass;
        assert contexts[j].invocationIsBypassed;
      }
    }
    if !bypassed {
      trace := trace + [Proceed];
      pending := ProceedPhase(afterOrder, invocation, target);
      assert pending == ProceedException(rt, target(b.state.args), b.state.slot);
    }

    // finally
    var afterTrace, afterFailure := AfterPhase(afterOrder, afterEntries, pending.Some?, invocation);
    assert AfterRun(afterTrace, afterFailure) == RunAfter(afterEntries, rt, pending.Some?, invocation.returnValue);
    trace := trace + afterTrace;
    outcome := Finish(afterFailure, pending);
  }

  /** The interceptor the proxy routes every call of the proxied object through. */
  class CoreInterceptor {
    const proxyConfiguration: CoreProxyConfiguration
    /** Interceptor construction through the service provider, left opaque. */
    const activate: InterceptorType -> Behavior

    constructor (activate: InterceptorType -> Behavior, proxyConfiguration: CoreProxyConfiguration)
      ensures this.activate == activate && this.proxyConfiguration == proxyConfiguration
    {
      this.activate := activate;
      this.proxyConfiguration := proxyConfiguration;
    }

    ghost function Settings(): InterceptSettings
      reads proxyConfiguration
    {
      InterceptSettings(proxyConfiguration.configuredInterceptors, proxyConfiguration.ignoreInvalidInterceptors,
                        proxyConfiguration.orderingStrategy)
    }

    /** Intercepts one call; `target` is the proxied method's body as `Proceed` runs it. */
    method Intercept(invocation: Invocation, target: seq<Value> -> ProceedOutcome)
      returns (outcome: Outcome, trace: seq<Event>)
      requires invocation.Valid() && ProceedFits(invocation.methodInfo.returnType, target)
      modifies invocation
      ensures invocation.Valid()
      ensures var d := InterceptSpec(invocation.methodInfo, Settings(), activate, target,
                                     old(invocation.arguments), old(invocation.returnValue));
        && outcome == d.outcome && trace == d.trace
        && invocation.arguments == d.args && invocation.returnValue == d.slot
    {
      var resolved := GetInterceptorContextForMethod(invocation, proxyConfiguration, activate);
      if resolved.Err? {
        return Threw(resolved.error), [];
      }
      var invocationContextList := resolved.value;
      ghost var bindings := Resolve(invocation.methodInfo.targetAttributes, proxyConfiguration.configuredInterceptors,
                                    proxyConfiguration.ignoreInvalidInterceptors).value;
      ghost var es := Entries(bindings, activate);

      if |invocationContextList| == 0 {
        trace := [Proceed];
        var failure := invocation.Proceed(target);
        outcome := if failure.Some? then Threw(failure.value) else Returned;
        return;
      }
      outcome, trace := InterceptContexts(invocationContextList, es, proxyConfiguration.orderingStrategy,
                                          invocation, target);
    }
  }
}
