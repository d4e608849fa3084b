/**
 * What one interception does, proved about the reference definition that
 * `CoreInterceptor.Intercept` is shown to implement.
 */
module DispatchProperties {
  import opened Wrappers
  import opened Reflection
  import opened AsyncMethods
  import opened Invocations
  import opened Behaviors
  import opened InvocationContexts
  import opened InvocationExtensions
  import opened OrderingStrategies
  import opened CoreInterceptors

  // The before loop

  /** The before hook of `e` throws on a call with `arity` arguments: a rewrite out of range, or its own exception. */
  predicate BeforeHookThrows(e: Entry, arity: nat)
  {
    var s := e.behavior.before;
    (s.rewrite.Some? && !(0 <= s.rewrite.value.position < arity)) || s.throws
  }

  /** The exception that leaves a throwing before hook. */
  function BeforeHookException(e: Entry, arity: nat): Exception
  {
    var s := e.behavior.before;
    if s.rewrite.Some? && !(0 <= s.rewrite.value.position < arity) then IndexOutOfRange else BeforeHookFailed(e.order)
  }

  /** The before hook of `e` writes the argument at `position`. */
  predicate Writes(e: Entry, position: int)
  {
    e.behavior.before.rewrite.Some? && e.behavior.before.rewrite.value.position == position
  }

  /** The before hook of `e` overrides the return value. */
  predicate Overrides(e: Entry)
  {
    e.behavior.before.returnOverride.Some?
  }

  /**
   * The before loop calls the hooks in order, one event each, and stops right
   * after the first that throws; it fails exactly when some hook throws; when
   * it completes, the call is bypassed exactly when some hook bypassed it.
   */
  lemma {:induction false} RunBeforeShape(es: seq<Entry>, rt: ClrType, st: BeforeState)
    requires SlotFits(rt, st.slot)
    ensures var r := RunBefore(es, rt, st);
      && |r.trace| <= |es|
      && (forall j {:trigger r.trace[j]} :: 0 <= j < |r.trace| ==> r.trace[j] == Before(es[j].order))
      && (forall j :: 0 <= j < |r.trace| - 1 ==> !BeforeHookThrows(es[j], |st.args|))
      && (r.failure.None? <==> forall j :: 0 <= j < |es| ==> !BeforeHookThrows(es[j], |st.args|))
      && (r.failure.None? ==> |r.trace| == |es|)
      && (r.failure.Some? ==> 0 < |r.trace| && BeforeHookThrows(es[|r.trace| - 1], |st.args|)
                              && r.failure.value == BeforeHookException(es[|r.trace| - 1], |st.args|))
      && (r.failure.None? ==>
            (r.state.bypassed <==> st.bypassed || exists j :: 0 <= j < |es| && es[j].behavior.before.bypass))
  {
    if es != [] {
      var h := BeforeHook(es[0], rt, st);
      assert forall j :: 1 <= j < |es| ==> es[1..][j - 1] == es[j];
      if h.failure.None? {
        RunBeforeShape(es[1..], rt, h.state);
        var rest := RunBefore(es[1..], rt, h.state);
        assert RunBefore(es, rt, st) == PrependBefore([Before(es[0].order)], rest);
        if rest.failure.None? && rest.state.bypassed && !st.bypassed && !es[0].behavior.before.bypass {
          var j :| 0 <= j < |es[1..]| && es[1..][j].behavior.before.bypass;
          assert es[j + 1].behavior.before.bypass;
        }
      }
    }
  }

  /**
   * When the before loop completes, an argument no hook writes keeps its
   * value, and one that hooks write holds the value of the last write.
   */
  lemma {:induction false} RunBeforeArguments(es: seq<Entry>, rt: ClrType, st: BeforeState, position: int)
    requires SlotFits(rt, st.slot) && 0 <= position < |st.args|
    requires RunBefore(es, rt, st).failure.None?
    ensures (forall j :: 0 <= j < |es| ==> !Writes(es[j], position)) ==>
      RunBefore(es, rt, st).state.args[position] == st.args[position]
    ensures forall j :: 0 <= j < |es| && Writes(es[j], position) && (forall k :: j < k < |es| ==> !Writes(es[k], position)) ==>
              RunBefore(es, rt, st).state.args[position] == es[j].behavior.before.rewrite.value.newValue
  {
    if es != [] {
      var h := BeforeHook(es[0], rt, st);
      assert forall j :: 1 <= j < |es| ==> es[1..][j - 1] == es[j];
      RunBeforeArguments(es[1..], rt, h.state, position);
      assert RunBefore(es, rt, st).state == RunBefore(es[1..], rt, h.state).state;
    }
  }

  /**
   * When the before loop completes, the return slot is untouched if no hook
   * overrides it, and holds the last override otherwise.
   */
  lemma {:induction false} RunBeforeOverride(es: seq<Entry>, rt: ClrType, st: BeforeState)
    requires SlotFits(rt, st.slot)
    requires RunBefore(es, rt, st).failure.None?
    ensures (forall j :: 0 <= j < |es| ==> !Overrides(es[j])) ==> RunBefore(es, rt, st).state.slot == st.slot
    ensures forall j :: 0 <= j < |es| && Overrides(es[j]) && (forall k :: j < k < |es| ==> !Overrides(es[k])) ==>
              RunBefore(es, rt, st).state.slot == OverrideSlot(rt, es[j].behavior.before.returnOverride.value)
  {
    if es != [] {
      var h := BeforeHook(es[0], rt, st);
      assert forall j :: 1 <= j < |es| ==> es[1..][j - 1] == es[j];
      RunBeforeOverride(es[1..], rt, h.state);
      assert RunBefore(es, rt, st).state == RunBefore(es[1..], rt, h.state).state;
    }
  }

  // The after loop

  /**
   * Every after hook is handed the same value, read once per context from the
   * same slot. If that read throws, no hook runs. Otherwise the hooks run in
   * order, one event each, and the first that throws ends the loop.
   */
  lemma RunAfterShape(es: seq<Entry>, rt: ClrType, errored: bool, slot: ReturnSlot)
    requires SlotFits(rt, slot)
    ensures var r := RunAfter(es, rt, errored, slot);
      match ReadReturnValue(rt, errored, slot)
      case Err(x) => r == AfterRun([], if es == [] then None else Some(x))
      case Ok(v) =>
        && |r.trace| <= |es|
        && (forall j {:trigger r.trace[j]} :: 0 <= j < |r.trace| ==> r.trace[j] == After(es[j].order, errored, v))
        && (forall j :: 0 <= j < |r.trace| - 1 ==> !es[j].behavior.afterThrows)
        && (r.failure.None? <==> forall j :: 0 <= j < |es| ==> !es[j].behavior.afterThrows)
        && (r.failure.None? ==> |r.trace| == |es|)
        && (r.failure.Some? ==> 0 < |r.trace| && es[|r.trace| - 1].behavior.afterThrows
                                && r.failure.value == AfterHookFailed(es[|r.trace| - 1].order))
  {
    if ReadReturnValue(rt, errored, slot).Ok? {
      RunAfterHooks(es, rt, errored, slot, ReadReturnValue(rt, errored, slot).value);
    }
  }

  /** The after loop once the read succeeds with `v`. */
  lemma {:induction false} RunAfterHooks(es: seq<Entry>, rt: ClrType, errored: bool, slot: ReturnSlot, v: Value)
    requires SlotFits(rt, slot) && ReadReturnValue(rt, errored, slot) == Ok(v)
    ensures var r := RunAfter(es, rt, errored, slot);
      && |r.trace| <= |es|
      && (forall j {:trigger r.trace[j]} :: 0 <= j < |r.trace| ==> r.trace[j] == After(es[j].order, errored, v))
      && (forall j :: 0 <= j < |r.trace| - 1 ==> !es[j].behavior.afterThrows)
      && (r.failure.None? <==> forall j :: 0 <= j < |es| ==> !es[j].behavior.afterThrows)
      && (r.failure.None? ==> |r.trace| == |es|)
      && (r.failure.Some? ==> 0 < |r.trace| && es[|r.trace| - 1].behavior.afterThrows
                              && r.failure.value == AfterHookFailed(es[|r.trace| - 1].order))
  {
    if es != [] {
      var r := RunAfter(es, rt, errored, slot);
      if es[0].behavior.afterThrows {
        assert r == AfterRun([After(es[0].order, errored, v)], Some(AfterHookFailed(es[0].order)));
      } else {
        assert forall j :: 1 <= j < |es| ==> es[1..][j - 1] == es[j];
        RunAfterHooks(es[1..], rt, errored, slot, v);
        var rest := RunAfter(es[1..], rt, errored, slot);
        assert r == AfterRun([After(es[0].order, errored, v)] + rest.trace, rest.failure);
      }
    }
  }

  // One interception with at least one context

  /** No before hook throws on a call with `arity` arguments. */
  predicate BeforeHooksComplete(es: seq<Entry>, arity: nat)
  {
    forall j :: 0 <= j < |es| ==> !BeforeHookThrows(es[j], arity)
  }

  /** Some before hook bypasses the call. */
  predicate SomeBypass(es: seq<Entry>)
  {
    exists j :: 0 <= j < |es| && es[j].behavior.before.bypass
  }

  /** No after hook throws. */
  predicate AfterHooksComplete(es: seq<Entry>)
  {
    forall j :: 0 <= j < |es| ==> !es[j].behavior.afterThrows
  }

  /** The trace holds no call of the target. */
  predicate HooksOnly(trace: seq<Event>)
  {
    forall j :: 0 <= j < |trace| ==> !trace[j].Proceed?
  }

  /** Positions in a trace made of before events, `Proceed` and after events. */
  lemma SplitAtProceed(t: seq<Event>, t1: seq<Event>, t2: seq<Event>)
    requires t == t1 + [Proceed] + t2
    ensures |t| == |t1| + 1 + |t2| && t[|t1|] == Proceed
    ensures forall j :: 0 <= j < |t1| ==> t[j] == t1[j]
    ensures forall j :: |t1| < j < |t| ==> t[j] == t2[j - |t1| - 1]
  {
  }

  /** Positions in a trace made of before events followed by after events. */
  lemma SplitAfterBefore(t: seq<Event>, t1: seq<Event>, t2: seq<Event>)
    requires t == t1 + t2
    ensures |t| == |t1| + |t2|
    ensures forall j :: 0 <= j < |t1| ==> t[j] == t1[j]
    ensures forall j :: 0 <= j < |t2| ==> t[|t1| + j] == t2[j]
  {
  }

  /**
   * A dispatch whose trace ends with the after loop's events, one per hook of
   * `after` that ran, each handed `v`.
   */
  lemma AfterPartDispatch(d: Dispatch, t1: seq<Event>, a: AfterRun, pending: Option<Exception>,
                          after: seq<Entry>, errored: bool, v: Value)
    requires d.trace == t1 + a.trace && d.outcome == Finish(a.failure, pending) && |a.trace| <= |after|
    requires forall j :: 0 <= j < |a.trace| ==> a.trace[j] == After(after[j].order, errored, v)
    requires AfterHooksComplete(after) ==> a.failure.None? && |a.trace| == |after|
    ensures |t1| <= |d.trace| <= |t1| + |after|
    ensures forall j :: 0 <= j < |d.trace| - |t1| ==> d.trace[|t1| + j] == After(after[j].order, errored, v)
    ensures AfterHooksComplete(after) ==> |d.trace| == |t1| + |after| && d.outcome == Finish(None, pending)
  {
    SplitAfterBefore(d.trace, t1, a.trace);
  }

  /**
   * A dispatch on the path that calls the target whose after loop ran hooks
   * `0` to `k` of `after` and failed with hook `k`'s exception.
   */
  lemma AfterFailureDispatch(d: Dispatch, t1: seq<Event>, a: AfterRun, pending: Option<Exception>,
                             after: seq<Entry>, k: int)
    requires d.trace == t1 + [Proceed] + a.trace && d.outcome == Finish(a.failure, pending)
    requires |a.trace| == k + 1 && 0 <= k < |after| && a.failure == Some(AfterHookFailed(after[k].order))
    requires forall j :: 0 <= j <= k ==> a.trace[j].After? && a.trace[j].order == after[j].order
    ensures |d.trace| == |t1| + 1 + k + 1 && d.trace[|t1|] == Proceed
    ensures forall j :: 0 <= j <= k ==> d.trace[|t1| + 1 + j].After? && d.trace[|t1| + 1 + j].order == after[j].order
    ensures d.outcome == Threw(AfterHookFailed(after[k].order))
  {
    SplitAtProceed(d.trace, t1, a.trace);
  }

  /**
   * When hook `k` is the first in `es` whose after hook throws, the after loop
   * runs hooks `0` to `k` and fails with hook `k`'s exception.
   */
  lemma AfterLoopStopsAt(es: seq<Entry>, rt: ClrType, errored: bool, slot: ReturnSlot, v: Value, k: int)
    requires SlotFits(rt, slot) && ReadReturnValue(rt, errored, slot) == Ok(v)
    requires 0 <= k < |es| && es[k].behavior.afterThrows
    requires forall i :: 0 <= i < k ==> !es[i].behavior.afterThrows
    ensures var a := RunAfter(es, rt, errored, slot);
      && |a.trace| == k + 1
      && (forall j :: 0 <= j <= k ==> a.trace[j] == After(es[j].order, errored, v))
      && a.failure == Some(AfterHookFailed(es[k].order))
  {
    RunAfterHooks(es, rt, errored, slot, v);
    var a := RunAfter(es, rt, errored, slot);
    assert a.failure.Some? by {
      assert es[k].behavior.afterThrows;
    }
    var m := |a.trace| - 1;
    assert es[m].behavior.afterThrows;
    assert m == k;
  }

  /** The before phase as the interception runs it, from the call's arguments and return slot. */
  function BeforePhaseOf(es: seq<Entry>, rt: ClrType, args: seq<Value>, slot: ReturnSlot): (b: BeforeRun)
    requires SlotFits(rt, slot)
    ensures SlotFits(rt, b.state.slot) && |b.state.args| == |args|
  {
    RunBefore(es, rt, BeforeState(args, slot, false))
  }

  /** When no before hook throws, the before loop emits one event per hook, in declaration order. */
  lemma BeforeHooksAllRun(es: seq<Entry>, rt: ClrType, args: seq<Value>, slot: ReturnSlot)
    requires SlotFits(rt, slot) && BeforeHooksComplete(es, |args|)
    ensures var b := BeforePhaseOf(es, rt, args, slot);
      && b.failure.None?
      && |b.trace| == |es| && (forall j :: 0 <= j < |es| ==> b.trace[j] == Before(es[j].order))
      && (b.state.bypassed <==> SomeBypass(es))
  {
    RunBeforeShape(es, rt, BeforeState(args, slot, false));
  }

  /** The path that calls the target: the before events, `Proceed`, then the after loop. */
  lemma ProceedPath(es: seq<Entry>, s: OrderingStrategy, rt: ClrType,
                    target: seq<Value> -> ProceedOutcome, args: seq<Value>, slot: ReturnSlot)
    requires SlotFits(rt, slot) && ProceedFits(rt, target)
    requires BeforeHooksComplete(es, |args|) && !SomeBypass(es)
    ensures var b := BeforePhaseOf(es, rt, args, slot);
      var o := target(b.state.args);
      var pending := ProceedException(rt, o, b.state.slot);
      var a := RunAfter(OrderAfterInterception(s, es), rt, pending.Some?, ProceededSlot(rt, o, b.state.slot));
      var d := RunContexts(es, s, rt, target, args, slot);
      && |b.trace| == |es| && (forall j :: 0 <= j < |es| ==> b.trace[j] == Before(es[j].order))
      && d.trace == b.trace + [Proceed] + a.trace
      && d.outcome == Finish(a.failure, pending)
      && d.args == b.state.args && d.slot == ProceededSlot(rt, o, b.state.slot)
  {
    BeforeIsDeclarationOrder(s, es);
    BeforeHooksAllRun(es, rt, args, slot);
  }

  /**
   * The path that calls the target, cut into its parts: the before events,
   * `Proceed`, and an after loop whose read of the return value succeeds.
   */
  lemma ProceedPathParts(es: seq<Entry>, s: OrderingStrategy, rt: ClrType,
                         target: seq<Value> -> ProceedOutcome, args: seq<Value>, slot: ReturnSlot)
    returns (t1: seq<Event>, a: AfterRun, pending: Option<Exception>, errored: bool, slot': ReturnSlot, v: Value)
    requires SlotFits(rt, slot) && ProceedFits(rt, target)
    requires BeforeHooksComplete(es, |args|) && !SomeBypass(es)
    requires !target(BeforePhaseOf(es, rt, args, slot).state.args).AsyncNonGeneric?
    ensures var d := RunContexts(es, s, rt, target, args, slot);
      && |t1| == |es| && d.trace == t1 + [Proceed] + a.trace && d.outcome == Finish(a.failure, pending)
    ensures SlotFits(rt, slot') && ReadReturnValue(rt, errored, slot') == Ok(v)
    ensures a == RunAfter(OrderAfterInterception(s, es), rt, errored, slot') && errored == pending.Some?
    ensures |OrderAfterInterception(s, es)| == |es|
  {
    OrderLengths(s, es);
    ProceedPath(es, s, rt, target, args, slot);
    var b := BeforePhaseOf(es, rt, args, slot);
    var o := target(b.state.args);
    ProceedPathReads(rt, o, b.state.slot);
    t1 := b.trace;
    pending := ProceedException(rt, o, b.state.slot);
    errored := pending.Some?;
    slot' := ProceededSlot(rt, o, b.state.slot);
    v := ReadReturnValue(rt, errored, slot').value;
    a := RunAfter(OrderAfterInterception(s, es), rt, errored, slot');
  }

  /** The bypassing path: the before events, then the after loop on the slot the before hooks left. */
  lemma BypassPath(es: seq<Entry>, s: OrderingStrategy, rt: ClrType,
                   target: seq<Value> -> ProceedOutcome, args: seq<Value>, slot: ReturnSlot)
    requires SlotFits(rt, slot) && ProceedFits(rt, target)
    requires BeforeHooksComplete(es, |args|) && SomeBypass(es)
    ensures var b := BeforePhaseOf(es, rt, args, slot);
      var a := RunAfter(OrderAfterInterception(s, es), rt, false, b.state.slot);
      var d := RunContexts(es, s, rt, target, args, slot);
      && |b.trace| == |es| && (forall j :: 0 <= j < |es| ==> b.trace[j] == Before(es[j].order))
      && d.trace == b.trace + a.trace
      && d.outcome == Finish(a.failure, None)
      && d.args == b.state.args && d.slot == b.state.slot
  {
    BeforeIsDeclarationOrder(s, es);
    BeforeHooksAllRun(es, rt, args, slot);
  }

  /**
   * The bypassing path, cut into its parts: the before events, then an after
   * loop on the slot `slot'` the before hooks left.
   */
  lemma BypassPathParts(es: seq<Entry>, s: OrderingStrategy, rt: ClrType,
                        target: seq<Value> -> ProceedOutcome, args: seq<Value>, slot: ReturnSlot)
    returns (t1: seq<Event>, a: AfterRun, slot': ReturnSlot)
    requires SlotFits(rt, slot) && ProceedFits(rt, target)
    requires BeforeHooksComplete(es, |args|) && SomeBypass(es)
    ensures var d := RunContexts(es, s, rt, target, args, slot);
      && |t1| == |es| && d.trace == t1 + a.trace && d.outcome == Finish(a.failure, None) && d.slot == slot'
    ensures SlotFits(rt, slot') && a == RunAfter(OrderAfterInterception(s, es), rt, false, slot')
    ensures |OrderAfterInterception(s, es)| == |es| && es != []
  {
    OrderLengths(s, es);
    BypassPath(es, s, rt, target, args, slot);
    var b := BeforePhaseOf(es, rt, args, slot);
    t1 := b.trace;
    slot' := b.state.slot;
    a := RunAfter(OrderAfterInterception(s, es), rt, false, slot');
  }

  /**
   * A throwing before hook ends the interception with its exception: the
   * hooks up to it have run, in declaration order, and neither the target nor
   * any after hook runs.
   */
  lemma BeforeFailureStops(es: seq<Entry>, s: OrderingStrategy, rt: ClrType,
                           target: seq<Value> -> ProceedOutcome, args: seq<Value>, slot: ReturnSlot)
    requires SlotFits(rt, slot) && ProceedFits(rt, target)
    requires !BeforeHooksComplete(es, |args|)
    ensures var d := RunContexts(es, s, rt, target, args, slot);
      && 0 < |d.trace| <= |es|
      && (forall j :: 0 <= j < |d.trace| ==> d.trace[j] == Before(es[j].order))
      && (forall j :: 0 <= j < |d.trace| - 1 ==> !BeforeHookThrows(es[j], |args|))
      && BeforeHookThrows(es[|d.trace| - 1], |args|)
      && d.outcome == Threw(BeforeHookException(es[|d.trace| - 1], |args|))
  {
    BeforeIsDeclarationOrder(s, es);
    RunBeforeShape(es, rt, BeforeState(args, slot, false));
  }

  /**
   * When a before hook bypassed the call, the target is not called: the trace
   * holds the before events and then at most one event per after hook, and
   * the return slot is the one the before hooks left.
   */
  lemma BypassSkipsProceed(es: seq<Entry>, s: OrderingStrategy, rt: ClrType,
                           target: seq<Value> -> ProceedOutcome, args: seq<Value>, slot: ReturnSlot)
    requires SlotFits(rt, slot) && ProceedFits(rt, target)
    requires BeforeHooksComplete(es, |args|) && SomeBypass(es)
    ensures var d := RunContexts(es, s, rt, target, args, slot);
      && HooksOnly(d.trace)
      && d.slot == BeforePhaseOf(es, rt, args, slot).state.slot
      && |es| <= |d.trace| <= 2 * |es|
      && (forall j :: 0 <= j < |es| ==> d.trace[j] == Before(es[j].order))
  {
    var after := OrderAfterInterception(s, es);
    OrderLengths(s, es);
    BypassPath(es, s, rt, target, args, slot);
    var b := BeforePhaseOf(es, rt, args, slot);
    RunAfterShape(after, rt, false, b.state.slot);
    var d := RunContexts(es, s, rt, target, args, slot);
    var a := RunAfter(after, rt, false, b.state.slot);
    SplitAfterBefore(d.trace, b.trace, a.trace);
  }

  /**
   * After a bypass, the after hooks see the slot the before hooks left,
   * unless reading it throws, which ends the interception before any after
   * hook runs.
   */
  lemma BypassAfterPhase(es: seq<Entry>, s: OrderingStrategy, rt: ClrType,
                         target: seq<Value> -> ProceedOutcome, args: seq<Value>, slot: ReturnSlot)
    requires SlotFits(rt, slot) && ProceedFits(rt, target)
    requires BeforeHooksComplete(es, |args|) && SomeBypass(es)
    ensures var d := RunContexts(es, s, rt, target, args, slot);
      var read := ReadReturnValue(rt, false, d.slot);
      read.Err? ==> |d.trace| == |es| && d.outcome == Threw(read.error)
    ensures var d := RunContexts(es, s, rt, target, args, slot);
      var after := OrderAfterInterception(s, es);
      var read := ReadReturnValue(rt, false, d.slot);
      read.Ok? ==>
        && |es| <= |d.trace| <= |es| + |after|
        && forall j :: 0 <= j < |d.trace| - |es| ==> d.trace[|es| + j] == After(after[j].order, false, read.value)
    ensures var d := RunContexts(es, s, rt, target, args, slot);
      var read := ReadReturnValue(rt, false, d.slot);
      read.Ok? && AfterHooksComplete(OrderAfterInterception(s, es)) ==> |d.trace| == 2 * |es| && d.outcome == Returned
  {
    var after := OrderAfterInterception(s, es);
    var t1, a, slot' := BypassPathParts(es, s, rt, target, args, slot);
    var read := ReadReturnValue(rt, false, slot');
    if read.Ok? {
      RunAfterHooks(after, rt, false, slot', read.value);
      AfterPartDispatch(RunContexts(es, s, rt, target, args, slot), t1, a, None, after, false, read.value);
    } else {
      RunAfterShape(after, rt, false, slot');
    }
  }

  /**
   * The value a bypassing interception leaves is the last override of the
   * before phase, and every after hook is handed that value.
   */
  lemma BypassReturnsOverride(es: seq<Entry>, s: OrderingStrategy, rt: ClrType,
                              target: seq<Value> -> ProceedOutcome, args: seq<Value>, slot: ReturnSlot, j: int)
    requires SlotFits(rt, slot) && ProceedFits(rt, target)
    requires BeforeHooksComplete(es, |args|) && SomeBypass(es)
    requires 0 <= j < |es| && Overrides(es[j]) && forall k :: j < k < |es| ==> !Overrides(es[k])
    ensures var d := RunContexts(es, s, rt, target, args, slot);
      var value := es[j].behavior.before.returnOverride.value;
      var n := |es|;
      && d.slot == OverrideSlot(rt, value)
      && n <= |d.trace| <= 2 * n
      && (forall i :: n <= i < |d.trace| ==> d.trace[i] == After(OrderAfterInterception(s, es)[i - n].order, false, value))
      && (AfterHooksComplete(OrderAfterInterception(s, es)) ==> d.outcome == Returned && |d.trace| == 2 * n)
  {
    BypassSkipsProceed(es, s, rt, target, args, slot);
    BypassAfterPhase(es, s, rt, target, args, slot);
    BeforeHooksAllRun(es, rt, args, slot);
    RunBeforeOverride(es, rt, BeforeState(args, slot, false));
    OverrideThenRead(rt, es[j].behavior.before.returnOverride.value);
  }

  /**
   * An async method bypassed without an override has no task in its slot:
   * reading the return value for the first after hook throws, so the
   * interception fails and no after hook runs.
   */
  lemma AsyncBypassWithoutOverrideFails(es: seq<Entry>, s: OrderingStrategy, rt: ClrType,
                                        target: seq<Value> -> ProceedOutcome, args: seq<Value>)
    requires CheckIfMethodIsAsync(rt) && ProceedFits(rt, target)
    requires BeforeHooksComplete(es, |args|) && SomeBypass(es)
    requires forall j :: 0 <= j < |es| ==> !Overrides(es[j])
    ensures var d := RunContexts(es, s, rt, target, args, Plain(Null));
      && d.outcome == Threw(NullReturnValue)
      && |d.trace| == |es|
      && forall j :: 0 <= j < |d.trace| ==> d.trace[j] == Before(es[j].order)
  {
    BypassSkipsProceed(es, s, rt, target, args, Plain(Null));
    BypassAfterPhase(es, s, rt, target, args, Plain(Null));
    BeforeHooksAllRun(es, rt, args, Plain(Null));
    RunBeforeOverride(es, rt, BeforeState(args, Plain(Null), false));
    AsyncReadWithoutTaskFails(rt);
  }

  /**
   * On the path that calls the target, a failed call, a faulted task or a null
   * task puts every context in error state, which reads as null. A completed
   * call leaves a readable slot, except a completed task whose runtime type is
   * not generic: it passes the wait, and then the read throws.
   */
  lemma ProceedPathReads(rt: ClrType, o: ProceedOutcome, slot: ReturnSlot)
    requires SlotFits(rt, slot) && OutcomeFits(rt, o)
    ensures ReadReturnValue(rt, ProceedException(rt, o, slot).Some?, ProceededSlot(rt, o, slot)).Err? <==> o.AsyncNonGeneric?
    ensures o.AsyncNonGeneric? ==>
      ReadReturnValue(rt, ProceedException(rt, o, slot).Some?, ProceededSlot(rt, o, slot)) == Err(NotGenericType)
    ensures ProceedException(rt, o, slot).Some? <==> o.Fails? || o.AsyncFaults? || o.AsyncNull?
    ensures ProceedException(rt, o, slot).Some? ==>
      ProceedException(rt, o, slot).value == ProceedFailure(o)
  {
  }

  /**
   * When nothing throws or bypasses, every before hook runs in declaration
   * order, then the target once, then every after hook in the strategy's
   * after order, each handed the target's result.
   */
  lemma NestingOrder(es: seq<Entry>, s: OrderingStrategy, rt: ClrType,
                     target: seq<Value> -> ProceedOutcome, args: seq<Value>, slot: ReturnSlot)
    requires SlotFits(rt, slot) && ProceedFits(rt, target)
    requires BeforeHooksComplete(es, |args|) && !SomeBypass(es) && AfterHooksComplete(OrderAfterInterception(s, es))
    requires var o := target(BeforePhaseOf(es, rt, args, slot).state.args); o.SyncValue? || o.AsyncValue? || o.AsyncVoid?
    ensures var d := RunContexts(es, s, rt, target, args, slot);
      var b := BeforePhaseOf(es, rt, args, slot);
      var o := target(b.state.args);
      var result := if o.AsyncVoid? then Null else o.value;
      var n := |es|;
      && d.trace == seq(n, j requires 0 <= j < n => Before(es[j].order)) + [Proceed]
                  + seq(n, j requires 0 <= j < n => After(es[AfterPosition(s, n, j)].order, false, result))
      && d.outcome == Returned
      && d.args == b.state.args
      && d.slot == ProceededSlot(rt, o, b.state.slot)
  {
    var n := |es|;
    var after := OrderAfterInterception(s, es);
    OrderLengths(s, es);
    ProceedPath(es, s, rt, target, args, slot);
    var b := BeforePhaseOf(es, rt, args, slot);
    var o := target(b.state.args);
    ReadAfterProceed(rt, o, b.state.slot);
    var result := if o.AsyncVoid? then Null else o.value;
    RunAfterShape(after, rt, false, ProceededSlot(rt, o, b.state.slot));
    var a := RunAfter(after, rt, false, ProceededSlot(rt, o, b.state.slot));
    assert b.trace == seq(n, j requires 0 <= j < n => Before(es[j].order));
    forall j | 0 <= j < n
      ensures a.trace[j] == After(es[AfterPosition(s, n, j)].order, false, result)
    {
      AfterOrderAt(s, es, j);
    }
    assert a.trace == seq(n, j requires 0 <= j < n => After(es[AfterPosition(s, n, j)].order, false, result));
  }

  /** The exception a failing call leaves pending: its own, a faulted task's, or `WaitAll`'s on a null task. */
  function ProceedFailure(o: ProceedOutcome): Exception
  {
    if o.Fails? then ProceedFailed else if o.AsyncNull? then NullTaskWaited else TaskFaulted
  }

  /**
   * When the target throws, its task faults or it returns a null task, every
   * after hook is told the call errored and handed null; the exception is
   * rethrown unless an after hook throws in its place.
   */
  lemma ProceedFailureMarksEveryContext(es: seq<Entry>, s: OrderingStrategy, rt: ClrType,
                                        target: seq<Value> -> ProceedOutcome, args: seq<Value>, slot: ReturnSlot)
    requires SlotFits(rt, slot) && ProceedFits(rt, target)
    requires BeforeHooksComplete(es, |args|) && !SomeBypass(es)
    requires var o := target(BeforePhaseOf(es, rt, args, slot).state.args); o.Fails? || o.AsyncFaults? || o.AsyncNull?
    ensures var d := RunContexts(es, s, rt, target, args, slot);
      var o := target(BeforePhaseOf(es, rt, args, slot).state.args);
      var n := |es|;
      && n + 1 <= |d.trace| <= 2 * n + 1
      && d.trace[n] == Proceed
      && (forall j :: n < j < |d.trace| ==> d.trace[j].After? && d.trace[j].errored && d.trace[j].result == Null)
      && d.outcome.Threw?
      && (AfterHooksComplete(OrderAfterInterception(s, es)) ==>
            |d.trace| == 2 * n + 1 && d.outcome.exception == ProceedFailure(o))
  {
    var after := OrderAfterInterception(s, es);
    OrderLengths(s, es);
    ProceedPath(es, s, rt, target, args, slot);
    var b := BeforePhaseOf(es, rt, args, slot);
    var o := target(b.state.args);
    ProceedPathReads(rt, o, b.state.slot);
    RunAfterShape(after, rt, true, ProceededSlot(rt, o, b.state.slot));
  }

  /**
   * A `Task` method whose completed task has a non-generic runtime type passes
   * the wait, and then the first read in the `finally` loop throws: no after
   * hook runs, and the call that succeeded ends in that exception.
   */
  lemma NonGenericTaskFailsFirstRead(es: seq<Entry>, s: OrderingStrategy, rt: ClrType,
                                     target: seq<Value> -> ProceedOutcome, args: seq<Value>, slot: ReturnSlot)
    requires SlotFits(rt, slot) && ProceedFits(rt, target)
    requires BeforeHooksComplete(es, |args|) && !SomeBypass(es)
    requires target(BeforePhaseOf(es, rt, args, slot).state.args).AsyncNonGeneric?
    ensures var d := RunContexts(es, s, rt, target, args, slot);
      && d.trace == BeforePhaseOf(es, rt, args, slot).trace + [Proceed]
      && d.outcome == if es == [] then Returned else Threw(NotGenericType)
  {
    OrderLengths(s, es);
    ProceedPath(es, s, rt, target, args, slot);
    var b := BeforePhaseOf(es, rt, args, slot);
    var o := target(b.state.args);
    ProceedPathReads(rt, o, b.state.slot);
    RunAfterShape(OrderAfterInterception(s, es), rt, false, ProceededSlot(rt, o, b.state.slot));
  }

  /**
   * A throwing after hook ends the loop: the hooks after it in the after order
   * do not run, and its exception replaces whatever the call itself threw.
   * When the target's task has a non-generic runtime type, the read throws
   * first and no after hook runs at all.
   */
  lemma AfterHookFailureStopsLoop(es: seq<Entry>, s: OrderingStrategy, rt: ClrType,
                                  target: seq<Value> -> ProceedOutcome, args: seq<Value>, slot: ReturnSlot, k: int)
    requires SlotFits(rt, slot) && ProceedFits(rt, target)
    requires BeforeHooksComplete(es, |args|) && !SomeBypass(es)
    requires 0 <= k < |es|
    requires var after := OrderAfterInterception(s, es);
      after[k].behavior.afterThrows && forall i :: 0 <= i < k ==> !after[i].behavior.afterThrows
    ensures var d := RunContexts(es, s, rt, target, args, slot);
      !target(BeforePhaseOf(es, rt, args, slot).state.args).AsyncNonGeneric? ==>
        |d.trace| == |es| + 1 + k + 1 && d.trace[|es|] == Proceed
    ensures var d := RunContexts(es, s, rt, target, args, slot);
      var after := OrderAfterInterception(s, es);
      !target(BeforePhaseOf(es, rt, args, slot).state.args).AsyncNonGeneric? ==>
        forall j :: 0 <= j <= k ==> d.trace[|es| + 1 + j].After? && d.trace[|es| + 1 + j].order == after[j].order
    ensures !target(BeforePhaseOf(es, rt, args, slot).state.args).AsyncNonGeneric? ==>
      RunContexts(es, s, rt, target, args, slot).outcome == Threw(AfterHookFailed(OrderAfterInterception(s, es)[k].order))
    ensures target(BeforePhaseOf(es, rt, args, slot).state.args).AsyncNonGeneric? ==>
      RunContexts(es, s, rt, target, args, slot).outcome == Threw(NotGenericType)
  {
    if target(BeforePhaseOf(es, rt, args, slot).state.args).AsyncNonGeneric? {
      NonGenericTaskFailsFirstRead(es, s, rt, target, args, slot);
    } else {
      var t1, a, pending, errored, slot', v := ProceedPathParts(es, s, rt, target, args, slot);
      AfterLoopStopsAt(OrderAfterInterception(s, es), rt, errored, slot', v, k);
      AfterFailureDispatch(RunContexts(es, s, rt, target, args, slot), t1, a, pending, OrderAfterInterception(s, es), k);
    }
  }

  /** An exception raised once contexts exist never reports a configuration error. */
  lemma RunContextsRaisesNoConfigurationError(es: seq<Entry>, s: OrderingStrategy, rt: ClrType,
                                              target: seq<Value> -> ProceedOutcome, args: seq<Value>, slot: ReturnSlot)
    requires SlotFits(rt, slot) && ProceedFits(rt, target)
    ensures var d := RunContexts(es, s, rt, target, args, slot);
      d.outcome.Threw? ==> !d.outcome.exception.ConfigurationError?
  {
    var after := OrderAfterInterception(s, es);
    var b := BeforePhaseOf(es, rt, args, slot);
    if !BeforeHooksComplete(es, |args|) {
      BeforeFailureStops(es, s, rt, target, args, slot);
    } else if SomeBypass(es) {
      BypassPath(es, s, rt, target, args, slot);
      RunAfterShape(after, rt, false, b.state.slot);
    } else {
      ProceedPath(es, s, rt, target, args, slot);
      var o := target(b.state.args);
      ProceedPathReads(rt, o, b.state.slot);
      RunAfterShape(after, rt, ProceedException(rt, o, b.state.slot).Some?, ProceededSlot(rt, o, b.state.slot));
    }
  }

  /**
   * On the path that calls the target the trace is the before events, one
   * `Proceed`, then the after events; on every other path the target is not called.
   */
  lemma RunContextsTrace(es: seq<Entry>, s: OrderingStrategy, rt: ClrType,
                         target: seq<Value> -> ProceedOutcome, args: seq<Value>, slot: ReturnSlot)
    requires SlotFits(rt, slot) && ProceedFits(rt, target)
    ensures var d := RunContexts(es, s, rt, target, args, slot);
      if BeforeHooksComplete(es, |args|) && !SomeBypass(es)
      then exists t1, t2 :: d.trace == t1 + [Proceed] + t2 && HooksOnly(t1) && HooksOnly(t2)
      else HooksOnly(d.trace)
  {
    var after := OrderAfterInterception(s, es);
    var b := BeforePhaseOf(es, rt, args, slot);
    if !BeforeHooksComplete(es, |args|) {
      BeforeFailureStops(es, s, rt, target, args, slot);
    } else if SomeBypass(es) {
      BypassPath(es, s, rt, target, args, slot);
      RunAfterShape(after, rt, false, b.state.slot);
      assert HooksOnly(RunAfter(after, rt, false, b.state.slot).trace);
    } else {
      ProceedPath(es, s, rt, target, args, slot);
      var o := target(b.state.args);
      ProceedPathReads(rt, o, b.state.slot);
      var pending := ProceedException(rt, o, b.state.slot);
      RunAfterShape(after, rt, pending.Some?, ProceededSlot(rt, o, b.state.slot));
      var a := RunAfter(after, rt, pending.Some?, ProceededSlot(rt, o, b.state.slot));
      assert HooksOnly(b.trace) && HooksOnly(a.trace);
    }
  }

  // Whole interceptions

  /** With no context the target is called once, and an async method's task is not waited for. */
  lemma NoContextsProceedsOnce(m: MethodInfo, settings: InterceptSettings, activate: InterceptorType -> Behavior,
                               target: seq<Value> -> ProceedOutcome, args: seq<Value>, slot: ReturnSlot)
    requires SlotFits(m.returnType, slot) && ProceedFits(m.returnType, target)
    requires Resolve(m.targetAttributes, settings.mappings, settings.ignoreInvalid) == Ok([])
    ensures var d := InterceptSpec(m, settings, activate, target, args, slot);
      && d.trace == [Proceed]
      && d.args == args
      && d.slot == ProceededSlot(m.returnType, target(args), slot)
      && (d.outcome.Threw? <==> target(args).Fails?)
      && (d.outcome.Threw? ==> d.outcome.exception == ProceedFailed)
  {
  }

  /**
   * The interception fails with a configuration error exactly when invalid
   * configurations are not ignored and the method carries an unmapped marker;
   * then the first such marker is named and nothing else happens.
   */
  lemma ConfigurationErrorIffUnmappedMarker(m: MethodInfo, settings: InterceptSettings,
                                            activate: InterceptorType -> Behavior,
                                            target: seq<Value> -> ProceedOutcome, args: seq<Value>, slot: ReturnSlot)
    requires SlotFits(m.returnType, slot) && ProceedFits(m.returnType, target)
    ensures var d := InterceptSpec(m, settings, activate, target, args, slot);
      (d.outcome.Threw? && d.outcome.exception.ConfigurationError?)
      <==> !settings.ignoreInvalid && HasUnmappedMarker(m.targetAttributes, settings.mappings)
    ensures var d := InterceptSpec(m, settings, activate, target, args, slot);
      var attributes := m.targetAttributes;
      !settings.ignoreInvalid && HasUnmappedMarker(attributes, settings.mappings) ==>
        && d.trace == [] && d.args == args && d.slot == slot
        && exists j :: 0 <= j < |attributes| && IsInterceptionMarker(attributes[j]) && !Mapped(settings.mappings, attributes[j])
             && d.outcome == Threw(ConfigurationError(attributes[j]))
             && forall k :: 0 <= k < j && IsInterceptionMarker(attributes[k]) ==> Mapped(settings.mappings, attributes[k])
  {
    ResolveCharacterized(m.targetAttributes, settings.mappings, settings.ignoreInvalid);
    var resolved := Resolve(m.targetAttributes, settings.mappings, settings.ignoreInvalid);
    if resolved.Ok? && |resolved.value| > 0 {
      RunContextsRaisesNoConfigurationError(Entries(resolved.value, activate), settings.strategy, m.returnType,
                                            target, args, slot);
    }
  }

  /** Hook events around one `Proceed`: that `Proceed` is the only one. */
  lemma OneProceed(t1: seq<Event>, t2: seq<Event>)
    requires HooksOnly(t1) && HooksOnly(t2)
    ensures var t := t1 + [Proceed] + t2;
      && t[|t1|].Proceed?
      && forall i, j :: 0 <= i < j < |t| ==> !(t[i].Proceed? && t[j].Proceed?)
  {
    var t := t1 + [Proceed] + t2;
    forall i, j | 0 <= i < j < |t|
      ensures !(t[i].Proceed? && t[j].Proceed?)
    {
      if i < |t1| {
        assert t[i] == t1[i];
      } else if i > |t1| {
        assert t[i] == t2[i - |t1| - 1];
      }
      if j < |t1| {
        assert t[j] == t1[j];
      } else if j > |t1| {
        assert t[j] == t2[j - |t1| - 1];
      }
    }
  }

  /**
   * The target is called at most once, and exactly when resolution succeeds
   * and either no context exists or no before hook throws or bypasses.
   */
  lemma ProceedAtMostOnce(m: MethodInfo, settings: InterceptSettings, activate: InterceptorType -> Behavior,
                          target: seq<Value> -> ProceedOutcome, args: seq<Value>, slot: ReturnSlot)
    requires SlotFits(m.returnType, slot) && ProceedFits(m.returnType, target)
    ensures var d := InterceptSpec(m, settings, activate, target, args, slot);
      forall i, j :: 0 <= i < j < |d.trace| ==> !(d.trace[i].Proceed? && d.trace[j].Proceed?)
    ensures var d := InterceptSpec(m, settings, activate, target, args, slot);
      var resolved := Resolve(m.targetAttributes, settings.mappings, settings.ignoreInvalid);
      (exists i :: 0 <= i < |d.trace| && d.trace[i].Proceed?)
      <==> resolved.Ok? && var es := Entries(resolved.value, activate);
             es == [] || (BeforeHooksComplete(es, |args|) && !SomeBypass(es))
  {
    var d := InterceptSpec(m, settings, activate, target, args, slot);
    var resolved := Resolve(m.targetAttributes, settings.mappings, settings.ignoreInvalid);
    if resolved.Ok? && |resolved.value| > 0 {
      var es := Entries(resolved.value, activate);
      RunContextsTrace(es, settings.strategy, m.returnType, target, args, slot);
      assert es != [];
      if BeforeHooksComplete(es, |args|) && !SomeBypass(es) {
        var t1, t2 :| d.trace == t1 + [Proceed] + t2 && HooksOnly(t1) && HooksOnly(t2);
        OneProceed(t1, t2);
      } else {
        assert !exists i :: 0 <= i < |d.trace| && d.trace[i].Proceed?;
      }
    } else if resolved.Ok? {
      assert d.trace[0].Proceed?;
    }
  }

  /** Markers declared on the interface method play no part in the interception. */
  lemma InterfaceMarkersIgnored(m: MethodInfo, interfaceAttributes: seq<Attribute>, settings: InterceptSettings,
                                activate: InterceptorType -> Behavior,
                                target: seq<Value> -> ProceedOutcome, args: seq<Value>, slot: ReturnSlot)
    requires SlotFits(m.returnType, slot) && ProceedFits(m.returnType, target)
    ensures InterceptSpec(m.(interfaceAttributes := interfaceAttributes), settings, activate, target, args, slot)
         == InterceptSpec(m, settings, activate, target, args, slot)
  {
  }

  /** A before hook that reads only: it writes nothing, overrides nothing, bypasses nothing and does not throw. */
  predicate Quiet(e: Entry)
  {
    e.behavior.before == BeforeScript(None, None, false, false)
  }

  /** Before hooks that only read emit their events and leave the call state alone. */
  lemma {:induction false} QuietBeforePhase(es: seq<Entry>, rt: ClrType, st: BeforeState)
    requires SlotFits(rt, st.slot)
    requires forall j :: 0 <= j < |es| ==> Quiet(es[j])
    ensures RunBefore(es, rt, st).state == st && RunBefore(es, rt, st).failure.None?
  {
    if es != [] {
      assert forall j :: 0 <= j < |es[1..]| ==> es[1..][j] == es[j + 1];
      QuietBeforePhase(es[1..], rt, st);
    }
  }

  /**
   * With interceptors that only observe, the before hooks run in declaration
   * order, the target once, and the after hooks in the strategy's after order,
   * each handed the result; the arguments are those of the call.
   */
  lemma ObserversNest(m: MethodInfo, settings: InterceptSettings, activate: InterceptorType -> Behavior,
                      target: seq<Value> -> ProceedOutcome, args: seq<Value>, slot: ReturnSlot, result: Value)
    requires SlotFits(m.returnType, slot) && ProceedFits(m.returnType, target)
    requires Resolve(m.targetAttributes, settings.mappings, settings.ignoreInvalid).Ok?
    requires forall b :: b in Resolve(m.targetAttributes, settings.mappings, settings.ignoreInvalid).value ==>
               activate(b.interceptorType) == Observer
    requires target(args) == SyncValue(result) || target(args) == AsyncValue(result)
    ensures var d := InterceptSpec(m, settings, activate, target, args, slot);
      var n := |Resolve(m.targetAttributes, settings.mappings, settings.ignoreInvalid).value|;
      && d.trace == seq(n, k requires 0 <= k < n => Before(k)) + [Proceed]
                  + seq(n, k requires 0 <= k < n => After(AfterPosition(settings.strategy, n, k), false, result))
      && d.outcome == Returned
      && d.args == args
      && d.slot == ProceededSlot(m.returnType, target(args), slot)
  {
    var bindings := Resolve(m.targetAttributes, settings.mappings, settings.ignoreInvalid).value;
    var n := |bindings|;
    if n > 0 {
      var es := Entries(bindings, activate);
      assert forall k :: 0 <= k < n ==> bindings[k] in bindings;
      QuietBeforePhase(es, m.returnType, BeforeState(args, slot, false));
      BeforeIsDeclarationOrder(settings.strategy, es);
      forall k | 0 <= k < n
        ensures OrderAfterInterception(settings.strategy, es)[k].behavior == Observer
      {
        AfterOrderAt(settings.strategy, es, k);
      }
      OrderLengths(settings.strategy, es);
      NestingOrder(es, settings.strategy, m.returnType, target, args, slot);
      assert seq(n, j requires 0 <= j < n => Before(es[j].order)) == seq(n, k requires 0 <= k < n => Before(k));
      assert seq(n, j requires 0 <= j < n => After(es[AfterPosition(settings.strategy, n, j)].order, false, result))
          == seq(n, k requires 0 <= k < n => After(AfterPosition(settings.strategy, n, k), false, result));
    }
  }

  /** The pyramid strategy nests the hooks: the last before hook to run is the first after hook. */
  lemma PyramidNesting(m: MethodInfo, settings: InterceptSettings, activate: InterceptorType -> Behavior,
                       target: seq<Value> -> ProceedOutcome, args: seq<Value>, slot: ReturnSlot, result: Value)
    requires SlotFits(m.returnType, slot) && ProceedFits(m.returnType, target)
    requires settings.strategy == PyramidStrategy
    requires Resolve(m.targetAttributes, settings.mappings, settings.ignoreInvalid).Ok?
    requires forall b :: b in Resolve(m.targetAttributes, settings.mappings, settings.ignoreInvalid).value ==>
               activate(b.interceptorType) == Observer
    requires target(args) == SyncValue(result) || target(args) == AsyncValue(result)
    ensures var d := InterceptSpec(m, settings, activate, target, args, slot);
      var n := |Resolve(m.targetAttributes, settings.mappings, settings.ignoreInvalid).value|;
      d.trace == seq(n, k requires 0 <= k < n => Before(k)) + [Proceed]
               + seq(n, k requires 0 <= k < n => After(n - 1 - k, false, result))
  {
    ObserversNest(m, settings, activate, target, args, slot, result);
    var n := |Resolve(m.targetAttributes, settings.mappings, settings.ignoreInvalid).value|;
    assert seq(n, k requires 0 <= k < n => After(AfterPosition(settings.strategy, n, k), false, result))
        == seq(n, k requires 0 <= k < n => After(n - 1 - k, false, result));
  }

  /** The sequential strategy runs the after hooks in declaration order too. */
  lemma SequentialOrder(m: MethodInfo, settings: InterceptSettings, activate: InterceptorType -> Behavior,
                        target: seq<Value> -> ProceedOutcome, args: seq<Value>, slot: ReturnSlot, result: Value)
    requires SlotFits(m.returnType, slot) && ProceedFits(m.returnType, target)
    requires settings.strategy == SequentialStrategy
    requires Resolve(m.targetAttributes, settings.mappings, settings.ignoreInvalid).Ok?
    requires forall b :: b in Resolve(m.targetAttributes, settings.mappings, settings.ignoreInvalid).value ==>
               activate(b.interceptorType) == Observer
    requires target(args) == SyncValue(result) || target(args) == AsyncValue(result)
    ensures var d := InterceptSpec(m, settings, activate, target, args, slot);
      var n := |Resolve(m.targetAttributes, settings.mappings, settings.ignoreInvalid).value|;
      d.trace == seq(n, k requires 0 <= k < n => Before(k)) + [Proceed]
               + seq(n, k requires 0 <= k < n => After(k, false, result))
  {
    ObserversNest(m, settings, activate, target, args, slot, result);
    var n := |Resolve(m.targetAttributes, settings.mappings, settings.ignoreInvalid).value|;
    assert seq(n, k requires 0 <= k < n => After(AfterPosition(settings.strategy, n, k), false, result))
        == seq(n, k requires 0 <= k < n => After(k, false, result));
  }
}
