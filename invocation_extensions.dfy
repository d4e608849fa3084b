/** `InvocationExtensions.CheckIfMethodIsAsync`: the return-shape test. */
module AsyncMethods {
  import opened Reflection

  /**
   * The declared return type is `Task`, or a generic type whose definition is
   * `Task<>` (compared by name and arity).
   */
  predicate CheckIfMethodIsAsync(returnType: ClrType)
  {
    || returnType == TaskType
    || (|returnType.typeArguments| > 0
        && returnType.name == TaskName && |returnType.typeArguments| == 1)
  }

  /** Exactly `Task` and the closed types `Task<T>` count as async. */
  lemma AsyncExactlyForTasks(returnType: ClrType)
    ensures CheckIfMethodIsAsync(returnType) <==>
      (returnType == TaskType || exists t :: returnType == TaskOf(t))
  {
    if CheckIfMethodIsAsync(returnType) && returnType != TaskType {
      assert returnType == TaskOf(returnType.typeArguments[0]);
    }
  }
}

/**
 * `InvocationExtensions.GetInterceptorContextForMethod`: the resolver that
 * turns the marker attributes of the invoked method into invocation contexts.
 */
module InvocationExtensions {
  import opened Wrappers
  import opened Reflection
  import opened InterceptorMappings
  import opened Invocations
  import opened Behaviors
  import opened InvocationContexts
  import opened Configuration

  /** A marker with the interceptor type resolved for it. */
  datatype Binding = Binding(attribute: Attribute, interceptorType: InterceptorType)

  /**
   * `FirstOrDefault(i => i.AttributeType == attributeType)?.InterceptorType`:
   * the interceptor type of the first mapping for exactly that attribute type.
   */
  function FindMapping(mappings: seq<InterceptorMapping>, attributeType: AttributeType): Option<InterceptorType>
  {
    if mappings == [] then None
    else if mappings[0].attributeType == attributeType then Some(mappings[0].interceptorType)
    else FindMapping(mappings[1..], attributeType)
  }

  /** The `Where(IsSubclassOf(MethodInterceptionAttribute))` filter over the target's attributes. */
  function MarkerAttributes(attributes: seq<Attribute>): (r: seq<Attribute>)
    ensures |r| <= |attributes|
    ensures forall a :: a in r <==> a in attributes && IsInterceptionMarker(a)
  {
    if attributes == [] then []
    else if IsInterceptionMarker(attributes[0]) then [attributes[0]] + MarkerAttributes(attributes[1..])
    else MarkerAttributes(attributes[1..])
  }

  /**
   * The resolution the loop performs, as a reference definition over the
   * method's attributes: each marker takes its first mapping; an unmapped
   * marker is skipped or stops resolution with a configuration error.
   */
  function Resolve(attributes: seq<Attribute>, mappings: seq<InterceptorMapping>, ignoreInvalid: bool)
    : Result<seq<Binding>, Exception>
  {
    if attributes == [] then Ok([])
    else
      var a := attributes[0];
      if !IsInterceptionMarker(a) then Resolve(attributes[1..], mappings, ignoreInvalid)
      else match FindMapping(mappings, a.attributeType)
        case None =>
          if ignoreInvalid then Resolve(attributes[1..], mappings, ignoreInvalid)
          else Err(ConfigurationError(a))
        case Some(t) =>
          match Resolve(attributes[1..], mappings, ignoreInvalid)
          case Err(e) => Err(e)
          case Ok(rest) => Ok([Binding(a, t)] + rest)
  }

  /** Puts bindings already resolved in front of the resolution of the rest. */
  function PrependBindings(done: seq<Binding>, rest: Result<seq<Binding>, Exception>): Result<seq<Binding>, Exception>
  {
    match rest
    case Ok(bs) => Ok(done + bs)
    case Err(e) => Err(e)
  }

  /** `contexts` are new contexts for `bindings`, numbered by list position. */
  ghost predicate ContextsFor(contexts: seq<InvocationContext>, bindings: seq<Binding>,
                              activate: InterceptorType -> Behavior, invocation: Invocation)
    reads contexts
  {
    && |contexts| == |bindings|
    && (forall k :: 0 <= k < |contexts| ==>
          && contexts[k].attribute == bindings[k].attribute
          && contexts[k].interceptor == activate(bindings[k].interceptorType)
          && contexts[k].invocation == invocation
          && contexts[k].order == k
          && contexts[k].tempData == map[]
          && !contexts[k].invocationIsBypassed
          && !contexts[k].invocationIsInErrorState)
    && (forall j, k :: 0 <= j < k < |contexts| ==> contexts[j] != contexts[k])
  }

  /**
   * Builds the contexts for the invoked method: one per mapped marker, in
   * declaration order, with `Order` equal to its list position.
   * `activate` stands for `ActivatorUtilities.CreateInstance`.
   */
  method GetInterceptorContextForMethod(invocation: Invocation, proxyConfiguration: CoreProxyConfiguration,
                                        activate: InterceptorType -> Behavior)
    returns (r: Result<seq<InvocationContext>, Exception>)
    ensures match Resolve(invocation.methodInfo.targetAttributes, proxyConfiguration.configuredInterceptors,
                          proxyConfiguration.ignoreInvalidInterceptors)
      case Err(e) => r == Err(e)
      case Ok(bindings) =>
        && r.Ok?
        && ContextsFor(r.value, bindings, activate, invocation)
        && (forall k :: 0 <= k < |r.value| ==> fresh(r.value[k]))
  {
    var mappings := proxyConfiguration.configuredInterceptors;
    var ignoreInvalid := proxyConfiguration.ignoreInvalidInterceptors;
    var methodAttributes := MarkerAttributes(invocation.methodInfo.targetAttributes);
    ResolveSeesOnlyMarkers(invocation.methodInfo.targetAttributes, mappings, ignoreInvalid);
    var invocationContextList: seq<InvocationContext> := [];
    ghost var bindings: seq<Binding> := [];
    var index := 0;
    assert methodAttributes[0..] == methodAttributes;
    assert PrependBindings([], Resolve(methodAttributes, mappings, ignoreInvalid))
        == Resolve(methodAttributes, mappings, ignoreInvalid) by {
      if Resolve(methodAttributes, mappings, ignoreInvalid).Ok? {
        assert [] + Resolve(methodAttributes, mappings, ignoreInvalid).value
            == Resolve(methodAttributes, mappings, ignoreInvalid).value;
      }
    }
    for i := 0 to |methodAttributes|
      invariant index == |invocationContextList|
      invariant Resolve(methodAttributes, mappings, ignoreInvalid)
             == PrependBindings(bindings, Resolve(methodAttributes[i..], mappings, ignoreInvalid))
      invariant ContextsFor(invocationContextList, bindings, activate, invocation)
      invariant forall k :: 0 <= k < |invocationContextList| ==> fresh(invocationContextList[k])
    {
      var methodAttribute := methodAttributes[i];
      assert IsInterceptionMarker(methodAttribute) by { assert methodAttribute in methodAttributes; }
      var interceptorType := FindMapping(mappings, methodAttribute.attributeType);
      if interceptorType.None? {
        if ignoreInvalid {
          ResolveSkipsUnmapped(methodAttributes, i, mappings, bindings);
          continue;
        }
        ResolveStopsAtUnmapped(methodAttributes, i, mappings, bindings);
        return Err(ConfigurationError(methodAttribute));
      }
      ResolveTakesMapped(methodAttributes, i, mappings, ignoreInvalid, bindings);
      var interceptorInstance := activate(interceptorType.value);
      var invocationContext := new InvocationContext(methodAttribute, interceptorInstance, invocation, index);
      ContextsForAppend(invocationContextList, bindings, activate, invocation, invocationContext,
                        Binding(methodAttribute, interceptorType.value));
      invocationContextList := invocationContextList + [invocationContext];
      bindings := bindings + [Binding(methodAttribute, interceptorType.value)];
      index := index + 1;
    }
    assert methodAttributes[|methodAttributes|..] == [] && bindings + [] == bindings;
    return Ok(invocationContextList);
  }

  // One step of the resolver loop, stated on the reference definition

  lemma ContextsForAppend(contexts: seq<InvocationContext>, bindings: seq<Binding>, activate: InterceptorType -> Behavior,
                          invocation: Invocation, c: InvocationContext, b: Binding)
    requires ContextsFor(contexts, bindings, activate, invocation) && c !in contexts
    requires c.attribute == b.attribute && c.interceptor == activate(b.interceptorType) && c.invocation == invocation
    requires c.order == |contexts| && c.tempData == map[] && !c.invocationIsBypassed && !c.invocationIsInErrorState
    ensures ContextsFor(contexts + [c], bindings + [b], activate, invocation)
  {
  }

  lemma ResolveTakesMapped(markers: seq<Attribute>, i: nat, mappings: seq<InterceptorMapping>, ignoreInvalid: bool,
                           done: seq<Binding>)
    requires i < |markers| && IsInterceptionMarker(markers[i])
    requires FindMapping(mappings, markers[i].attributeType).Some?
    requires Resolve(markers, mappings, ignoreInvalid) == PrependBindings(done, Resolve(markers[i..], mappings, ignoreInvalid))
    ensures Resolve(markers, mappings, ignoreInvalid)
         == PrependBindings(done + [Binding(markers[i], FindMapping(mappings, markers[i].attributeType).value)],
                            Resolve(markers[i + 1..], mappings, ignoreInvalid))
  {
    assert markers[i..][1..] == markers[i + 1..];
    match Resolve(markers[i + 1..], mappings, ignoreInvalid)
    case Err(_) =>
    case Ok(rest) =>
      assert done + ([Binding(markers[i], FindMapping(mappings, markers[i].attributeType).value)] + rest)
          == (done + [Binding(markers[i], FindMapping(mappings, markers[i].attributeType).value)]) + rest;
  }

  lemma ResolveSkipsUnmapped(markers: seq<Attribute>, i: nat, mappings: seq<InterceptorMapping>, done: seq<Binding>)
    requires i < |markers| && IsInterceptionMarker(markers[i])
    requires FindMapping(mappings, markers[i].attributeType).None?
    requires Resolve(markers, mappings, true) == PrependBindings(done, Resolve(markers[i..], mappings, true))
    ensures Resolve(markers, mappings, true) == PrependBindings(done, Resolve(markers[i + 1..], mappings, true))
  {
    assert markers[i..][1..] == markers[i + 1..];
  }

  lemma ResolveStopsAtUnmapped(markers: seq<Attribute>, i: nat, mappings: seq<InterceptorMapping>, done: seq<Binding>)
    requires i < |markers| && IsInterceptionMarker(markers[i])
    requires FindMapping(mappings, markers[i].attributeType).None?
    requires Resolve(markers, mappings, false) == PrependBindings(done, Resolve(markers[i..], mappings, false))
    ensures Resolve(markers, mappings, false) == Err(ConfigurationError(markers[i]))
  {
  }

  // Properties of the resolution

  /** The marker filter keeps order: filtering a concatenation concatenates the filtered parts. */
  lemma {:induction false} MarkerAttributesAppend(a: seq<Attribute>, b: seq<Attribute>)
    ensures MarkerAttributes(a + b) == MarkerAttributes(a) + MarkerAttributes(b)
  {
    if a == [] {
      assert a + b == b;
    } else {
      assert (a + b)[0] == a[0] && (a + b)[1..] == a[1..] + b;
      MarkerAttributesAppend(a[1..], b);
      if IsInterceptionMarker(a[0]) {
        assert [a[0]] + (MarkerAttributes(a[1..]) + MarkerAttributes(b))
            == ([a[0]] + MarkerAttributes(a[1..])) + MarkerAttributes(b);
      }
    }
  }

  /**
   * Every mapping's attribute type is a marker type, so an attribute that is
   * not an interception marker never finds a mapping.
   */
  lemma {:induction false} NonMarkersUnmapped(mappings: seq<InterceptorMapping>, a: Attribute)
    requires !IsInterceptionMarker(a)
    ensures FindMapping(mappings, a.attributeType).None?
  {
    if mappings != [] {
      NonMarkersUnmapped(mappings[1..], a);
    }
  }

  /** Attributes that are not interception markers play no part. */
  lemma {:induction false} ResolveSeesOnlyMarkers(attributes: seq<Attribute>, mappings: seq<InterceptorMapping>,
                                                  ignoreInvalid: bool)
    ensures Resolve(attributes, mappings, ignoreInvalid) == Resolve(MarkerAttributes(attributes), mappings, ignoreInvalid)
  {
    if attributes != [] {
      ResolveSeesOnlyMarkers(attributes[1..], mappings, ignoreInvalid);
      if IsInterceptionMarker(attributes[0]) {
        assert MarkerAttributes(attributes)[1..] == MarkerAttributes(attributes[1..]);
      }
    }
  }

  /** The first mapping for an attribute type decides; none means no mapping has that type. */
  lemma {:induction false} FindMappingIsFirst(mappings: seq<InterceptorMapping>, attributeType: AttributeType)
    ensures FindMapping(mappings, attributeType).None? <==>
      forall j :: 0 <= j < |mappings| ==> mappings[j].attributeType != attributeType
    ensures FindMapping(mappings, attributeType).Some? ==>
      exists j :: 0 <= j < |mappings| && mappings[j].attributeType == attributeType
        && FindMapping(mappings, attributeType).value == mappings[j].interceptorType
        && forall k :: 0 <= k < j ==> mappings[k].attributeType != attributeType
  {
    if mappings != [] {
      FindMappingIsFirst(mappings[1..], attributeType);
      if mappings[0].attributeType != attributeType && FindMapping(mappings, attributeType).Some? {
        var j :| 0 <= j < |mappings| - 1 && mappings[1..][j].attributeType == attributeType
          && FindMapping(mappings, attributeType).value == mappings[1..][j].interceptorType
          && forall k :: 0 <= k < j ==> mappings[1..][k].attributeType != attributeType;
        assert mappings[j + 1].attributeType == attributeType;
      }
      if mappings[0].attributeType != attributeType && FindMapping(mappings, attributeType).None? {
        assert forall j :: 1 <= j < |mappings| ==> mappings[j] == mappings[1..][j - 1];
      }
    }
  }

  /** Mappings registered later never change the resolution of an already mapped type. */
  lemma {:induction false} LaterMappingsDoNotOverride(mappings: seq<InterceptorMapping>, later: seq<InterceptorMapping>,
                                                      attributeType: AttributeType)
    requires FindMapping(mappings, attributeType).Some?
    ensures FindMapping(mappings + later, attributeType) == FindMapping(mappings, attributeType)
  {
    if mappings[0].attributeType != attributeType {
      assert (mappings + later)[1..] == mappings[1..] + later;
      LaterMappingsDoNotOverride(mappings[1..], later, attributeType);
    }
  }

  /** An attribute type is mapped by one of the configured mappings. */
  predicate Mapped(mappings: seq<InterceptorMapping>, a: Attribute)
  {
    FindMapping(mappings, a.attributeType).Some?
  }

  /** The mapped markers with their interceptor types, in declaration order. */
  function MappedBindings(attributes: seq<Attribute>, mappings: seq<InterceptorMapping>): (r: seq<Binding>)
    ensures |r| <= |MarkerAttributes(attributes)|
  {
    if attributes == [] then []
    else
      var a := attributes[0];
      if IsInterceptionMarker(a) && Mapped(mappings, a)
      then [Binding(a, FindMapping(mappings, a.attributeType).value)] + MappedBindings(attributes[1..], mappings)
      else MappedBindings(attributes[1..], mappings)
  }

  /** An unmapped marker exists among the attributes. */
  predicate HasUnmappedMarker(attributes: seq<Attribute>, mappings: seq<InterceptorMapping>)
  {
    exists j :: 0 <= j < |attributes| && IsInterceptionMarker(attributes[j]) && !Mapped(mappings, attributes[j])
  }

  /**
   * Resolution fails exactly when the ignore flag is off and some marker is
   * unmapped, and then names the first such marker; otherwise it yields the
   * mapped markers in declaration order, each with its first mapping, so a
   * skipped marker takes no position.
   */
  lemma {:induction false} ResolveCharacterized(attributes: seq<Attribute>, mappings: seq<InterceptorMapping>,
                                                ignoreInvalid: bool)
    ensures Resolve(attributes, mappings, ignoreInvalid).Err? <==>
      !ignoreInvalid && HasUnmappedMarker(attributes, mappings)
    ensures Resolve(attributes, mappings, ignoreInvalid).Err? ==>
      exists j :: 0 <= j < |attributes| && IsInterceptionMarker(attributes[j]) && !Mapped(mappings, attributes[j])
        && Resolve(attributes, mappings, ignoreInvalid).error == ConfigurationError(attributes[j])
        && forall k :: 0 <= k < j && IsInterceptionMarker(attributes[k]) ==> Mapped(mappings, attributes[k])
    ensures Resolve(attributes, mappings, ignoreInvalid).Ok? ==>
      Resolve(attributes, mappings, ignoreInvalid).value == MappedBindings(attributes, mappings)
  {
    if attributes != [] {
      var a := attributes[0];
      var tail := attributes[1..];
      ResolveCharacterized(tail, mappings, ignoreInvalid);
      assert forall j :: 1 <= j < |attributes| ==> attributes[j] == tail[j - 1];
      if HasUnmappedMarker(tail, mappings) {
        var j :| 0 <= j < |tail| && IsInterceptionMarker(tail[j]) && !Mapped(mappings, tail[j]);
        assert IsInterceptionMarker(attributes[j + 1]) && !Mapped(mappings, attributes[j + 1]);
      }
      if HasUnmappedMarker(attributes, mappings) && !(IsInterceptionMarker(a) && !Mapped(mappings, a)) {
        var j :| 0 <= j < |attributes| && IsInterceptionMarker(attributes[j]) && !Mapped(mappings, attributes[j]);
        assert j > 0 && IsInterceptionMarker(tail[j - 1]) && !Mapped(mappings, tail[j - 1]);
      }
      if Resolve(attributes, mappings, ignoreInvalid).Err? && !(IsInterceptionMarker(a) && !Mapped(mappings, a)) {
        var j :| 0 <= j < |tail| && IsInterceptionMarker(tail[j]) && !Mapped(mappings, tail[j])
          && Resolve(tail, mappings, ignoreInvalid).error == ConfigurationError(tail[j])
          && forall k :: 0 <= k < j && IsInterceptionMarker(tail[k]) ==> Mapped(mappings, tail[k]);
        assert attributes[j + 1] == tail[j];
      }
    }
  }

  /** With the ignore flag on, resolution never fails and drops every unmapped marker. */
  lemma ResolveIgnoringUnmapped(attributes: seq<Attribute>, mappings: seq<InterceptorMapping>)
    ensures Resolve(attributes, mappings, true) == Ok(MappedBindings(attributes, mappings))
  {
    ResolveCharacterized(attributes, mappings, true);
  }

  /** When every marker is mapped, each one yields exactly one binding, in declaration order. */
  lemma {:induction false} AllMappedKeepsEveryMarker(attributes: seq<Attribute>, mappings: seq<InterceptorMapping>)
    requires !HasUnmappedMarker(attributes, mappings)
    ensures |MappedBindings(attributes, mappings)| == |MarkerAttributes(attributes)|
    ensures forall k :: 0 <= k < |MarkerAttributes(attributes)| ==>
      MappedBindings(attributes, mappings)[k].attribute == MarkerAttributes(attributes)[k]
  {
    if attributes != [] {
      assert !HasUnmappedMarker(attributes[1..], mappings) by {
        assert forall j :: 0 <= j < |attributes| - 1 ==> attributes[1..][j] == attributes[j + 1];
      }
      AllMappedKeepsEveryMarker(attributes[1..], mappings);
      if IsInterceptionMarker(attributes[0]) {
        assert Mapped(mappings, attributes[0]) by { assert attributes[0] == attributes[0]; }
      }
    }
  }
}
