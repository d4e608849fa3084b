/** `CoreProxyConfiguration`: the mapping list, the ignore flag and the ordering strategy. */
module Configuration {
  import opened Reflection
  import opened InterceptorMappings
  import opened OrderingStrategies

  class CoreProxyConfiguration {
    var ignoreInvalidInterceptors: bool
    var configuredInterceptors: seq<InterceptorMapping>
    var orderingStrategy: OrderingStrategy

    /** The defaults: throw on unmapped markers, no mappings, Pyramid ordering. */
    constructor ()
      ensures !ignoreInvalidInterceptors
      ensures configuredInterceptors == []
      ensures orderingStrategy == PyramidStrategy
    {
      ignoreInvalidInterceptors := false;
      configuredInterceptors := [];
      orderingStrategy := PyramidStrategy;
    }

    /**
     * `AddInterceptor<TAttribute, TInterceptor>`: appends one mapping, with no
     * check for an earlier mapping of the same attribute type.
     */
    method AddInterceptor(attributeType: MarkerAttributeType, interceptorType: InterceptorType)
      returns (r: CoreProxyConfiguration)
      modifies this`configuredInterceptors
      ensures r == this
      ensures configuredInterceptors
           == old(configuredInterceptors) + [InterceptorMapping(interceptorType, attributeType)]
    {
      configuredInterceptors := configuredInterceptors + [InterceptorMapping(interceptorType, attributeType)];
      r := this;
    }

    /** Unmapped markers are skipped from now on; calling it again changes nothing. */
    method IgnoreInvalidInterceptorConfigurations() returns (r: CoreProxyConfiguration)
      modifies this`ignoreInvalidInterceptors
      ensures r == this
      ensures ignoreInvalidInterceptors
    {
      ignoreInvalidInterceptors := true;
      r := this;
    }

    /** `WithOrderingStrategy<TStrategy>`: replaces only the strategy. */
    method WithOrderingStrategy(strategy: OrderingStrategy) returns (r: CoreProxyConfiguration)
      modifies this`orderingStrategy
      ensures r == this
      ensures orderingStrategy == strategy
    {
      orderingStrategy := strategy;
      r := this;
    }
  }
}
