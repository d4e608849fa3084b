/**
 * `InterceptorMapping<TAttribute, TInterceptor>`: an immutable pair of an
 * attribute type and the interceptor type that handles it.
 */
module InterceptorMappings {
  import opened Reflection

  /** The generic constraint `TAttribute : MethodInterceptionAttribute`. */
  type MarkerAttributeType = t: AttributeType | t.isInterceptionMarker
    witness AttributeType("", true)

  /**
   * Both members are fixed at construction: a datatype value has no setters.
   * Every `InterceptorType` stands for an `IMethodInterceptor` implementation.
   */
  datatype InterceptorMapping = InterceptorMapping(
    interceptorType: InterceptorType,
    attributeType: MarkerAttributeType)
}
