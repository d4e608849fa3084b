/**
 * `IOrderingStrategy` with its two shipped implementations, chosen by the
 * configuration.
 */
module OrderingStrategies {
  import opened Sequences
  import Pyramid = PyramidOrderStrategy
  import Sequential = SequentialOrderStrategy

  datatype OrderingStrategy = PyramidStrategy | SequentialStrategy

  function OrderBeforeInterception<T>(s: OrderingStrategy, interceptors: seq<T>): seq<T>
  {
    match s
    case PyramidStrategy => Pyramid.OrderBeforeInterception(interceptors)
    case SequentialStrategy => Sequential.OrderBeforeInterception(interceptors)
  }

  function OrderAfterInterception<T>(s: OrderingStrategy, interceptors: seq<T>): seq<T>
  {
    match s
    case PyramidStrategy => Pyramid.OrderAfterInterception(interceptors)
    case SequentialStrategy => Sequential.OrderAfterInterception(interceptors)
  }

  /** Where the j-th context of the after phase stands in declaration order. */
  function AfterPosition(s: OrderingStrategy, n: nat, j: nat): (p: nat)
    requires j < n
    ensures p < n
  {
    match s
    case PyramidStrategy => n - 1 - j
    case SequentialStrategy => j
  }

  /** Both shipped strategies leave the before phase in declaration order. */
  lemma BeforeIsDeclarationOrder<T>(s: OrderingStrategy, interceptors: seq<T>)
    ensures OrderBeforeInterception(s, interceptors) == interceptors
  {
  }

  /** The after phase visits the context at `AfterPosition` in the j-th step. */
  lemma AfterOrderAt<T>(s: OrderingStrategy, interceptors: seq<T>, j: nat)
    requires j < |interceptors|
    ensures |OrderAfterInterception(s, interceptors)| == |interceptors|
    ensures OrderAfterInterception(s, interceptors)[j] == interceptors[AfterPosition(s, |interceptors|, j)]
  {
  }

  /** Neither order adds or drops a context. */
  lemma OrderLengths<T>(s: OrderingStrategy, interceptors: seq<T>)
    ensures |OrderBeforeInterception(s, interceptors)| == |interceptors|
    ensures |OrderAfterInterception(s, interceptors)| == |interceptors|
  {
  }

  /**
   * The strategy contract: each order is a permutation of its input, so it
   * never adds, drops or duplicates a context.
   */
  lemma StrategyPermutes<T>(s: OrderingStrategy, interceptors: seq<T>)
    ensures |OrderBeforeInterception(s, interceptors)| == |interceptors|
    ensures |OrderAfterInterception(s, interceptors)| == |interceptors|
    ensures multiset(OrderBeforeInterception(s, interceptors)) == multiset(interceptors)
    ensures multiset(OrderAfterInterception(s, interceptors)) == multiset(interceptors)
  {
    Pyramid.PyramidPermutes(interceptors);
  }
}
