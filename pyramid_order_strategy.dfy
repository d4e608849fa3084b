/**
 * `PyramidOrderStrategy`: before hooks run in declaration order and after
 * hooks in reverse, so the first-declared interceptor wraps all the others.
 */
module PyramidOrderStrategy {
  import opened Sequences

  function OrderBeforeInterception<T>(interceptors: seq<T>): seq<T>
  {
    interceptors
  }

  function OrderAfterInterception<T>(interceptors: seq<T>): seq<T>
  {
    Reverse(interceptors)
  }

  /** The before order is the declaration order; the after order is its exact reverse. */
  lemma PyramidOrders<T>(interceptors: seq<T>)
    ensures OrderBeforeInterception(interceptors) == interceptors
    ensures |OrderAfterInterception(interceptors)| == |interceptors|
    ensures forall j :: 0 <= j < |interceptors| ==>
      OrderAfterInterception(interceptors)[j] == interceptors[|interceptors| - 1 - j]
  {
  }

  /** Both orders are permutations of the input. */
  lemma PyramidPermutes<T>(interceptors: seq<T>)
    ensures multiset(OrderBeforeInterception(interceptors)) == multiset(interceptors)
    ensures multiset(OrderAfterInterception(interceptors)) == multiset(interceptors)
  {
    ReversePermutes(interceptors);
  }

  /** Reversing the after order gives back the before order. */
  lemma PyramidRoundTrip<T>(interceptors: seq<T>)
    ensures Reverse(OrderAfterInterception(interceptors)) == OrderBeforeInterception(interceptors)
  {
    ReverseInvolutive(interceptors);
  }
}
