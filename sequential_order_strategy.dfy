/** `SequentialOrderStrategy`: both phases use declaration order. */
module SequentialOrderStrategy {

  function OrderBeforeInterception<T>(interceptors: seq<T>): seq<T>
  {
    interceptors
  }

  function OrderAfterInterception<T>(interceptors: seq<T>): seq<T>
  {
    interceptors
  }

  /** Both orders are the input, so they agree and keep length and membership. */
  lemma SequentialOrders<T>(interceptors: seq<T>)
    ensures OrderBeforeInterception(interceptors) == interceptors
    ensures OrderAfterInterception(interceptors) == interceptors
    ensures OrderBeforeInterception(interceptors) == OrderAfterInterception(interceptors)
    ensures multiset(OrderAfterInterception(interceptors)) == multiset(interceptors)
  {
  }
}
