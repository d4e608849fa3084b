/** Sequence reversal as LINQ's `Enumerable.Reverse` performs it. */
module Sequences {

  function Reverse<T>(xs: seq<T>): (r: seq<T>)
    ensures |r| == |xs|
    ensures forall j :: 0 <= j < |xs| ==> r[j] == xs[|xs| - 1 - j]
  {
    if xs == [] then [] else Reverse(xs[1..]) + [xs[0]]
  }

  /** Reversal only rearranges: nothing is added, dropped or duplicated. */
  lemma {:induction false} ReversePermutes<T>(xs: seq<T>)
    ensures multiset(Reverse(xs)) == multiset(xs)
  {
    if xs != [] {
      ReversePermutes(xs[1..]);
      assert xs == [xs[0]] + xs[1..];
    }
  }

  /** Reversing twice gives the sequence back. */
  lemma ReverseInvolutive<T>(xs: seq<T>)
    ensures Reverse(Reverse(xs)) == xs
  {
    var r := Reverse(Reverse(xs));
    assert forall j :: 0 <= j < |xs| ==> r[j] == xs[j];
  }
}
