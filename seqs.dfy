/** `iter().map(f).collect()` over a `Vec`, as a function on sequences. */
module Seqs {

  function Map<A, B>(f: A -> B, xs: seq<A>): (ys: seq<B>)
    ensures |ys| == |xs|
    ensures forall i :: 0 <= i < |xs| ==> ys[i] == f(xs[i])
  {
    seq(|xs|, i requires 0 <= i < |xs| => f(xs[i]))
  }

  /** Mapping with `f` and then with a left inverse `g` of `f` gives back the input. */
  lemma MapLeftInverse<A, B>(f: A -> B, g: B -> A, xs: seq<A>)
    requires forall x :: g(f(x)) == x
    ensures Map(g, Map(f, xs)) == xs
  {
  }
}
