/** What a loop collects when each element it visits adds a few items. */
module Sequences {

  function Collected<A, B>(f: A -> seq<B>, xs: seq<A>): seq<B> {
    if xs == [] then [] else Collected(f, xs[..|xs| - 1]) + f(xs[|xs| - 1])
  }

  lemma {:induction false} CollectedFirst<A, B>(f: A -> seq<B>, x: A, xs: seq<A>)
    ensures Collected(f, [x] + xs) == f(x) + Collected(f, xs)
  {
    if xs == [] {
      assert [x] + xs == [x] && [x][..0] == [];
    } else {
      var n := |xs| - 1;
      CollectedFirst(f, x, xs[..n]);
      assert ([x] + xs)[..n + 1] == [x] + xs[..n];
    }
  }
}
