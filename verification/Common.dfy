// Shared value types.

module Common {

  datatype Option<+T> = None | Some(value: T)

  /** What `f` makes of the elements, put together in order. */
  function Flat<A, B>(xs: seq<A>, f: A -> seq<B>): seq<B>
  {
    if xs == [] then [] else Flat(xs[..|xs| - 1], f) + f(xs[|xs| - 1])
  }

  /** Element by element the same pieces give the same whole. */
  lemma {:induction false} FlatAlike<A, B, C>(xs: seq<A>, f: A -> seq<C>, ys: seq<B>, g: B -> seq<C>)
    requires |xs| == |ys| && forall i :: 0 <= i < |xs| ==> f(xs[i]) == g(ys[i])
    ensures Flat(xs, f) == Flat(ys, g)
  {
    if xs != [] {
      FlatAlike(xs[..|xs| - 1], f, ys[..|ys| - 1], g);
    }
  }

  lemma {:induction false} FlatAppend<A, B>(xs: seq<A>, ys: seq<A>, f: A -> seq<B>)
    ensures Flat(xs + ys, f) == Flat(xs, f) + Flat(ys, f)
  {
    if ys == [] {
      assert xs + ys == xs;
    } else {
      assert (xs + ys)[..|xs + ys| - 1] == xs + ys[..|ys| - 1];
      FlatAppend(xs, ys[..|ys| - 1], f);
    }
  }

  lemma {:induction false} FlatNext<A, B>(xs: seq<A>, x: A, f: A -> seq<B>)
    ensures Flat(xs + [x], f) == Flat(xs, f) + f(x)
  {
    assert (xs + [x])[..|xs|] == xs && (xs + [x])[|xs|] == x;
  }

  /** Elements that give nothing leave the whole empty. */
  lemma {:induction false} FlatEmpty<A, B>(xs: seq<A>, f: A -> seq<B>)
    requires forall i :: 0 <= i < |xs| ==> f(xs[i]) == []
    ensures Flat(xs, f) == []
  {
    if xs != [] {
      FlatEmpty(xs[..|xs| - 1], f);
    }
  }

}
