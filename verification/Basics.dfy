/** Types shared by the component models. */
module Basics {
  newtype byte = x: int | 0 <= x < 256

  /** Go's []byte, and also its string, which is a byte sequence too. */
  type Bytes = seq<byte>

  datatype Option<+T> = None | Some(value: T)

  datatype Result<+T, +E> = Ok(value: T) | Err(error: E)

  /** f applied to every element, in order. */
  function MapSeq<A, B>(f: A -> B, xs: seq<A>): (ys: seq<B>)
    ensures |ys| == |xs|
    ensures forall k :: 0 <= k < |xs| ==> ys[k] == f(xs[k])
  {
    seq(|xs|, k requires 0 <= k < |xs| => f(xs[k]))
  }

  /** Positions in ascending order. */
  ghost predicate Increasing(at: seq<nat>, bound: nat) {
    (forall q :: 0 <= q < |at| ==> at[q] < bound) && forall q, q' :: 0 <= q < q' < |at| ==> at[q] < at[q']
  }

  lemma OnePosition(at: seq<nat>, n: nat)
    requires Increasing(at, n)
    ensures Increasing(at + [n], n + 1)
    ensures forall j: nat :: j in at + [n] <==> j in at || j == n
  {
  }

  /** ys are the elements of xs at these positions. */
  ghost predicate Picks<T>(xs: seq<T>, at: seq<nat>, ys: seq<T>) {
    Increasing(at, |xs|) && |at| == |ys| && forall q :: 0 <= q < |at| ==> ys[q] == xs[at[q]]
  }

  lemma PicksMore<T>(xs: seq<T>, at: seq<nat>, ys: seq<T>, x: T)
    requires Picks(xs, at, ys)
    ensures Picks(xs + [x], at, ys) && Picks(xs + [x], at + [|xs|], ys + [x])
    ensures forall j: nat :: j in at + [|xs|] <==> j in at || j == |xs|
  {
    OnePosition(at, |xs|);
  }

  /** The lists laid end to end. */
  function Flatten<T>(xss: seq<seq<T>>): seq<T> {
    if xss == [] then [] else xss[0] + Flatten(xss[1..])
  }

  lemma {:induction false} FlattenAppend<T>(xss: seq<seq<T>>, yss: seq<seq<T>>)
    ensures Flatten(xss + yss) == Flatten(xss) + Flatten(yss)
  {
    if xss == [] {
      assert xss + yss == yss;
    } else {
      assert (xss + yss)[1..] == xss[1..] + yss;
      FlattenAppend(xss[1..], yss);
    }
  }

  lemma FlattenSnoc<T>(xss: seq<seq<T>>, ys: seq<T>)
    ensures Flatten(xss + [ys]) == Flatten(xss) + ys
  {
    FlattenAppend(xss, [ys]);
    assert Flatten([ys]) == ys + Flatten<T>([]);
  }
}
