/**
 * Position-by-position combination of two equally long vectors of records,
 * the helper behind the grouped `+` and `^`.
 */
module VectorUtil {
  import opened LiftMetrics

  /** Element i of the result combines element i of `xs` with element i of `ys`;
      vectors of different lengths are not combined. */
  function Pointwise<M>(op: (M, M) -> M, xs: seq<M>, ys: seq<M>): (r: seq<M>)
    requires |xs| == |ys|
    ensures |r| == |xs|
    ensures forall i :: 0 <= i < |r| ==> r[i] == op(xs[i], ys[i])
  {
    if |xs| == 0 then []
    else Pointwise(op, xs[..|xs| - 1], ys[..|ys| - 1]) + [op(xs[|xs| - 1], ys[|ys| - 1])]
  }

  lemma PointwiseCommutative<M(!new)>(op: (M, M) -> M, xs: seq<M>, ys: seq<M>)
    requires Commutative(op)
    requires |xs| == |ys|
    ensures Pointwise(op, xs, ys) == Pointwise(op, ys, xs)
  {}

  lemma PointwiseAssociative<M(!new)>(op: (M, M) -> M, xs: seq<M>, ys: seq<M>, zs: seq<M>)
    requires Associative(op)
    requires |xs| == |ys| == |zs|
    ensures Pointwise(op, Pointwise(op, xs, ys), zs) == Pointwise(op, xs, Pointwise(op, ys, zs))
  {}
}
