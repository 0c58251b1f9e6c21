/** Dense tensors as a shape plus their elements in row-major order, with
    the two layout primitives the pixel rescaler is built from: reshape
    (reinterpret the same elements under a new shape of equal size) and
    axis permutation (output axis k is input axis axes[k]). */
module Tensors {
  import opened RowMajor

  datatype Tensor<T> = Tensor(shape: seq<nat>, data: seq<T>)
  {
    /** The element sequence has exactly one entry per index tuple. */
    predicate Valid()
    {
      |data| == Product(shape)
    }

    /** The element at an index tuple. */
    function At(idx: seq<nat>): T
      requires Valid() && InBounds(shape, idx)
    {
      FlattenBound(shape, idx);
      data[Flatten(shape, idx)]
    }
  }

  /** Reinterprets the elements of t under newShape. Row-major order is kept,
      so the elements do not move: an index tuple of the new shape reads the
      element with the same flat offset. */
  function Reshape<T>(t: Tensor<T>, newShape: seq<nat>): (r: Tensor<T>)
    requires t.Valid() && Product(newShape) == Product(t.shape)
    ensures r.Valid() && r.shape == newShape
    ensures r.data == t.data
  {
    Tensor(newShape, t.data)
  }

  /** The element law of reshape: the new index tuple idx reads the element
      whose index tuple in the old shape has the same flat offset. */
  lemma {:induction false} ReshapeAt<T>(t: Tensor<T>, newShape: seq<nat>, idx: seq<nat>)
    requires t.Valid() && Product(newShape) == Product(t.shape) && InBounds(newShape, idx)
    ensures Flatten(newShape, idx) < Product(t.shape)
    ensures Reshape(t, newShape).At(idx) == t.At(Unflatten(t.shape, Flatten(newShape, idx)))
  {
    FlattenBound(newShape, idx);
  }

  /** Position of the first x in s, or |s| when x does not occur. */
  function IndexOf(s: seq<nat>, x: nat): (k: nat)
    ensures k <= |s|
    ensures k < |s| ==> s[k] == x
    ensures k == |s| ==> x !in s
  {
    if |s| == 0 then 0
    else if s[0] == x then 0
    else 1 + IndexOf(s[1..], x)
  }

  /** axes names every axis 0 .. |axes|-1 exactly once. */
  predicate IsAxisPermutation(axes: seq<nat>)
  {
    (forall k :: 0 <= k < |axes| ==> axes[k] < |axes|) &&
    (forall k, l :: 0 <= k < l < |axes| ==> axes[k] != axes[l]) &&
    (forall j :: 0 <= j < |axes| ==> j in axes)
  }

  /** Shape after permutation: output axis k has the size of input axis axes[k]. */
  function PermutedShape(shape: seq<nat>, axes: seq<nat>): (r: seq<nat>)
    requires |axes| == |shape| && IsAxisPermutation(axes)
    ensures |r| == |shape| && forall k :: 0 <= k < |r| ==> r[k] == shape[axes[k]]
  {
    seq(|axes|, k requires 0 <= k < |axes| => shape[axes[k]])
  }

  /** The input index tuple an output index tuple of a permutation reads:
      input axis axes[k] gets output coordinate k. */
  function SourceIndex(shape: seq<nat>, axes: seq<nat>, oi: seq<nat>): (ii: seq<nat>)
    requires |axes| == |shape| && IsAxisPermutation(axes)
    requires InBounds(PermutedShape(shape, axes), oi)
    ensures InBounds(shape, ii)
    ensures forall k :: 0 <= k < |axes| ==> ii[axes[k]] == oi[k]
  {
    var ii := seq(|axes|, j requires 0 <= j < |axes| => oi[IndexOf(axes, j)]);
    forall j | 0 <= j < |axes| ensures IndexOf(axes, j) < |axes| {
      assert j in axes;
    }
    forall k | 0 <= k < |axes| ensures ii[axes[k]] == oi[k] {
      var l := IndexOf(axes, axes[k]);
      assert l < |axes| && axes[l] == axes[k];
    }
    ii
  }

  /** Axis permutation (numpy-style transpose): output axis k is input axis
      axes[k]; the elements are laid out row-major in the new shape. */
  function PermuteDims<T>(t: Tensor<T>, axes: seq<nat>): (r: Tensor<T>)
    requires t.Valid() && |axes| == |t.shape| && IsAxisPermutation(axes)
    ensures r.Valid() && r.shape == PermutedShape(t.shape, axes)
  {
    var outShape := PermutedShape(t.shape, axes);
    var n := Product(outShape);
    Tensor(outShape, seq(n, q requires 0 <= q < n =>
                           t.At(SourceIndex(t.shape, axes, Unflatten(outShape, q)))))
  }

  /** The defining law of a permutation: the input element at ii is found in
      the output at the tuple oi whose k-th coordinate is ii[axes[k]]. */
  lemma {:induction false} PermuteDimsAt<T>(t: Tensor<T>, axes: seq<nat>, ii: seq<nat>, oi: seq<nat>)
    requires t.Valid() && |axes| == |t.shape| && IsAxisPermutation(axes)
    requires InBounds(t.shape, ii)
    requires |oi| == |axes| && forall k :: 0 <= k < |axes| ==> oi[k] == ii[axes[k]]
    ensures InBounds(PermutedShape(t.shape, axes), oi)
    ensures PermuteDims(t, axes).At(oi) == t.At(ii)
  {
    var outShape := PermutedShape(t.shape, axes);
    assert InBounds(outShape, oi);
    UnflattenFlatten(outShape, oi);
    var src := SourceIndex(t.shape, axes, oi);
    forall j | 0 <= j < |axes| ensures src[j] == ii[j] {
      var k := IndexOf(axes, j);
      assert axes[k] == j && src[axes[k]] == oi[k];
    }
    assert src == ii;
  }

  /** Two tensors of one shape that agree at every index tuple are equal. */
  lemma {:induction false} TensorExtensionality<T>(u: Tensor<T>, t: Tensor<T>)
    requires u.Valid() && t.Valid() && u.shape == t.shape
    requires forall idx :: InBounds(t.shape, idx) ==> u.At(idx) == t.At(idx)
    ensures u == t
  {
    forall p | 0 <= p < |t.data| ensures u.data[p] == t.data[p] {
      var idx := Unflatten(t.shape, p);
      assert u.At(idx) == t.At(idx);
    }
    assert u.data == t.data;
  }

  /** Element law of reshape -> permute -> reshape: the output element at
      outIdx is the input element at inIdx whenever outIdx and inIdx have the
      flat offsets of two index tuples oi and ii related by the permutation. */
  lemma {:induction false} ReshapePermuteReshapeAt<T>(t: Tensor<T>, mid: seq<nat>, axes: seq<nat>, out: seq<nat>,
                                   ii: seq<nat>, oi: seq<nat>, inIdx: seq<nat>, outIdx: seq<nat>)
    requires t.Valid() && Product(mid) == Product(t.shape)
    requires |axes| == |mid| && IsAxisPermutation(axes)
    requires Product(out) == Product(PermutedShape(mid, axes))
    requires InBounds(mid, ii) && |oi| == |axes| && forall k :: 0 <= k < |axes| ==> oi[k] == ii[axes[k]]
    requires InBounds(t.shape, inIdx) && Flatten(t.shape, inIdx) == Flatten(mid, ii)
    requires InBounds(out, outIdx) && InBounds(PermutedShape(mid, axes), oi)
    requires Flatten(out, outIdx) == Flatten(PermutedShape(mid, axes), oi)
    ensures Reshape(PermuteDims(Reshape(t, mid), axes), out).At(outIdx) == t.At(inIdx)
  {
    var reshaped := Reshape(t, mid);
    var permuted := PermuteDims(reshaped, axes);
    PermuteDimsAt(reshaped, axes, ii, oi);
    FlattenBound(out, outIdx);
    FlattenBound(mid, ii);
    calc {
      Reshape(permuted, out).At(outIdx);
    == permuted.data[Flatten(out, outIdx)];
    == permuted.At(oi);
    == reshaped.At(ii);
    == t.data[Flatten(mid, ii)];
    == t.At(inIdx);
    }
  }
}
