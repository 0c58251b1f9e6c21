/** Row-major (C-order) layout of an N-dimensional array: the element count
    of a shape, the flat offset of an index tuple, its inverse, and the law
    that splitting one axis of size x*y into two axes (x, y) leaves every
    flat offset where it was. This is all a reshape does to the data. */
module RowMajor {

  /** x * y by repeated addition. Element counts and flat offsets are built
      from Mul, so they stay opaque products until a proof relates them to
      `*` with MulIsProduct. */
  function Mul(x: nat, y: nat): nat
  {
    if y == 0 then 0 else Mul(x, y - 1) + x
  }

  lemma {:induction false} MulIsProduct(x: nat, y: nat)
    ensures Mul(x, y) == x * y
  {
    if y > 0 {
      MulIsProduct(x, y - 1);
    }
  }

  /** Number of elements of an array of the given shape. */
  function Product(shape: seq<nat>): nat
  {
    if |shape| == 0 then 1 else Mul(Product(shape[..|shape| - 1]), shape[|shape| - 1])
  }

  /** idx is a valid index tuple into an array of the given shape. */
  predicate InBounds(shape: seq<nat>, idx: seq<nat>)
  {
    |idx| == |shape| && forall k :: 0 <= k < |idx| ==> idx[k] < shape[k]
  }

  /** Horner step: a prefix offset f < p scaled by an axis of size s, plus an
      offset i < s along that axis, stays below p * s. */
  lemma {:induction false} HornerBound(f: nat, p: nat, i: nat, s: nat)
    requires f < p && i < s
    ensures f * s + i < p * s
  {
    calc {
      f * s + i;
    < f * s + s;
    == (f + 1) * s;
    <= p * s;
    }
  }

  /** HornerBound for Mul. */
  lemma {:induction false} MulHornerBound(f: nat, p: nat, i: nat, s: nat)
    requires f < p && i < s
    ensures Mul(f, s) + i < Mul(p, s)
  {
    HornerBound(f, p, i, s);
    MulIsProduct(f, s);
    MulIsProduct(p, s);
  }

  /** Flat offset of idx: the number of elements that precede it in
      row-major order (Horner's scheme over the axis sizes). In bounds it
      is below Product(shape) (FlattenBound) and determines idx
      (UnflattenFlatten). */
  function Flatten(shape: seq<nat>, idx: seq<nat>): nat
  {
    if |idx| == 0 || |shape| == 0 then 0
    else Mul(Flatten(shape[..|shape| - 1], idx[..|idx| - 1]), shape[|shape| - 1]) + idx[|idx| - 1]
  }

  lemma {:induction false} FlattenBound(shape: seq<nat>, idx: seq<nat>)
    requires InBounds(shape, idx)
    ensures Flatten(shape, idx) < Product(shape)
  {
    if |idx| > 0 {
      var n := |idx| - 1;
      FlattenBound(shape[..n], idx[..n]);
      MulHornerBound(Flatten(shape[..n], idx[..n]), Product(shape[..n]), idx[n], shape[n]);
    }
  }

  /** The only multiple of s strictly between -s and s is 0. */
  lemma {:induction false} SmallMultiple(x: int, s: int)
    requires s > 0 && -s < x * s < s
    ensures x == 0
  {
  }

  /** Quotient and remainder of q * s + i by s, for 0 <= i < s. */
  lemma {:induction false} DivModOfHorner(q: nat, s: nat, i: nat)
    requires i < s
    ensures (q * s + i) / s == q && (q * s + i) % s == i
  {
    var a := q * s + i;
    var d, m := a / s, a % s;
    assert (d - q) * s == i - m;
    SmallMultiple(d - q, s);
  }

  /** p < q * s bounds the quotient of p by s. */
  lemma {:induction false} DivBelow(p: nat, q: nat, s: nat)
    requires s > 0 && p < q * s
    ensures p / s < q
  {
  }

  /** A coordinate p along an axis of size q * s, seen as the pair
      (p / s, p % s) along axes (q, s). */
  lemma {:induction false} SplitCoordinate(p: nat, q: nat, s: nat)
    requires p < Mul(q, s)
    ensures s > 0 && p / s < q && p % s < s && Mul(p / s, s) + p % s == p
  {
    MulIsProduct(q, s);
    DivBelow(p, q, s);
    MulIsProduct(p / s, s);
  }

  /** Division undoes one Horner step. */
  lemma {:induction false} MulDivModOfHorner(f: nat, s: nat, i: nat)
    requires i < s
    ensures (Mul(f, s) + i) / s == f && (Mul(f, s) + i) % s == i
  {
    MulIsProduct(f, s);
    DivModOfHorner(f, s, i);
  }

  /** The index tuple whose flat offset is p. */
  function Unflatten(shape: seq<nat>, p: nat): (idx: seq<nat>)
    requires p < Product(shape)
    ensures InBounds(shape, idx) && Flatten(shape, idx) == p
  {
    if |shape| == 0 then []
    else
      var n := |shape| - 1;
      var s := shape[n];
      SplitCoordinate(p, Product(shape[..n]), s);
      var prefix := Unflatten(shape[..n], p / s);
      var idx := prefix + [p % s];
      assert idx[..n] == prefix && idx[n] == p % s;
      idx
  }

  /** Flattening is injective on in-bounds tuples: Unflatten undoes it. */
  lemma {:induction false} UnflattenFlatten(shape: seq<nat>, idx: seq<nat>)
    requires InBounds(shape, idx)
    ensures Flatten(shape, idx) < Product(shape)
    ensures Unflatten(shape, Flatten(shape, idx)) == idx
  {
    FlattenBound(shape, idx);
    if |idx| > 0 {
      var n := |idx| - 1;
      var s, f := shape[n], Flatten(shape[..n], idx[..n]);
      var p := Flatten(shape, idx);
      assert p == Mul(f, s) + idx[n];
      MulDivModOfHorner(f, s, idx[n]);
      UnflattenFlatten(shape[..n], idx[..n]);
      calc {
        Unflatten(shape, p);
      == Unflatten(shape[..n], p / s) + [p % s];
      == idx[..n] + [idx[n]];
      == idx;
      }
    }
  }

  /** One more axis appended: Horner's step. */
  lemma {:induction false} FlattenSnoc(shape: seq<nat>, idx: seq<nat>, x: nat, u: nat)
    requires |shape| == |idx|
    ensures Flatten(shape + [x], idx + [u]) == Mul(Flatten(shape, idx), x) + u
  {
  }

  /** One more axis appended: the element count is multiplied by its size. */
  lemma {:induction false} ProductSnoc(shape: seq<nat>, x: nat)
    ensures Product(shape + [x]) == Product(shape) * x
  {
    assert (shape + [x])[..|shape|] == shape;
    MulIsProduct(Product(shape), x);
  }

  lemma {:induction false} InBoundsConcat(s: seq<nat>, t: seq<nat>, i: seq<nat>, j: seq<nat>)
    requires InBounds(s, i) && InBounds(t, j)
    ensures InBounds(s + t, i + j)
  {
  }

  lemma {:induction false} Regroup(f: int, p: int, g: int, s: int)
    ensures (f * p + g) * s == f * (p * s) + g * s
  {
  }

  /** One Horner step over a block of p elements, regrouped. */
  lemma {:induction false} HornerDistrib(f: nat, p: nat, g: nat, s: nat, i: nat)
    ensures Mul(Mul(f, p) + g, s) + i == Mul(f, Mul(p, s)) + (Mul(g, s) + i)
  {
    var fp, ps := Mul(f, p), Mul(p, s);
    MulIsProduct(f, p);
    MulIsProduct(p, s);
    MulIsProduct(fp + g, s);
    MulIsProduct(f, ps);
    MulIsProduct(g, s);
    Regroup(f, p, g, s);
  }

  lemma {:induction false} ProductConcat(s: seq<nat>, t: seq<nat>)
    ensures Product(s + t) == Mul(Product(s), Product(t))
  {
    if |t| > 0 {
      var n := |t| - 1;
      assert (s + t)[..|s + t| - 1] == s + t[..n];
      ProductConcat(s, t[..n]);
      var ps, pt := Product(s), Product(t[..n]);
      assert Product(s + t) == Mul(Mul(ps, pt), t[n]);
      HornerDistrib(ps, pt, 0, t[n], 0);
      MulIsProduct(0, t[n]);
    } else {
      assert s + t == s;
      MulIsProduct(Product(s), 1);
    }
  }

  /** Row-major offsets of a concatenated shape: the outer tuple's offset
      counts whole blocks of the inner shape. */
  lemma {:induction false} FlattenConcat(s: seq<nat>, t: seq<nat>, i: seq<nat>, j: seq<nat>)
    requires |s| == |i| && |t| == |j|
    ensures Flatten(s + t, i + j) == Mul(Flatten(s, i), Product(t)) + Flatten(t, j)
  {
    if |t| > 0 {
      var n := |t| - 1;
      FlattenConcat(s, t[..n], i, j[..n]);
      var fs, ft, pt := Flatten(s, i), Flatten(t[..n], j[..n]), Product(t[..n]);
      calc {
        Flatten(s + t, i + j);
      == { assert s + t == (s + t[..n]) + [t[n]] && i + j == (i + j[..n]) + [j[n]];
           FlattenSnoc(s + t[..n], i + j[..n], t[n], j[n]); }
        Mul(Flatten(s + t[..n], i + j[..n]), t[n]) + j[n];
      ==
        Mul(Mul(fs, pt) + ft, t[n]) + j[n];
      == { HornerDistrib(fs, pt, ft, t[n], j[n]); }
        Mul(fs, Mul(pt, t[n])) + (Mul(ft, t[n]) + j[n]);
      == { assert t == t[..n] + [t[n]] && j == j[..n] + [j[n]];
           FlattenSnoc(t[..n], j[..n], t[n], j[n]); }
        Mul(fs, Product(t)) + Flatten(t, j);
      }
    } else {
      assert s + t == s && i + j == i;
      assert Mul(Flatten(s, i), 1) == Flatten(s, i);
    }
  }

  /** Splitting an axis of size x * y into two axes (x, y) keeps the
      element count. */
  lemma {:induction false} ProductSplitAxis(pre: seq<nat>, post: seq<nat>, x: nat, y: nat)
    ensures Product(pre + [Mul(x, y)] + post) == Product(pre + [x, y] + post)
  {
    ProductConcat(pre, [Mul(x, y)]);
    ProductConcat(pre, [x, y]);
    ProductConcat(pre + [Mul(x, y)], post);
    ProductConcat(pre + [x, y], post);
    assert [x, y][..1] == [x] && [x][..0] == [] && [Mul(x, y)][..0] == [];
    assert Product([Mul(x, y)]) == Mul(1, Mul(x, y));
    assert Product([x, y]) == Mul(Mul(1, x), y);
    MulIsProduct(1, Mul(x, y));
    MulIsProduct(1, x);
  }

  /** SplitAxis for the last axis. */
  lemma {:induction false} SplitLastAxis(pre: seq<nat>, ipre: seq<nat>, x: nat, y: nat, u: nat, v: nat)
    requires InBounds(pre, ipre)
    requires u < x && v < y
    ensures Mul(u, y) + v < Mul(x, y)
    ensures InBounds(pre + [Mul(x, y)], ipre + [Mul(u, y) + v])
    ensures InBounds(pre + [x, y], ipre + [u, v])
    ensures Flatten(pre + [Mul(x, y)], ipre + [Mul(u, y) + v]) == Flatten(pre + [x, y], ipre + [u, v])
  {
    MulHornerBound(u, x, v, y);
    InBoundsConcat(pre, [Mul(x, y)], ipre, [Mul(u, y) + v]);
    InBoundsConcat(pre, [x, y], ipre, [u, v]);
    var f := Flatten(pre, ipre);
    calc {
      Flatten(pre + [Mul(x, y)], ipre + [Mul(u, y) + v]);
    == { FlattenSnoc(pre, ipre, Mul(x, y), Mul(u, y) + v); }
      Mul(f, Mul(x, y)) + (Mul(u, y) + v);
    == { HornerDistrib(f, x, u, y, v); }
      Mul(Mul(f, x) + u, y) + v;
    == { FlattenSnoc(pre, ipre, x, u); }
      Mul(Flatten(pre + [x], ipre + [u]), y) + v;
    == { assert pre + [x, y] == (pre + [x]) + [y] && ipre + [u, v] == (ipre + [u]) + [v];
         FlattenSnoc(pre + [x], ipre + [u], y, v); }
      Flatten(pre + [x, y], ipre + [u, v]);
    }
  }

  /** Splitting an axis of size x * y into two axes (x, y) — coordinate
      u * y + v becoming (u, v) — keeps the element count and every flat
      offset: a reshape of this kind moves no data. */
  lemma {:induction false} SplitAxis(pre: seq<nat>, post: seq<nat>, ipre: seq<nat>, ipost: seq<nat>,
                  x: nat, y: nat, u: nat, v: nat)
    requires InBounds(pre, ipre) && InBounds(post, ipost)
    requires u < x && v < y
    ensures Mul(u, y) + v < Mul(x, y)
    ensures InBounds(pre + [Mul(x, y)] + post, ipre + [Mul(u, y) + v] + ipost)
    ensures InBounds(pre + [x, y] + post, ipre + [u, v] + ipost)
    ensures Product(pre + [Mul(x, y)] + post) == Product(pre + [x, y] + post)
    ensures Flatten(pre + [Mul(x, y)] + post, ipre + [Mul(u, y) + v] + ipost)
         == Flatten(pre + [x, y] + post, ipre + [u, v] + ipost)
  {
    SplitLastAxis(pre, ipre, x, y, u, v);
    ProductSplitAxis(pre, post, x, y);
    InBoundsConcat(pre + [Mul(x, y)], post, ipre + [Mul(u, y) + v], ipost);
    InBoundsConcat(pre + [x, y], post, ipre + [u, v], ipost);
    FlattenConcat(pre + [Mul(x, y)], post, ipre + [Mul(u, y) + v], ipost);
    FlattenConcat(pre + [x, y], post, ipre + [u, v], ipost);
  }
}
