/** The pixel rescaler of the torch frontend: pixel_shuffle moves r*r
    channel values into an r-by-r spatial block, pixel_unshuffle moves them
    back. Both are written as the source writes them, a reshape, an axis
    permutation and a reshape of a row-major tensor; the lemmas state the
    resulting element maps and that the two undo each other. */
module PixelShuffle {
  import opened RowMajor
  import opened Tensors

  /** Which validation failed (the message text is not modelled). */
  datatype RescaleError =
    | DimensionError     // the input is not 4-dimensional
    | DivisibilityError  // channels not divisible by r*r, or height/width not by r

  datatype Result<T> = Ok(value: T) | Err(error: RescaleError)

  /** (b, oc, r, r, h, w) -> (b, oc, h, r, w, r) */
  const ShuffleAxes: seq<nat> := [0, 1, 4, 2, 5, 3]

  /** (b, c, oh, r, ow, r) -> (b, c, r, r, oh, ow) */
  const UnshuffleAxes: seq<nat> := [0, 1, 3, 5, 2, 4]

  lemma {:induction false} ShuffleAxesPermutation()
    ensures IsAxisPermutation(ShuffleAxes)
  {
  }

  lemma {:induction false} UnshuffleAxesPermutation()
    ensures IsAxisPermutation(UnshuffleAxes)
  {
  }

  // ---------------------------------------------------------------------
  // Layout facts: splitting the channel axis and the two spatial axes.
  // Axis sizes and coordinates are written with Mul (RowMajor) here; the
  // shapes in the contracts of PixelShuffle and PixelUnshuffle use `*`.

  /** Channel axis (oc*r)*r split into (oc, r, r). */
  lemma {:induction false} ChannelSplit(b: nat, oc: nat, h: nat, w: nat, r: nat)
    ensures Product([b, Mul(Mul(oc, r), r), h, w]) == Product([b, oc, r, r, h, w])
  {
    var ocr := Mul(oc, r);
    ProductSplitAxis([b], [h, w], ocr, r);
    assert [b] + [Mul(ocr, r)] + [h, w] == [b, Mul(ocr, r), h, w];
    assert [b] + [ocr, r] + [h, w] == [b] + [ocr] + [r, h, w];
    ProductSplitAxis([b], [r, h, w], oc, r);
    assert [b] + [oc, r] + [r, h, w] == [b, oc, r, r, h, w];
  }

  /** Height h*r and width w*r split into (h, r) and (w, r). */
  lemma {:induction false} SpatialSplit(b: nat, c: nat, h: nat, w: nat, r: nat)
    ensures Product([b, c, Mul(h, r), Mul(w, r)]) == Product([b, c, h, r, w, r])
  {
    var hr, wr := Mul(h, r), Mul(w, r);
    ProductSplitAxis([b, c, hr], [], w, r);
    assert [b, c, hr] + [wr] + [] == [b, c, hr, wr];
    assert [b, c, hr] + [w, r] + [] == [b, c] + [hr] + [w, r];
    ProductSplitAxis([b, c], [w, r], h, r);
    assert [b, c] + [h, r] + [w, r] == [b, c, h, r, w, r];
  }

  /** First channel split: coordinate t*r + e of axis (oc*r)*r is (t, e). */
  lemma {:induction false} ChannelSplitOuter(b: nat, oc: nat, h: nat, w: nat, r: nat,
                          n: nat, t: nat, e: nat, i: nat, j: nat)
    requires n < b && t < Mul(oc, r) && e < r && i < h && j < w
    ensures InBounds([b, Mul(Mul(oc, r), r), h, w], [n, Mul(t, r) + e, i, j])
    ensures InBounds([b, Mul(oc, r), r, h, w], [n, t, e, i, j])
    ensures Flatten([b, Mul(Mul(oc, r), r), h, w], [n, Mul(t, r) + e, i, j])
         == Flatten([b, Mul(oc, r), r, h, w], [n, t, e, i, j])
  {
    var ocr := Mul(oc, r);
    SplitAxis([b], [h, w], [n], [i, j], ocr, r, t, e);
    assert [b] + [Mul(ocr, r)] + [h, w] == [b, Mul(ocr, r), h, w];
    assert [n] + [Mul(t, r) + e] + [i, j] == [n, Mul(t, r) + e, i, j];
    assert [b] + [ocr, r] + [h, w] == [b, ocr, r, h, w];
    assert [n] + [t, e] + [i, j] == [n, t, e, i, j];
  }

  /** Second channel split: coordinate k*r + a of axis oc*r is (k, a). */
  lemma {:induction false} ChannelSplitInner(b: nat, oc: nat, h: nat, w: nat, r: nat,
                          n: nat, k: nat, a: nat, e: nat, i: nat, j: nat)
    requires n < b && k < oc && a < r && e < r && i < h && j < w
    ensures InBounds([b, Mul(oc, r), r, h, w], [n, Mul(k, r) + a, e, i, j])
    ensures InBounds([b, oc, r, r, h, w], [n, k, a, e, i, j])
    ensures Flatten([b, Mul(oc, r), r, h, w], [n, Mul(k, r) + a, e, i, j])
         == Flatten([b, oc, r, r, h, w], [n, k, a, e, i, j])
  {
    SplitAxis([b], [r, h, w], [n], [e, i, j], oc, r, k, a);
    assert [b] + [Mul(oc, r)] + [r, h, w] == [b, Mul(oc, r), r, h, w];
    assert [n] + [Mul(k, r) + a] + [e, i, j] == [n, Mul(k, r) + a, e, i, j];
    assert [b] + [oc, r] + [r, h, w] == [b, oc, r, r, h, w];
    assert [n] + [k, a] + [e, i, j] == [n, k, a, e, i, j];
  }

  /** Channel coordinate (k*r + a)*r + e is coordinate (k, a, e) of the split axes. */
  lemma {:induction false} ChannelSplitAt(b: nat, oc: nat, h: nat, w: nat, r: nat,
                       n: nat, k: nat, a: nat, e: nat, i: nat, j: nat)
    requires n < b && k < oc && a < r && e < r && i < h && j < w
    ensures InBounds([b, Mul(Mul(oc, r), r), h, w], [n, Mul(Mul(k, r) + a, r) + e, i, j])
    ensures InBounds([b, oc, r, r, h, w], [n, k, a, e, i, j])
    ensures Flatten([b, Mul(Mul(oc, r), r), h, w], [n, Mul(Mul(k, r) + a, r) + e, i, j])
         == Flatten([b, oc, r, r, h, w], [n, k, a, e, i, j])
  {
    MulHornerBound(k, oc, a, r);
    ChannelSplitOuter(b, oc, h, w, r, n, Mul(k, r) + a, e, i, j);
    ChannelSplitInner(b, oc, h, w, r, n, k, a, e, i, j);
  }

  /** Width split: coordinate j*r + e of axis w*r is (j, e). */
  lemma {:induction false} WidthSplitAt(b: nat, c: nat, hr: nat, w: nat, r: nat,
                     n: nat, k: nat, y: nat, j: nat, e: nat)
    requires n < b && k < c && y < hr && j < w && e < r
    ensures InBounds([b, c, hr, Mul(w, r)], [n, k, y, Mul(j, r) + e])
    ensures InBounds([b, c, hr, w, r], [n, k, y, j, e])
    ensures Flatten([b, c, hr, Mul(w, r)], [n, k, y, Mul(j, r) + e])
         == Flatten([b, c, hr, w, r], [n, k, y, j, e])
  {
    SplitAxis([b, c, hr], [], [n, k, y], [], w, r, j, e);
    assert [b, c, hr] + [Mul(w, r)] + [] == [b, c, hr, Mul(w, r)];
    assert [n, k, y] + [Mul(j, r) + e] + [] == [n, k, y, Mul(j, r) + e];
    assert [b, c, hr] + [w, r] + [] == [b, c, hr, w, r];
    assert [n, k, y] + [j, e] + [] == [n, k, y, j, e];
  }

  /** Height split: coordinate i*r + a of axis h*r is (i, a). */
  lemma {:induction false} HeightSplitAt(b: nat, c: nat, h: nat, w: nat, r: nat,
                      n: nat, k: nat, i: nat, a: nat, j: nat, e: nat)
    requires n < b && k < c && i < h && a < r && j < w && e < r
    ensures InBounds([b, c, Mul(h, r), w, r], [n, k, Mul(i, r) + a, j, e])
    ensures InBounds([b, c, h, r, w, r], [n, k, i, a, j, e])
    ensures Flatten([b, c, Mul(h, r), w, r], [n, k, Mul(i, r) + a, j, e])
         == Flatten([b, c, h, r, w, r], [n, k, i, a, j, e])
  {
    SplitAxis([b, c], [w, r], [n, k], [j, e], h, r, i, a);
    assert [b, c] + [Mul(h, r)] + [w, r] == [b, c, Mul(h, r), w, r];
    assert [n, k] + [Mul(i, r) + a] + [j, e] == [n, k, Mul(i, r) + a, j, e];
    assert [b, c] + [h, r] + [w, r] == [b, c, h, r, w, r];
    assert [n, k] + [i, a] + [j, e] == [n, k, i, a, j, e];
  }

  /** Spatial coordinates (i*r + a, j*r + e) are coordinates (i, a, j, e) of the split axes. */
  lemma {:induction false} SpatialSplitAt(b: nat, c: nat, h: nat, w: nat, r: nat,
                       n: nat, k: nat, i: nat, a: nat, j: nat, e: nat)
    requires n < b && k < c && i < h && a < r && j < w && e < r
    ensures InBounds([b, c, Mul(h, r), Mul(w, r)], [n, k, Mul(i, r) + a, Mul(j, r) + e])
    ensures InBounds([b, c, h, r, w, r], [n, k, i, a, j, e])
    ensures Flatten([b, c, Mul(h, r), Mul(w, r)], [n, k, Mul(i, r) + a, Mul(j, r) + e])
         == Flatten([b, c, h, r, w, r], [n, k, i, a, j, e])
  {
    MulHornerBound(i, h, a, r);
    var hr, y := Mul(h, r), Mul(i, r) + a;
    WidthSplitAt(b, c, hr, w, r, n, k, y, j, e);
    var merged := Flatten([b, c, hr, Mul(w, r)], [n, k, y, Mul(j, r) + e]);
    var half := Flatten([b, c, hr, w, r], [n, k, y, j, e]);
    assert merged == half;
    HeightSplitAt(b, c, h, w, r, n, k, i, a, j, e);
    assert half == Flatten([b, c, h, r, w, r], [n, k, i, a, j, e]);
  }

  // ---------------------------------------------------------------------
  // The two layout chains, on shapes already known to divide.

  /** reshape to (b, oc, r, r, h, w), permute to (b, oc, h, r, w, r),
      reshape to (b, oc, h*r, w*r). */
  function ShuffleLayout<T>(input: Tensor<T>, b: nat, oc: nat, h: nat, w: nat, r: nat): (out: Tensor<T>)
    requires input.Valid() && input.shape == [b, Mul(Mul(oc, r), r), h, w]
    ensures out.Valid() && out.shape == [b, oc, Mul(h, r), Mul(w, r)]
  {
    ChannelSplit(b, oc, h, w, r);
    var reshaped := Reshape(input, [b, oc, r, r, h, w]);
    ShuffleAxesPermutation();
    var permuted := PermuteDims(reshaped, ShuffleAxes);
    assert permuted.shape == [b, oc, h, r, w, r];
    SpatialSplit(b, oc, h, w, r);
    Reshape(permuted, [b, oc, Mul(h, r), Mul(w, r)])
  }

  /** reshape to (b, c, oh, r, ow, r), permute to (b, c, r, r, oh, ow),
      reshape to (b, c*r*r, oh, ow). */
  function UnshuffleLayout<T>(input: Tensor<T>, b: nat, c: nat, oh: nat, ow: nat, r: nat): (out: Tensor<T>)
    requires input.Valid() && input.shape == [b, c, Mul(oh, r), Mul(ow, r)]
    ensures out.Valid() && out.shape == [b, Mul(Mul(c, r), r), oh, ow]
  {
    SpatialSplit(b, c, oh, ow, r);
    var reshaped := Reshape(input, [b, c, oh, r, ow, r]);
    UnshuffleAxesPermutation();
    var permuted := PermuteDims(reshaped, UnshuffleAxes);
    assert permuted.shape == [b, c, r, r, oh, ow];
    ChannelSplit(b, c, oh, ow, r);
    Reshape(permuted, [b, Mul(Mul(c, r), r), oh, ow])
  }

  /** The index bookkeeping behind ShuffleLayoutAt: input coordinate
      (n, (k*r + a)*r + e, i, j) is (n, k, a, e, i, j) after the first
      reshape, the permutation sends that to (n, k, i, a, j, e), and the last
      reshape reads it as (n, k, i*r + a, j*r + e). */
  lemma {:induction false} ShuffleIndices(b: nat, oc: nat, h: nat, w: nat, r: nat,
                                          n: nat, k: nat, a: nat, e: nat, i: nat, j: nat)
    requires n < b && k < oc && a < r && e < r && i < h && j < w
    ensures IsAxisPermutation(ShuffleAxes)
    ensures PermutedShape([b, oc, r, r, h, w], ShuffleAxes) == [b, oc, h, r, w, r]
    ensures Product([b, oc, r, r, h, w]) == Product([b, Mul(Mul(oc, r), r), h, w])
    ensures Product([b, oc, Mul(h, r), Mul(w, r)]) == Product([b, oc, h, r, w, r])
    ensures InBounds([b, Mul(Mul(oc, r), r), h, w], [n, Mul(Mul(k, r) + a, r) + e, i, j])
    ensures InBounds([b, oc, r, r, h, w], [n, k, a, e, i, j])
    ensures Flatten([b, Mul(Mul(oc, r), r), h, w], [n, Mul(Mul(k, r) + a, r) + e, i, j])
         == Flatten([b, oc, r, r, h, w], [n, k, a, e, i, j])
    ensures InBounds([b, oc, Mul(h, r), Mul(w, r)], [n, k, Mul(i, r) + a, Mul(j, r) + e])
    ensures InBounds([b, oc, h, r, w, r], [n, k, i, a, j, e])
    ensures Flatten([b, oc, Mul(h, r), Mul(w, r)], [n, k, Mul(i, r) + a, Mul(j, r) + e])
         == Flatten([b, oc, h, r, w, r], [n, k, i, a, j, e])
  {
    ShuffleAxesPermutation();
    ChannelSplitAt(b, oc, h, w, r, n, k, a, e, i, j);
    SpatialSplitAt(b, oc, h, w, r, n, k, i, a, j, e);
    ChannelSplit(b, oc, h, w, r);
    SpatialSplit(b, oc, h, w, r);
  }

  /** Element law of ShuffleLayout. */
  lemma {:induction false} ShuffleLayoutAt<T>(input: Tensor<T>, b: nat, oc: nat, h: nat, w: nat, r: nat,
                           n: nat, k: nat, a: nat, e: nat, i: nat, j: nat)
    requires input.Valid() && input.shape == [b, Mul(Mul(oc, r), r), h, w]
    requires n < b && k < oc && a < r && e < r && i < h && j < w
    ensures InBounds(input.shape, [n, Mul(Mul(k, r) + a, r) + e, i, j])
    ensures InBounds([b, oc, Mul(h, r), Mul(w, r)], [n, k, Mul(i, r) + a, Mul(j, r) + e])
    ensures ShuffleLayout(input, b, oc, h, w, r).At([n, k, Mul(i, r) + a, Mul(j, r) + e])
         == input.At([n, Mul(Mul(k, r) + a, r) + e, i, j])
  {
    var mid, out := [b, oc, r, r, h, w], [b, oc, Mul(h, r), Mul(w, r)];
    var ii, oi := [n, k, a, e, i, j], [n, k, i, a, j, e];
    var inIdx, outIdx := [n, Mul(Mul(k, r) + a, r) + e, i, j], [n, k, Mul(i, r) + a, Mul(j, r) + e];
    ShuffleIndices(b, oc, h, w, r, n, k, a, e, i, j);
    assert forall q :: 0 <= q < 6 ==> oi[q] == ii[ShuffleAxes[q]];
    ReshapePermuteReshapeAt(input, mid, ShuffleAxes, out, ii, oi, inIdx, outIdx);
  }

  /** The index bookkeeping behind UnshuffleLayoutAt: input coordinate
      (n, ch, i*r + a, j*r + e) is (n, ch, i, a, j, e) after the first
      reshape, the permutation sends that to (n, ch, a, e, i, j), and the last
      reshape reads it as (n, (ch*r + a)*r + e, i, j). */
  lemma {:induction false} UnshuffleIndices(b: nat, c: nat, oh: nat, ow: nat, r: nat,
                                            n: nat, ch: nat, i: nat, a: nat, j: nat, e: nat)
    requires n < b && ch < c && i < oh && a < r && j < ow && e < r
    ensures IsAxisPermutation(UnshuffleAxes)
    ensures PermutedShape([b, c, oh, r, ow, r], UnshuffleAxes) == [b, c, r, r, oh, ow]
    ensures Product([b, c, oh, r, ow, r]) == Product([b, c, Mul(oh, r), Mul(ow, r)])
    ensures Product([b, Mul(Mul(c, r), r), oh, ow]) == Product([b, c, r, r, oh, ow])
    ensures InBounds([b, c, Mul(oh, r), Mul(ow, r)], [n, ch, Mul(i, r) + a, Mul(j, r) + e])
    ensures InBounds([b, c, oh, r, ow, r], [n, ch, i, a, j, e])
    ensures Flatten([b, c, Mul(oh, r), Mul(ow, r)], [n, ch, Mul(i, r) + a, Mul(j, r) + e])
         == Flatten([b, c, oh, r, ow, r], [n, ch, i, a, j, e])
    ensures InBounds([b, Mul(Mul(c, r), r), oh, ow], [n, Mul(Mul(ch, r) + a, r) + e, i, j])
    ensures InBounds([b, c, r, r, oh, ow], [n, ch, a, e, i, j])
    ensures Flatten([b, Mul(Mul(c, r), r), oh, ow], [n, Mul(Mul(ch, r) + a, r) + e, i, j])
         == Flatten([b, c, r, r, oh, ow], [n, ch, a, e, i, j])
  {
    UnshuffleAxesPermutation();
    SpatialSplitAt(b, c, oh, ow, r, n, ch, i, a, j, e);
    ChannelSplitAt(b, c, oh, ow, r, n, ch, a, e, i, j);
    SpatialSplit(b, c, oh, ow, r);
    ChannelSplit(b, c, oh, ow, r);
  }

  /** Element law of UnshuffleLayout. */
  lemma {:induction false} UnshuffleLayoutAt<T>(input: Tensor<T>, b: nat, c: nat, oh: nat, ow: nat, r: nat,
                             n: nat, ch: nat, i: nat, a: nat, j: nat, e: nat)
    requires input.Valid() && input.shape == [b, c, Mul(oh, r), Mul(ow, r)]
    requires n < b && ch < c && i < oh && a < r && j < ow && e < r
    ensures InBounds(input.shape, [n, ch, Mul(i, r) + a, Mul(j, r) + e])
    ensures InBounds([b, Mul(Mul(c, r), r), oh, ow], [n, Mul(Mul(ch, r) + a, r) + e, i, j])
    ensures UnshuffleLayout(input, b, c, oh, ow, r).At([n, Mul(Mul(ch, r) + a, r) + e, i, j])
         == input.At([n, ch, Mul(i, r) + a, Mul(j, r) + e])
  {
    var mid, out := [b, c, oh, r, ow, r], [b, Mul(Mul(c, r), r), oh, ow];
    var ii, oi := [n, ch, i, a, j, e], [n, ch, a, e, i, j];
    var inIdx, outIdx := [n, ch, Mul(i, r) + a, Mul(j, r) + e], [n, Mul(Mul(ch, r) + a, r) + e, i, j];
    UnshuffleIndices(b, c, oh, ow, r, n, ch, i, a, j, e);
    assert forall q :: 0 <= q < 6 ==> oi[q] == ii[UnshuffleAxes[q]];
    ReshapePermuteReshapeAt(input, mid, UnshuffleAxes, out, ii, oi, inIdx, outIdx);
  }

  // ---------------------------------------------------------------------
  // Arithmetic bridges between Mul and `*`.

  /** c divisible by r*r is (c / (r*r)) * r * r. */
  lemma {:induction false} ChannelFactor(c: nat, r: nat)
    requires r >= 1 && c % (r * r) == 0
    ensures c == Mul(Mul(c / (r * r), r), r)
  {
    var oc := c / (r * r);
    MulIsProduct(oc, r);
    MulIsProduct(Mul(oc, r), r);
    assert oc * r * r == oc * (r * r);
  }

  /** x divisible by r is (x / r) * r. */
  lemma {:induction false} SideFactor(x: nat, r: nat)
    requires r >= 1 && x % r == 0
    ensures x == Mul(x / r, r)
  {
    MulIsProduct(x / r, r);
  }

  /** h * r divides by r exactly, giving h back. */
  lemma {:induction false} SideExact(h: nat, r: nat)
    requires r >= 1
    ensures Mul(h, r) % r == 0 && Mul(h, r) / r == h
  {
    MulDivModOfHorner(h, r, 0);
  }

  /** (c * r * r) divides by r * r exactly, giving c back. */
  lemma {:induction false} ChannelExact(c: nat, r: nat)
    requires r >= 1
    ensures Mul(Mul(c, r), r) % (r * r) == 0 && Mul(Mul(c, r), r) / (r * r) == c
  {
    MulIsProduct(c, r);
    MulIsProduct(Mul(c, r), r);
    assert c * r * r == c * (r * r) + 0;
    DivModOfHorner(c, r * r, 0);
  }

  /** c * r * r written with Mul. */
  lemma {:induction false} ChannelScale(c: nat, r: nat)
    ensures Mul(Mul(c, r), r) == c * r * r
  {
    MulIsProduct(c, r);
    MulIsProduct(Mul(c, r), r);
  }

  // ---------------------------------------------------------------------
  // The two operations.

  /** pixel_shuffle(input, r): (b, c, h, w) -> (b, c/(r*r), h*r, w*r).
      Rank is checked first, then divisibility of the channels by r*r. */
  function PixelShuffle<T>(input: Tensor<T>, r: nat): (res: Result<Tensor<T>>)
    requires input.Valid() && r >= 1
    ensures |input.shape| != 4 ==> res == Err(DimensionError)
    ensures |input.shape| == 4 && input.shape[1] % (r * r) != 0 ==> res == Err(DivisibilityError)
    ensures |input.shape| == 4 && input.shape[1] % (r * r) == 0 ==>
              res.Ok? && res.value.Valid() &&
              res.value.shape == [input.shape[0], input.shape[1] / (r * r),
                                  input.shape[2] * r, input.shape[3] * r]
  {
    if |input.shape| != 4 then Err(DimensionError)
    else
      var b, c, h, w := input.shape[0], input.shape[1], input.shape[2], input.shape[3];
      if c % (r * r) != 0 then Err(DivisibilityError)
      else
        var oc := c / (r * r);
        ChannelFactor(c, r);
        MulIsProduct(h, r);
        MulIsProduct(w, r);
        Ok(ShuffleLayout(input, b, oc, h, w, r))
  }

  /** pixel_unshuffle(input, r): (b, c, h, w) -> (b, c*r*r, h/r, w/r).
      Rank is checked first, then height and width jointly for divisibility by r. */
  function PixelUnshuffle<T>(input: Tensor<T>, r: nat): (res: Result<Tensor<T>>)
    requires input.Valid() && r >= 1
    ensures |input.shape| != 4 ==> res == Err(DimensionError)
    ensures |input.shape| == 4 && (input.shape[2] % r != 0 || input.shape[3] % r != 0) ==>
              res == Err(DivisibilityError)
    ensures |input.shape| == 4 && input.shape[2] % r == 0 && input.shape[3] % r == 0 ==>
              res.Ok? && res.value.Valid() &&
              res.value.shape == [input.shape[0], input.shape[1] * r * r,
                                  input.shape[2] / r, input.shape[3] / r]
  {
    if |input.shape| != 4 then Err(DimensionError)
    else
      var b, c, h, w := input.shape[0], input.shape[1], input.shape[2], input.shape[3];
      if h % r != 0 || w % r != 0 then Err(DivisibilityError)
      else
        var oh, ow := h / r, w / r;
        SideFactor(h, r);
        SideFactor(w, r);
        ChannelScale(c, r);
        Ok(UnshuffleLayout(input, b, c, oh, ow, r))
  }

  /** On an accepted input, pixel_shuffle is its layout chain. */
  lemma {:induction false} ShuffleIsLayout<T>(x: Tensor<T>, r: nat)
    requires x.Valid() && r >= 1 && |x.shape| == 4 && x.shape[1] % (r * r) == 0
    ensures x.shape == [x.shape[0], Mul(Mul(x.shape[1] / (r * r), r), r), x.shape[2], x.shape[3]]
    ensures PixelShuffle(x, r)
         == Ok(ShuffleLayout(x, x.shape[0], x.shape[1] / (r * r), x.shape[2], x.shape[3], r))
  {
    ChannelFactor(x.shape[1], r);
  }

  /** On an accepted input, pixel_unshuffle is its layout chain. */
  lemma {:induction false} UnshuffleIsLayout<T>(x: Tensor<T>, r: nat)
    requires x.Valid() && r >= 1 && |x.shape| == 4 && x.shape[2] % r == 0 && x.shape[3] % r == 0
    ensures x.shape == [x.shape[0], x.shape[1], Mul(x.shape[2] / r, r), Mul(x.shape[3] / r, r)]
    ensures PixelUnshuffle(x, r)
         == Ok(UnshuffleLayout(x, x.shape[0], x.shape[1], x.shape[2] / r, x.shape[3] / r, r))
  {
    SideFactor(x.shape[2], r);
    SideFactor(x.shape[3], r);
  }

  /** The product of four axis sizes after a prefix block p, regrouped. */
  lemma {:induction false} Reorder(p: int, r: int, h: int, w: int)
    ensures ((p * h) * r) * w * r == ((p * r) * r) * h * w
  {
  }

  /** Element count of the six-axis shape (b, c, x, y, z, t), axis by axis. */
  lemma {:induction false} SixAxisProduct(b: nat, c: nat, x: nat, y: nat, z: nat, t: nat)
    ensures Product([b, c, x, y, z, t]) == ((((b * c) * x) * y) * z) * t
  {
    ProductSnoc([], b);
    assert [b] == [] + [b];
    ProductSnoc([b], c);
    assert [b, c] == [b] + [c];
    ProductSnoc([b, c], x);
    assert [b, c, x] == [b, c] + [x];
    ProductSnoc([b, c, x], y);
    assert [b, c, x, y] == [b, c, x] + [y];
    ProductSnoc([b, c, x, y], z);
    assert [b, c, x, y, z] == [b, c, x, y] + [z];
    ProductSnoc([b, c, x, y, z], t);
    assert [b, c, x, y, z, t] == [b, c, x, y, z] + [t];
  }

  /** The two permuted six-axis shapes hold the same number of elements. */
  lemma {:induction false} SixAxisCount(b: nat, c: nat, r: nat, h: nat, w: nat)
    ensures Product([b, c, r, r, h, w]) == Product([b, c, h, r, w, r])
  {
    SixAxisProduct(b, c, r, r, h, w);
    SixAxisProduct(b, c, h, r, w, r);
    Reorder(b * c, r, h, w);
  }

  /** pixel_shuffle keeps the number of elements. */
  lemma {:induction false} PixelShuffleSize<T>(x: Tensor<T>, r: nat)
    requires x.Valid() && r >= 1 && |x.shape| == 4 && x.shape[1] % (r * r) == 0
    ensures PixelShuffle(x, r).Ok? && |PixelShuffle(x, r).value.data| == |x.data|
  {
    var b, c, h, w := x.shape[0], x.shape[1], x.shape[2], x.shape[3];
    var oc := c / (r * r);
    ShuffleIsLayout(x, r);
    ChannelSplit(b, oc, h, w, r);
    SpatialSplit(b, oc, h, w, r);
    SixAxisCount(b, oc, r, h, w);
  }

  /** pixel_unshuffle keeps the number of elements. */
  lemma {:induction false} PixelUnshuffleSize<T>(x: Tensor<T>, r: nat)
    requires x.Valid() && r >= 1 && |x.shape| == 4 && x.shape[2] % r == 0 && x.shape[3] % r == 0
    ensures PixelUnshuffle(x, r).Ok? && |PixelUnshuffle(x, r).value.data| == |x.data|
  {
    var b, c, h, w := x.shape[0], x.shape[1], x.shape[2], x.shape[3];
    UnshuffleIsLayout(x, r);
    SpatialSplit(b, c, h / r, w / r, r);
    ChannelSplit(b, c, h / r, w / r, r);
    SixAxisCount(b, c, r, h / r, w / r);
  }

  // ---------------------------------------------------------------------
  // Element maps.

  /** pixel_shuffle sends channel k*r*r + a*r + e at (i, j) to channel k at
      (i*r + a, j*r + e): each group of r*r channels becomes an r-by-r block. */
  lemma {:induction false} PixelShuffleAt<T>(input: Tensor<T>, r: nat, n: nat, k: nat, a: nat, e: nat, i: nat, j: nat)
    requires input.Valid() && r >= 1 && |input.shape| == 4 && input.shape[1] % (r * r) == 0
    requires n < input.shape[0] && k < input.shape[1] / (r * r) && a < r && e < r
    requires i < input.shape[2] && j < input.shape[3]
    ensures InBounds(input.shape, [n, Mul(Mul(k, r) + a, r) + e, i, j])
    ensures InBounds(PixelShuffle(input, r).value.shape, [n, k, Mul(i, r) + a, Mul(j, r) + e])
    ensures PixelShuffle(input, r).value.At([n, k, Mul(i, r) + a, Mul(j, r) + e])
         == input.At([n, Mul(Mul(k, r) + a, r) + e, i, j])
  {
    var b, c, h, w := input.shape[0], input.shape[1], input.shape[2], input.shape[3];
    ShuffleIsLayout(input, r);
    ShuffleLayoutAt(input, b, c / (r * r), h, w, r, n, k, a, e, i, j);
  }

  /** pixel_unshuffle sends channel ch at (i*r + a, j*r + e) to channel
      ch*r*r + a*r + e at (i, j): each r-by-r block becomes r*r channels. */
  lemma {:induction false} PixelUnshuffleAt<T>(input: Tensor<T>, r: nat, n: nat, ch: nat, i: nat, a: nat, j: nat, e: nat)
    requires input.Valid() && r >= 1 && |input.shape| == 4
    requires input.shape[2] % r == 0 && input.shape[3] % r == 0
    requires n < input.shape[0] && ch < input.shape[1] && a < r && e < r
    requires i < input.shape[2] / r && j < input.shape[3] / r
    ensures InBounds(input.shape, [n, ch, Mul(i, r) + a, Mul(j, r) + e])
    ensures InBounds(PixelUnshuffle(input, r).value.shape, [n, Mul(Mul(ch, r) + a, r) + e, i, j])
    ensures PixelUnshuffle(input, r).value.At([n, Mul(Mul(ch, r) + a, r) + e, i, j])
         == input.At([n, ch, Mul(i, r) + a, Mul(j, r) + e])
  {
    var b, c, h, w := input.shape[0], input.shape[1], input.shape[2], input.shape[3];
    UnshuffleIsLayout(input, r);
    UnshuffleLayoutAt(input, b, c, h / r, w / r, r, n, ch, i, a, j, e);
  }

  /** The channel coordinate of the element maps, in Mul and in `*`. */
  lemma {:induction false} ChannelCoordinate(k: nat, a: nat, e: nat, r: nat)
    ensures Mul(Mul(k, r) + a, r) + e == k * r * r + a * r + e
  {
    MulIsProduct(k, r);
    MulIsProduct(Mul(k, r) + a, r);
  }

  /** PixelShuffleAt with the source's arithmetic: output (n, k, y, x) with
      y == i*r + a and x == j*r + e holds input channel k*r*r + a*r + e at (i, j). */
  lemma {:induction false} PixelShuffleAtIndex<T>(input: Tensor<T>, r: nat, n: nat, k: nat, a: nat, e: nat,
                                                  i: nat, j: nat, ch: nat, y: nat, x: nat)
    requires input.Valid() && r >= 1 && |input.shape| == 4 && input.shape[1] % (r * r) == 0
    requires n < input.shape[0] && k < input.shape[1] / (r * r) && a < r && e < r
    requires i < input.shape[2] && j < input.shape[3]
    requires ch == k * r * r + a * r + e && y == i * r + a && x == j * r + e
    ensures InBounds(input.shape, [n, ch, i, j])
    ensures InBounds(PixelShuffle(input, r).value.shape, [n, k, y, x])
    ensures PixelShuffle(input, r).value.At([n, k, y, x]) == input.At([n, ch, i, j])
  {
    ChannelCoordinate(k, a, e, r);
    MulIsProduct(i, r);
    MulIsProduct(j, r);
    PixelShuffleAt(input, r, n, k, a, e, i, j);
  }

  /** PixelUnshuffleAt with the source's arithmetic: output channel
      ch*r*r + a*r + e at (i, j) holds input channel ch at (i*r + a, j*r + e). */
  lemma {:induction false} PixelUnshuffleAtIndex<T>(input: Tensor<T>, r: nat, n: nat, ch: nat, i: nat, a: nat,
                                                    j: nat, e: nat, oc: nat, y: nat, x: nat)
    requires input.Valid() && r >= 1 && |input.shape| == 4
    requires input.shape[2] % r == 0 && input.shape[3] % r == 0
    requires n < input.shape[0] && ch < input.shape[1] && a < r && e < r
    requires i < input.shape[2] / r && j < input.shape[3] / r
    requires oc == ch * r * r + a * r + e && y == i * r + a && x == j * r + e
    ensures InBounds(input.shape, [n, ch, y, x])
    ensures InBounds(PixelUnshuffle(input, r).value.shape, [n, oc, i, j])
    ensures PixelUnshuffle(input, r).value.At([n, oc, i, j]) == input.At([n, ch, y, x])
  {
    ChannelCoordinate(ch, a, e, r);
    MulIsProduct(i, r);
    MulIsProduct(j, r);
    PixelUnshuffleAt(input, r, n, ch, i, a, j, e);
  }

  // ---------------------------------------------------------------------
  // Round trips.

  /** The unshuffle chain undoes the shuffle chain. */
  lemma {:induction false} UnshuffleLayoutAfterShuffleLayout<T>(x: Tensor<T>, b: nat, oc: nat, h: nat, w: nat, r: nat)
    requires x.Valid() && x.shape == [b, Mul(Mul(oc, r), r), h, w]
    ensures UnshuffleLayout(ShuffleLayout(x, b, oc, h, w, r), b, oc, h, w, r) == x
  {
    var s := ShuffleLayout(x, b, oc, h, w, r);
    var u := UnshuffleLayout(s, b, oc, h, w, r);
    forall idx | InBounds(x.shape, idx) ensures u.At(idx) == x.At(idx) {
      var n, q, i, j := idx[0], idx[1], idx[2], idx[3];
      SplitCoordinate(q, Mul(oc, r), r);
      var t, e := q / r, q % r;
      SplitCoordinate(t, oc, r);
      var k, a := t / r, t % r;
      assert idx == [n, Mul(Mul(k, r) + a, r) + e, i, j];
      UnshuffleLayoutAt(s, b, oc, h, w, r, n, k, i, a, j, e);
      ShuffleLayoutAt(x, b, oc, h, w, r, n, k, a, e, i, j);
    }
    TensorExtensionality(u, x);
  }

  /** The shuffle chain undoes the unshuffle chain. */
  lemma {:induction false} ShuffleLayoutAfterUnshuffleLayout<T>(x: Tensor<T>, b: nat, c: nat, oh: nat, ow: nat, r: nat)
    requires x.Valid() && x.shape == [b, c, Mul(oh, r), Mul(ow, r)]
    ensures ShuffleLayout(UnshuffleLayout(x, b, c, oh, ow, r), b, c, oh, ow, r) == x
  {
    var u := UnshuffleLayout(x, b, c, oh, ow, r);
    var s := ShuffleLayout(u, b, c, oh, ow, r);
    forall idx | InBounds(x.shape, idx) ensures s.At(idx) == x.At(idx) {
      var n, ch, y, z := idx[0], idx[1], idx[2], idx[3];
      SplitCoordinate(y, oh, r);
      SplitCoordinate(z, ow, r);
      var i, a, j, e := y / r, y % r, z / r, z % r;
      assert idx == [n, ch, Mul(i, r) + a, Mul(j, r) + e];
      ShuffleLayoutAt(u, b, c, oh, ow, r, n, ch, a, e, i, j);
      UnshuffleLayoutAt(x, b, c, oh, ow, r, n, ch, i, a, j, e);
    }
    TensorExtensionality(s, x);
  }

  /** pixel_unshuffle undoes pixel_shuffle on every input pixel_shuffle accepts. */
  lemma {:induction false} UnshuffleAfterShuffle<T>(x: Tensor<T>, r: nat)
    requires x.Valid() && r >= 1 && |x.shape| == 4 && x.shape[1] % (r * r) == 0
    ensures PixelShuffle(x, r).Ok?
    ensures PixelUnshuffle(PixelShuffle(x, r).value, r) == Ok(x)
  {
    var b, c, h, w := x.shape[0], x.shape[1], x.shape[2], x.shape[3];
    var oc := c / (r * r);
    ShuffleIsLayout(x, r);
    var s := ShuffleLayout(x, b, oc, h, w, r);
    SideExact(h, r);
    SideExact(w, r);
    UnshuffleIsLayout(s, r);
    UnshuffleLayoutAfterShuffleLayout(x, b, oc, h, w, r);
  }

  /** pixel_shuffle undoes pixel_unshuffle on every input pixel_unshuffle accepts. */
  lemma {:induction false} ShuffleAfterUnshuffle<T>(x: Tensor<T>, r: nat)
    requires x.Valid() && r >= 1 && |x.shape| == 4
    requires x.shape[2] % r == 0 && x.shape[3] % r == 0
    ensures PixelUnshuffle(x, r).Ok?
    ensures PixelShuffle(PixelUnshuffle(x, r).value, r) == Ok(x)
  {
    var b, c, h, w := x.shape[0], x.shape[1], x.shape[2], x.shape[3];
    var oh, ow := h / r, w / r;
    UnshuffleIsLayout(x, r);
    var u := UnshuffleLayout(x, b, c, oh, ow, r);
    ChannelExact(c, r);
    ShuffleIsLayout(u, r);
    ShuffleLayoutAfterUnshuffleLayout(x, b, c, oh, ow, r);
  }
}
