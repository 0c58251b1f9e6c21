# Torch-frontend vision functions: pixel shuffle, pixel unshuffle, constant pad

This project models the three shape transformations of ivy's torch frontend in
`ivy/functional/frontends/torch/vision_functions.py` and proves properties of them
in Dafny.

- **`pixel_shuffle(input, r)`** takes a `(b, c, h, w)` tensor to
  `(b, c/(r*r), h*r, w*r)`. It reshapes to `(b, c/r², r, r, h, w)`, permutes
  the axes with `(0, 1, 4, 2, 5, 3)` and reshapes again. Each group of `r*r`
  channels becomes one `r`-by-`r` block of pixels.
- **`pixel_unshuffle(input, r)`** is the reverse. It reshapes to
  `(b, c, h/r, r, w/r, r)`, permutes with `(0, 1, 3, 5, 2, 4)` and reshapes to
  `(b, c*r*r, h/r, w/r)`.
- **`pad(input, padding, value)`** accepts a rank-2, rank-3 or rank-4 array. It
  allocates an output filled with `value`, then copies the input into an interior
  window. Ranks 3 and 4 copy in a loop over the leading axis; rank 2 uses a single
  slice write.

The model has four modules:

- **`RowMajor`** (`row_major.dfy`): row-major (C-order) layout. It covers element
  counts, flat offsets and their inverse. It also proves that splitting one axis
  of size `x*y` into two axes `(x, y)` moves no element.
- **`Tensors`** (`tensors.dfy`): a tensor as a shape plus its elements in row-major
  order. It defines the two layout primitives the rescaler calls, reshape and
  axis permutation.
- **`PixelShuffle`** (`pixel_shuffle.dfy`): the two rescalers as pure functions,
  written as the source's reshape → permute → reshape chain. Around them it proves
  the shape laws, the element maps and the two round trips.
- **`Pad`** (`pad.dfy`): the padder as imperative methods over `array2`, `array3`
  and `array4`. Each method fills a fresh array with `value` and then copies the
  input window, in a loop over the leading axis for ranks 3 and 4. The loop
  invariant says slices `< i` hold the input inside the window and `value`
  outside it, and slices `>= i` are still all `value`.

Errors are values:

- The rescalers return `Result`: `Err(DimensionError)` or `Err(DivisibilityError)`.
- The padder returns `Outcome`: `Raised(OddLength)`, `Raised(TooLarge)`,
  `ReturnedNone` (Python's `None`) or `Returned(array)`.

Inside the layout proofs, products of sizes and coordinates are written with
`RowMajor.Mul`, multiplication by repeated addition. `RowMajor.MulIsProduct`
proves that it equals `*`. The public shapes in `PixelShuffle` and
`PixelUnshuffle` are stated with `*`. The element maps `PixelShuffleAt` and
`PixelUnshuffleAt` keep `Mul` in their coordinates. `PixelShuffleAtIndex` and
`PixelUnshuffleAtIndex` restate them with the source's arithmetic,
`k*r*r + a*r + e` and `i*r + a`.

The model follows the code in two places where it departs from the usual
convention or leaves a case undefined:

- **Length-4 padding, height offset.** The rows are sliced
  `padding[-1] : -padding[-2]` (lines 113, 144, 171). So `padding[3]` rows of
  `value` come before the input and `padding[2]` after it.
  `torch.nn.functional.pad` documents the order `(left, right, top, bottom)`,
  which puts `padding[2]` before it. `Pad.WindowIsSlice` derives the code's
  order from the slices, and the pad methods state it.
- **Unsupported rank.** For a rank outside {2, 3, 4}, `pad` falls through every
  branch and returns `None` without looking at `padding`. `Pad.PadAny` returns
  `ReturnedNone`.

## Model

| member | source | states |
|---|---|---|
| Tensors.ReshapeAt | ivy/functional/frontends/torch/vision_functions.py:35-38 | after a reshape to an equal-count shape, index tuple idx reads the input element whose old index tuple has idx's flat offset |
| Tensors.PermuteDims | ivy/functional/frontends/torch/vision_functions.py:37 | the permuted tensor is valid and output axis k has the size of input axis axes[k] |
| Tensors.PermuteDimsAt | ivy/functional/frontends/torch/vision_functions.py:37 | the input element at ii appears in the permuted tensor at the tuple whose k-th coordinate is ii[axes[k]] |
| Tensors.ReshapePermuteReshapeAt | ivy/functional/frontends/torch/vision_functions.py:35-38 | element law of a reshape → permute → reshape chain, through the flat offsets of the intermediate tuples |
| PixelShuffle.ShuffleAxesPermutation | ivy/functional/frontends/torch/vision_functions.py:37 | (0, 1, 4, 2, 5, 3) names each of the six axes exactly once |
| PixelShuffle.UnshuffleAxesPermutation | ivy/functional/frontends/torch/vision_functions.py:79 | (0, 1, 3, 5, 2, 4) names each of the six axes exactly once |
| PixelShuffle.ChannelSplit | ivy/functional/frontends/torch/vision_functions.py:35 | (b, oc·r·r, h, w) and (b, oc, r, r, h, w) have the same element count, so the first reshape of pixel_shuffle is legal |
| PixelShuffle.SpatialSplit | ivy/functional/frontends/torch/vision_functions.py:36-38 | (b, c, h·r, w·r) and (b, c, h, r, w, r) have the same element count, so the final reshape is legal |
| PixelShuffle.ShuffleLayout | ivy/functional/frontends/torch/vision_functions.py:35-38 | the reshape → permute → reshape chain produces a valid tensor of shape (b, oc, h·r, w·r) |
| PixelShuffle.UnshuffleLayout | ivy/functional/frontends/torch/vision_functions.py:75-80 | the unshuffle chain produces a valid tensor of shape (b, c·r·r, oh, ow) |
| PixelShuffle.ShuffleLayoutAt | ivy/functional/frontends/torch/vision_functions.py:35-38 | the shuffle chain puts input element (n, (k·r + a)·r + e, i, j) at (n, k, i·r + a, j·r + e) |
| PixelShuffle.UnshuffleLayoutAt | ivy/functional/frontends/torch/vision_functions.py:75-80 | the unshuffle chain puts input element (n, ch, i·r + a, j·r + e) at (n, (ch·r + a)·r + e, i, j) |
| PixelShuffle.PixelShuffle | ivy/functional/frontends/torch/vision_functions.py:4-38 | DimensionError exactly when the rank is not 4; DivisibilityError exactly when a rank-4 input has c % (r·r) ≠ 0; otherwise a valid tensor of shape (b, c/(r·r), h·r, w·r) |
| PixelShuffle.PixelUnshuffle | ivy/functional/frontends/torch/vision_functions.py:41-80 | DimensionError exactly when the rank is not 4; DivisibilityError exactly when h % r ≠ 0 or w % r ≠ 0 (one joint check); otherwise a valid tensor of shape (b, c·r·r, h/r, w/r) |
| PixelShuffle.ShuffleIsLayout | ivy/functional/frontends/torch/vision_functions.py:31-38 | on an accepted input, pixel_shuffle is the layout chain with oc = c/(r·r) |
| PixelShuffle.UnshuffleIsLayout | ivy/functional/frontends/torch/vision_functions.py:71-80 | on an accepted input, pixel_unshuffle is the layout chain with oh = h/r and ow = w/r |
| PixelShuffle.PixelShuffleSize | ivy/functional/frontends/torch/vision_functions.py:31-38 | pixel_shuffle keeps the total number of elements |
| PixelShuffle.PixelUnshuffleSize | ivy/functional/frontends/torch/vision_functions.py:71-80 | pixel_unshuffle keeps the total number of elements |
| PixelShuffle.PixelShuffleAt | ivy/functional/frontends/torch/vision_functions.py:31-38 | out[n][k][i·r + a][j·r + e] == in[n][(k·r + a)·r + e][i][j] for all a, e < r, i < h, j < w, with both index tuples in bounds (products written with Mul) |
| PixelShuffle.PixelUnshuffleAt | ivy/functional/frontends/torch/vision_functions.py:71-80 | out[n][(ch·r + a)·r + e][i][j] == in[n][ch][i·r + a][j·r + e] for all a, e < r, i < h/r, j < w/r, with both index tuples in bounds (products written with Mul) |
| PixelShuffle.PixelShuffleAtIndex | ivy/functional/frontends/torch/vision_functions.py:31-38 | out[n][k][i*r + a][j*r + e] == in[n][k*r*r + a*r + e][i][j] for all a, e < r, i < h, j < w, in the source's `*` arithmetic, with both index tuples in bounds |
| PixelShuffle.PixelUnshuffleAtIndex | ivy/functional/frontends/torch/vision_functions.py:71-80 | out[n][ch*r*r + a*r + e][i][j] == in[n][ch][i*r + a][j*r + e] for all a, e < r, i < h/r, j < w/r, in the source's `*` arithmetic, with both index tuples in bounds |
| PixelShuffle.UnshuffleLayoutAfterShuffleLayout | ivy/functional/frontends/torch/vision_functions.py:4-80 | the unshuffle chain undoes the shuffle chain |
| PixelShuffle.ShuffleLayoutAfterUnshuffleLayout | ivy/functional/frontends/torch/vision_functions.py:4-80 | the shuffle chain undoes the unshuffle chain |
| PixelShuffle.UnshuffleAfterShuffle | ivy/functional/frontends/torch/vision_functions.py:4-80 | pixel_unshuffle(pixel_shuffle(x, r), r) == x whenever pixel_shuffle accepts x |
| PixelShuffle.ShuffleAfterUnshuffle | ivy/functional/frontends/torch/vision_functions.py:4-80 | pixel_shuffle(pixel_unshuffle(x, r), r) == x whenever pixel_unshuffle accepts x |
| Pad.BranchPolicy | ivy/functional/frontends/torch/vision_functions.py:95-115 | padding length 2 and 4 pad, 0 falls through to None, odd raises OddLength, and every length outside {0, 2, 4} raises |
| Pad.WindowIsSlice | ivy/functional/frontends/torch/vision_functions.py:101-113 | the columns padding[0] : -padding[1] of the widened axis are exactly [left, left + w); for length 4 the rows padding[-1] : -padding[-2] are exactly [top, top + h), so padding[3] rows precede the input; for length 2 the rows are unpadded |
| Pad.SliceHoldsInput | ivy/functional/frontends/torch/vision_functions.py:105 | on an axis of len + lead + trail cells, the slice lead : -trail starts at lead; it selects exactly len cells if and only if trail > 0 or len == 0 |
| Pad.Pad4 | ivy/functional/frontends/torch/vision_functions.py:88-115 | rank 4: odd length raises OddLength, even length above 4 raises TooLarge, length 0 returns None; otherwise a fresh (b, c, h + top + bottom, w + left + right) array whose window cells hold the input and whose other cells equal value |
| Pad.Pad3 | ivy/functional/frontends/torch/vision_functions.py:118-146 | rank 3: the same outcomes, with the channel axis unchanged and every channel padded alike |
| Pad.Pad2 | ivy/functional/frontends/torch/vision_functions.py:149-173 | rank 2: the same outcomes, with one window copy into a fresh (h + top + bottom, w + left + right) array |
| Pad.PadAny | ivy/functional/frontends/torch/vision_functions.py:83-173 | a rank outside {2, 3, 4} returns None without checking the padding; for ranks 2-4, odd length raises OddLength, even length above 4 raises TooLarge, length 0 returns None, and lengths 2 and 4 return a fresh array of the input's rank that is the padding of the input (Padded2/3/4) |

## Left out

- Error message text. Only which error occurs is modelled (`RescaleError`, `PadError`).
- PixelShuffle.PixelShuffle: requires `r >= 1`. With `r = 0` the source fails with a ZeroDivisionError in `c % 0`. A negative `r` is excluded by its type: the source's checks can pass for it (for `r = -1`, `c % 1 == 0`), and the call then fails inside `ivy.reshape` on negative sizes. Neither failure is modelled.
- PixelShuffle.PixelUnshuffle: requires `r >= 1`. With `r = 0` the source fails with a ZeroDivisionError in `h % 0`. A negative `r` is excluded by its type; the source's divisibility check can pass for it, and the call then fails inside `ivy.reshape` on negative sizes. Neither failure is modelled.
- PixelShuffle.PixelShuffle: `int(c / r²)` goes through floating-point division. The model uses exact integer division. The two agree under the divisibility check, except for counts too large for a double, which are not modelled.
- PixelShuffle.PixelUnshuffle: `int(h / r)` and `int(w / r)` go through floating-point division. The model uses exact integer division, with the same agreement and the same exception.
- Pad.Pad4: on the padding branches it requires non-negative entries and positive trailing pads (`padding[1]`, and `padding[2]` for length 4). With a trailing pad of 0 the slice `p : -0` is empty (`Pad.SliceHoldsInput`). That is the columns when `padding[1] == 0`, and the rows `padding[3] : -0` when `padding[2] == 0` with length 4. What the source then does depends on the input's extent along the axis whose trailing pad is 0: an extent above 1 makes the slice assignment fail; an extent of 1 or 0 is broadcast into the empty slice, and the call returns an all-`value` array with the input dropped; an empty leading axis (`b == 0` at line 104, `c == 0` at line 134) skips the loop, and nothing fails. None of these outcomes is modelled. Negative entries are likewise excluded rather than modelled.
- Pad.Pad3: the same preconditions as `Pad.Pad4`, for the same reason.
- Pad.Pad2: the same preconditions as `Pad.Pad4`, for the same reason.
- Pad.PadAny: the same preconditions as `Pad.Pad4` for a rank-2, rank-3 or rank-4 input (an `OtherRank` input takes any padding, which the source never reads), and an `OtherRank` input must carry a rank outside {2, 3, 4}. It also does not state that the errors are raised before any allocation, because a Dafny contract cannot observe an allocation that does not escape.
- `ones(shape) * value`: the fill is modelled as "every cell equals `value`" for an arbitrary element type. Dtype promotion and float arithmetic in the multiplication are not modelled.
- The ivy backend primitives `ivy.shape`, `ivy.reshape`, `ivy.permute_dims`, `ivy.ones` and `ivy.assertions.check_equal` are foreign calls. Their effect is modelled directly: row-major index arithmetic in `RowMajor` and `Tensors`, and an error outcome.
- Arrays whose rank is not known statically. `Pad.PadAny` takes an `Input` value holding an `array2`, `array3` or `array4`, or only the rank for any other rank, since that branch never reads the array.
- Strides, views, devices and dtypes of ivy arrays: a tensor is its shape plus a row-major element sequence.
- The JAX activation tests in the repository (relu, gelu, softmax and the like): they exercise floating-point numerics whose implementations are not part of this model.
