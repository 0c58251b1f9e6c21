/** The constant padder of the torch frontend. pad(input, padding, value)
    allocates an output filled with value and copies the input into an
    interior window of it: slice by slice along the leading axis for rank 4
    (batches) and rank 3 (channels), in one slice write for rank 2. The
    padding length picks the branch: odd raises, above 4 raises, 2 pads the
    last axis, 4 pads the last two axes, and 0 falls through every branch and
    returns None. */
module Pad {

  /** The two RuntimeErrors of the source (message text not modelled). */
  datatype PadError =
    | OddLength   // padding length not divisible by 2
    | TooLarge    // padding length above 4

  /** What a call of pad ends in: an exception, Python's None, or an array. */
  datatype Outcome<A> = Raised(error: PadError) | ReturnedNone | Returned(value: A)

  /** The branch a padding length selects, in the order the source tests. */
  datatype Branch = RaiseOdd | RaiseTooLarge | PadLast | PadLastTwo | FallThrough

  function BranchOf(len: nat): (br: Branch)
  {
    if len % 2 != 0 then RaiseOdd
    else if len > 4 then RaiseTooLarge
    else if len == 2 then PadLast
    else if len == 4 then PadLastTwo
    else FallThrough
  }

  /** Lengths 2 and 4 pad, 0 returns None, every other length raises. */
  lemma {:induction false} BranchPolicy(len: nat)
    ensures BranchOf(len) == PadLast <==> len == 2
    ensures BranchOf(len) == PadLastTwo <==> len == 4
    ensures BranchOf(len) == FallThrough <==> len == 0
    ensures (BranchOf(len) == RaiseOdd || BranchOf(len) == RaiseTooLarge) <==> len !in {0, 2, 4}
    ensures BranchOf(len) == RaiseOdd <==> len % 2 == 1
  {
  }

  /** Padding the source can copy into: the padding branches slice the last
      axis with padding[0] : -padding[1] (and, for length 4, the one before
      it with padding[3] : -padding[2]), which holds the input only when the
      entries are non-negative and the trailing ones positive. */
  predicate Copyable(padding: seq<int>)
  {
    (|padding| == 2 || |padding| == 4) &&
    (forall k :: 0 <= k < |padding| ==> padding[k] >= 0) &&
    padding[1] > 0 && (|padding| == 4 ==> padding[2] > 0)
  }

  /** Where the input lands in the last two axes of the output: rows
      [top, top + h), columns [left, left + w), with `bottom` rows and
      `right` columns after it. */
  datatype Window = Window(top: nat, bottom: nat, left: nat, right: nat)

  /** Length 2 pads the columns only. Length 4 pads the rows as well, and
      the rows are sliced padding[3] : -padding[2], so padding[3] rows come
      before the input and padding[2] after it. */
  function WindowOf(padding: seq<int>): (win: Window)
    requires Copyable(padding)
    ensures win.left == padding[0] && win.right == padding[1] && win.right > 0
    ensures |padding| == 2 ==> win.top == 0 && win.bottom == 0
    ensures |padding| == 4 ==> win.top == padding[3] && win.bottom == padding[2] && win.bottom > 0
  {
    if |padding| == 2 then Window(0, 0, padding[0], padding[1])
    else Window(padding[3], padding[2], padding[0], padding[1])
  }

  /** (y, x) lies in the copy of an h-by-w input. */
  predicate Inside(win: Window, h: nat, w: nat, y: int, x: int)
  {
    win.top <= y < win.top + h && win.left <= x < win.left + w
  }

  /** A slice bound i on an axis of n cells, normalised as Python does:
      a negative bound counts from the end, and the result is clamped to
      [0, n]. */
  function SliceBound(i: int, n: nat): (j: nat)
    ensures j <= n
  {
    if i < 0 then (if i + n < 0 then 0 else i + n)
    else if i > n then n
    else i
  }

  /** Number of cells a[start : stop] selects on an axis of n cells. */
  function SliceLength(n: nat, start: int, stop: int): (len: nat)
    ensures len <= n
  {
    var lo, hi := SliceBound(start, n), SliceBound(stop, n);
    if hi > lo then hi - lo else 0
  }

  /** On an axis of len + lead + trail cells, the slice lead : -trail
      starts at lead and selects exactly len cells, the input's extent,
      if and only if trail is positive (or the input is empty): with
      trail == 0 the stop -0 is 0 and the slice is empty. */
  lemma {:induction false} SliceHoldsInput(len: nat, lead: int, trail: int)
    requires lead >= 0 && trail >= 0
    ensures SliceBound(lead, len + lead + trail) == lead
    ensures trail > 0 ==> SliceBound(-trail, len + lead + trail) == lead + len
    ensures SliceLength(len + lead + trail, lead, -trail) == len <==> trail > 0 || len == 0
  {
  }

  /** The window is where the source's slices put the input. Columns: on
      an axis of w + left + right cells, padding[0] : -padding[1] is
      [left, left + w). Rows, for length 4: on an axis of h + top + bottom
      cells, padding[-1] : -padding[-2] is [top, top + h). For length 2 the
      rows are the whole axis `:`. */
  lemma {:induction false} WindowIsSlice(padding: seq<int>, h: nat, w: nat)
    requires Copyable(padding)
    ensures var win := WindowOf(padding);
            var cols := w + win.left + win.right;
            SliceBound(padding[0], cols) == win.left && SliceBound(-padding[1], cols) == win.left + w &&
            SliceLength(cols, padding[0], -padding[1]) == w
    ensures |padding| == 4 ==>
              var win := WindowOf(padding);
              var rows := h + win.top + win.bottom;
              SliceBound(padding[|padding| - 1], rows) == win.top &&
              SliceBound(-padding[|padding| - 2], rows) == win.top + h &&
              SliceLength(rows, padding[|padding| - 1], -padding[|padding| - 2]) == h
    ensures |padding| == 2 ==> WindowOf(padding).top == 0 && WindowOf(padding).bottom == 0
  {
    var win := WindowOf(padding);
    SliceHoldsInput(w, padding[0], padding[1]);
    if |padding| == 4 {
      SliceHoldsInput(h, padding[3], padding[2]);
    }
  }

  /** out is the rank-2 padding of input: the window holds the input, every
      other cell equals value. */
  ghost predicate Padded2<T>(input: array2<T>, padding: seq<int>, value: T, out: array2<T>)
    requires Copyable(padding)
    reads input, out
  {
    var win, h, w := WindowOf(padding), input.Length0, input.Length1;
    out.Length0 == h + win.top + win.bottom && out.Length1 == w + win.left + win.right &&
    forall y, x :: 0 <= y < out.Length0 && 0 <= x < out.Length1 ==>
      out[y, x] == (if Inside(win, h, w, y, x) then input[y - win.top, x - win.left] else value)
  }

  /** out is the rank-3 padding of input: every channel padded alike. */
  ghost predicate Padded3<T>(input: array3<T>, padding: seq<int>, value: T, out: array3<T>)
    requires Copyable(padding)
    reads input, out
  {
    var win, c, h, w := WindowOf(padding), input.Length0, input.Length1, input.Length2;
    out.Length0 == c && out.Length1 == h + win.top + win.bottom &&
    out.Length2 == w + win.left + win.right &&
    forall k, y, x :: 0 <= k < c && 0 <= y < out.Length1 && 0 <= x < out.Length2 ==>
      out[k, y, x] == (if Inside(win, h, w, y, x) then input[k, y - win.top, x - win.left] else value)
  }

  /** out is the rank-4 padding of input: every (batch, channel) plane padded alike. */
  ghost predicate Padded4<T>(input: array4<T>, padding: seq<int>, value: T, out: array4<T>)
    requires Copyable(padding)
    reads input, out
  {
    var win, b, c, h, w := WindowOf(padding), input.Length0, input.Length1, input.Length2, input.Length3;
    out.Length0 == b && out.Length1 == c && out.Length2 == h + win.top + win.bottom &&
    out.Length3 == w + win.left + win.right &&
    forall n, k, y, x :: 0 <= n < b && 0 <= k < c && 0 <= y < out.Length2 && 0 <= x < out.Length3 ==>
      out[n, k, y, x] == (if Inside(win, h, w, y, x) then input[n, k, y - win.top, x - win.left] else value)
  }

  /** The padding branches of the source: lengths 2 and 4. */
  predicate Pads(padding: seq<int>)
  {
    BranchOf(|padding|) == PadLast || BranchOf(|padding|) == PadLastTwo
  }

  // ---------------------------------------------------------------------
  // Rank 2: one slice write.

  method Pad2<T>(input: array2<T>, padding: seq<int>, value: T) returns (res: Outcome<array2<T>>)
    requires Pads(padding) ==> Copyable(padding)
    ensures BranchOf(|padding|) == RaiseOdd ==> res == Raised(OddLength)
    ensures BranchOf(|padding|) == RaiseTooLarge ==> res == Raised(TooLarge)
    ensures BranchOf(|padding|) == FallThrough ==> res == ReturnedNone
    ensures Pads(padding) ==> res.Returned? && fresh(res.value) && Padded2(input, padding, value, res.value)
  {
    var br := BranchOf(|padding|);
    if br == RaiseOdd {
      return Raised(OddLength);
    } else if br == RaiseTooLarge {
      return Raised(TooLarge);
    } else if br == FallThrough {
      return ReturnedNone;
    }
    var win := WindowOf(padding);
    var h, w := input.Length0, input.Length1;
    var padded := new T[h + win.top + win.bottom, w + win.left + win.right]((_, _) => value);
    forall y, x | win.top <= y < win.top + h && win.left <= x < win.left + w {
      padded[y, x] := input[y - win.top, x - win.left];
    }
    return Returned(padded);
  }

  // ---------------------------------------------------------------------
  // Rank 3: a loop over the channels.

  method Pad3<T>(input: array3<T>, padding: seq<int>, value: T) returns (res: Outcome<array3<T>>)
    requires Pads(padding) ==> Copyable(padding)
    ensures BranchOf(|padding|) == RaiseOdd ==> res == Raised(OddLength)
    ensures BranchOf(|padding|) == RaiseTooLarge ==> res == Raised(TooLarge)
    ensures BranchOf(|padding|) == FallThrough ==> res == ReturnedNone
    ensures Pads(padding) ==> res.Returned? && fresh(res.value) && Padded3(input, padding, value, res.value)
  {
    var br := BranchOf(|padding|);
    if br == RaiseOdd {
      return Raised(OddLength);
    } else if br == RaiseTooLarge {
      return Raised(TooLarge);
    } else if br == FallThrough {
      return ReturnedNone;
    }
    var win := WindowOf(padding);
    var c, h, w := input.Length0, input.Length1, input.Length2;
    var padded := new T[c, h + win.top + win.bottom, w + win.left + win.right]((_, _, _) => value);
    for i := 0 to c
      invariant forall k, y, x :: 0 <= k < c && 0 <= y < padded.Length1 && 0 <= x < padded.Length2 ==>
                  padded[k, y, x] == (if k < i && Inside(win, h, w, y, x)
                                      then input[k, y - win.top, x - win.left] else value)
    {
      forall y, x | win.top <= y < win.top + h && win.left <= x < win.left + w {
        padded[i, y, x] := input[i, y - win.top, x - win.left];
      }
    }
    return Returned(padded);
  }

  // ---------------------------------------------------------------------
  // Rank 4: a loop over the batch.

  method Pad4<T>(input: array4<T>, padding: seq<int>, value: T) returns (res: Outcome<array4<T>>)
    requires Pads(padding) ==> Copyable(padding)
    ensures BranchOf(|padding|) == RaiseOdd ==> res == Raised(OddLength)
    ensures BranchOf(|padding|) == RaiseTooLarge ==> res == Raised(TooLarge)
    ensures BranchOf(|padding|) == FallThrough ==> res == ReturnedNone
    ensures Pads(padding) ==> res.Returned? && fresh(res.value) && Padded4(input, padding, value, res.value)
  {
    var br := BranchOf(|padding|);
    if br == RaiseOdd {
      return Raised(OddLength);
    } else if br == RaiseTooLarge {
      return Raised(TooLarge);
    } else if br == FallThrough {
      return ReturnedNone;
    }
    var win := WindowOf(padding);
    var b, c, h, w := input.Length0, input.Length1, input.Length2, input.Length3;
    var padded := new T[b, c, h + win.top + win.bottom, w + win.left + win.right]((_, _, _, _) => value);
    for i := 0 to b
      invariant forall n, k, y, x :: 0 <= n < b && 0 <= k < c && 0 <= y < padded.Length2 && 0 <= x < padded.Length3 ==>
                  padded[n, k, y, x] == (if n < i && Inside(win, h, w, y, x)
                                         then input[n, k, y - win.top, x - win.left] else value)
    {
      forall k, y, x | 0 <= k < c && win.top <= y < win.top + h && win.left <= x < win.left + w {
        padded[i, k, y, x] := input[i, k, y - win.top, x - win.left];
      }
    }
    return Returned(padded);
  }

  // ---------------------------------------------------------------------
  // Dispatch on the rank.

  /** An input of one of the ranks pad handles, or of any other rank. */
  datatype Input<T> =
    | Rank2(m: array2<T>)
    | Rank3(v: array3<T>)
    | Rank4(t: array4<T>)
    | OtherRank(rank: nat)  // a rank outside {2, 3, 4}

  /** pad(input, padding, value). The length checks sit inside each rank
      branch, so an input of another rank returns None without them. */
  method PadAny<T>(input: Input<T>, padding: seq<int>, value: T) returns (res: Outcome<Input<T>>)
    requires input.OtherRank? ==> input.rank !in {2, 3, 4}
    requires !input.OtherRank? && Pads(padding) ==> Copyable(padding)
    ensures input.OtherRank? ==> res == ReturnedNone
    ensures !input.OtherRank? && BranchOf(|padding|) == RaiseOdd ==> res == Raised(OddLength)
    ensures !input.OtherRank? && BranchOf(|padding|) == RaiseTooLarge ==> res == Raised(TooLarge)
    ensures !input.OtherRank? && BranchOf(|padding|) == FallThrough ==> res == ReturnedNone
    ensures input.Rank2? && Pads(padding) ==>
              res.Returned? && res.value.Rank2? && fresh(res.value.m) && Padded2(input.m, padding, value, res.value.m)
    ensures input.Rank3? && Pads(padding) ==>
              res.Returned? && res.value.Rank3? && fresh(res.value.v) && Padded3(input.v, padding, value, res.value.v)
    ensures input.Rank4? && Pads(padding) ==>
              res.Returned? && res.value.Rank4? && fresh(res.value.t) && Padded4(input.t, padding, value, res.value.t)
  {
    match input
    case Rank2(m) =>
      var r := Pad2(m, padding, value);
      res := match r
        case Raised(e) => Raised(e)
        case ReturnedNone => ReturnedNone
        case Returned(a) => Returned(Rank2(a));
    case Rank3(v) =>
      var r := Pad3(v, padding, value);
      res := match r
        case Raised(e) => Raised(e)
        case ReturnedNone => ReturnedNone
        case Returned(a) => Returned(Rank3(a));
    case Rank4(t) =>
      var r := Pad4(t, padding, value);
      res := match r
        case Raised(e) => Raised(e)
        case ReturnedNone => ReturnedNone
        case Returned(a) => Returned(Rank4(a));
    case OtherRank(_) =>
      res := ReturnedNone;
  }
}
