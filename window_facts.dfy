/** What the window traversal promises its caller: how many times the block
    runs, which inputs each call sees, and what `trim` and the view's ends
    change about that. Everything here is stated about `WindowTrace`, which
    `Window.EachWithWindow` is proved to produce. */
module WindowFacts {
  import opened RubyValues
  import opened Lookback
  import opened Window

  /** Input `idx` as it appears in an untrimmed window: its unwrapped value
      when it exists, `filler` otherwise. */
  function Neighbour(elems: seq<Element>, idx: int, filler: Value): Value {
    if 0 <= idx < |elems| then Unwrap(elems[idx], |elems[idx]|) else filler
  }

  /** Inputs `from`, `from + 1`, ..., `from + count - 1`, oldest first. */
  function Neighbours(elems: seq<Element>, from: int, count: nat, filler: Value): (r: seq<Value>)
    ensures |r| == count
  {
    seq(count, j requires 0 <= j < count => Neighbour(elems, from + j, filler))
  }

  /** The window the documentation describes around input `c`: the `left`
      inputs before it, the input itself, the `right` inputs after it, with
      filler wherever the index falls outside the source. */
  function Around(elems: seq<Element>, c: int, left: nat, right: nat, filler: Value): Sides {
    Sides(Neighbours(elems, c - left, left, filler), Neighbour(elems, c, filler), Neighbours(elems, c + 1, right, filler))
  }

  /** The block is called once per input without crop and
      `max(0, L - left - 2 * right)` times with it: the first `right` process
      calls are lookahead skips, and under crop the inner pass has already
      suppressed `width` elements before the first of them. Call `i` slices
      the row whose newest slot is input `i + right`, or `i + right + width`
      under crop. */
  lemma WindowCalls(elems: seq<Element>, left: nat, right: nat, crop: bool, trim: bool,
                    filler: Value, mode: Expand)
    requires right >= 1
    ensures |Calls(WindowTrace(elems, left, right, crop, trim, filler, mode))|
            == if crop then Max(0, |elems| - left - 2 * right) else |elems|
    ensures forall i :: 0 <= i < |Calls(WindowTrace(elems, left, right, crop, trim, filler, mode))| ==>
              Calls(WindowTrace(elems, left, right, crop, trim, filler, mode))[i]
              == WindowArgs(Slice(Row(elems, left + right, trim, filler,
                                      i + right + (if crop then left + right else 0)), left), mode)
  {
    WindowCallCount(elems, left, right, crop, trim, filler, mode);
    forall i | 0 <= i < |Calls(WindowTrace(elems, left, right, crop, trim, filler, mode))|
      ensures Calls(WindowTrace(elems, left, right, crop, trim, filler, mode))[i]
              == WindowArgs(Slice(Row(elems, left + right, trim, filler,
                                      i + right + (if crop then left + right else 0)), left), mode)
    {
      WindowCallAt(elems, left, right, crop, trim, filler, mode, i);
    }
  }

  /** How many times the block is called. */
  lemma WindowCallCount(elems: seq<Element>, left: nat, right: nat, crop: bool, trim: bool,
                        filler: Value, mode: Expand)
    requires right >= 1
    ensures |Calls(WindowTrace(elems, left, right, crop, trim, filler, mode))|
            == if crop then Max(0, |elems| - left - 2 * right) else |elems|
  {
    WindowCallsAfterSkips(elems, left, right, crop, trim, filler, mode);
  }

  /** Call `i` alone. */
  lemma WindowCallAt(elems: seq<Element>, left: nat, right: nat, crop: bool, trim: bool,
                     filler: Value, mode: Expand, i: nat)
    requires i < |Calls(WindowTrace(elems, left, right, crop, trim, filler, mode))|
    ensures Calls(WindowTrace(elems, left, right, crop, trim, filler, mode))[i]
            == WindowArgs(Slice(Row(elems, left + right, trim, filler,
                                    i + right + (if crop then left + right else 0)), left), mode)
  {
    var trace := WindowTrace(elems, left, right, crop, trim, filler, mode);
    WindowCallsAfterSkips(elems, left, right, crop, trim, filler, mode);
    assert 0 <= i < |Calls(trace)|;
    assert Calls(trace)[i] == trace[right + i].args;
    TraceStep(elems, left, right, crop, trim, filler, mode, right + i);
  }

  /** The calls are the process calls after the first `right`, which are
      all skips. */
  lemma WindowCallsAfterSkips(elems: seq<Element>, left: nat, right: nat, crop: bool, trim: bool,
                              filler: Value, mode: Expand)
    ensures var trace := WindowTrace(elems, left, right, crop, trim, filler, mode);
            |Calls(trace)| == Max(0, |trace| - right)
            && forall i :: 0 <= i < |Calls(trace)| ==> right + i < |trace| && trace[right + i].Called? && Calls(trace)[i] == trace[right + i].args
  {
    var trace := WindowTrace(elems, left, right, crop, trim, filler, mode);
    var m := Min(right, |trace|);
    forall q | 0 <= q < m ensures trace[q].Skipped? {
      TraceStep(elems, left, right, crop, trim, filler, mode, q);
    }
    forall q | m <= q < |trace| ensures trace[q].Called? {
      TraceStep(elems, left, right, crop, trim, filler, mode, q);
    }
    CallsAfterSkips(trace, m);
  }

  /** Process call `q` is a lookahead skip for `q < right` and otherwise
      slices the row whose newest slot is input `q`, or `q + width` under
      crop. */
  lemma TraceStep(elems: seq<Element>, left: nat, right: nat, crop: bool, trim: bool,
                  filler: Value, mode: Expand, q: nat)
    requires q < |WindowTrace(elems, left, right, crop, trim, filler, mode)|
    ensures WindowTrace(elems, left, right, crop, trim, filler, mode)[q]
            == if q < right then Skipped
               else Called(WindowArgs(Slice(Row(elems, left + right, trim, filler,
                                                q + (if crop then left + right else 0)), left), mode))
  {
    var shift := if crop then left + right else 0;
    WindowStepsAt(elems, left, right, crop, trim, filler, mode, |WindowTrace(elems, left, right, crop, trim, filler, mode)|, q);
    ProcessedStep(elems, left, right, crop, trim, filler, mode, q, q + shift);
  }

  /** Without `trim` the row sliced for a call whose newest slot is input
      `c + right` is exactly the window around input `c`. */
  lemma RowUntrimmed(elems: seq<Element>, left: nat, right: nat, filler: Value, c: int)
    ensures Slice(Row(elems, left + right, false, filler, c + right), left) == Around(elems, c, left, right, filler)
  {
    var width := left + right;
    var row := Row(elems, width, false, filler, c + right);
    var want := Around(elems, c, left, right, filler);
    forall j | 0 <= j <= width
      ensures row[j] == RowSlot(elems, false, filler, c + right, c - left + j)
      ensures row[j] == Neighbour(elems, c - left + j, filler)
    {
    }
    assert row[..left] == want.left;
    assert row[left + 1..] == want.right by {
      forall j | 0 <= j < right ensures row[left + 1 + j] == want.right[j] {
        assert row[left + 1 + j] == Neighbour(elems, c + 1 + j, filler);
      }
    }
  }

  /** Without crop or trim, call `i` sees the window around input `i`: the
      block runs once per input, in order, and a block that knows the two
      spans reads back the centre, the `left` inputs before it and the
      `right` inputs after it, filler-padded at both ends of the source. */
  lemma WindowAlignment(elems: seq<Element>, left: nat, right: nat, filler: Value, mode: Expand)
    requires right >= 1
    ensures |Calls(WindowTrace(elems, left, right, false, false, filler, mode))| == |elems|
    ensures forall i :: 0 <= i < |elems| ==>
              Calls(WindowTrace(elems, left, right, false, false, filler, mode))[i]
              == WindowArgs(Around(elems, i, left, right, filler), mode)
    ensures forall i :: 0 <= i < |elems| ==>
              DecodeWindowArgs(Calls(WindowTrace(elems, left, right, false, false, filler, mode))[i], left, right, mode)
              == Some(Around(elems, i, left, right, filler))
  {
    WindowCallCount(elems, left, right, false, false, filler, mode);
    forall i | 0 <= i < |elems|
      ensures Calls(WindowTrace(elems, left, right, false, false, filler, mode))[i]
              == WindowArgs(Around(elems, i, left, right, filler), mode)
      ensures DecodeWindowArgs(Calls(WindowTrace(elems, left, right, false, false, filler, mode))[i], left, right, mode)
              == Some(Around(elems, i, left, right, filler))
    {
      WindowCallAt(elems, left, right, false, false, filler, mode, i);
      RowUntrimmed(elems, left, right, filler, i);
      WindowArgsRoundTrip(Around(elems, i, left, right, filler), mode);
    }
  }

  /** With crop (and without trim) call `i` sees the window around input
      `i + width`. */
  lemma WindowAlignmentCropped(elems: seq<Element>, left: nat, right: nat, filler: Value, mode: Expand)
    requires right >= 1
    ensures |Calls(WindowTrace(elems, left, right, true, false, filler, mode))| == Max(0, |elems| - left - 2 * right)
    ensures forall i :: 0 <= i < Max(0, |elems| - left - 2 * right) ==>
              Calls(WindowTrace(elems, left, right, true, false, filler, mode))[i]
              == WindowArgs(Around(elems, i + left + right, left, right, filler), mode)
  {
    WindowCallCount(elems, left, right, true, false, filler, mode);
    forall i | 0 <= i < Max(0, |elems| - left - 2 * right)
      ensures Calls(WindowTrace(elems, left, right, true, false, filler, mode))[i]
              == WindowArgs(Around(elems, i + left + right, left, right, filler), mode)
    {
      CroppedCallAt(elems, left, right, filler, mode, i);
    }
  }

  /** Call `i` under crop alone. */
  lemma CroppedCallAt(elems: seq<Element>, left: nat, right: nat, filler: Value, mode: Expand, i: nat)
    requires right >= 1 && i < Max(0, |elems| - left - 2 * right)
    ensures |Calls(WindowTrace(elems, left, right, true, false, filler, mode))| == Max(0, |elems| - left - 2 * right)
    ensures Calls(WindowTrace(elems, left, right, true, false, filler, mode))[i]
            == WindowArgs(Around(elems, i + left + right, left, right, filler), mode)
  {
    var c := i + left + right;
    var row := Row(elems, left + right, false, filler, c + right);
    WindowCallCount(elems, left, right, true, false, filler, mode);
    WindowCallAt(elems, left, right, true, false, filler, mode, i);
    assert Calls(WindowTrace(elems, left, right, true, false, filler, mode))[i] == WindowArgs(Slice(row, left), mode);
    RowUntrimmed(elems, left, right, filler, c);
  }

  /** Under crop every slot of every window is a real input, so the filler
      never reaches the block: the calls are the same whatever filler is
      chosen, with or without trim. */
  lemma CroppedWindowsIgnoreFiller(elems: seq<Element>, left: nat, right: nat, trim: bool,
                                   filler: Value, other: Value, mode: Expand)
    requires right >= 1
    ensures Calls(WindowTrace(elems, left, right, true, trim, filler, mode))
            == Calls(WindowTrace(elems, left, right, true, trim, other, mode))
  {
    var a := Calls(WindowTrace(elems, left, right, true, trim, filler, mode));
    var b := Calls(WindowTrace(elems, left, right, true, trim, other, mode));
    WindowCallCount(elems, left, right, true, trim, filler, mode);
    WindowCallCount(elems, left, right, true, trim, other, mode);
    forall i | 0 <= i < |a|
      ensures a[i] == b[i]
    {
      WindowCallAt(elems, left, right, true, trim, filler, mode, i);
      WindowCallAt(elems, left, right, true, trim, other, mode, i);
      RowInsideIgnoresFiller(elems, left + right, trim, filler, other, i + right + left + right);
    }
  }

  /** A row whose every slot is a real input does not depend on the filler. */
  lemma RowInsideIgnoresFiller(elems: seq<Element>, width: nat, trim: bool, filler: Value, other: Value, newest: int)
    requires width <= newest < |elems|
    ensures Row(elems, width, trim, filler, newest) == Row(elems, width, trim, other, newest)
  {
    var ra := Row(elems, width, trim, filler, newest);
    var rb := Row(elems, width, trim, other, newest);
    forall j | 0 <= j <= width
      ensures ra[j] == rb[j]
    {
      assert ra[j] == RowSlot(elems, trim, filler, newest, newest - width + j);
      assert rb[j] == RowSlot(elems, trim, other, newest, newest - width + j);
    }
  }

  /** Input `idx` as the history stores it under `trim`: its first value when
      it exists, `filler` otherwise. */
  function TrimmedNeighbour(elems: seq<Element>, idx: int, filler: Value): Value {
    if 0 <= idx < |elems| then First(elems[idx]) else filler
  }

  function TrimmedNeighbours(elems: seq<Element>, from: int, count: nat, filler: Value): (r: seq<Value>)
    ensures |r| == count
  {
    seq(count, j requires 0 <= j < count => TrimmedNeighbour(elems, from + j, filler))
  }

  /** The window around input `c` under `trim`, as the traversal builds it:
      every slot comes from the trimmed history except the newest real input
      (input `min(c + right, L - 1)`), which is the untrimmed current element
      of the inner pass. That slot is the centre itself for the last input
      and the right-most real slot otherwise. */
  function TrimmedAround(elems: seq<Element>, c: nat, left: nat, right: nat, filler: Value): Sides
    requires c < |elems|
  {
    var newest := Min(c + right, |elems| - 1);
    if newest == c then
      Sides(TrimmedNeighbours(elems, c - left, left, filler), Neighbour(elems, c, filler),
            TrimmedNeighbours(elems, c + 1, right, filler))
    else
      Sides(TrimmedNeighbours(elems, c - left, left, filler), TrimmedNeighbour(elems, c, filler),
            TrimmedNeighbours(elems, c + 1, right, filler)[newest - c - 1 := Neighbour(elems, newest, filler)])
  }

  /** With `trim` the row sliced for the call centred on input `c` is the
      trimmed window around `c`. */
  lemma RowTrimmed(elems: seq<Element>, left: nat, right: nat, filler: Value, c: nat)
    requires c < |elems|
    ensures Slice(Row(elems, left + right, true, filler, c + right), left) == TrimmedAround(elems, c, left, right, filler)
  {
    var row := Row(elems, left + right, true, filler, c + right);
    var want := TrimmedAround(elems, c, left, right, filler);
    TrimmedRowLeft(elems, left, right, filler, c);
    TrimmedRowSlot(elems, left + right, filler, c + right, left);
    TrimmedRowRight(elems, left, right, filler, c);
    assert Slice(row, left) == Sides(want.left, want.center, want.right);
  }

  lemma TrimmedRowLeft(elems: seq<Element>, left: nat, right: nat, filler: Value, c: nat)
    requires c < |elems|
    ensures Row(elems, left + right, true, filler, c + right)[..left] == TrimmedAround(elems, c, left, right, filler).left
  {
    var row := Row(elems, left + right, true, filler, c + right);
    var want := TrimmedAround(elems, c, left, right, filler);
    forall j | 0 <= j < left ensures row[j] == want.left[j] {
      TrimmedRowSlot(elems, left + right, filler, c + right, j);
    }
  }

  lemma TrimmedRowRight(elems: seq<Element>, left: nat, right: nat, filler: Value, c: nat)
    requires c < |elems|
    ensures Row(elems, left + right, true, filler, c + right)[left + 1..] == TrimmedAround(elems, c, left, right, filler).right
  {
    var row := Row(elems, left + right, true, filler, c + right);
    var want := TrimmedAround(elems, c, left, right, filler);
    forall j | 0 <= j < right ensures row[left + 1 + j] == want.right[j] {
      TrimmedRowSlot(elems, left + right, filler, c + right, left + 1 + j);
    }
  }

  /** Under `trim` every slot of a row holds the trimmed input, except the
      slot of the newest real input, which holds it whole. */
  lemma TrimmedRowSlot(elems: seq<Element>, width: nat, filler: Value, newest: int, j: nat)
    requires j <= width
    ensures var idx := newest - width + j;
            Row(elems, width, true, filler, newest)[j]
            == if idx == Min(newest, |elems| - 1) then Neighbour(elems, idx, filler) else TrimmedNeighbour(elems, idx, filler)
  {
    assert Row(elems, width, true, filler, newest)[j] == RowSlot(elems, true, filler, newest, newest - width + j);
  }

  /** With `trim` and without crop, call `i` sees the trimmed window around
      input `i`: the left side and the centre are first values, except that
      the last call's centre is the whole last element, and while inputs
      remain ahead the right-most real slot is a whole element too. */
  lemma WindowTrimmed(elems: seq<Element>, left: nat, right: nat, filler: Value, mode: Expand)
    requires right >= 1
    ensures |Calls(WindowTrace(elems, left, right, false, true, filler, mode))| == |elems|
    ensures forall i :: 0 <= i < |elems| ==>
              Calls(WindowTrace(elems, left, right, false, true, filler, mode))[i]
              == WindowArgs(TrimmedAround(elems, i, left, right, filler), mode)
  {
    WindowCallCount(elems, left, right, false, true, filler, mode);
    forall i | 0 <= i < |elems|
      ensures Calls(WindowTrace(elems, left, right, false, true, filler, mode))[i]
              == WindowArgs(TrimmedAround(elems, i, left, right, filler), mode)
    {
      TrimmedCallAt(elems, left, right, filler, mode, i);
    }
  }

  lemma TrimmedCallAt(elems: seq<Element>, left: nat, right: nat, filler: Value, mode: Expand, i: nat)
    requires right >= 1 && i < |elems|
    ensures |Calls(WindowTrace(elems, left, right, false, true, filler, mode))| == |elems|
    ensures Calls(WindowTrace(elems, left, right, false, true, filler, mode))[i]
            == WindowArgs(TrimmedAround(elems, i, left, right, filler), mode)
  {
    WindowCallCount(elems, left, right, false, true, filler, mode);
    WindowCallAt(elems, left, right, false, true, filler, mode, i);
    RowTrimmed(elems, left, right, filler, i);
  }

  /** The view and `expand` are checked before any element is consumed:
      whether the call fails, and with which error, does not depend on the
      source. */
  lemma WindowValidationFirst(elems: seq<Element>, other: seq<Element>, view: View, opts: Options)
    requires EachWithWindowSpec(elems, view, opts).Err?
    ensures EachWithWindowSpec(other, view, opts) == EachWithWindowSpec(elems, view, opts)
  {
  }

  /** A view without lookahead (`lo..0`) is `each_with_prev(-lo)` with the
      same options: the block sees the element and the history newest first,
      not a window sliced oldest first. */
  lemma WindowWithoutLookahead(elems: seq<Element>, lo: int, opts: Options)
    requires 0 <= -lo < Limit
    ensures EachWithWindowSpec(elems, View(lo, 0), opts) == EachWithPrevSpec(elems, -lo, opts)
  {
  }
}
