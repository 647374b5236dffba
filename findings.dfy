/** Two places where the traversals do something other than what their
    documentation describes. Each is shown twice: on the definitions that
    follow the code (`Lookback.History`, `Window.WindowTrace`), with an input
    that exhibits the difference, and on a corrected definition for which the
    documented property is proved. */
module Findings {
  import opened RubyValues
  import opened Lookback
  import opened Window
  import opened WindowFacts

  // ---------------------------------------------------------------------
  // `each_with_prev(0)` keeps one previous element.

  /** As written, a history of size 0 is not empty: from the second element
      on it holds the previous element. */
  lemma ZeroSizeKeepsPrevious(elems: seq<Element>, k: nat, trim: bool, filler: Value)
    requires 1 <= k <= |elems|
    ensures History(elems, k, 0, trim, filler) == [Stored(elems[k - 1], trim)]
  {
  }

  /** The input that shows it: the view `0..0` asks for no neighbours, is
      delegated to `each_with_prev(0)`, and still hands the block the
      previous element. */
  lemma ZeroSizeWindowSeesPrevious()
    ensures EachWithWindowSpec([[Int(1)], [Int(2)]], View(0, 0), Defaults)
            == Ok([Called([Int(1), Arr([])]), Called([Int(2), Arr([Int(1)])])])
  {
    var elems: seq<Element> := [[Int(1)], [Int(2)]];
    assert History(elems, 0, 0, false, Nil) == [];
    assert History(elems, 1, 0, false, Nil) == [Int(1)];
    assert PrevTrace(elems, 0, false, false, Nil, ExpandSingle)
           == [Called([Int(1), Arr([])]), Called([Int(2), Arr([Int(1)])])];
  }

  /** The history as documented: exactly `size` slots at every element. */
  function FixedHistory(elems: seq<Element>, k: nat, size: nat, trim: bool, filler: Value): (r: seq<Value>)
    requires k <= |elems|
    ensures |r| == size
  {
    seq(size, j requires 0 <= j < size => if k - 1 - j >= 0 then Stored(elems[k - 1 - j], trim) else filler)
  }

  /** `last.pop; last.unshift(v)` guarded so that an empty buffer stays
      empty. */
  function FixedPush(last: seq<Value>, v: Value): seq<Value> {
    if last == [] then [] else Push(last, v)
  }

  /** With the guarded push the buffer keeps exactly `size` slots for every
      size, 0 included, and the history differs from the code's only for
      size 0. */
  lemma FixedHistoryPush(elems: seq<Element>, k: nat, size: nat, trim: bool, filler: Value)
    requires k < |elems|
    ensures FixedPush(FixedHistory(elems, k, size, trim, filler), Stored(elems[k], trim))
            == FixedHistory(elems, k + 1, size, trim, filler)
    ensures size >= 1 ==> FixedHistory(elems, k + 1, size, trim, filler) == History(elems, k + 1, size, trim, filler)
  {
    if size >= 1 {
      HistoryPush(elems, k, size, trim, filler);
      assert FixedHistory(elems, k, size, trim, filler) == History(elems, k, size, trim, filler);
    }
  }

  // ---------------------------------------------------------------------
  // A cropped window skips `view.max` windows too many.

  /** The input that shows it: `[1, 2, 3]` with the view `-1..1` and crop
      has exactly one full window, `([1], 2, [3])`, yet the block is never
      called. */
  lemma CroppedWindowOverSkips()
    ensures EachWithWindowSpec([[Int(1)], [Int(2)], [Int(3)]], View(-1, 1), Options(true, false, Nil, Sym("none")))
            == Ok([Skipped])
    ensures Calls(WindowTrace([[Int(1)], [Int(2)], [Int(3)]], 1, 1, true, false, Nil, ExpandNone)) == []
  {
    var elems: seq<Element> := [[Int(1)], [Int(2)], [Int(3)]];
    assert WindowTrace(elems, 1, 1, true, false, Nil, ExpandNone) == [Skipped];
  }

  /** The evidently intended start: under crop no lookahead skips are
      pending (`skips = crop ? 0 : view.max`), since the inner pass has
      already suppressed the first `width` elements. Process call `q` then
      slices the same row as in the code. */
  function FixedWindowStep(elems: seq<Element>, left: nat, right: nat, crop: bool, trim: bool,
                           filler: Value, mode: Expand, q: nat): Step
  {
    if !crop && q < right then Skipped
    else Called(WindowArgs(Slice(Row(elems, left + right, trim, filler, q + (if crop then left + right else 0)), left), mode))
  }

  function FixedWindowTrace(elems: seq<Element>, left: nat, right: nat, crop: bool, trim: bool,
                            filler: Value, mode: Expand): (r: seq<Step>)
    ensures |r| == ProcessCount(|elems|, left + right, right, crop)
  {
    seq(ProcessCount(|elems|, left + right, right, crop),
        q requires 0 <= q => FixedWindowStep(elems, left, right, crop, trim, filler, mode, q))
  }

  /** With the fix every process call under crop reaches the block: call
      `i` slices the row whose newest slot is input `i + width`. */
  lemma {:induction false} FixedCroppedCalls(elems: seq<Element>, left: nat, right: nat, trim: bool,
                                             filler: Value, mode: Expand)
    ensures |Calls(FixedWindowTrace(elems, left, right, true, trim, filler, mode))| == Max(0, |elems| - left - right)
    ensures forall i :: 0 <= i < Max(0, |elems| - left - right) ==>
              Calls(FixedWindowTrace(elems, left, right, true, trim, filler, mode))[i]
              == WindowArgs(Slice(Row(elems, left + right, trim, filler, i + left + right), left), mode)
  {
    var trace := FixedWindowTrace(elems, left, right, true, trim, filler, mode);
    assert forall q :: 0 <= q < |trace| ==> trace[q].Called? by {
      forall q | 0 <= q < |trace| ensures trace[q].Called? {
        assert trace[q] == FixedWindowStep(elems, left, right, true, trim, filler, mode, q);
      }
    }
    CallsAfterSkips(trace, 0);
    forall i | 0 <= i < |trace|
      ensures Calls(trace)[i] == WindowArgs(Slice(Row(elems, left + right, trim, filler, i + left + right), left), mode)
    {
      assert Calls(trace)[i] == trace[0 + i].args;
      assert trace[i] == FixedWindowStep(elems, left, right, true, trim, filler, mode, i);
    }
  }

  /** With the fix, crop emits exactly the `max(0, L - width)` full windows,
      one around every input that has `left` inputs before it and `right`
      after it, in order. */
  lemma FixedCroppedWindows(elems: seq<Element>, left: nat, right: nat, filler: Value, mode: Expand)
    ensures |Calls(FixedWindowTrace(elems, left, right, true, false, filler, mode))| == Max(0, |elems| - left - right)
    ensures forall i :: 0 <= i < Max(0, |elems| - left - right) ==>
              Calls(FixedWindowTrace(elems, left, right, true, false, filler, mode))[i]
              == WindowArgs(Around(elems, i + left, left, right, filler), mode)
  {
    FixedCroppedCallCount(elems, left, right, false, filler, mode);
    forall i | 0 <= i < Max(0, |elems| - left - right)
      ensures Calls(FixedWindowTrace(elems, left, right, true, false, filler, mode))[i]
              == WindowArgs(Around(elems, i + left, left, right, filler), mode)
    {
      FixedCroppedCallAt(elems, left, right, filler, mode, i);
    }
  }

  lemma FixedCroppedCallAt(elems: seq<Element>, left: nat, right: nat, filler: Value, mode: Expand, i: nat)
    requires i < Max(0, |elems| - left - right)
    ensures |Calls(FixedWindowTrace(elems, left, right, true, false, filler, mode))| == Max(0, |elems| - left - right)
    ensures Calls(FixedWindowTrace(elems, left, right, true, false, filler, mode))[i]
            == WindowArgs(Around(elems, i + left, left, right, filler), mode)
  {
    var window := Slice(Row(elems, left + right, false, filler, i + left + right), left);
    RowUntrimmed(elems, left, right, filler, i + left);
    assert window == Around(elems, i + left, left, right, filler);
    FixedCroppedCallRow(elems, left, right, false, filler, mode, i);
    assert Calls(FixedWindowTrace(elems, left, right, true, false, filler, mode))[i] == WindowArgs(window, mode);
  }

  /** Without crop the fix changes nothing. */
  lemma FixedUncroppedUnchanged(elems: seq<Element>, left: nat, right: nat, trim: bool, filler: Value, mode: Expand)
    ensures FixedWindowTrace(elems, left, right, false, trim, filler, mode)
            == WindowTrace(elems, left, right, false, trim, filler, mode)
  {
    var fixed := FixedWindowTrace(elems, left, right, false, trim, filler, mode);
    forall q | 0 <= q < |fixed|
      ensures fixed[q] == WindowTrace(elems, left, right, false, trim, filler, mode)[q]
    {
      assert fixed[q] == FixedWindowStep(elems, left, right, false, trim, filler, mode, q);
      WindowStepsAt(elems, left, right, false, trim, filler, mode, |fixed|, q);
    }
  }

  /** What the code emits under crop is the corrected output with its first
      `right` windows missing. */
  lemma CroppedWindowsAreFixedMinusRight(elems: seq<Element>, left: nat, right: nat, trim: bool,
                                         filler: Value, mode: Expand)
    requires right >= 1
    ensures |Calls(WindowTrace(elems, left, right, true, trim, filler, mode))|
            == Max(0, |Calls(FixedWindowTrace(elems, left, right, true, trim, filler, mode))| - right)
    ensures forall i :: 0 <= i < |Calls(WindowTrace(elems, left, right, true, trim, filler, mode))| ==>
              Calls(WindowTrace(elems, left, right, true, trim, filler, mode))[i]
              == Calls(FixedWindowTrace(elems, left, right, true, trim, filler, mode))[i + right]
  {
    WindowCallCount(elems, left, right, true, trim, filler, mode);
    FixedCroppedCallCount(elems, left, right, trim, filler, mode);
    forall i | 0 <= i < |Calls(WindowTrace(elems, left, right, true, trim, filler, mode))|
      ensures Calls(WindowTrace(elems, left, right, true, trim, filler, mode))[i]
              == Calls(FixedWindowTrace(elems, left, right, true, trim, filler, mode))[i + right]
    {
      CroppedCallIsFixedCall(elems, left, right, trim, filler, mode, i);
    }
  }

  /** Call `i` of the code under crop is call `i + right` of the fix. */
  lemma CroppedCallIsFixedCall(elems: seq<Element>, left: nat, right: nat, trim: bool,
                               filler: Value, mode: Expand, i: nat)
    requires right >= 1
    requires i < |Calls(WindowTrace(elems, left, right, true, trim, filler, mode))|
    ensures i + right < |Calls(FixedWindowTrace(elems, left, right, true, trim, filler, mode))|
    ensures Calls(WindowTrace(elems, left, right, true, trim, filler, mode))[i]
            == Calls(FixedWindowTrace(elems, left, right, true, trim, filler, mode))[i + right]
  {
    var row := Row(elems, left + right, trim, filler, i + right + left + right);
    WindowCallCount(elems, left, right, true, trim, filler, mode);
    WindowCallAt(elems, left, right, true, trim, filler, mode, i);
    assert Calls(WindowTrace(elems, left, right, true, trim, filler, mode))[i] == WindowArgs(Slice(row, left), mode);
    FixedCroppedCallRow(elems, left, right, trim, filler, mode, i + right);
  }

  /** How many windows the corrected crop emits. */
  lemma FixedCroppedCallCount(elems: seq<Element>, left: nat, right: nat, trim: bool,
                              filler: Value, mode: Expand)
    ensures |Calls(FixedWindowTrace(elems, left, right, true, trim, filler, mode))| == Max(0, |elems| - left - right)
  {
    FixedCroppedCalls(elems, left, right, trim, filler, mode);
  }

  /** Call `i` of the corrected crop alone. */
  lemma FixedCroppedCallRow(elems: seq<Element>, left: nat, right: nat, trim: bool,
                            filler: Value, mode: Expand, i: nat)
    requires i < Max(0, |elems| - left - right)
    ensures |Calls(FixedWindowTrace(elems, left, right, true, trim, filler, mode))| == Max(0, |elems| - left - right)
    ensures Calls(FixedWindowTrace(elems, left, right, true, trim, filler, mode))[i]
            == WindowArgs(Slice(Row(elems, left + right, trim, filler, i + left + right), left), mode)
  {
    FixedCroppedCalls(elems, left, right, trim, filler, mode);
  }
}
