/** `each_with_window`: pairs every element with the elements before and
    after it. Lookahead comes from running `each_with_prev` over a history as
    wide as the whole window and emitting `view.max` calls late, so the
    window trails the source by `view.max` elements; a final drain feeds
    filler in to flush the last windows. The method `EachWithWindow` runs
    that protocol step by step; `Row` and `WindowTrace` give in closed form
    the row each call slices and the calls the block receives. */
module Window {
  import opened RubyValues
  import opened Lookback

  /** The inclusive integer range `lo..hi` passed as `view`. */
  datatype View = View(lo: int, hi: int)

  /** `-1..1`. */
  const DefaultView: View := View(-1, 1)

  const MinMessage: string := "window view minimum must not be positive"
  const MaxMessage: string := "window view maximum must not be negative"

  /** An empty range has no minimum, and `-nil` has no method `-@`. */
  const NilMinMessage: string := "undefined method '-@' for nil"

  /** The value the rolling row holds for input index `idx` when the newest
      element it has seen is input `newest`: filler outside the source; the
      element as passed in (untrimmed) for the newest real element, which
      came straight from the current argument rather than from the history;
      the stored history value otherwise. */
  function RowSlot(elems: seq<Element>, trim: bool, filler: Value, newest: int, idx: int): Value {
    if idx < 0 || idx >= |elems| then filler
    else if idx == Min(newest, |elems| - 1) then Unwrap(elems[idx], |elems[idx]|)
    else Stored(elems[idx], trim)
  }

  /** `last_row`, oldest first: slot `j` holds input `newest - width + j`. */
  function Row(elems: seq<Element>, width: nat, trim: bool, filler: Value, newest: int): (r: seq<Value>)
    ensures |r| == width + 1
  {
    seq(width + 1, j requires 0 <= j <= width => RowSlot(elems, trim, filler, newest, newest - width + j))
  }

  /** `arg.length == 1 ? arg : [arg]` wraps the current element exactly as
      `unwrap` does. */
  lemma ReargIsUnwrap(o: Element)
    ensures (if |o| == 1 then o else [Arr(o)]) == [Unwrap(o, |o|)]
  {
    if |o| == 1 {
      assert o == [o[0]];
    }
  }

  /** Reversing the current element followed by the history seen at input
      `k` gives the row whose newest slot is input `k`. */
  lemma RowFromHistory(elems: seq<Element>, width: nat, trim: bool, filler: Value, k: nat)
    requires k < |elems| && width >= 1
    ensures Reverse((if |elems[k]| == 1 then elems[k] else [Arr(elems[k])]) + History(elems, k, width, trim, filler))
            == Row(elems, width, trim, filler, k)
  {
    ReargIsUnwrap(elems[k]);
    var h := History(elems, k, width, trim, filler);
    var joined := [Unwrap(elems[k], |elems[k]|)] + h;
    var row := Row(elems, width, trim, filler, k);
    forall j | 0 <= j <= width
      ensures Reverse(joined)[j] == row[j]
    {
      ReverseAt(joined, j);
      assert row[j] == RowSlot(elems, trim, filler, k, k - width + j);
      if j < width {
        assert joined[width - j] == h[width - j - 1];
      }
    }
  }

  /** One drain step (`last_row.shift; last_row << filler`) once the source
      is exhausted advances the row by one input index. */
  lemma RowShift(elems: seq<Element>, width: nat, trim: bool, filler: Value, newest: int)
    requires newest >= |elems| - 1
    ensures Row(elems, width, trim, filler, newest)[1..] + [filler] == Row(elems, width, trim, filler, newest + 1)
  {
    var before := Row(elems, width, trim, filler, newest);
    var after := Row(elems, width, trim, filler, newest + 1);
    var shifted := before[1..] + [filler];
    forall j | 0 <= j <= width
      ensures shifted[j] == after[j]
    {
      assert after[j] == RowSlot(elems, trim, filler, newest + 1, newest + 1 - width + j);
      if j < width {
        assert shifted[j] == before[j + 1];
        assert before[j + 1] == RowSlot(elems, trim, filler, newest, newest - width + j + 1);
      }
    }
  }

  /** The row before any element is seen is all filler. */
  lemma RowStart(elems: seq<Element>, width: nat, trim: bool, filler: Value)
    ensures Row(elems, width, trim, filler, -1) == Fill(filler, width + 1)
  {
    var row := Row(elems, width, trim, filler, -1);
    forall j | 0 <= j <= width
      ensures row[j] == filler
    {
      assert row[j] == RowSlot(elems, trim, filler, -1, -1 - width + j);
    }
  }

  /** The three pieces a row is cut into around the centre index. */
  datatype Sides = Sides(left: seq<Value>, center: Value, right: seq<Value>)

  /** `left = last_row[0...center_index]`, `center = last_row[center_index]`,
      `right = last_row[(center_index+1)..-1]`: `left` holds exactly
      `center_index` slots, and the pieces put back together give the row. */
  function Slice(row: seq<Value>, centre: nat): (s: Sides)
    requires centre < |row|
    ensures |s.left| == centre && |s.right| == |row| - centre - 1
    ensures s.left + [s.center] + s.right == row
  {
    Sides(row[..centre], row[centre], row[centre + 1..])
  }

  /** The arguments of one window call (lines 90-100). `:none` passes
      `(left, center, right)`; `:all` splats `left` and `right` around the
      centre; `:single` passes only `(center, unwrap(right))` when there is no
      left side (`center_index == 0`), and otherwise unwraps both sides, by the
      larger of their sizes, so that both are bare only when both have one
      slot. */
  function WindowArgs(s: Sides, mode: Expand): Args {
    match mode
    case ExpandNone => [Arr(s.left), s.center, Arr(s.right)]
    case ExpandAll => s.left + [s.center] + s.right
    case ExpandSingle =>
      if |s.left| == 0 then [s.center, Unwrap(s.right, |s.right|)]
      else
        var m := Max(|s.left|, |s.right|);
        [Unwrap(s.left, m), s.center, Unwrap(s.right, m)]
  }

  /** What a block that knows the two spans reads back from its arguments. */
  function DecodeWindowArgs(args: Args, left: nat, right: nat, mode: Expand): Option<Sides> {
    match mode
    case ExpandNone =>
      if |args| == 3 && args[0].Arr? && args[2].Arr? then Some(Sides(args[0].items, args[1], args[2].items))
      else None
    case ExpandAll =>
      if |args| == left + right + 1 then Some(Sides(args[..left], args[left], args[left + 1..])) else None
    case ExpandSingle =>
      if left == 0 then
        if |args| != 2 then None
        else match Rewrap(args[1], right)
          case Some(r) => Some(Sides([], args[0], r))
          case None => None
      else if |args| != 3 then None
      else
        var m := Max(left, right);
        match (Rewrap(args[0], m), Rewrap(args[2], m))
        case (Some(l), Some(r)) => Some(Sides(l, args[1], r))
        case _ => None
  }

  /** Every argument shape is lossless once there is a right side: a block
      that knows both spans recovers the whole window. */
  lemma WindowArgsRoundTrip(s: Sides, mode: Expand)
    requires |s.right| >= 1
    ensures DecodeWindowArgs(WindowArgs(s, mode), |s.left|, |s.right|, mode) == Some(s)
  {
    var args := WindowArgs(s, mode);
    match mode
    case ExpandNone =>
    case ExpandAll =>
      assert args[..|s.left|] == s.left && args[|s.left| + 1..] == s.right;
    case ExpandSingle =>
      var m := Max(|s.left|, |s.right|);
      if |s.left| == 0 {
        UnwrapRoundTrip(s.right, |s.right|);
      } else {
        UnwrapRoundTrip(s.left, m);
        UnwrapRoundTrip(s.right, m);
      }
  }

  /** How many times `process` runs: once per inner call (every element, or
      every element after the first `width` under crop), plus `right` drain
      steps without crop. */
  function ProcessCount(n: nat, width: nat, right: nat, crop: bool): nat {
    if crop then n - Min(width, n) else n + right
  }

  /** What process call `q` does: the first `right` calls consume the
      lookahead skips and return nil; every later one calls the block with the
      row sliced around the centre. Call `q` sees the row whose newest slot is
      input `q`, or input `q + width` under crop, whose inner pass never calls
      back for the first `width` elements. */
  function WindowStep(elems: seq<Element>, left: nat, right: nat, crop: bool, trim: bool,
                      filler: Value, mode: Expand, q: nat): Step
  {
    if q < right then Skipped
    else
      var width := left + right;
      Called(WindowArgs(Slice(Row(elems, width, trim, filler, q + (if crop then width else 0)), left), mode))
  }

  /** The first `n` process calls. */
  function WindowSteps(elems: seq<Element>, left: nat, right: nat, crop: bool, trim: bool,
                       filler: Value, mode: Expand, n: nat): (r: seq<Step>)
    ensures |r| == n
  {
    if n == 0 then []
    else WindowSteps(elems, left, right, crop, trim, filler, mode, n - 1)
         + [WindowStep(elems, left, right, crop, trim, filler, mode, n - 1)]
  }

  lemma {:induction false} WindowStepsAt(elems: seq<Element>, left: nat, right: nat, crop: bool, trim: bool,
                                         filler: Value, mode: Expand, n: nat, q: nat)
    requires q < n
    ensures WindowSteps(elems, left, right, crop, trim, filler, mode, n)[q]
            == WindowStep(elems, left, right, crop, trim, filler, mode, q)
  {
    if q < n - 1 {
      WindowStepsAt(elems, left, right, crop, trim, filler, mode, n - 1, q);
    }
  }

  /** The whole traversal, one step per process call. */
  function WindowTrace(elems: seq<Element>, left: nat, right: nat, crop: bool, trim: bool,
                       filler: Value, mode: Expand): (r: seq<Step>)
    ensures |r| == ProcessCount(|elems|, left + right, right, crop)
  {
    WindowSteps(elems, left, right, crop, trim, filler, mode, ProcessCount(|elems|, left + right, right, crop))
  }

  /** `each_with_window(view, **opts)` on a finite source: the argument
      checks, the delegation to `each_with_prev` when there is no lookahead,
      the inner traversal's own size check, then the window pass. */
  function EachWithWindowSpec(elems: seq<Element>, view: View, opts: Options): (r: Result<seq<Step>>)
    ensures r.Err? <==> || view.lo > view.hi
                        || !(0 <= -view.lo < Limit)
                        || !(0 <= view.hi < Limit)
                        || ParseExpand(opts.expand).None?
                        || view.hi - view.lo >= Limit
  {
    if view.lo > view.hi then Err(NoMethodError(NilMinMessage))
    else if !(0 <= -view.lo < Limit) then Err(ArgumentError(MinMessage))
    else if !(0 <= view.hi < Limit) then Err(ArgumentError(MaxMessage))
    else match ParseExpand(opts.expand)
      case None => Err(ArgumentError(ExpandMessage))
      case Some(mode) =>
        if view.hi == 0 then EachWithPrevSpec(elems, -view.lo, opts)
        else if view.hi - view.lo >= Limit then Err(ArgumentError(PrevSizeMessage))
        else Ok(WindowTrace(elems, -view.lo, view.hi, opts.crop, opts.trim, opts.filler, mode))
  }

  /** The `process` lambda: while lookahead skips are pending it consumes
      one and returns nil; after that it slices the row around the centre and
      calls the block. */
  method Process(row: seq<Value>, centre: nat, mode: Expand, skips: nat) returns (step: Step, skipsLeft: nat)
    requires centre < |row|
    ensures skipsLeft == Max(0, skips - 1)
    ensures step == if skips != 0 then Skipped else Called(WindowArgs(Slice(row, centre), mode))
  {
    if skips != 0 {
      skipsLeft := skips - 1;
      step := Skipped;
    } else {
      skipsLeft := 0;
      var s := Slice(row, centre);
      step := Called(WindowArgs(s, mode));
    }
  }

  /** One call of the block handed to the inner `each_with_prev` (lines
      105-109): the current element and the history arrive as the two arrays of
      a `:none` call; `last_row` is rebuilt from them, oldest first, and
      `process` runs on it. Process call `n` is made while element `k` is
      current. */
  method Feed(elems: seq<Element>, k: nat, n: nat, arg: Element, history: seq<Value>, left: nat, right: nat,
              crop: bool, trim: bool, filler: Value, mode: Expand, skips: nat)
    returns (step: Step, lastRow: seq<Value>, skipsLeft: nat)
    requires k < |elems| && right >= 1
    requires n + (if crop then left + right else 0) == k
    requires arg == elems[k] && history == History(elems, k, left + right, trim, filler)
    requires skips == Max(0, right - n)
    ensures lastRow == Row(elems, left + right, trim, filler, k)
    ensures step == WindowStep(elems, left, right, crop, trim, filler, mode, n)
    ensures skipsLeft == Max(0, right - (n + 1))
  {
    var rearg := if |arg| == 1 then arg else [Arr(arg)];
    RowFromHistory(elems, left + right, trim, filler, k);
    lastRow := Reverse(rearg + history);
    step, skipsLeft := Process(lastRow, left, mode, skips);
    ProcessedStep(elems, left, right, crop, trim, filler, mode, n, k);
  }

  /** Process call `n`, made while element `k` is current, is a skip
      exactly while lookahead skips are pending, and otherwise slices the
      row whose newest slot is input `k`. */
  lemma ProcessedStep(elems: seq<Element>, left: nat, right: nat, crop: bool, trim: bool, filler: Value,
                      mode: Expand, n: nat, k: nat)
    requires n + (if crop then left + right else 0) == k
    ensures WindowStep(elems, left, right, crop, trim, filler, mode, n)
            == if Max(0, right - n) != 0 then Skipped
               else Called(WindowArgs(Slice(Row(elems, left + right, trim, filler, k), left), mode))
  {
  }

  /** What the inner `:none` pass hands its block at element `k`: nothing
      while crop skips are pending, otherwise the element and the history as
      two arrays. */
  lemma InnerCall(elems: seq<Element>, k: nat, size: nat, crop: bool, trim: bool, filler: Value)
    requires k < |elems|
    ensures PrevTrace(elems, size, crop, trim, filler, ExpandNone)[k].Called? <==> !(crop && k < size)
    ensures PrevTrace(elems, size, crop, trim, filler, ExpandNone)[k].Called? ==>
              PrevTrace(elems, size, crop, trim, filler, ExpandNone)[k].args
              == [Arr(elems[k]), Arr(History(elems, k, size, trim, filler))]
  {
    PrevStepsAt(elems, |elems|, size, crop, trim, filler, ExpandNone, k);
  }

  /** The state of the window pass once the inner pass has visited the
      first `k` elements: the process calls made so far, the pending
      lookahead skips, and the row rebuilt at the last inner call. */
  predicate FedUpTo(elems: seq<Element>, k: nat, left: nat, right: nat, crop: bool, trim: bool, filler: Value,
                    mode: Expand, out: seq<Step>, lastRow: seq<Value>, skips: nat)
  {
    && |lastRow| == left + right + 1
    && |out| == k - CropCount(k, left + right, crop)
    && out == WindowSteps(elems, left, right, crop, trim, filler, mode, |out|)
    && skips == Max(0, right - |out|)
    && (!crop || k > left + right ==> k <= |elems| && lastRow == Row(elems, left + right, trim, filler, k - 1))
  }

  /** Before the inner pass starts: no process call yet, `view.max` skips
      pending, and `last_row` all filler. */
  lemma FedNothing(elems: seq<Element>, left: nat, right: nat, crop: bool, trim: bool, filler: Value, mode: Expand)
    ensures FedUpTo(elems, 0, left, right, crop, trim, filler, mode, [], Fill(filler, left + right + 1), right)
  {
    RowStart(elems, left + right, trim, filler);
  }

  /** After the inner pass: one process call per uncropped element, and
      without crop the row ends at the last input. */
  lemma FedAll(elems: seq<Element>, left: nat, right: nat, crop: bool, trim: bool, filler: Value, mode: Expand,
               out: seq<Step>, lastRow: seq<Value>, skips: nat)
    requires FedUpTo(elems, |elems|, left, right, crop, trim, filler, mode, out, lastRow, skips)
    ensures |out| == |elems| - CropCount(|elems|, left + right, crop)
    ensures out == WindowSteps(elems, left, right, crop, trim, filler, mode, |out|)
    ensures skips == Max(0, right - |out|)
    ensures !crop ==> lastRow == Row(elems, left + right, trim, filler, |elems| - 1)
  {
  }

  /** Element `k` reaches the block of the inner pass (lines 105-109):
      `last_row` is rebuilt and `process` runs once. */
  method FeedCalled(elems: seq<Element>, k: nat, arg: Element, history: seq<Value>, left: nat, right: nat,
                    crop: bool, trim: bool, filler: Value, mode: Expand, out: seq<Step>, lastRow: seq<Value>, skips: nat)
    returns (out': seq<Step>, lastRow': seq<Value>, skips': nat)
    requires right >= 1 && k < |elems| && !(crop && k < left + right)
    requires arg == elems[k] && history == History(elems, k, left + right, trim, filler)
    requires FedUpTo(elems, k, left, right, crop, trim, filler, mode, out, lastRow, skips)
    ensures FedUpTo(elems, k + 1, left, right, crop, trim, filler, mode, out', lastRow', skips')
  {
    var step: Step;
    step, lastRow', skips' := Feed(elems, k, |out|, arg, history, left, right, crop, trim, filler, mode, skips);
    out' := out + [step];
    FedOneMore(elems, k, left, right, crop, trim, filler, mode, out, lastRow', skips');
  }

  /** Appending process call `|out|` made at element `k` extends the state
      from `k` elements to `k + 1`. */
  lemma FedOneMore(elems: seq<Element>, k: nat, left: nat, right: nat, crop: bool, trim: bool, filler: Value,
                   mode: Expand, out: seq<Step>, lastRow: seq<Value>, skips: nat)
    requires k < |elems| && !(crop && k < left + right)
    requires |out| == k - CropCount(k, left + right, crop)
    requires out == WindowSteps(elems, left, right, crop, trim, filler, mode, |out|)
    requires lastRow == Row(elems, left + right, trim, filler, k)
    requires skips == Max(0, right - (|out| + 1))
    ensures FedUpTo(elems, k + 1, left, right, crop, trim, filler, mode,
                    out + [WindowStep(elems, left, right, crop, trim, filler, mode, |out|)], lastRow, skips)
  {
    var out' := out + [WindowStep(elems, left, right, crop, trim, filler, mode, |out|)];
    assert CropCount(k + 1, left + right, crop) == CropCount(k, left + right, crop);
    assert |out'| == k + 1 - CropCount(k + 1, left + right, crop);
    assert out' == WindowSteps(elems, left, right, crop, trim, filler, mode, |out'|);
  }

  /** The inner pass crops element `k`: its block is not called and nothing
      changes, but one more element has gone by. */
  lemma FeedCropped(elems: seq<Element>, k: nat, left: nat, right: nat, trim: bool, filler: Value, mode: Expand,
                    out: seq<Step>, lastRow: seq<Value>, skips: nat)
    requires k < |elems| && k < left + right
    requires FedUpTo(elems, k, left, right, true, trim, filler, mode, out, lastRow, skips)
    ensures FedUpTo(elems, k + 1, left, right, true, trim, filler, mode, out, lastRow, skips)
  {
  }

  /** The block handed to the inner `each_with_prev`, for element `k`. */
  method FeedOne(elems: seq<Element>, steps: seq<Step>, k: nat, left: nat, right: nat, crop: bool, trim: bool,
                 filler: Value, mode: Expand, out: seq<Step>, lastRow: seq<Value>, skips: nat)
    returns (out': seq<Step>, lastRow': seq<Value>, skips': nat)
    requires right >= 1 && k < |elems|
    requires steps == PrevTrace(elems, left + right, crop, trim, filler, ExpandNone)
    requires FedUpTo(elems, k, left, right, crop, trim, filler, mode, out, lastRow, skips)
    ensures FedUpTo(elems, k + 1, left, right, crop, trim, filler, mode, out', lastRow', skips')
  {
    InnerCall(elems, k, left + right, crop, trim, filler);
    if steps[k].Called? {
      out', lastRow', skips' := FeedCalled(elems, k, steps[k].args[0].items, steps[k].args[1].items,
                                           left, right, crop, trim, filler, mode, out, lastRow, skips);
    } else {
      FeedCropped(elems, k, left, right, trim, filler, mode, out, lastRow, skips);
      out', lastRow', skips' := out, lastRow, skips;
    }
  }

  /** The inner pass's block run over all its steps in order: one process
      call per element the inner pass does not crop. */
  method FeedRows(elems: seq<Element>, steps: seq<Step>, left: nat, right: nat, crop: bool, trim: bool,
                  filler: Value, mode: Expand)
    returns (out: seq<Step>, lastRow: seq<Value>, skips: nat)
    requires right >= 1
    requires steps == PrevTrace(elems, left + right, crop, trim, filler, ExpandNone)
    ensures |out| == |elems| - CropCount(|elems|, left + right, crop)
    ensures out == WindowSteps(elems, left, right, crop, trim, filler, mode, |out|)
    ensures skips == Max(0, right - |out|)
    ensures !crop ==> lastRow == Row(elems, left + right, trim, filler, |elems| - 1)
  {
    lastRow := Fill(filler, left + right + 1);
    skips := right;
    out := [];
    FedNothing(elems, left, right, crop, trim, filler, mode);
    for k := 0 to |elems|
      invariant FedUpTo(elems, k, left, right, crop, trim, filler, mode, out, lastRow, skips)
    {
      out, lastRow, skips := FeedOne(elems, steps, k, left, right, crop, trim, filler, mode, out, lastRow, skips);
    }
    FedAll(elems, left, right, crop, trim, filler, mode, out, lastRow, skips);
  }

  /** The state of the drain after `d` of its turns: one process call per
      input and per turn so far, and the row shifted `d` times. */
  predicate DrainedUpTo(elems: seq<Element>, d: nat, left: nat, right: nat, trim: bool, filler: Value, mode: Expand,
                        out: seq<Step>, lastRow: seq<Value>, skips: nat)
  {
    && |out| == |elems| + d
    && out == WindowSteps(elems, left, right, false, trim, filler, mode, |out|)
    && skips == Max(0, right - |out|)
    && lastRow == Row(elems, left + right, trim, filler, |elems| - 1 + d)
  }

  /** Appending process call `|out|` on the row shifted once more extends
      the drain by one turn. */
  lemma DrainedOneMore(elems: seq<Element>, d: nat, left: nat, right: nat, trim: bool, filler: Value, mode: Expand,
                       out: seq<Step>, lastRow: seq<Value>, skips: nat)
    requires |out| == |elems| + d
    requires out == WindowSteps(elems, left, right, false, trim, filler, mode, |out|)
    requires skips == Max(0, right - (|out| + 1))
    requires lastRow == Row(elems, left + right, trim, filler, |elems| + d)
    ensures DrainedUpTo(elems, d + 1, left, right, trim, filler, mode,
                        out + [WindowStep(elems, left, right, false, trim, filler, mode, |out|)], lastRow, skips)
  {
  }

  /** One turn of the drain: shift the row, append the filler, process. */
  method DrainOne(elems: seq<Element>, d: nat, left: nat, right: nat, trim: bool, filler: Value, mode: Expand,
                  out: seq<Step>, lastRow: seq<Value>, skips: nat)
    returns (out': seq<Step>, lastRow': seq<Value>, skips': nat)
    requires DrainedUpTo(elems, d, left, right, trim, filler, mode, out, lastRow, skips)
    ensures DrainedUpTo(elems, d + 1, left, right, trim, filler, mode, out', lastRow', skips')
  {
    RowShift(elems, left + right, trim, filler, |elems| - 1 + d);
    lastRow' := lastRow[1..] + [filler];
    assert lastRow' == Row(elems, left + right, trim, filler, |elems| + d);
    var step: Step;
    step, skips' := Process(lastRow', left, mode, skips);
    ProcessedStep(elems, left, right, false, trim, filler, mode, |out|, |out|);
    assert step == WindowStep(elems, left, right, false, trim, filler, mode, |out|);
    DrainedOneMore(elems, d, left, right, trim, filler, mode, out, lastRow', skips');
    out' := out + [step];
  }

  /** The drain (lines 112-118): without crop, `view.max` more process calls,
      each on the row shifted left with one filler appended. */
  method Drain(elems: seq<Element>, fed: seq<Step>, row: seq<Value>, skipsLeft: nat, left: nat, right: nat,
               trim: bool, filler: Value, mode: Expand)
    returns (out: seq<Step>)
    requires |fed| == |elems|
    requires fed == WindowSteps(elems, left, right, false, trim, filler, mode, |fed|)
    requires skipsLeft == Max(0, right - |fed|)
    requires row == Row(elems, left + right, trim, filler, |elems| - 1)
    ensures out == WindowTrace(elems, left, right, false, trim, filler, mode)
  {
    var lastRow := row;
    var skips := skipsLeft;
    out := fed;
    for d := 0 to right
      invariant DrainedUpTo(elems, d, left, right, trim, filler, mode, out, lastRow, skips)
    {
      out, lastRow, skips := DrainOne(elems, d, left, right, trim, filler, mode, out, lastRow, skips);
    }
  }

  /** The traversal as the Ruby code runs it: the argument checks, the
      delegation when there is no lookahead, the inner pass in `:none` mode,
      then the drain unless `crop` is set. */
  method EachWithWindow(elems: seq<Element>, view: View, opts: Options) returns (r: Result<seq<Step>>)
    ensures r == EachWithWindowSpec(elems, view, opts)
  {
    if view.lo > view.hi {
      return Err(NoMethodError(NilMinMessage));
    }
    var centerIndex := -view.lo;
    if !(0 <= centerIndex < Limit) {
      return Err(ArgumentError(MinMessage));
    }
    if !(0 <= view.hi < Limit) {
      return Err(ArgumentError(MaxMessage));
    }
    var parsed := ParseExpand(opts.expand);
    if parsed.None? {
      return Err(ArgumentError(ExpandMessage));
    }
    var mode := parsed.value;
    if view.hi == 0 {
      r := EachWithPrev(elems, centerIndex, opts);
      return;
    }
    r := WindowPass(elems, centerIndex, view.hi, opts, mode);
  }

  /** Lines 77-119 once the view has a lookahead: the inner `:none` pass
      over `width` previous elements (whose own size check can fail), the
      feed, then the drain unless `crop` is set. */
  method WindowPass(elems: seq<Element>, left: nat, right: nat, opts: Options, mode: Expand)
    returns (r: Result<seq<Step>>)
    requires right >= 1
    ensures r == if left + right >= Limit then Err(ArgumentError(PrevSizeMessage))
                 else Ok(WindowTrace(elems, left, right, opts.crop, opts.trim, opts.filler, mode))
  {
    var inner := EachWithPrev(elems, left + right, opts.(expand := Sym("none")));
    if inner.Err? {
      return Err(inner.error);
    }
    var out, lastRow, skips := FeedRows(elems, inner.value, left, right, opts.crop, opts.trim, opts.filler, mode);
    if !opts.crop {
      out := Drain(elems, out, lastRow, skips, left, right, opts.trim, opts.filler, mode);
    }
    r := Ok(out);
  }
}
