/** `each_with_prev`: one forward pass over the source that pairs every
    element with a fixed number of the values stored before it. The pass is
    modelled as the method `EachWithPrev`, which keeps the history array and
    the crop counter exactly as the Ruby loop does; the functions `History`
    and `PrevTrace` say in closed form what the block sees at each element. */
module Lookback {
  import opened RubyValues

  /** The three argument shapes the `expand:` keyword selects. */
  datatype Expand = ExpandNone | ExpandSingle | ExpandAll

  /** The keyword arguments shared by both traversals. `expand` is kept as
      the Ruby object the caller passed, since any object other than the three
      symbols is rejected. */
  datatype Options = Options(crop: bool, trim: bool, filler: Value, expand: Value)

  /** `crop: false, trim: false, filler: nil, expand: :single`. */
  const Defaults: Options := Options(false, false, Nil, Sym("single"))

  const PrevSizeMessage: string := "previous size must not be negative"
  const ExpandMessage: string := "Expand parameter isn't valid"

  /** The expansion mode named by `expand`, if it is one of `:none`,
      `:single` and `:all`. */
  function ParseExpand(expand: Value): Option<Expand> {
    if expand == Sym("none") then Some(ExpandNone)
    else if expand == Sym("single") then Some(ExpandSingle)
    else if expand == Sym("all") then Some(ExpandAll)
    else None
  }

  /** The value `each_with_prev` pushes into its history for element `o`. */
  function Stored(o: Element, trim: bool): Value {
    if trim then First(o) else Unwrap(o, |o|)
  }

  /** The history array `last` as it stands when element `k` is reached:
      newest first, the value stored for element `k - 1 - j` in slot `j`,
      `filler` where that index is negative. With `size == 0` the array starts
      empty, but `pop` on an empty array removes nothing, so after the first
      element it always holds exactly the previous value. */
  function History(elems: seq<Element>, k: nat, size: nat, trim: bool, filler: Value): (r: seq<Value>)
    requires k <= |elems|
  {
    if size == 0 && k > 0 then [Stored(elems[k - 1], trim)]
    else seq(size, j requires 0 <= j < size =>
               if k - 1 - j >= 0 then Stored(elems[k - 1 - j], trim) else filler)
  }

  /** One `last.pop; last.unshift(v)` step. */
  function Push(last: seq<Value>, v: Value): seq<Value> {
    [v] + (if last == [] then [] else last[..|last| - 1])
  }

  /** Pushing the value stored for element `k` turns the history seen at `k`
      into the one seen at `k + 1`: the buffer keeps its length (for
      `size >= 1`), gains the newest value in front and loses the oldest. */
  lemma HistoryPush(elems: seq<Element>, k: nat, size: nat, trim: bool, filler: Value)
    requires k < |elems|
    ensures Push(History(elems, k, size, trim, filler), Stored(elems[k], trim))
            == History(elems, k + 1, size, trim, filler)
  {
    var before := History(elems, k, size, trim, filler);
    var after := History(elems, k + 1, size, trim, filler);
    var pushed := Push(before, Stored(elems[k], trim));
    if size > 0 {
      assert |pushed| == size == |after|;
      forall j | 0 <= j < size
        ensures pushed[j] == after[j]
      {
        if j > 0 {
          assert pushed[j] == before[j - 1];
        }
      }
    }
  }

  /** The arguments the block receives for the current element `o` and the
      history `last` (lines 46-51): `:none` passes both as arrays, `:all`
      splats both, and `:single` unwraps the element when it has one value
      and the history when `size` is 1. */
  function PrevArgs(o: Element, last: seq<Value>, size: nat, mode: Expand): Args {
    match mode
    case ExpandNone => [Arr(o), Arr(last)]
    case ExpandAll => o + last
    case ExpandSingle => [Unwrap(o, |o|), Unwrap(last, size)]
  }

  /** What a block that knows the element's arity and the history size reads
      back from its arguments. */
  datatype PrevCall = PrevCall(current: Element, history: seq<Value>)

  function DecodePrevArgs(args: Args, arity: nat, size: nat, mode: Expand): Option<PrevCall> {
    match mode
    case ExpandNone =>
      if |args| == 2 && args[0].Arr? && args[1].Arr? then Some(PrevCall(args[0].items, args[1].items))
      else None
    case ExpandAll =>
      if arity <= |args| then Some(PrevCall(args[..arity], args[arity..])) else None
    case ExpandSingle =>
      if |args| != 2 then None
      else
        match (Rewrap(args[0], arity), Rewrap(args[1], size))
        case (Some(o), Some(last)) => Some(PrevCall(o, last))
        case _ => None
  }

  /** Every expansion mode is lossless: a block that knows the element's
      arity and the history size recovers the element and the whole history. */
  lemma PrevArgsRoundTrip(o: Element, last: seq<Value>, size: nat, mode: Expand)
    requires size == 1 ==> |last| == 1
    ensures DecodePrevArgs(PrevArgs(o, last, size, mode), |o|, size, mode) == Some(PrevCall(o, last))
  {
    var args := PrevArgs(o, last, size, mode);
    match mode
    case ExpandNone =>
    case ExpandAll =>
      assert args[..|o|] == o && args[|o|..] == last;
    case ExpandSingle =>
      UnwrapRoundTrip(o, |o|);
      UnwrapRoundTrip(last, size);
  }

  /** What happens at element `k`: while crop skips are pending (the first
      `size` elements under `crop`) the result is nil, otherwise the block is
      called with the element and the history. */
  function PrevStep(elems: seq<Element>, k: nat, size: nat, crop: bool, trim: bool, filler: Value, mode: Expand): Step
    requires k < |elems|
  {
    if crop && k < size then Skipped
    else Called(PrevArgs(elems[k], History(elems, k, size, trim, filler), size, mode))
  }

  /** The steps for the first `n` elements. */
  function PrevSteps(elems: seq<Element>, n: nat, size: nat, crop: bool, trim: bool, filler: Value, mode: Expand): (r: seq<Step>)
    requires n <= |elems|
    ensures |r| == n
  {
    if n == 0 then []
    else PrevSteps(elems, n - 1, size, crop, trim, filler, mode) + [PrevStep(elems, n - 1, size, crop, trim, filler, mode)]
  }

  lemma {:induction false} PrevStepsAt(elems: seq<Element>, n: nat, size: nat, crop: bool, trim: bool, filler: Value,
                                       mode: Expand, k: nat)
    requires k < n <= |elems|
    ensures PrevSteps(elems, n, size, crop, trim, filler, mode)[k] == PrevStep(elems, k, size, crop, trim, filler, mode)
  {
    if k < n - 1 {
      PrevStepsAt(elems, n - 1, size, crop, trim, filler, mode, k);
    }
  }

  /** The whole pass, one step per source element. */
  function PrevTrace(elems: seq<Element>, size: nat, crop: bool, trim: bool, filler: Value, mode: Expand): (r: seq<Step>)
    ensures |r| == |elems|
  {
    PrevSteps(elems, |elems|, size, crop, trim, filler, mode)
  }

  /** `each_with_prev(size, **opts)` on a finite source: the argument checks
      come first, then the pass. */
  function EachWithPrevSpec(elems: seq<Element>, size: int, opts: Options): (r: Result<seq<Step>>)
    ensures r.Err? <==> !(0 <= size < Limit) || ParseExpand(opts.expand).None?
    ensures r.Ok? ==> |r.value| == |elems|
  {
    if !(0 <= size < Limit) then Err(ArgumentError(PrevSizeMessage))
    else match ParseExpand(opts.expand)
      case None => Err(ArgumentError(ExpandMessage))
      case Some(mode) => Ok(PrevTrace(elems, size, opts.crop, opts.trim, opts.filler, mode))
  }

  /** One turn of the loop body for element `k`: consume a crop skip or
      call the block, then `last.pop; last.unshift(...)`. */
  method Visit(elems: seq<Element>, k: nat, size: nat, crop: bool, trim: bool, filler: Value, mode: Expand,
               last: seq<Value>, skips: nat)
    returns (step: Step, last': seq<Value>, skips': nat)
    requires k < |elems|
    requires last == History(elems, k, size, trim, filler)
    requires skips == if crop then Max(0, size - k) else 0
    ensures step == PrevStep(elems, k, size, crop, trim, filler, mode)
    ensures last' == History(elems, k + 1, size, trim, filler)
    ensures skips' == if crop then Max(0, size - (k + 1)) else 0
  {
    var o := elems[k];
    if skips != 0 {
      skips' := skips - 1;
      step := Skipped;
    } else {
      skips' := skips;
      step := Called(PrevArgs(o, last, size, mode));
    }
    HistoryPush(elems, k, size, trim, filler);
    last' := last;
    if |last'| > 0 {
      last' := last'[..|last'| - 1];
    }
    last' := [Stored(o, trim)] + last';
  }

  /** The traversal as the Ruby code runs it: `last` starts as `[filler] *
      size`, `skips` as `size` under crop; each element either consumes a
      skip or calls the block, and then is pushed into `last` by `pop` and
      `unshift`. */
  method EachWithPrev(elems: seq<Element>, size: int, opts: Options) returns (r: Result<seq<Step>>)
    ensures r == EachWithPrevSpec(elems, size, opts)
  {
    if !(0 <= size < Limit) {
      return Err(ArgumentError(PrevSizeMessage));
    }
    var parsed := ParseExpand(opts.expand);
    if parsed.None? {
      return Err(ArgumentError(ExpandMessage));
    }
    var mode := parsed.value;
    var last := Fill(opts.filler, size);
    assert last == History(elems, 0, size, opts.trim, opts.filler);
    var skips: nat := if opts.crop then size else 0;
    var trace: seq<Step> := [];
    for k := 0 to |elems|
      invariant last == History(elems, k, size, opts.trim, opts.filler)
      invariant skips == if opts.crop then Max(0, size - k) else 0
      invariant trace == PrevSteps(elems, k, size, opts.crop, opts.trim, opts.filler, mode)
    {
      var step: Step;
      step, last, skips := Visit(elems, k, size, opts.crop, opts.trim, opts.filler, mode, last, skips);
      trace := trace + [step];
    }
    r := Ok(trace);
  }

  /** How many leading elements a pass suppresses: `size` of them under
      crop (all of them when the source is shorter), none otherwise. */
  function CropCount(n: nat, size: nat, crop: bool): (c: nat)
    ensures c <= n
  {
    if crop then Min(size, n) else 0
  }

  /** The block is called once per element without crop and
      `max(0, L - size)` times with it; the suppressed elements are exactly
      the leading ones, and call `i` sees element `CropCount + i` with the
      history of the `size` values stored before it. */
  lemma {:induction false} PrevCalls(elems: seq<Element>, size: nat, crop: bool, trim: bool, filler: Value, mode: Expand)
    ensures |Calls(PrevTrace(elems, size, crop, trim, filler, mode))|
            == if crop then Max(0, |elems| - size) else |elems|
    ensures forall i :: 0 <= i < |elems| - CropCount(|elems|, size, crop) ==>
              var k := CropCount(|elems|, size, crop) + i;
              Calls(PrevTrace(elems, size, crop, trim, filler, mode))[i]
              == PrevArgs(elems[k], History(elems, k, size, trim, filler), size, mode)
  {
    PrevCallsAfterSkips(elems, size, crop, trim, filler, mode);
    forall i | 0 <= i < |elems| - CropCount(|elems|, size, crop)
      ensures var k := CropCount(|elems|, size, crop) + i;
              Calls(PrevTrace(elems, size, crop, trim, filler, mode))[i]
              == PrevArgs(elems[k], History(elems, k, size, trim, filler), size, mode)
    {
      PrevTraceStep(elems, size, crop, trim, filler, mode, CropCount(|elems|, size, crop) + i);
    }
  }

  /** The calls are the steps after the first `CropCount`, which are all
      skips. */
  lemma PrevCallsAfterSkips(elems: seq<Element>, size: nat, crop: bool, trim: bool, filler: Value, mode: Expand)
    ensures var trace := PrevTrace(elems, size, crop, trim, filler, mode);
            var s := CropCount(|elems|, size, crop);
            |Calls(trace)| == |trace| - s
            && forall i :: 0 <= i < |trace| - s ==> trace[s + i].Called? && Calls(trace)[i] == trace[s + i].args
  {
    var trace := PrevTrace(elems, size, crop, trim, filler, mode);
    var s := CropCount(|elems|, size, crop);
    forall q | 0 <= q < s ensures trace[q].Skipped? {
      PrevTraceStep(elems, size, crop, trim, filler, mode, q);
    }
    forall q | s <= q < |trace| ensures trace[q].Called? {
      PrevTraceStep(elems, size, crop, trim, filler, mode, q);
    }
    CallsAfterSkips(trace, s);
  }

  /** Step `q` of the traversal is a crop skip exactly for the first
      `CropCount` elements and otherwise calls the block with element `q`
      and the history seen there. */
  lemma PrevTraceStep(elems: seq<Element>, size: nat, crop: bool, trim: bool, filler: Value, mode: Expand, q: nat)
    requires q < |elems|
    ensures PrevTrace(elems, size, crop, trim, filler, mode)[q].Skipped? <==> q < CropCount(|elems|, size, crop)
    ensures q >= CropCount(|elems|, size, crop) ==>
              PrevTrace(elems, size, crop, trim, filler, mode)[q]
              == Called(PrevArgs(elems[q], History(elems, q, size, trim, filler), size, mode))
  {
    PrevStepsAt(elems, |elems|, size, crop, trim, filler, mode, q);
  }

  /** For `size >= 1` the history always has exactly `size` slots; slot `j`
      at element `k` holds the value stored for element `k - 1 - j`, and it
      holds `filler` exactly where that element does not exist. */
  lemma HistoryBuffer(elems: seq<Element>, k: nat, size: nat, trim: bool, filler: Value, j: nat)
    requires k <= |elems| && 1 <= size && j < size
    ensures |History(elems, k, size, trim, filler)| == size
    ensures j < k ==> History(elems, k, size, trim, filler)[j] == Stored(elems[k - 1 - j], trim)
    ensures j >= k ==> History(elems, k, size, trim, filler)[j] == filler
  {
  }

  /** Under `trim` the block still receives the current element whole, but
      every history slot that holds a real element holds only that element's
      first value (nil for an empty element); the rest is filler. Shown with
      `expand: :none`, where both arrive as arrays. */
  lemma TrimmedHistorySlots(elems: seq<Element>, size: nat, crop: bool, filler: Value, k: nat, j: nat)
    requires CropCount(|elems|, size, crop) <= k < |elems| && 1 <= size && j < size
    ensures var step := PrevTrace(elems, size, crop, true, filler, ExpandNone)[k];
            && step.Called? && |step.args| == 2
            && step.args[0] == Arr(elems[k])
            && step.args[1].Arr? && |step.args[1].items| == size
            && (j < k ==> step.args[1].items[j] == (if elems[k - 1 - j] == [] then Nil else elems[k - 1 - j][0]))
            && (j >= k ==> step.args[1].items[j] == filler)
  {
    PrevTraceStep(elems, size, crop, true, filler, ExpandNone, k);
    HistoryBuffer(elems, k, size, true, filler, j);
  }

  /** Once `size` elements have gone by the history holds no filler, so it
      is the same whatever filler the pass started with. */
  lemma HistoryFull(elems: seq<Element>, k: nat, size: nat, trim: bool, filler: Value, other: Value)
    requires size <= k <= |elems|
    ensures History(elems, k, size, trim, filler) == History(elems, k, size, trim, other)
  {
    if size > 0 {
      var a := History(elems, k, size, trim, filler);
      var b := History(elems, k, size, trim, other);
      forall j | 0 <= j < size ensures a[j] == b[j] {
        HistoryBuffer(elems, k, size, trim, filler, j);
        HistoryBuffer(elems, k, size, trim, other, j);
      }
    }
  }

  /** Under crop the filler never reaches the block: the calls are the same
      for every filler value. */
  lemma PrevCroppedIgnoresFiller(elems: seq<Element>, size: nat, trim: bool, filler: Value, other: Value, mode: Expand)
    ensures Calls(PrevTrace(elems, size, true, trim, filler, mode))
            == Calls(PrevTrace(elems, size, true, trim, other, mode))
  {
    var a := Calls(PrevTrace(elems, size, true, trim, filler, mode));
    var b := Calls(PrevTrace(elems, size, true, trim, other, mode));
    var s := CropCount(|elems|, size, true);
    PrevCalls(elems, size, true, trim, filler, mode);
    PrevCalls(elems, size, true, trim, other, mode);
    forall i | 0 <= i < |a| ensures a[i] == b[i] {
      HistoryFull(elems, s + i, size, trim, filler, other);
    }
  }

  /** The argument checks happen before any element is consumed: whether
      the call fails, and with which error, does not depend on the source. */
  lemma PrevValidationFirst(elems: seq<Element>, other: seq<Element>, size: int, opts: Options)
    requires EachWithPrevSpec(elems, size, opts).Err?
    ensures EachWithPrevSpec(other, size, opts) == EachWithPrevSpec(elems, size, opts)
  {
  }
}
