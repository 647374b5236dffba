# lookaround-enumerable, modelled in Dafny

The Ruby gem `lookaround-enumerable` adds two traversals to `Enumerable`.

- `each_with_prev(size)` passes every element to the block together with the `size` values seen before it. These come from a history array that is kept newest first and padded with a filler.
- `each_with_window(view)` passes every element together with a window of `-view.min` elements before it and `view.max` elements after it. It gets the lookahead by running `each_with_prev` over a history as wide as the whole window. It calls the block `view.max` steps late, and it drains the last windows by shifting filler in.

Both take the same keyword options:

- `crop:` suppresses padded calls. In `each_with_prev` it skips the first `size` elements, whose history would still hold filler. In `each_with_window` it also skips the drain, so the windows padded at the end are dropped too; as written it further drops the first `view.max` full windows (see "Findings");
- `trim:` stores only the first value of a multi-value element in the history;
- `filler:` is the padding value;
- `expand:` is `:none`, `:single` or `:all` and selects how the arguments are shaped.

`LookaroundEnum.unwrap` is the helper that turns a one-slot array into its bare value.

The model works on a finite sequence of source elements. Each element is the list of values the underlying `each` yields together, which is Ruby's `|*o|`. A traversal produces one `Step` per internal step:

- `Skipped` is a crop or lookahead skip, whose result is nil;
- `Called(args)` is one block call with its positional arguments.

`Calls` extracts the block calls: the list of positional-argument lists, in order. This is the sequence an external enumerator yields, except that `Enumerator#to_a` collects a one-argument yield as the bare value rather than a one-entry list (see "Left out").

The modules are:

- `RubyValues` (`ruby_values.dfy`): Ruby values, `unwrap`, `Array#reverse` and `[x] * n`.
- `Lookback` (`lookback.dfy`): `each_with_prev`. The imperative loop keeps `last` and `skips` as the Ruby code does. It is proved equal to a closed-form specification (`History`, `PrevTrace`), and the properties are proved about that specification.
- `Window` (`window.dfy`): `each_with_window`. It includes the `process` closure (`Process`), the inner block that rebuilds `last_row` (`Feed`, `FeedRows`), the drain (`Drain`) and the whole call (`EachWithWindow`). The whole call runs the `Lookback` method in `:none` mode and is proved equal to `EachWithWindowSpec`, which is built on the closed-form row `Row`.
- `WindowFacts` (`window_facts.dfy`): call counts, alignment of each window with the inputs around its centre, the effect of `trim` and `crop`, and the argument checks.
- `Findings` (`findings.dfy`): two places where the code departs from the documented behaviour. See "Findings" below.
- `Scenarios` (`scenarios.dfy`): the examples from the library's test file, stated on the model.

The documented behaviour and the code disagree in two places, and the model follows the code in both:

- A history of size 0 is not empty. After the first element it holds the previous one.
- A cropped window emits `max(0, L - left - 2 * right)` calls, not `L - left - right`. Here `L` is the source length, `left = -view.min` and `right = view.max`.

## Model

| member | source | states |
|---|---|---|
| RubyValues.UnwrapRoundTrip | lib/lookaround-enumerable.rb:198-203 | `unwrap(array, size)` loses nothing: a caller that knows `size` recovers the array, provided a size of 1 describes a one-entry array |
| Lookback.TrimmedHistorySlots | lib/lookaround-enumerable.rb:48-55 | under trim the block receives the current element whole, while every history slot that holds an earlier element holds only its first value (nil for an empty element) and the remaining slots hold filler |
| Lookback.HistoryPush | lib/lookaround-enumerable.rb:54-55 | `last.pop; last.unshift(v)` turns the history seen at element k into the one seen at k + 1 |
| Lookback.HistoryBuffer | lib/lookaround-enumerable.rb:37 | for size ≥ 1 the history always has `size` slots; slot j at element k is the value stored for element k-1-j, and it is filler exactly where that index is negative |
| Lookback.PrevArgsRoundTrip | lib/lookaround-enumerable.rb:46-51 | each `expand` mode is lossless: from the arguments, a block that knows the element's arity and the history size recovers the current element and the whole history |
| Lookback.EachWithPrevSpec | lib/lookaround-enumerable.rb:33-34 | the call fails exactly when size is outside [0, 2·10⁹) or `expand` is not one of the three symbols; otherwise there is one step per element |
| Lookback.Visit | lib/lookaround-enumerable.rb:40-58 | one turn of the loop body for element k consumes a crop skip or makes step k of the trace, and leaves `last` as the history seen at element k + 1 and the crop counter at max(0, size - (k + 1)) |
| Lookback.EachWithPrev | lib/lookaround-enumerable.rb:32-61 | the Ruby loop, with `last` starting as `[filler] * size`, the crop counter, and pop/unshift, produces exactly the specified trace, validation errors included |
| Lookback.PrevCalls | lib/lookaround-enumerable.rb:38-44 | the block runs once per element without crop and max(0, L - size) times with it; call i sees element `CropCount + i` together with the history of the values stored before it, so the suppressed elements still enter the history |
| Lookback.PrevTraceStep | lib/lookaround-enumerable.rb:42-51 | step q is a skip exactly when q is below the crop count; otherwise the block receives element q with the history of the values stored before it |
| Lookback.PrevCroppedIgnoresFiller | lib/lookaround-enumerable.rb:37-44 | under crop the filler never reaches the block: the calls are the same for every filler value, as the `filler:` documentation promises |
| Lookback.PrevValidationFirst | lib/lookaround-enumerable.rb:33-34 | when `each_with_prev` fails, it fails with the same error for every source, so no element is consumed first |
| Window.ReargIsUnwrap | lib/lookaround-enumerable.rb:106 | `arg.length == 1 ? arg : [arg]` wraps the current element exactly as `unwrap` does |
| Window.RowFromHistory | lib/lookaround-enumerable.rb:105-107 | `(rearg + history).reverse` at element k is the row, oldest first, whose newest slot is input k |
| Window.RowShift | lib/lookaround-enumerable.rb:113-115 | once the source is exhausted, `shift` followed by `<< filler` advances the row by one input |
| Window.RowStart | lib/lookaround-enumerable.rb:77 | the initial `[filler] * view.size` is the row before any input |
| Window.Slice | lib/lookaround-enumerable.rb:87-89 | `left` has exactly `center_index` slots, and left, centre and right put back together give the row |
| Window.WindowArgsRoundTrip | lib/lookaround-enumerable.rb:90-100 | every window argument shape (`:none`, `:all`, and `:single` with or without a left side) is lossless for a block that knows both spans |
| Window.EachWithWindowSpec | lib/lookaround-enumerable.rb:64-67 | the call fails exactly when the view is empty, `-view.min` or `view.max` is outside [0, 2·10⁹), `expand` is invalid, or the window is too wide for the inner `each_with_prev` |
| Window.Process | lib/lookaround-enumerable.rb:82-102 | `process` consumes one pending skip (result nil) or calls the block with the row sliced around `center_index` |
| Window.Feed | lib/lookaround-enumerable.rb:105-109 | one inner call rebuilds `last_row` as the row whose newest slot is the current input, and process call n is step n of the window trace |
| Window.FeedCalled | lib/lookaround-enumerable.rb:105-109 | an element that reaches the inner block extends the fed state (process calls so far, pending skips, `last_row`) from k elements to k + 1 |
| Window.FeedOne | lib/lookaround-enumerable.rb:105-109 | the inner pass at element k, whether it crops the element or calls the block, extends the fed state from k elements to k + 1 |
| Window.FeedRows | lib/lookaround-enumerable.rb:105-109 | the inner pass makes one process call per element it does not crop, in order; the pending skips are `max(0, view.max - calls)`; without crop the last row ends at the last input |
| Window.Drain | lib/lookaround-enumerable.rb:112-118 | without crop, `view.max` more shift-and-process steps complete the trace |
| Window.DrainOne | lib/lookaround-enumerable.rb:113-116 | one turn of the drain appends the process call made on the row shifted by one more filler, keeping the trace equal to its specification |
| Window.EachWithWindow | lib/lookaround-enumerable.rb:63-121 | the whole method (checks, delegation when `view.max == 0`, inner pass, drain) produces exactly `EachWithWindowSpec` |
| Window.WindowPass | lib/lookaround-enumerable.rb:77-119 | with a lookahead, the pass fails exactly with the inner `each_with_prev` size error when the window is 2·10⁹ slots or wider, and otherwise yields the window trace |
| WindowFacts.WindowCalls | lib/lookaround-enumerable.rb:78-85 | the first `view.max` process calls are skipped; the block runs L times without crop and max(0, L - left - 2·right) times with it; call i slices the row ending at input i + right, or at input i + right + width under crop |
| WindowFacts.TraceStep | lib/lookaround-enumerable.rb:82-89 | process call q is a skip exactly when q < `view.max`; otherwise it slices the row whose newest slot is input q, or q + width under crop |
| WindowFacts.RowUntrimmed | lib/lookaround-enumerable.rb:105-107 | without trim, the row sliced for the call centred on input c is exactly the window around c: left neighbours, c itself, right neighbours, with filler outside the source |
| WindowFacts.WindowAlignment | lib/lookaround-enumerable.rb:105-118 | without crop or trim: one call per input, in order; call i carries the window around input i; and a block that knows the spans decodes exactly that window |
| WindowFacts.WindowAlignmentCropped | lib/lookaround-enumerable.rb:112 | with crop (no trim), call i carries the window around input i + width, so the first centre is input `width` |
| WindowFacts.CroppedWindowsIgnoreFiller | lib/lookaround-enumerable.rb:105 | under crop no filler slot ever reaches the block: the calls are the same for every filler value |
| WindowFacts.RowTrimmed | lib/lookaround-enumerable.rb:55 | under trim, the row around c consists of first values, except that the newest real input, `min(c + right, L - 1)`, is the untrimmed current element |
| WindowFacts.WindowTrimmed | lib/lookaround-enumerable.rb:106-107 | under trim and without crop, call i carries the trimmed window around input i; the last call's centre and the right-most real slot of earlier calls are whole elements |
| WindowFacts.WindowValidationFirst | lib/lookaround-enumerable.rb:64-67 | when `each_with_window` fails, it fails with the same error for every source |
| WindowFacts.WindowWithoutLookahead | lib/lookaround-enumerable.rb:71-73 | the view `lo..0` behaves exactly as `each_with_prev(-lo)` with the same options |
| Findings.ZeroSizeKeepsPrevious | lib/lookaround-enumerable.rb:37 | as written, a size-0 history holds the previous element from the second element on |
| Findings.ZeroSizeWindowSeesPrevious | lib/lookaround-enumerable.rb:71-72 | the view `0..0` over `[1, 2]` hands the block `(1, [])` and then `(2, [1])` |
| Findings.FixedHistoryPush | lib/lookaround-enumerable.rb:54-55 | with the push guarded for an empty buffer, the history has exactly `size` slots for every size, 0 included, and is unchanged for size ≥ 1 |
| Findings.CroppedWindowOverSkips | lib/lookaround-enumerable.rb:78 | `[1, 2, 3]` with view `-1..1` and crop has one full window, yet produces a single skip and no call |
| Findings.FixedCroppedCalls | lib/lookaround-enumerable.rb:105 | with no lookahead skips under crop, every process call reaches the block, and there are max(0, L - width) of them |
| Findings.FixedCroppedWindows | lib/lookaround-enumerable.rb:82-85 | the corrected cropped traversal emits the max(0, L - width) full windows, call i centred on input i + left |
| Findings.FixedUncroppedUnchanged | lib/lookaround-enumerable.rb:112-118 | without crop the correction changes nothing |
| Findings.CroppedWindowsAreFixedMinusRight | lib/lookaround-enumerable.rb:78 | the code's cropped output is the corrected output with its first `view.max` windows missing |
| Scenarios.PrevOne | spec/lookaroundenum_spec.rb:36-42 | `(1..3).each_with_prev(1)` gives `[1, nil], [2, 1], [3, 2]` |
| Scenarios.PrevTwo | spec/lookaroundenum_spec.rb:44-50 | `(1..3).each_with_prev(2)` gives `[1, [nil, nil]], [2, [1, nil]], [3, [2, 1]]` |
| Scenarios.PrevFour | spec/lookaroundenum_spec.rb:51-57 | with size 4 the history at the third element is `[2, 1, nil, nil]` |
| Scenarios.PrevIndexedTrimmed | spec/lookaroundenum_spec.rb:72-78 | with `each_with_index` and trim, the current pair is passed whole and the previous one by its first value |
| Scenarios.PrevCroppedTwo | spec/lookaroundenum_spec.rb:96-102 | `(1..6).each_with_prev(2, crop: true)` calls only for 3 to 6 |
| Scenarios.PrevSymbolFiller | spec/lookaroundenum_spec.rb:104-110 | `filler: :empty` pads the history |
| Scenarios.PrevCropped | spec/lookaroundenum_spec.rb:148-149 | `each_with_prev(1, crop: true)` over 1..3 gives `[2, 1], [3, 2]` |
| Scenarios.PrevPairsAll | spec/lookaroundenum_spec.rb:151 | `:all` over `(n, {})` pairs splats the current pair and passes the previous pair whole |
| Scenarios.PrevPairsTrimmed | spec/lookaroundenum_spec.rb:152 | with trim, `:all` over `(n, {})` pairs passes only the previous pair's number |
| Scenarios.PrevFiller | spec/lookaroundenum_spec.rb:154-155 | `filler: 0` replaces the initial nil |
| Scenarios.WindowDefault | spec/lookaroundenum_spec.rb:165-171 | `('a'..'e').each_with_window(-1..1)` gives the five windows, nil past each end |
| Scenarios.WindowNoLeft | spec/lookaroundenum_spec.rb:173-179 | with view `0..1` the block gets only `(elt, right)` |
| Scenarios.WindowTwoLeft | spec/lookaroundenum_spec.rb:206-208 | `('a'..'d').each_with_window(-2..1).to_a` passes both sides as arrays |
| Scenarios.WindowTwoRight | spec/lookaroundenum_spec.rb:189-195 | view `-1..2` with `filler: "x"` gives `xabc, abcd, bcde, cdex, dexx` |
| Scenarios.WindowInvalidViews | spec/lookaroundenum_spec.rb:210-213 | the views `-10..-5` and `5..10` raise ArgumentError |

## Left out

- Lazy enumerators (`to_enum` when no block is given, lines 35 and 75), the size hint `__nbl_any_sized` (lines 190-192) and the refinement-send plumbing: the model gives the sequence of block calls such an enumerator would yield, over a finite source.
- Return values: what `each` returns (line 40), the per-element `result` handed back to it (line 58), `iresult` and `last_result` (lines 79, 83, 105, 120). A `Skipped` step stands for a nil result. The block's own results never influence the traversal.
- The derived combinators and aliases (`map_with_prev`, `pselect`, `preduce`, `wmap`, `wselect`, `wreduce` and their aliases, lines 125-184): they compose with Ruby's own `map`, `select` and `reduce`, which are not part of this model.
- How a block's parameter list destructures its arguments, and arity mismatches: the model gives the positional argument list that is passed.
- How `Enumerator#to_a` packs each yield: it collects a one-argument yield as the bare value, so `[1, 2].each_with_prev(0, expand: :all).to_a` is `[1, [2, 1]]`. `Calls` keeps every call as its list of arguments, `[[1], [2, 1]]`.
- Infinite or externally driven sources, and exceptions raised inside the block.
- The allocation `[filler] * view.size` (line 77) for views of 2·10⁹ slots or more: in Ruby it happens before the inner `each_with_prev` rejects the width. The model goes straight to that ArgumentError and does not model running out of memory.
- `view` is modelled as an inclusive integer range `lo..hi`. Exclusive ranges, float ranges and other objects responding to `min`, `max` and `size` are not modelled. Nor are non-integer sizes, which `(0...2_000_000_000).include?` would accept.
- The copies made by `dup` and object identity: values are immutable in the model, so aliasing between the history and the block's arguments cannot be expressed.
- The timing test (spec/lookaroundenum_spec.rb:124-141), which measures wall-clock speed.
- WindowFacts.WindowAlignmentCropped: stated only without trim. With trim, cropped windows are described by WindowFacts.WindowCalls in terms of `Row`.

## Findings

| source | as written | input that shows it | evidently intended | confidence | as-written member | corrected member |
|---|---|---|---|---|---|---|
| lib/lookaround-enumerable.rb:37 | `last = [filler] * 0` is empty, and `last.pop` on an empty array removes nothing, so `unshift` makes the size-0 history hold the previous element from then on | `[1, 2].each_with_window(0..0)` (delegated to `each_with_prev(0)`) calls the block with `(1, [])` and then `(2, [1])` | a history of exactly `size` slots, empty for size 0 | high (not executed) | Findings.ZeroSizeWindowSeesPrevious | Findings.FixedHistoryPush |
| lib/lookaround-enumerable.rb:78 | `skips = view.max` is set even under crop, although the cropped inner pass already starts at the first full window, so the first `view.max` full windows are dropped | `[1, 2, 3].each_with_window(-1..1, crop: true, expand: :none)` never calls the block, though `([1], 2, [3])` is a full window | `skips = crop ? 0 : view.max`: under crop, the max(0, L - width) full windows, the first centred on input `-view.min` | high (not executed) | Findings.CroppedWindowOverSkips | Findings.FixedCroppedWindows |
