/** The examples of the library's own test file and documentation, stated
    on the model: each lemma gives the block arguments (what `to_a` on the
    lazy enumerator collects) for one concrete call. */
module Scenarios {
  import opened RubyValues
  import opened Lookback
  import opened Window
  import opened WindowFacts

  /** A range of integers: one single-value element per number. */
  function Ints(lo: int, hi: int): (r: seq<Element>)
    requires lo <= hi + 1
    ensures |r| == hi - lo + 1
    ensures forall k :: 0 <= k < |r| ==> r[k] == [Int(lo + k)]
  {
    seq(hi - lo + 1, k requires 0 <= k => [Int(lo + k)])
  }

  /** The calls of a successful traversal. */
  function CallsOf(r: Result<seq<Step>>): seq<Args> {
    if r.Ok? then Calls(r.value) else []
  }

  /** The block arguments `each_with_prev` promises: one call per element
      after the crop skips, with that element and the history seen there. */
  function PrevExpected(elems: seq<Element>, size: nat, crop: bool, trim: bool, filler: Value, mode: Expand): seq<Args> {
    var s := CropCount(|elems|, size, crop);
    seq(|elems| - s, i requires 0 <= i < |elems| - s =>
          PrevArgs(elems[s + i], History(elems, s + i, size, trim, filler), size, mode))
  }

  /** With valid arguments `each_with_prev` runs the traversal. */
  lemma PrevSpecOk(elems: seq<Element>, size: int, opts: Options, mode: Expand)
    requires 0 <= size < Limit && ParseExpand(opts.expand) == Some(mode)
    ensures EachWithPrevSpec(elems, size, opts) == Ok(PrevTrace(elems, size, opts.crop, opts.trim, opts.filler, mode))
  {
  }

  /** The traversal produces exactly the expected calls. */
  lemma PrevTraceCalls(elems: seq<Element>, size: nat, crop: bool, trim: bool, filler: Value, mode: Expand)
    ensures Calls(PrevTrace(elems, size, crop, trim, filler, mode)) == PrevExpected(elems, size, crop, trim, filler, mode)
  {
    var calls := Calls(PrevTrace(elems, size, crop, trim, filler, mode));
    var want := PrevExpected(elems, size, crop, trim, filler, mode);
    PrevCalls(elems, size, crop, trim, filler, mode);
    assert |calls| == |want|;
    forall i | 0 <= i < |want|
      ensures calls[i] == want[i]
    {
    }
  }

  /** A call with valid arguments produces exactly those calls. */
  lemma PrevCallsAre(elems: seq<Element>, size: int, opts: Options, mode: Expand)
    requires 0 <= size < Limit && ParseExpand(opts.expand) == Some(mode)
    ensures CallsOf(EachWithPrevSpec(elems, size, opts)) == PrevExpected(elems, size, opts.crop, opts.trim, opts.filler, mode)
  {
    PrevSpecOk(elems, size, opts, mode);
    PrevTraceCalls(elems, size, opts.crop, opts.trim, opts.filler, mode);
  }

  const A: Value := Str("a")
  const B: Value := Str("b")
  const C: Value := Str("c")
  const D: Value := Str("d")
  const E: Value := Str("e")
  const X: Value := Str("x")

  /** `'a'..'e'` and `'a'..'d'`. */
  const Abcde: seq<Element> := [[A], [B], [C], [D], [E]]
  const Abcd: seq<Element> := [[A], [B], [C], [D]]

  /** `(1..3).each_with_prev(1).to_a == [[1, nil], [2, 1], [3, 2]]`, also
      with `crop: false` and `filler: nil`. */
  lemma PrevOne()
    ensures CallsOf(EachWithPrevSpec(Ints(1, 3), 1, Defaults))
            == [[Int(1), Nil], [Int(2), Int(1)], [Int(3), Int(2)]]
  {
    var elems := Ints(1, 3);
    PrevCallsAre(elems, 1, Defaults, ExpandSingle);
    var calls := PrevExpected(elems, 1, false, false, Nil, ExpandSingle);
    assert calls[0] == [Int(1), Nil] by { HistoryOne(elems, 0, false, Nil); }
    assert calls[1] == [Int(2), Int(1)] by { HistoryOne(elems, 1, false, Nil); }
    assert calls[2] == [Int(3), Int(2)] by { HistoryOne(elems, 2, false, Nil); }
  }

  /** `(1..3).each_with_prev(2).to_a == [[1, [nil, nil]], [2, [1, nil]], [3, [2, 1]]]`. */
  lemma PrevTwo()
    ensures CallsOf(EachWithPrevSpec(Ints(1, 3), 2, Defaults))
            == [[Int(1), Arr([Nil, Nil])], [Int(2), Arr([Int(1), Nil])], [Int(3), Arr([Int(2), Int(1)])]]
  {
    var elems := Ints(1, 3);
    PrevCallsAre(elems, 2, Defaults, ExpandSingle);
    var calls := PrevExpected(elems, 2, false, false, Nil, ExpandSingle);
    assert calls[0] == [Int(1), Arr([Nil, Nil])] by { HistoryTwo(elems, 0, false, Nil); }
    assert calls[1] == [Int(2), Arr([Int(1), Nil])] by { HistoryTwo(elems, 1, false, Nil); }
    assert calls[2] == [Int(3), Arr([Int(2), Int(1)])] by { HistoryTwo(elems, 2, false, Nil); }
  }

  /** `(1..3).each_with_prev(1, crop: true).to_a == [[2, 1], [3, 2]]`. */
  lemma PrevCropped()
    ensures CallsOf(EachWithPrevSpec(Ints(1, 3), 1, Defaults.(crop := true)))
            == [[Int(2), Int(1)], [Int(3), Int(2)]]
  {
    var elems := Ints(1, 3);
    PrevCallsAre(elems, 1, Defaults.(crop := true), ExpandSingle);
    var calls := PrevExpected(elems, 1, true, false, Nil, ExpandSingle);
    assert |calls| == 2;
    assert calls[0] == [Int(2), Int(1)] by { HistoryOne(elems, 1, false, Nil); }
    assert calls[1] == [Int(3), Int(2)] by { HistoryOne(elems, 2, false, Nil); }
  }

  /** `(1..3).each_with_prev(1, filler: 0).to_a == [[1, 0], [2, 1], [3, 2]]`. */
  lemma PrevFiller()
    ensures CallsOf(EachWithPrevSpec(Ints(1, 3), 1, Defaults.(filler := Int(0))))
            == [[Int(1), Int(0)], [Int(2), Int(1)], [Int(3), Int(2)]]
  {
    var elems := Ints(1, 3);
    PrevCallsAre(elems, 1, Defaults.(filler := Int(0)), ExpandSingle);
    var calls := PrevExpected(elems, 1, false, false, Int(0), ExpandSingle);
    assert calls[0] == [Int(1), Int(0)] by { HistoryOne(elems, 0, false, Int(0)); }
    assert calls[1] == [Int(2), Int(1)] by { HistoryOne(elems, 1, false, Int(0)); }
    assert calls[2] == [Int(3), Int(2)] by { HistoryOne(elems, 2, false, Int(0)); }
  }

  /** `(1..3).each_with_object({})`: every element is the pair `(n, {})`. */
  const Pairs: seq<Element> := [[Int(1), Obj(0)], [Int(2), Obj(0)], [Int(3), Obj(0)]]

  /** `(1..3).each_with_object({}).each_with_prev(1, trim: false, expand: :all)`
      splats the current pair and passes the previous pair whole. */
  lemma PrevPairsAll()
    ensures CallsOf(EachWithPrevSpec(Pairs, 1, Defaults.(expand := Sym("all"))))
            == [[Int(1), Obj(0), Nil], [Int(2), Obj(0), Arr([Int(1), Obj(0)])], [Int(3), Obj(0), Arr([Int(2), Obj(0)])]]
  {
    PrevCallsAre(Pairs, 1, Defaults.(expand := Sym("all")), ExpandAll);
    var calls := PrevExpected(Pairs, 1, false, false, Nil, ExpandAll);
    assert calls[0] == [Int(1), Obj(0), Nil] by { HistoryOne(Pairs, 0, false, Nil); }
    assert calls[1] == [Int(2), Obj(0), Arr([Int(1), Obj(0)])] by { HistoryOne(Pairs, 1, false, Nil); }
    assert calls[2] == [Int(3), Obj(0), Arr([Int(2), Obj(0)])] by { HistoryOne(Pairs, 2, false, Nil); }
  }

  /** With `trim: true` only the first value of the previous pair, its
      number, is passed. */
  lemma PrevPairsTrimmed()
    ensures CallsOf(EachWithPrevSpec(Pairs, 1, Defaults.(trim := true, expand := Sym("all"))))
            == [[Int(1), Obj(0), Nil], [Int(2), Obj(0), Int(1)], [Int(3), Obj(0), Int(2)]]
  {
    PrevCallsAre(Pairs, 1, Defaults.(trim := true, expand := Sym("all")), ExpandAll);
    var calls := PrevExpected(Pairs, 1, false, true, Nil, ExpandAll);
    assert calls[0] == [Int(1), Obj(0), Nil] by { HistoryOne(Pairs, 0, true, Nil); }
    assert calls[1] == [Int(2), Obj(0), Int(1)] by { HistoryOne(Pairs, 1, true, Nil); }
    assert calls[2] == [Int(3), Obj(0), Int(2)] by { HistoryOne(Pairs, 2, true, Nil); }
  }

  /** A history of size two holds the values stored for the two previous
      elements, filler where there is none. */
  lemma HistoryTwo(elems: seq<Element>, k: nat, trim: bool, filler: Value)
    requires k <= |elems|
    ensures History(elems, k, 2, trim, filler)
            == [if k >= 1 then Stored(elems[k - 1], trim) else filler,
                if k >= 2 then Stored(elems[k - 2], trim) else filler]
  {
    HistoryBuffer(elems, k, 2, trim, filler, 0);
    HistoryBuffer(elems, k, 2, trim, filler, 1);
  }

  /** A history of size one holds the value stored for the previous
      element, or the filler at the first. */
  lemma HistoryOne(elems: seq<Element>, k: nat, trim: bool, filler: Value)
    requires k <= |elems|
    ensures History(elems, k, 1, trim, filler) == [if k == 0 then filler else Stored(elems[k - 1], trim)]
  {
    HistoryBuffer(elems, k, 1, trim, filler, 0);
  }

  /** `(1..6).each_with_prev(2, crop: true)` calls the block for 3 to 6 only,
      each time with the two numbers before it. */
  lemma PrevCroppedTwo()
    ensures CallsOf(EachWithPrevSpec(Ints(1, 6), 2, Defaults.(crop := true)))
            == [[Int(3), Arr([Int(2), Int(1)])], [Int(4), Arr([Int(3), Int(2)])],
                [Int(5), Arr([Int(4), Int(3)])], [Int(6), Arr([Int(5), Int(4)])]]
  {
    var elems := Ints(1, 6);
    PrevCallsAre(elems, 2, Defaults.(crop := true), ExpandSingle);
    var calls := PrevExpected(elems, 2, true, false, Nil, ExpandSingle);
    assert |calls| == 4;
    assert calls[0] == [Int(3), Arr([Int(2), Int(1)])] by { HistoryTwo(elems, 2, false, Nil); }
    assert calls[1] == [Int(4), Arr([Int(3), Int(2)])] by { HistoryTwo(elems, 3, false, Nil); }
    assert calls[2] == [Int(5), Arr([Int(4), Int(3)])] by { HistoryTwo(elems, 4, false, Nil); }
    assert calls[3] == [Int(6), Arr([Int(5), Int(4)])] by { HistoryTwo(elems, 5, false, Nil); }
  }

  /** The block arguments an uncropped, untrimmed `each_with_window`
      promises: one call per input with the window around it. */
  function WindowExpected(elems: seq<Element>, left: nat, right: nat, filler: Value, mode: Expand): seq<Args> {
    seq(|elems|, i requires 0 <= i < |elems| => WindowArgs(Around(elems, i, left, right, filler), mode))
  }

  /** With valid arguments and some lookahead `each_with_window` runs the
      window traversal. */
  lemma WindowSpecOk(elems: seq<Element>, view: View, opts: Options, mode: Expand)
    requires view.lo <= 0 < view.hi && view.hi - view.lo < Limit && ParseExpand(opts.expand) == Some(mode)
    ensures EachWithWindowSpec(elems, view, opts)
            == Ok(WindowTrace(elems, -view.lo, view.hi, opts.crop, opts.trim, opts.filler, mode))
  {
  }

  /** The window traversal without crop and trim produces exactly the
      expected calls. */
  lemma WindowTraceCalls(elems: seq<Element>, left: nat, right: nat, filler: Value, mode: Expand)
    requires right >= 1
    ensures Calls(WindowTrace(elems, left, right, false, false, filler, mode)) == WindowExpected(elems, left, right, filler, mode)
  {
    var calls := Calls(WindowTrace(elems, left, right, false, false, filler, mode));
    var want := WindowExpected(elems, left, right, filler, mode);
    WindowAlignment(elems, left, right, filler, mode);
    forall i | 0 <= i < |want|
      ensures calls[i] == want[i]
    {
    }
  }

  /** A call with valid arguments and default options apart from the filler
      produces exactly those calls. */
  lemma WindowCallsAre(elems: seq<Element>, view: View, filler: Value)
    requires view.lo <= 0 < view.hi && view.hi - view.lo < Limit
    ensures CallsOf(EachWithWindowSpec(elems, view, Defaults.(filler := filler)))
            == WindowExpected(elems, -view.lo, view.hi, filler, ExpandSingle)
  {
    WindowSpecOk(elems, view, Defaults.(filler := filler), ExpandSingle);
    WindowTraceCalls(elems, -view.lo, view.hi, filler, ExpandSingle);
  }

  /** A list given element by element. */
  lemma Four<T>(s: seq<T>, x0: T, x1: T, x2: T, x3: T)
    requires |s| == 4 && s[0] == x0 && s[1] == x1 && s[2] == x2 && s[3] == x3
    ensures s == [x0, x1, x2, x3]
  {
  }

  lemma Five<T>(s: seq<T>, x0: T, x1: T, x2: T, x3: T, x4: T)
    requires |s| == 5 && s[0] == x0 && s[1] == x1 && s[2] == x2 && s[3] == x3 && s[4] == x4
    ensures s == [x0, x1, x2, x3, x4]
  {
  }

  /** One and two neighbours, slot by slot. */
  lemma ShortNeighbours(elems: seq<Element>, from: int, filler: Value)
    ensures Neighbours(elems, from, 1, filler) == [Neighbour(elems, from, filler)]
    ensures Neighbours(elems, from, 2, filler) == [Neighbour(elems, from, filler), Neighbour(elems, from + 1, filler)]
  {
  }

  /** The neighbours of four one-value inputs, filler on either side. */
  lemma FourNeighbours(a: Value, b: Value, c: Value, d: Value, f: Value)
    ensures var elems := [[a], [b], [c], [d]];
            && Neighbour(elems, -2, f) == f && Neighbour(elems, -1, f) == f
            && Neighbour(elems, 0, f) == a && Neighbour(elems, 1, f) == b
            && Neighbour(elems, 2, f) == c && Neighbour(elems, 3, f) == d
            && Neighbour(elems, 4, f) == f && Neighbour(elems, 5, f) == f
  {
  }

  /** The neighbours of five one-value inputs, filler on either side. */
  lemma FiveNeighbours(a: Value, b: Value, c: Value, d: Value, e: Value, f: Value)
    ensures var elems := [[a], [b], [c], [d], [e]];
            && Neighbour(elems, -2, f) == f && Neighbour(elems, -1, f) == f
            && Neighbour(elems, 0, f) == a && Neighbour(elems, 1, f) == b && Neighbour(elems, 2, f) == c
            && Neighbour(elems, 3, f) == d && Neighbour(elems, 4, f) == e
            && Neighbour(elems, 5, f) == f && Neighbour(elems, 6, f) == f
  {
  }

  /** `('a'..'e').each_with_window(-1..1)` gives `(left, elt, right)` for every
      letter, nil past either end. */
  lemma WindowDefault()
    ensures CallsOf(EachWithWindowSpec(Abcde, DefaultView, Defaults))
            == [[Nil, A, B], [A, B, C], [B, C, D], [C, D, E], [D, E, Nil]]
  {
    assert Defaults.(filler := Nil) == Defaults;
    WindowCallsAre(Abcde, DefaultView, Nil);
    WindowDefaultCalls(A, B, C, D, E);
  }


  /** The calls of the view `-1..1` over any five one-value inputs. */
  lemma WindowDefaultCalls(a: Value, b: Value, c: Value, d: Value, e: Value)
    ensures WindowExpected([[a], [b], [c], [d], [e]], 1, 1, Nil, ExpandSingle)
            == [[Nil, a, b], [a, b, c], [b, c, d], [c, d, e], [d, e, Nil]]
  {
    var elems: seq<Element> := [[a], [b], [c], [d], [e]];
    FiveNeighbours(a, b, c, d, e, Nil);
    forall from: int
      ensures Neighbours(elems, from, 1, Nil) == [Neighbour(elems, from, Nil)]
      ensures Neighbours(elems, from, 2, Nil) == [Neighbour(elems, from, Nil), Neighbour(elems, from + 1, Nil)]
    {
      ShortNeighbours(elems, from, Nil);
    }
    Five(WindowExpected(elems, 1, 1, Nil, ExpandSingle), [Nil, a, b],
         [a, b, c],
         [b, c, d],
         [c, d, e],
         [d, e, Nil]);
  }

  /** `('a'..'e').each_with_window(0..1)`: with no left side the block gets
      only `(elt, right)`. */
  lemma WindowNoLeft()
    ensures CallsOf(EachWithWindowSpec(Abcde, View(0, 1), Defaults))
            == [[A, B], [B, C], [C, D], [D, E], [E, Nil]]
  {
    assert Defaults.(filler := Nil) == Defaults;
    WindowCallsAre(Abcde, View(0, 1), Nil);
    WindowNoLeftCalls(A, B, C, D, E);
  }


  /** The calls of the view `0..1` over any five one-value inputs. */
  lemma WindowNoLeftCalls(a: Value, b: Value, c: Value, d: Value, e: Value)
    ensures WindowExpected([[a], [b], [c], [d], [e]], 0, 1, Nil, ExpandSingle)
            == [[a, b], [b, c], [c, d], [d, e], [e, Nil]]
  {
    var elems: seq<Element> := [[a], [b], [c], [d], [e]];
    FiveNeighbours(a, b, c, d, e, Nil);
    forall from: int
      ensures Neighbours(elems, from, 1, Nil) == [Neighbour(elems, from, Nil)]
      ensures Neighbours(elems, from, 2, Nil) == [Neighbour(elems, from, Nil), Neighbour(elems, from + 1, Nil)]
    {
      ShortNeighbours(elems, from, Nil);
    }
    Five(WindowExpected(elems, 0, 1, Nil, ExpandSingle), [a, b],
         [b, c],
         [c, d],
         [d, e],
         [e, Nil]);
  }

  /** `('a'..'d').each_with_window(-2..1).to_a`: a left side of two slots is
      passed as an array, and so is the one-slot right side, since the larger
      side decides. */
  lemma WindowTwoLeft()
    ensures CallsOf(EachWithWindowSpec(Abcd, View(-2, 1), Defaults))
            == [[Arr([Nil, Nil]), A, Arr([B])], [Arr([Nil, A]), B, Arr([C])],
                [Arr([A, B]), C, Arr([D])], [Arr([B, C]), D, Arr([Nil])]]
  {
    assert Defaults.(filler := Nil) == Defaults;
    WindowCallsAre(Abcd, View(-2, 1), Nil);
    WindowTwoLeftCalls(A, B, C, D);
  }


  /** The calls of the view `-2..1` over any four one-value inputs. */
  lemma WindowTwoLeftCalls(a: Value, b: Value, c: Value, d: Value)
    ensures WindowExpected([[a], [b], [c], [d]], 2, 1, Nil, ExpandSingle)
            == [[Arr([Nil, Nil]), a, Arr([b])], [Arr([Nil, a]), b, Arr([c])],
                [Arr([a, b]), c, Arr([d])], [Arr([b, c]), d, Arr([Nil])]]
  {
    var elems: seq<Element> := [[a], [b], [c], [d]];
    FourNeighbours(a, b, c, d, Nil);
    forall from: int
      ensures Neighbours(elems, from, 1, Nil) == [Neighbour(elems, from, Nil)]
      ensures Neighbours(elems, from, 2, Nil) == [Neighbour(elems, from, Nil), Neighbour(elems, from + 1, Nil)]
    {
      ShortNeighbours(elems, from, Nil);
    }
    Four(WindowExpected(elems, 2, 1, Nil, ExpandSingle), [Arr([Nil, Nil]), a, Arr([b])],
         [Arr([Nil, a]), b, Arr([c])],
         [Arr([a, b]), c, Arr([d])],
         [Arr([b, c]), d, Arr([Nil])]);
  }

  /** `('a'..'e').each_with_window(-1..2, filler: "x")`. */
  lemma WindowTwoRight()
    ensures CallsOf(EachWithWindowSpec(Abcde, View(-1, 2), Defaults.(filler := X)))
            == [[Arr([X]), A, Arr([B, C])], [Arr([A]), B, Arr([C, D])], [Arr([B]), C, Arr([D, E])],
                [Arr([C]), D, Arr([E, X])], [Arr([D]), E, Arr([X, X])]]
  {
    WindowCallsAre(Abcde, View(-1, 2), X);
    WindowTwoRightCalls(A, B, C, D, E, X);
  }


  /** The calls of the view `-1..2` with filler `x` over any five one-value inputs. */
  lemma WindowTwoRightCalls(a: Value, b: Value, c: Value, d: Value, e: Value, x: Value)
    ensures WindowExpected([[a], [b], [c], [d], [e]], 1, 2, x, ExpandSingle)
            == [[Arr([x]), a, Arr([b, c])], [Arr([a]), b, Arr([c, d])], [Arr([b]), c, Arr([d, e])],
                [Arr([c]), d, Arr([e, x])], [Arr([d]), e, Arr([x, x])]]
  {
    var elems: seq<Element> := [[a], [b], [c], [d], [e]];
    FiveNeighbours(a, b, c, d, e, x);
    forall from: int
      ensures Neighbours(elems, from, 1, x) == [Neighbour(elems, from, x)]
      ensures Neighbours(elems, from, 2, x) == [Neighbour(elems, from, x), Neighbour(elems, from + 1, x)]
    {
      ShortNeighbours(elems, from, x);
    }
    Five(WindowExpected(elems, 1, 2, x, ExpandSingle), [Arr([x]), a, Arr([b, c])],
         [Arr([a]), b, Arr([c, d])],
         [Arr([b]), c, Arr([d, e])],
         [Arr([c]), d, Arr([e, x])],
         [Arr([d]), e, Arr([x, x])]);
  }

  /** `[].each_with_window(-10..-5)` and `[].each_with_window(5..10)` both
      raise ArgumentError. */
  lemma WindowInvalidViews()
    ensures EachWithWindowSpec([], View(-10, -5), Defaults) == Err(ArgumentError(MaxMessage))
    ensures EachWithWindowSpec([], View(5, 10), Defaults) == Err(ArgumentError(MinMessage))
  {
  }

  /** `(1..3).each_with_prev(4)`: at the third element the history is
      `[2, 1, nil, nil]`. */
  lemma PrevFour()
    ensures CallsOf(EachWithPrevSpec(Ints(1, 3), 4, Defaults))
            == [[Int(1), Arr([Nil, Nil, Nil, Nil])], [Int(2), Arr([Int(1), Nil, Nil, Nil])],
                [Int(3), Arr([Int(2), Int(1), Nil, Nil])]]
  {
    var elems := Ints(1, 3);
    PrevCallsAre(elems, 4, Defaults, ExpandSingle);
    var calls := PrevExpected(elems, 4, false, false, Nil, ExpandSingle);
    assert calls[0] == [Int(1), Arr([Nil, Nil, Nil, Nil])] by {
      assert History(elems, 0, 4, false, Nil) == [Nil, Nil, Nil, Nil];
    }
    assert calls[1] == [Int(2), Arr([Int(1), Nil, Nil, Nil])] by {
      assert History(elems, 1, 4, false, Nil) == [Int(1), Nil, Nil, Nil];
    }
    assert calls[2] == [Int(3), Arr([Int(2), Int(1), Nil, Nil])] by {
      var h := History(elems, 2, 4, false, Nil);
      HistoryBuffer(elems, 2, 4, false, Nil, 0);
      HistoryBuffer(elems, 2, 4, false, Nil, 1);
      assert h == [Int(2), Int(1), Nil, Nil];
    }
  }

  /** `(1..3).each_with_prev(2, filler: :empty)`. */
  lemma PrevSymbolFiller()
    ensures CallsOf(EachWithPrevSpec(Ints(1, 3), 2, Defaults.(filler := Sym("empty"))))
            == [[Int(1), Arr([Sym("empty"), Sym("empty")])], [Int(2), Arr([Int(1), Sym("empty")])],
                [Int(3), Arr([Int(2), Int(1)])]]
  {
    var elems := Ints(1, 3);
    var empty := Sym("empty");
    PrevCallsAre(elems, 2, Defaults.(filler := empty), ExpandSingle);
    var calls := PrevExpected(elems, 2, false, false, empty, ExpandSingle);
    assert calls[0] == [Int(1), Arr([empty, empty])] by { HistoryTwo(elems, 0, false, empty); }
    assert calls[1] == [Int(2), Arr([Int(1), empty])] by { HistoryTwo(elems, 1, false, empty); }
    assert calls[2] == [Int(3), Arr([Int(2), Int(1)])] by { HistoryTwo(elems, 2, false, empty); }
  }

  /** `(4..6).each_with_index.each_with_prev(1, trim: true)`: the current
      pair is passed whole, the previous one only by its first value. */
  lemma PrevIndexedTrimmed()
    ensures CallsOf(EachWithPrevSpec([[Int(4), Int(0)], [Int(5), Int(1)], [Int(6), Int(2)]], 1,
                                     Defaults.(trim := true)))
            == [[Arr([Int(4), Int(0)]), Nil], [Arr([Int(5), Int(1)]), Int(4)], [Arr([Int(6), Int(2)]), Int(5)]]
  {
    var elems: seq<Element> := [[Int(4), Int(0)], [Int(5), Int(1)], [Int(6), Int(2)]];
    PrevCallsAre(elems, 1, Defaults.(trim := true), ExpandSingle);
    var calls := PrevExpected(elems, 1, false, true, Nil, ExpandSingle);
    assert calls[0] == [Arr([Int(4), Int(0)]), Nil] by {
      HistoryOne(elems, 0, true, Nil);
      assert CropCount(3, 1, false) == 0;
      assert calls[0] == PrevArgs(elems[0], History(elems, 0, 1, true, Nil), 1, ExpandSingle);
    }
    assert calls[1] == [Arr([Int(5), Int(1)]), Int(4)] by {
      HistoryOne(elems, 1, true, Nil);
      assert CropCount(3, 1, false) == 0;
      assert calls[1] == PrevArgs(elems[1], History(elems, 1, 1, true, Nil), 1, ExpandSingle);
    }
    assert calls[2] == [Arr([Int(6), Int(2)]), Int(5)] by {
      HistoryOne(elems, 2, true, Nil);
      assert CropCount(3, 1, false) == 0;
      assert calls[2] == PrevArgs(elems[2], History(elems, 2, 1, true, Nil), 1, ExpandSingle);
    }
  }
}
