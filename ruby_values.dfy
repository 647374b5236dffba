/** Ruby values as the lookaround traversals see them, the outcome of one block
    invocation, and the small array helpers the traversals are built from
    (`Array#first`, `Array#reverse`, `[x] * n` and `LookaroundEnum.unwrap`). */
module RubyValues {

  /** A Ruby object. The traversals never look inside a value except to take
      an array apart, so everything that is neither nil nor an array is an
      opaque atom. */
  datatype Value =
    | Nil
    | Int(i: int)
    | Str(s: string)
    | Sym(name: string)
    | Obj(id: nat)
    | Arr(items: seq<Value>)

  /** One step of the source: the values the underlying `each` yields
      together, as the block parameter `|*o|` collects them. A plain range
      yields one value per step, `each_with_index` two. */
  type Element = seq<Value>

  /** The positional arguments of one block call. */
  type Args = seq<Value>

  /** What one internal step of a traversal does: either a pending crop (or
      lookahead) skip, whose result is nil, or one call of the caller's block
      with the given arguments. */
  datatype Step = Skipped | Called(args: Args)

  datatype Option<T> = None | Some(value: T)

  /** The exceptions raised at call time. */
  datatype Error = ArgumentError(message: string) | NoMethodError(message: string)

  datatype Result<T> = Ok(value: T) | Err(error: Error)

  /** Sizes and spans must lie in `0...Limit`. */
  const Limit: int := 2_000_000_000

  function Max(a: int, b: int): int { if a < b then b else a }

  function Min(a: int, b: int): int { if a < b then a else b }

  /** `Array#first`: nil for an empty array. */
  function First(a: seq<Value>): Value {
    if a == [] then Nil else a[0]
  }

  /** `LookaroundEnum.unwrap(array, size)`: the bare first entry when `size`
      is 1, otherwise a copy of the whole array. */
  function Unwrap(a: seq<Value>, size: int): Value {
    if size == 1 then First(a) else Arr(a)
  }

  /** What a block that knows `size` gets back from an unwrapped argument. */
  function Rewrap(v: Value, size: int): Option<seq<Value>> {
    if size == 1 then Some([v])
    else if v.Arr? then Some(v.items)
    else None
  }

  /** Unwrapping loses nothing as long as a size of 1 describes a
      one-entry array. */
  lemma UnwrapRoundTrip(a: seq<Value>, size: int)
    requires size == 1 ==> |a| == 1
    ensures Rewrap(Unwrap(a, size), size) == Some(a)
  {
    if size == 1 {
      assert a == [a[0]];
    }
  }

  /** `[v] * n`. */
  function Fill(v: Value, n: nat): (r: seq<Value>)
    ensures |r| == n
    ensures forall i :: 0 <= i < n ==> r[i] == v
  {
    seq(n, _ => v)
  }

  /** `Array#reverse`. */
  function Reverse(s: seq<Value>): (r: seq<Value>)
    ensures |r| == |s|
  {
    if s == [] then [] else [s[|s| - 1]] + Reverse(s[..|s| - 1])
  }

  lemma {:induction false} ReverseAt(s: seq<Value>, i: nat)
    requires i < |s|
    ensures Reverse(s)[i] == s[|s| - 1 - i]
  {
    if i > 0 {
      ReverseAt(s[..|s| - 1], i - 1);
    }
  }

  /** The block invocations of a trace, in order: what an eager caller's
      block receives, and what the lazy enumerator yields. */
  function Calls(trace: seq<Step>): (r: seq<Args>)
    ensures |r| <= |trace|
  {
    if trace == [] then []
    else (if trace[0].Called? then [trace[0].args] else []) + Calls(trace[1..])
  }

  /** A trace made of `m` skips followed by block calls only hands the block
      exactly the arguments of those calls, in order. */
  lemma {:induction false} CallsAfterSkips(trace: seq<Step>, m: nat)
    requires m <= |trace|
    requires forall q :: 0 <= q < m ==> trace[q].Skipped?
    requires forall q :: m <= q < |trace| ==> trace[q].Called?
    ensures |Calls(trace)| == |trace| - m
    ensures forall i :: 0 <= i < |trace| - m ==> Calls(trace)[i] == trace[m + i].args
  {
    if trace != [] {
      var rest := trace[1..];
      if m > 0 {
        CallsAfterSkips(rest, m - 1);
        assert Calls(trace) == Calls(rest);
      } else {
        CallsAfterSkips(rest, 0);
        assert Calls(trace) == [trace[0].args] + Calls(rest);
      }
    }
  }
}
