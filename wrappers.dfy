/** Option and Result, the two failure-carrying types used throughout the model.
    A Python exception that the source lets propagate becomes a `Failure`
    carrying the kind of exception raised. */
module Wrappers {

  datatype Option<+T> = None | Some(value: T) {
    function GetOr(default: T): T {
      match this
      case Some(v) => v
      case None => default
    }
  }

  /** The Python exception classes the modelled code can raise. */
  datatype Exception =
    | ValueError
    | KeyError
    | IndexError
    | TypeError
    | NameError
    | AttributeError
    | IOError
    | AssertionError
    | OverflowError
    | ZeroDivisionError
    | NoSectionError

  datatype Result<+T> = Success(value: T) | Failure(error: Exception) {
    predicate IsFailure() {
      Failure?
    }

    function PropagateFailure<U>(): Result<U>
      requires Failure?
    {
      Failure(error)
    }

    function Extract(): T
      requires Success?
    {
      value
    }
  }

  /** How an error-reporting call that cannot work as written behaves: as
      the code is written it raises (`AsWritten`); `Intended` is the report
      followed by what the surrounding code evidently expects to happen. */
  datatype Mode = AsWritten | Intended

  /** The concatenation of `f`'s results over `xs`, left to right; the first
      failure, if any, is the result. */
  function ConcatMap<T, U>(f: T -> Result<seq<U>>, xs: seq<T>): Result<seq<U>>
    decreases |xs|
  {
    if |xs| == 0 then Success([])
    else
      var init :- ConcatMap(f, xs[..|xs| - 1]);
      var last :- f(xs[|xs| - 1]);
      Success(init + last)
  }

  /** One more element, whose result succeeds, extends a successful prefix. */
  lemma ConcatMapSnoc<T, U>(f: T -> Result<seq<U>>, xs: seq<T>, i: nat)
    requires i < |xs| && ConcatMap(f, xs[..i]).Success? && f(xs[i]).Success?
    ensures ConcatMap(f, xs[..i + 1]) == Success(ConcatMap(f, xs[..i]).value + f(xs[i]).value)
  {
    assert xs[..i + 1][..i] == xs[..i];
  }

  /** The first element whose result fails decides the whole result. */
  lemma {:induction false} ConcatMapFails<T, U>(f: T -> Result<seq<U>>, xs: seq<T>, i: nat)
    requires i < |xs| && ConcatMap(f, xs[..i]).Success? && f(xs[i]).Failure?
    ensures ConcatMap(f, xs) == Failure(f(xs[i]).error)
    decreases |xs|
  {
    if i == |xs| - 1 {
      assert xs[..|xs| - 1] == xs[..i];
    } else {
      var init := xs[..|xs| - 1];
      assert init[..i] == xs[..i] && init[i] == xs[i];
      ConcatMapFails(f, init, i);
    }
  }

  /** When every failure of `f` is the exception `e`, so is any failure of
      the concatenation. */
  lemma {:induction false} ConcatMapError<T, U>(f: T -> Result<seq<U>>, xs: seq<T>, e: Exception)
    requires forall x :: f(x).Failure? ==> f(x).error == e
    ensures ConcatMap(f, xs).Failure? ==> ConcatMap(f, xs).error == e
    decreases |xs|
  {
    if |xs| > 0 {
      ConcatMapError(f, xs[..|xs| - 1], e);
    }
  }

  /** Results that all succeed concatenate over an append. */
  lemma {:induction false} ConcatMapAppend<T, U>(f: T -> Result<seq<U>>, xs: seq<T>, ys: seq<T>)
    requires ConcatMap(f, xs).Success? && ConcatMap(f, ys).Success?
    ensures ConcatMap(f, xs + ys) == Success(ConcatMap(f, xs).value + ConcatMap(f, ys).value)
    decreases |ys|
  {
    if |ys| == 0 {
      assert xs + ys == xs;
      assert ConcatMap(f, xs).value + ConcatMap(f, ys).value == ConcatMap(f, xs).value;
    } else {
      var ys0 := ys[..|ys| - 1];
      assert (xs + ys)[..|xs + ys| - 1] == xs + ys0;
      assert (xs + ys)[|xs + ys| - 1] == ys[|ys| - 1];
      assert ConcatMap(f, ys0).Success? && f(ys[|ys| - 1]).Success?;
      ConcatMapAppend(f, xs, ys0);
      var a, b, c := ConcatMap(f, xs).value, ConcatMap(f, ys0).value, f(ys[|ys| - 1]).value;
      assert ConcatMap(f, ys).value == b + c;
      assert (a + b) + c == a + (b + c);
    }
  }

  /** The concatenation of `f`'s results over `xs`, left to right. */
  function FlatMap<T, U>(f: T -> seq<U>, xs: seq<T>): seq<U>
    decreases |xs|
  {
    if |xs| == 0 then [] else f(xs[0]) + FlatMap(f, xs[1..])
  }

  /** The results over an append are the results over each part. */
  lemma {:induction false} FlatMapAppend<T, U>(f: T -> seq<U>, xs: seq<T>, ys: seq<T>)
    ensures FlatMap(f, xs + ys) == FlatMap(f, xs) + FlatMap(f, ys)
    decreases |xs|
  {
    if |xs| == 0 {
      assert xs + ys == ys;
    } else {
      assert (xs + ys)[0] == xs[0] && (xs + ys)[1..] == xs[1..] + ys;
      FlatMapAppend(f, xs[1..], ys);
      var h := f(xs[0]);
      assert h + (FlatMap(f, xs[1..]) + FlatMap(f, ys)) == (h + FlatMap(f, xs[1..])) + FlatMap(f, ys);
    }
  }

  /** When each element gives at most one result, there are at most as many
      results as elements. */
  lemma {:induction false} FlatMapAtMostOne<T, U>(f: T -> seq<U>, xs: seq<T>)
    requires forall x :: |f(x)| <= 1
    ensures |FlatMap(f, xs)| <= |xs|
    decreases |xs|
  {
    if |xs| > 0 {
      FlatMapAtMostOne(f, xs[1..]);
    }
  }

  /** The position just past the first element that satisfies `p`, or the
      length when none does. */
  function FirstPast<T>(xs: seq<T>, p: T -> bool): (k: nat)
    ensures k <= |xs|
    ensures forall j :: 0 <= j < k - 1 ==> !p(xs[j])
    ensures k < |xs| ==> 0 < k && p(xs[k - 1])
    decreases |xs|
  {
    if |xs| == 0 then 0
    else if p(xs[0]) then 1
    else 1 + FirstPast(xs[1..], p)
  }
}
