/** Failure-compatible wrappers shared by the whole model.
    A Rust `panic!`, a failed `unwrap()` or `expect()` is modelled as `Err(reason)`. */
module Wrappers {

  datatype Option<+T> = None | Some(value: T)

  datatype Result<+T> = Ok(value: T) | Err(reason: string) {

    predicate IsFailure() {
      Err?
    }

    function PropagateFailure<U>(): Result<U>
      requires Err?
    {
      Err(reason)
    }

    function Extract(): T
      requires Ok?
    {
      value
    }
  }

  /** The message Rust prints for `unwrap()` on `None`. */
  const UnwrapNone := "called `Option::unwrap()` on a `None` value"

  /** `option.unwrap()` */
  function Unwrap<T>(o: Option<T>): (r: Result<T>)
    ensures r.Ok? <==> o.Some?
    ensures r.Ok? ==> r.value == o.value
  {
    match o
    case Some(v) => Ok(v)
    case None => Err(UnwrapNone)
  }

  /** The (abridged) message Rust panics with on an out-of-range index. */
  const IndexOutOfBounds := "index out of bounds"

  /** `vec[i]` on a `Vec`: panics when `i` is out of bounds. */
  function At<T>(s: seq<T>, i: nat): (r: Result<T>)
    ensures r.Ok? <==> i < |s|
    ensures r.Ok? ==> r.value == s[i]
    ensures r.Err? ==> r.reason == IndexOutOfBounds
  {
    if i < |s| then Ok(s[i]) else Err(IndexOutOfBounds)
  }

  /** Sequencing two outcomes that produce runs: the first failure wins, otherwise the runs
      concatenate in order. */
  function Then<T>(a: Result<seq<T>>, b: Result<seq<T>>): (r: Result<seq<T>>)
    ensures r.Ok? <==> a.Ok? && b.Ok?
    ensures r.Ok? ==> r.value == a.value + b.value
    ensures a.Err? ==> r == a
  {
    if a.Err? then a else if b.Err? then b else Ok(a.value + b.value)
  }

  /** `iter().map(f).collect()` with an `f` that may panic: the elements are mapped front to
      back and the first failure is the outcome. */
  function MapAll<A, B>(xs: seq<A>, f: A -> Result<B>): (r: Result<seq<B>>)
    ensures r.Ok? <==> forall i :: 0 <= i < |xs| ==> f(xs[i]).Ok?
    ensures r.Ok? ==> |r.value| == |xs| && forall i :: 0 <= i < |xs| ==> f(xs[i]) == Ok(r.value[i])
    decreases |xs|
  {
    if |xs| == 0 then Ok([])
    else
      var first :- f(xs[0]);
      var rest :- MapAll(xs[1..], f);
      assert forall i :: 1 <= i < |xs| ==> xs[1..][i - 1] == xs[i];
      Ok([first] + rest)
  }

  /** A sequence of fallible steps applied in order; the first failure ends the run. */
  function Fold<S, X>(s: S, xs: seq<X>, step: (S, X) -> Result<S>): Result<S>
    decreases |xs|
  {
    if |xs| == 0 then Ok(s)
    else
      var prev :- Fold(s, xs[..|xs| - 1], step);
      step(prev, xs[|xs| - 1])
  }

  /** Running `a + b` is running `a`, then `b` from where `a` left off. */
  lemma {:induction false} FoldAppend<S, X>(s: S, a: seq<X>, b: seq<X>, step: (S, X) -> Result<S>)
    ensures Fold(s, a + b, step) ==
      if Fold(s, a, step).Err? then Fold(s, a, step) else Fold(Fold(s, a, step).value, b, step)
    decreases |b|
  {
    if |b| == 0 {
      assert a + b == a;
    } else {
      var ab := a + b;
      assert ab[..|ab| - 1] == a + b[..|b| - 1];
      assert ab[|ab| - 1] == b[|b| - 1];
      FoldAppend(s, a, b[..|b| - 1], step);
    }
  }

  /** The outputs of `f` over `xs`, concatenated in order; the first failure wins. */
  function FlatMap<A, B>(xs: seq<A>, f: A -> Result<seq<B>>): Result<seq<B>>
    decreases |xs|
  {
    if |xs| == 0 then Ok([])
    else
      var prev :- FlatMap(xs[..|xs| - 1], f);
      var last :- f(xs[|xs| - 1]);
      Ok(prev + last)
  }

  /** Flattening a concatenation is flattening the parts in order. */
  lemma {:induction false} FlatMapAppend<A, B>(xs: seq<A>, ys: seq<A>, f: A -> Result<seq<B>>)
    ensures FlatMap(xs + ys, f) == Then(FlatMap(xs, f), FlatMap(ys, f))
    decreases |ys|
  {
    if |ys| == 0 {
      assert xs + ys == xs;
      if FlatMap(xs, f).Ok? {
        assert FlatMap(xs, f).value + [] == FlatMap(xs, f).value;
      }
    } else {
      var init := ys[..|ys| - 1];
      var all := xs + ys;
      assert all[..|all| - 1] == xs + init;
      assert all[|all| - 1] == ys[|ys| - 1];
      FlatMapAppend(xs, init, f);
      var a := FlatMap(xs, f);
      var b := FlatMap(init, f);
      var c := f(ys[|ys| - 1]);
      if a.Ok? && b.Ok? && c.Ok? {
        assert (a.value + b.value) + c.value == a.value + (b.value + c.value);
      }
    }
  }

  lemma SeqAssoc<T>(a: seq<T>, b: seq<T>, c: seq<T>)
    ensures (a + b) + c == a + (b + c)
  {
  }

  /** One more element: the flattening so far, then that element's run. */
  lemma FlatMapStep<A, B>(xs: seq<A>, i: nat, f: A -> Result<seq<B>>)
    requires i < |xs|
    ensures FlatMap(xs[..i + 1], f) == Then(FlatMap(xs[..i], f), f(xs[i]))
  {
    assert xs[..i + 1][..i] == xs[..i] && xs[..i + 1][i] == xs[i];
  }

  lemma FlatMapSingle<A, B>(x: A, f: A -> Result<seq<B>>)
    ensures FlatMap([x], f) == f(x)
  {
    assert [x][..0] == [];
    if f(x).Ok? {
      assert [] + f(x).value == f(x).value;
    }
  }

  /** A failed flattening fails with the failure of one of the elements. */
  lemma {:induction false} FlatMapErr<A, B>(xs: seq<A>, f: A -> Result<seq<B>>)
    ensures FlatMap(xs, f).Err? ==>
      exists i :: 0 <= i < |xs| && f(xs[i]).Err? && f(xs[i]).reason == FlatMap(xs, f).reason
    decreases |xs|
  {
    if |xs| > 0 && FlatMap(xs, f).Err? {
      var init := xs[..|xs| - 1];
      FlatMapErr(init, f);
      if FlatMap(init, f).Err? {
        var i :| 0 <= i < |init| && f(init[i]).Err? && f(init[i]).reason == FlatMap(init, f).reason;
        assert init[i] == xs[i];
      } else {
        assert f(xs[|xs| - 1]).Err?;
      }
    }
  }
}
