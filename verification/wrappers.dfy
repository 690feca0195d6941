/** Result types shared by every module of the model.
    Go's `(value, error)` pairs become `Result`, a value that may be nil
    becomes `Option`. `FilterMap` keeps the present results of a partial
    map, as a loop that appends only the rows it accepts does. */
module Wrappers {

  datatype Option<+T> = None | Some(value: T)

  datatype Result<+T, +E> = Success(value: T) | Failure(error: E)

  /** The values `f` yields on `xs`, in order, with the `None`s dropped. */
  function FilterMap<A, B>(f: A -> Option<B>, xs: seq<A>): (ys: seq<B>)
    ensures |ys| <= |xs|
  {
    if |xs| == 0 then []
    else
      var head := match f(xs[0]) case Some(y) => [y] case None => [];
      head + FilterMap(f, xs[1..])
  }

  /** Filtering distributes over concatenation. */
  lemma {:induction false} FilterMapAppend<A, B>(f: A -> Option<B>, a: seq<A>, b: seq<A>)
    ensures FilterMap(f, a + b) == FilterMap(f, a) + FilterMap(f, b)
    decreases |a|
  {
    if |a| > 0 {
      assert (a + b)[0] == a[0];
      assert (a + b)[1..] == a[1..] + b;
      FilterMapAppend(f, a[1..], b);
    } else {
      assert a + b == b;
    }
  }

  /** A value is kept exactly when `f` yields it for some element. */
  lemma {:induction false} FilterMapMembership<A, B>(f: A -> Option<B>, xs: seq<A>, y: B)
    ensures y in FilterMap(f, xs) <==> exists j :: 0 <= j < |xs| && f(xs[j]) == Some(y)
    decreases |xs|
  {
    if |xs| > 0 {
      FilterMapMembership(f, xs[1..], y);
      if exists j :: 0 <= j < |xs| && f(xs[j]) == Some(y) {
        var j :| 0 <= j < |xs| && f(xs[j]) == Some(y);
        if j > 0 { assert xs[1..][j - 1] == xs[j]; }
      }
      if exists j :: 0 <= j < |xs[1..]| && f(xs[1..][j]) == Some(y) {
        var j :| 0 <= j < |xs[1..]| && f(xs[1..][j]) == Some(y);
        assert xs[1..][j] == xs[j + 1];
      }
    }
  }
}
