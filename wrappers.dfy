/** Failure-carrying values used across the model in place of Python's
    `None` returns and raised exceptions. */
module Wrappers {

  datatype Option<+T> = None | Some(value: T)

  /** A call that either returns a value or raises an exception whose text is `error`. */
  datatype Result<+T> = Success(value: T) | Failure(error: string)

  /** A loop that applies `f` to each element in order and stops at the first exception. */
  function MapResults<A, B>(f: A --> Result<B>, xs: seq<A>): (r: Result<seq<B>>)
    requires forall i :: 0 <= i < |xs| ==> f.requires(xs[i])
    ensures r.Success? ==> |r.value| == |xs|
  {
    if xs == [] then Success([])
    else
      match MapResults(f, xs[..|xs| - 1])
      case Failure(e) => Failure(e)
      case Success(ys) =>
        match f(xs[|xs| - 1])
        case Failure(e) => Failure(e)
        case Success(y) => Success(ys + [y])
  }

  /** The loop succeeds exactly when every application does, and then collects their values in order. */
  lemma {:induction false} MapResultsSuccess<A, B>(f: A --> Result<B>, xs: seq<A>)
    requires forall i :: 0 <= i < |xs| ==> f.requires(xs[i])
    ensures MapResults(f, xs).Success? <==> forall i :: 0 <= i < |xs| ==> f(xs[i]).Success?
    ensures MapResults(f, xs).Success? ==> forall i :: 0 <= i < |xs| ==> f(xs[i]) == Success(MapResults(f, xs).value[i])
  {
    if xs != [] {
      var init := xs[..|xs| - 1];
      MapResultsSuccess(f, init);
      assert forall i :: 0 <= i < |init| ==> init[i] == xs[i];
    }
  }

  /** A failure raises the exception of the first element whose application fails. */
  lemma {:induction false} MapResultsFailure<A, B>(f: A --> Result<B>, xs: seq<A>, k: nat)
    requires forall i :: 0 <= i < |xs| ==> f.requires(xs[i])
    requires k < |xs| && f(xs[k]).Failure?
    requires forall i :: 0 <= i < k ==> f(xs[i]).Success?
    ensures MapResults(f, xs) == Failure(f(xs[k]).error)
  {
    var init := xs[..|xs| - 1];
    if k < |xs| - 1 {
      assert forall i :: 0 <= i < |init| ==> init[i] == xs[i];
      MapResultsFailure(f, init, k);
    } else {
      assert forall i :: 0 <= i < |init| ==> init[i] == xs[i];
      MapResultsSuccess(f, init);
    }
  }

  /** A failed loop failed at some element, every earlier application having succeeded. */
  lemma {:induction false} MapResultsFailed<A, B>(f: A --> Result<B>, xs: seq<A>)
    requires forall i :: 0 <= i < |xs| ==> f.requires(xs[i])
    requires MapResults(f, xs).Failure?
    ensures exists k :: 0 <= k < |xs| && f(xs[k]) == Failure(MapResults(f, xs).error)
                     && forall i :: 0 <= i < k ==> f(xs[i]).Success?
  {
    var init := xs[..|xs| - 1];
    assert forall i :: 0 <= i < |init| ==> init[i] == xs[i];
    if MapResults(f, init).Failure? {
      MapResultsFailed(f, init);
      var k :| 0 <= k < |init| && f(init[k]) == Failure(MapResults(f, init).error)
               && forall i :: 0 <= i < k ==> f(init[i]).Success?;
      assert f(xs[k]) == Failure(MapResults(f, xs).error);
    } else {
      MapResultsSuccess(f, init);
      assert f(xs[|xs| - 1]) == Failure(MapResults(f, xs).error);
    }
  }

  /** On a single element the loop returns that element's application, collected. */
  lemma MapResultsSingle<A, B>(f: A --> Result<B>, x: A)
    requires f.requires(x)
    ensures f(x).Success? ==> MapResults(f, [x]) == Success([f(x).value])
    ensures f(x).Failure? ==> MapResults(f, [x]) == Failure(f(x).error)
  {
    assert [x][..0] == [] && [x][0] == x;
    assert MapResults(f, [x][..0]) == Success([]);
    if f(x).Success? {
      assert [] + [f(x).value] == [f(x).value];
    }
  }

  /** The loop itself: `f` applied to each element in turn, collecting the values
      and returning the first exception raised. */
  method CollectResults<A, B>(f: A --> Result<B>, xs: seq<A>) returns (r: Result<seq<B>>)
    requires forall i :: 0 <= i < |xs| ==> f.requires(xs[i])
    ensures r == MapResults(f, xs)
  {
    var ys: seq<B> := [];
    var i := 0;
    while i < |xs|
      invariant 0 <= i <= |xs|
      invariant MapResults(f, xs[..i]) == Success(ys)
    {
      assert xs[..i + 1][..i] == xs[..i];
      var y := f(xs[i]);
      if y.Failure? {
        PrefixFailure(f, xs, i + 1);
        return Failure(y.error);
      }
      ys := ys + [y.value];
      i := i + 1;
    }
    assert xs[..i] == xs;
    return Success(ys);
  }

  /** Once a prefix fails, the whole loop fails with the same exception. */
  lemma {:induction false} PrefixFailure<A, B>(f: A --> Result<B>, xs: seq<A>, n: nat)
    requires forall i :: 0 <= i < |xs| ==> f.requires(xs[i])
    requires n <= |xs| && MapResults(f, xs[..n]).Failure?
    ensures MapResults(f, xs) == MapResults(f, xs[..n])
    decreases |xs| - n
  {
    if n < |xs| {
      assert xs[..n + 1][..n] == xs[..n];
      PrefixFailure(f, xs, n + 1);
    } else {
      assert xs[..n] == xs;
    }
  }
}
