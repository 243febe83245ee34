/** Option and Result types shared by every module of the model, and collecting options. */
module Wrappers {

  /** A value that may be missing: Python's `None`, TypeScript's `null`. */
  datatype Option<+T> = None | Some(value: T) {
    function GetOr(default: T): T {
      match this
      case Some(v) => v
      case None => default
    }
  }

  /** The outcome of an operation that can fail with an error of type E. */
  datatype Result<+T, +E> = Ok(value: T) | Err(error: E)

  /** The values of `xs` when none is missing. */
  function AllPresent<T>(xs: seq<Option<T>>): (r: Option<seq<T>>)
    ensures r.Some? ==> |r.value| == |xs|
  {
    if xs == [] then Some([])
    else if xs[0].Some? && AllPresent(xs[1..]).Some? then Some([xs[0].value] + AllPresent(xs[1..]).value)
    else None
  }

  /** All values are there exactly when none is missing, and they keep their places. */
  lemma {:induction false} AllPresentSpec<T>(xs: seq<Option<T>>)
    ensures AllPresent(xs).Some? <==> forall i :: 0 <= i < |xs| ==> xs[i].Some?
    ensures AllPresent(xs).Some? ==> forall i :: 0 <= i < |xs| ==> AllPresent(xs).value[i] == xs[i].value
  {
    if xs != [] {
      AllPresentSpec(xs[1..]);
      assert forall i :: 1 <= i < |xs| ==> xs[i] == xs[1..][i - 1];
    }
  }

  /** Collecting one more option at the end. */
  lemma {:induction false} AllPresentSnoc<T>(xs: seq<Option<T>>, x: Option<T>)
    ensures AllPresent(xs + [x]) ==
      if AllPresent(xs).Some? && x.Some? then Some(AllPresent(xs).value + [x.value]) else None
  {
    if xs == [] {
      assert xs + [x] == [x] && [x][1..] == [];
      if x.Some? {
        assert [x.value] + [] == [] + [x.value];
      }
    } else {
      assert (xs + [x])[0] == xs[0] && (xs + [x])[1..] == xs[1..] + [x];
      AllPresentSnoc(xs[1..], x);
      if xs[0].Some? && AllPresent(xs[1..]).Some? && x.Some? {
        var rest := AllPresent(xs[1..]).value;
        assert [xs[0].value] + (rest + [x.value]) == ([xs[0].value] + rest) + [x.value];
      }
    }
  }

  /** One missing value leaves the whole collection missing. */
  lemma AllPresentMissing<T>(xs: seq<Option<T>>, i: nat)
    requires i < |xs| && xs[i].None?
    ensures AllPresent(xs).None?
  {
    AllPresentSpec(xs);
  }

  /** `f` applied to each element, in order. */
  function Each<T, U>(xs: seq<T>, f: T -> U): (r: seq<U>)
    ensures |r| == |xs| && forall i :: 0 <= i < |xs| ==> r[i] == f(xs[i])
  {
    seq(|xs|, i requires 0 <= i < |xs| => f(xs[i]))
  }

  /** Mapping a list with a head: the head's image, then the rest mapped. */
  lemma EachCons<T, U>(x: T, xs: seq<T>, f: T -> U)
    ensures Each([x] + xs, f) == [f(x)] + Each(xs, f)
  {
    var lhs := Each([x] + xs, f);
    var rhs := [f(x)] + Each(xs, f);
    assert |lhs| == |rhs|;
    forall i | 0 <= i < |lhs|
      ensures lhs[i] == rhs[i]
    {
      if i > 0 {
        assert ([x] + xs)[i] == xs[i - 1];
      }
    }
  }

  /** Applies `f` to each element in turn, stopping at the first missing result. */
  method CollectEach<T, U>(xs: seq<T>, f: T -> Option<U>) returns (r: Option<seq<U>>)
    ensures r == AllPresent(Each(xs, f))
  {
    ghost var ys := Each(xs, f);
    var acc: seq<U> := [];
    var i := 0;
    while i < |xs|
      invariant 0 <= i <= |xs|
      invariant AllPresent(ys[..i]) == Some(acc)
    {
      var y := f(xs[i]);
      if y.None? {
        AllPresentMissing(ys, i);
        return None;
      }
      AllPresentSnoc(ys[..i], ys[i]);
      assert ys[..i + 1] == ys[..i] + [ys[i]];
      acc := acc + [y.value];
      i := i + 1;
    }
    assert ys[..i] == ys;
    r := Some(acc);
  }
}
