/** Order-preserving filtering, the shape of every `.each(...)` loop that pushes
    some of the elements it visits. */
module Seqs {
  import opened Js

  /** Keeps `f(x).value` for each `x` on which `f` is defined, in input order. */
  function FilterMap<A, B>(xs: seq<A>, f: A -> Option<B>): (r: seq<B>)
    ensures |r| <= |xs|
    ensures forall i :: 0 <= i < |xs| && f(xs[i]).Some? ==> f(xs[i]).value in r
    ensures forall k :: 0 <= k < |r| ==> exists i :: 0 <= i < |xs| && f(xs[i]) == Some(r[k])
    decreases |xs|
  {
    if xs == [] then []
    else
      var rest := FilterMap(xs[1..], f);
      assert forall k :: 0 <= k < |rest| ==> exists i :: 0 <= i < |xs| && f(xs[i]) == Some(rest[k]) by {
        forall k | 0 <= k < |rest|
          ensures exists i :: 0 <= i < |xs| && f(xs[i]) == Some(rest[k])
        {
          var i :| 0 <= i < |xs| - 1 && f(xs[1..][i]) == Some(rest[k]);
          assert f(xs[i + 1]) == Some(rest[k]);
        }
      }
      assert forall i :: 1 <= i < |xs| && f(xs[i]).Some? ==> f(xs[i]).value in rest by {
        forall i | 1 <= i < |xs| && f(xs[i]).Some?
          ensures f(xs[i]).value in rest
        {
          assert xs[1..][i - 1] == xs[i];
        }
      }
      match f(xs[0])
      case None => rest
      case Some(y) => [y] + rest
  }

  /** Filtering a concatenation is concatenating the filtered halves: the output keeps the
      input's order. */
  lemma {:induction false} FilterMapAppend<A, B>(xs: seq<A>, ys: seq<A>, f: A -> Option<B>)
    ensures FilterMap(xs + ys, f) == FilterMap(xs, f) + FilterMap(ys, f)
    decreases |xs|
  {
    if xs == [] {
      assert xs + ys == ys;
    } else {
      assert (xs + ys)[0] == xs[0];
      assert (xs + ys)[1..] == xs[1..] + ys;
      FilterMapAppend(xs[1..], ys, f);
    }
  }

  /** Applies `f` to every element, in input order. */
  function Map<A, B>(xs: seq<A>, f: A -> B): (r: seq<B>)
    ensures |r| == |xs|
    ensures forall k :: 0 <= k < |xs| ==> r[k] == f(xs[k])
  {
    seq(|xs|, k requires 0 <= k < |xs| => f(xs[k]))
  }

  /** Mapping a concatenation is concatenating the mapped halves. */
  lemma MapAppend<A, B>(xs: seq<A>, ys: seq<A>, f: A -> B)
    ensures Map(xs + ys, f) == Map(xs, f) + Map(ys, f)
  {
    var l, r := Map(xs + ys, f), Map(xs, f) + Map(ys, f);
    forall k | 0 <= k < |l|
      ensures l[k] == r[k]
    {
      if k < |xs| {
        assert (xs + ys)[k] == xs[k];
      } else {
        assert (xs + ys)[k] == ys[k - |xs|];
      }
    }
  }

  /** Prepending to a concatenation. */
  lemma ConsAppend<T>(x: T, s: seq<T>, t: seq<T>)
    ensures [x] + (s + t) == [x] + s + t
  {
  }

  /** A one-element input is kept exactly when `f` is defined on it. */
  lemma FilterMapSingle<A, B>(x: A, f: A -> Option<B>)
    ensures FilterMap([x], f) == (if f(x).Some? then [f(x).value] else [])
  {
    assert [x][1..] == [];
  }

  /** Whatever holds of every value `f` yields holds of every element kept. */
  lemma {:induction false} FilterMapAll<A, B>(xs: seq<A>, f: A -> Option<B>, p: B -> bool)
    requires forall x :: f(x).Some? ==> p(f(x).value)
    ensures forall k :: 0 <= k < |FilterMap(xs, f)| ==> p(FilterMap(xs, f)[k])
    decreases |xs|
  {
    if xs != [] {
      FilterMapAll(xs[1..], f, p);
    }
  }
}
