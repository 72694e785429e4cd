/**
 * The array combinators the services use: `filter`, and the
 * "push only what succeeded" loop that maps each element to an optional
 * value and keeps the present ones. Both keep the input order, which the
 * append lemmas below make exact.
 */
module JsArray {

  import opened JsText

  /** `Array.prototype.filter`: the elements satisfying `keep`, in order. */
  function Filter<T>(xs: seq<T>, keep: T -> bool): (r: seq<T>)
    ensures |r| <= |xs|
    ensures forall k :: 0 <= k < |r| ==> keep(r[k]) && r[k] in xs
    decreases |xs|
  {
    if xs == [] then []
    else
      var init := Filter(xs[..|xs| - 1], keep);
      if keep(xs[|xs| - 1]) then init + [xs[|xs| - 1]] else init
  }

  /** Filtering distributes over concatenation: the order of what is kept is the input order. */
  lemma {:induction false} FilterAppend<T>(a: seq<T>, b: seq<T>, keep: T -> bool)
    ensures Filter(a + b, keep) == Filter(a, keep) + Filter(b, keep)
    decreases |b|
  {
    if b == [] {
      assert a + b == a;
    } else {
      var b0 := b[..|b| - 1];
      assert (a + b)[..|a + b| - 1] == a + b0;
      FilterAppend(a, b0, keep);
    }
  }

  /** Filtering drops no element that satisfies `keep`. */
  lemma {:induction false} FilterKeepsEvery<T>(xs: seq<T>, keep: T -> bool)
    ensures forall k :: 0 <= k < |xs| && keep(xs[k]) ==> xs[k] in Filter(xs, keep)
    decreases |xs|
  {
    if xs != [] {
      var init := xs[..|xs| - 1];
      FilterKeepsEvery(init, keep);
      assert forall k :: 0 <= k < |init| ==> xs[k] == init[k];
    }
  }

  /** A kept element sits between what is kept before it and what is kept after it: the order is the input order. */
  lemma FilterSplitsAt<T>(xs: seq<T>, keep: T -> bool, m: nat)
    requires m < |xs| && keep(xs[m])
    ensures Filter(xs, keep) == Filter(xs[..m], keep) + [xs[m]] + Filter(xs[m + 1..], keep)
  {
    var a, b := xs[..m], xs[m + 1..];
    var ax := xs[..m + 1];
    assert ax + b == xs;
    assert Filter(ax, keep) == Filter(a, keep) + [xs[m]] by {
      assert ax[..|ax| - 1] == a;
    }
    FilterAppend(ax, b, keep);
  }

  /** Filtering a list whose every element is kept changes nothing. */
  lemma {:induction false} FilterKeepsAll<T>(xs: seq<T>, keep: T -> bool)
    requires forall k :: 0 <= k < |xs| ==> keep(xs[k])
    ensures Filter(xs, keep) == xs
    decreases |xs|
  {
    if xs != [] {
      FilterKeepsAll(xs[..|xs| - 1], keep);
    }
  }

  /** Filtering a list none of whose elements is kept leaves nothing. */
  lemma {:induction false} FilterDropsAll<T>(xs: seq<T>, keep: T -> bool)
    requires forall k :: 0 <= k < |xs| ==> !keep(xs[k])
    ensures Filter(xs, keep) == []
    decreases |xs|
  {
    if xs != [] {
      FilterDropsAll(xs[..|xs| - 1], keep);
    }
  }

  /** A second filter by the same test removes nothing more. */
  lemma FilterIdempotent<T>(xs: seq<T>, keep: T -> bool)
    ensures Filter(Filter(xs, keep), keep) == Filter(xs, keep)
  {
    FilterKeepsAll(Filter(xs, keep), keep);
  }

  /**
   * A loop that calls `f` on every element and pushes the result when
   * there is one: the present results, in input order.
   */
  function Collect<T, U>(xs: seq<T>, f: T -> Option<U>): (r: seq<U>)
    ensures |r| <= |xs|
    decreases |xs|
  {
    if xs == [] then []
    else
      var init := Collect(xs[..|xs| - 1], f);
      match f(xs[|xs| - 1])
      case Some(y) => init + [y]
      case None => init
  }

  /** One more element of a prefix: its result is pushed when there is one. */
  lemma CollectStep<T, U>(xs: seq<T>, i: nat, f: T -> Option<U>)
    requires i < |xs|
    ensures Collect(xs[..i + 1], f) == match f(xs[i])
      case Some(y) => Collect(xs[..i], f) + [y]
      case None => Collect(xs[..i], f)
  {
    assert xs[..i + 1][..i] == xs[..i];
  }

  /** Collecting distributes over concatenation. */
  lemma {:induction false} CollectAppend<T, U>(a: seq<T>, b: seq<T>, f: T -> Option<U>)
    ensures Collect(a + b, f) == Collect(a, f) + Collect(b, f)
    decreases |b|
  {
    if b == [] {
      assert a + b == a;
    } else {
      var b0 := b[..|b| - 1];
      assert (a + b)[..|a + b| - 1] == a + b0;
      CollectAppend(a, b0, f);
    }
  }

  /** A present result sits between the results collected before it and those collected after it. */
  lemma CollectSplitsAt<T, U>(xs: seq<T>, f: T -> Option<U>, m: nat)
    requires m < |xs| && f(xs[m]).Some?
    ensures Collect(xs, f) == Collect(xs[..m], f) + [f(xs[m]).value] + Collect(xs[m + 1..], f)
  {
    var a, b := xs[..m], xs[m + 1..];
    var ax := xs[..m + 1];
    assert ax + b == xs;
    assert Collect(ax, f) == Collect(a, f) + [f(xs[m]).value] by {
      assert ax[..|ax| - 1] == a;
    }
    CollectAppend(ax, b, f);
  }

  /** Every collected value is the result of `f` on some element. */
  lemma {:induction false} CollectedComeFromInput<T, U>(xs: seq<T>, f: T -> Option<U>, k: nat)
    requires k < |Collect(xs, f)|
    ensures exists m :: 0 <= m < |xs| && f(xs[m]) == Some(Collect(xs, f)[k])
    decreases |xs|
  {
    var init := Collect(xs[..|xs| - 1], f);
    if k < |init| {
      CollectedComeFromInput(xs[..|xs| - 1], f, k);
      var m :| 0 <= m < |xs| - 1 && f(xs[..|xs| - 1][m]) == Some(init[k]);
      assert xs[m] == xs[..|xs| - 1][m];
    } else {
      assert f(xs[|xs| - 1]) == Some(Collect(xs, f)[k]);
    }
  }

  /** When `f` succeeds on every element, nothing is dropped and the order is kept. */
  lemma {:induction false} CollectAllPresent<T, U>(xs: seq<T>, f: T -> Option<U>)
    requires forall m :: 0 <= m < |xs| ==> f(xs[m]).Some?
    ensures |Collect(xs, f)| == |xs|
    ensures forall m :: 0 <= m < |xs| ==> Collect(xs, f)[m] == f(xs[m]).value
    decreases |xs|
  {
    if xs != [] {
      CollectAllPresent(xs[..|xs| - 1], f);
    }
  }

  /** When `f` fails on every element, the loop pushes nothing. */
  lemma {:induction false} CollectNonePresent<T, U>(xs: seq<T>, f: T -> Option<U>)
    requires forall m :: 0 <= m < |xs| ==> f(xs[m]).None?
    ensures Collect(xs, f) == []
    decreases |xs|
  {
    if xs != [] {
      CollectNonePresent(xs[..|xs| - 1], f);
    }
  }

  /** A slice that stops before the last element is a slice of the prefix without it. */
  lemma SliceOfInit<T>(xs: seq<T>, a: nat, b: nat)
    requires a <= b < |xs|
    ensures xs[a..b] == xs[..|xs| - 1][a..b]
  {
  }

  /** Extending a slice by one element appends that element. */
  lemma SliceExtend<T>(xs: seq<T>, a: nat, b: nat)
    requires a <= b < |xs|
    ensures xs[a..b + 1] == xs[a..b] + [xs[b]]
  {
  }

  /** A sequence that agrees with `b` and then ends with `x` is `b + [x]`. */
  lemma EqualsSnoc<T>(a: seq<T>, b: seq<T>, x: T)
    requires |a| == |b| + 1 && a[|b|] == x
    requires forall k :: 0 <= k < |b| ==> a[k] == b[k]
    ensures a == b + [x]
  {
  }

  /** `f` applied to the `n` elements of `xs` from index `lo` on, in order. */
  function MapWindow<T, U>(xs: seq<T>, lo: nat, n: nat, f: T -> U): (r: seq<U>)
    requires lo + n <= |xs|
    ensures |r| == n
    ensures forall k :: 0 <= k < n ==> r[k] == f(xs[lo + k])
  {
    seq(n, k requires 0 <= k < n => f(xs[lo + k]))
  }

  /** `Array.prototype.findIndex`: the first index satisfying `p`, or -1. */
  function FindIndex<T>(xs: seq<T>, p: T -> bool): (r: int)
    ensures -1 <= r < |xs|
    ensures r >= 0 ==> p(xs[r]) && forall m :: 0 <= m < r ==> !p(xs[m])
    ensures r == -1 <==> forall m :: 0 <= m < |xs| ==> !p(xs[m])
    decreases |xs|
  {
    if xs == [] then -1
    else if p(xs[0]) then 0
    else
      var r := FindIndex(xs[1..], p);
      if r == -1 then -1 else r + 1
  }
}
