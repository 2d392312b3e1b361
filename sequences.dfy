/**
 * The filter-and-map comprehension `[f(x) for x in xs if <f gives a value>]`,
 * used by the scraper's filter codes and by the orchestrator's contact string.
 */
module Sequences {
  import opened Wrappers

  /** The first element, if any. */
  function First<T>(xs: seq<T>): (r: Option<T>)
    ensures r.Some? <==> xs != []
    ensures xs != [] ==> r.value == xs[0]
  {
    if xs == [] then None else Some(xs[0])
  }

  /** The values `f` gives for the elements of `xs`, in order; elements for
      which it gives none are dropped. */
  function FilterMap<T, U>(xs: seq<T>, f: T -> Option<U>): (r: seq<U>)
    ensures |r| <= |xs|
    decreases |xs|
  {
    if xs == [] then []
    else
      var n := |xs| - 1;
      var prefix := FilterMap(xs[..n], f);
      if f(xs[n]).Some? then prefix + [f(xs[n]).value] else prefix
  }

  /** Every value comes from an element: the returned position holds it. */
  lemma {:induction false} FilterMapSound<T, U>(xs: seq<T>, f: T -> Option<U>, k: nat) returns (i: nat)
    requires k < |FilterMap(xs, f)|
    ensures i < |xs| && f(xs[i]) == Some(FilterMap(xs, f)[k])
    decreases |xs|
  {
    var n := |xs| - 1;
    var prefix := FilterMap(xs[..n], f);
    if k < |prefix| {
      i := FilterMapSound(xs[..n], f, k);
      assert xs[..n][i] == xs[i];
    } else {
      i := n;
    }
  }

  /** The values come in the order of their elements. */
  lemma {:induction false} FilterMapAppend<T, U>(a: seq<T>, b: seq<T>, f: T -> Option<U>)
    ensures FilterMap(a + b, f) == FilterMap(a, f) + FilterMap(b, f)
    decreases |b|
  {
    if b == [] {
      assert a + b == a;
    } else {
      var n := |b| - 1;
      assert (a + b)[..|a + b| - 1] == a + b[..n];
      FilterMapAppend(a, b[..n], f);
    }
  }

  /** Every element for which `f` gives a value contributes that value. */
  lemma FilterMapComplete<T, U>(xs: seq<T>, f: T -> Option<U>, i: nat)
    requires i < |xs| && f(xs[i]).Some?
    ensures f(xs[i]).value in FilterMap(xs, f)
  {
    var a, x, b := xs[..i], xs[i], xs[i + 1..];
    assert xs == (a + [x]) + b;
    FilterMapAppend(a + [x], b, f);
    FilterMapAppend(a, [x], f);
    FilterMapSingle(x, f);
    assert FilterMap(xs, f) == FilterMap(a, f) + [f(x).value] + FilterMap(b, f);
  }

  /** A single element contributes its value, if any. */
  lemma FilterMapSingle<T, U>(x: T, f: T -> Option<U>)
    ensures FilterMap([x], f) == if f(x).Some? then [f(x).value] else []
  {
    assert [x][..0] == [];
  }

  /** Nothing is dropped when `f` gives a value for every element. */
  lemma {:induction false} FilterMapTotal<T, U>(xs: seq<T>, f: T -> Option<U>)
    requires forall i :: 0 <= i < |xs| ==> f(xs[i]).Some?
    ensures |FilterMap(xs, f)| == |xs|
    ensures forall i :: 0 <= i < |xs| ==> FilterMap(xs, f)[i] == f(xs[i]).value
    decreases |xs|
  {
    if xs != [] {
      var n := |xs| - 1;
      FilterMapTotal(xs[..n], f);
    }
  }
}
