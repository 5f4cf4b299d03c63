/**
 * Filtering a sequence and mapping what is kept, in one step: `xs.filter(p).map(g)`
 * is `Choose(xs, f)` with `f(x) == if p(x) then Some(g(x)) else None`.
 */
module Sequences {
  import opened Wrappers

  /** The images of the elements on which `f` gives a value, in the order of `xs`. */
  function Choose<T, U>(xs: seq<T>, f: T -> Option<U>): (r: seq<U>)
    ensures |r| <= |xs|
    decreases |xs|
  {
    if xs == [] then []
    else
      var rest := Choose(xs[..|xs| - 1], f);
      match f(xs[|xs| - 1])
      case Some(y) => rest + [y]
      case None => rest
  }

  /** The positions in `xs` of the elements that `Choose` keeps. */
  function ChosenIndices<T, U>(xs: seq<T>, f: T -> Option<U>): seq<nat>
    decreases |xs|
  {
    if xs == [] then []
    else
      var rest := ChosenIndices(xs[..|xs| - 1], f);
      if f(xs[|xs| - 1]).Some? then rest + [|xs| - 1] else rest
  }

  /**
   * `r` is what `f` gives at the strictly increasing positions `idx` of `xs`,
   * and `idx` holds exactly the positions where `f` gives a value.
   */
  ghost predicate IsSelection<T, U>(xs: seq<T>, f: T -> Option<U>, r: seq<U>, idx: seq<nat>)
  {
    && |idx| == |r|
    && (forall k :: 0 <= k < |idx| ==> idx[k] < |xs| && f(xs[idx[k]]) == Some(r[k]))
    && (forall k, l :: 0 <= k < l < |idx| ==> idx[k] < idx[l])
    && (forall i :: 0 <= i < |xs| ==> (f(xs[i]).Some? <==> i in idx))
  }

  lemma {:induction false} ChooseSelects<T, U>(xs: seq<T>, f: T -> Option<U>)
    ensures IsSelection(xs, f, Choose(xs, f), ChosenIndices(xs, f))
    decreases |xs|
  {
    if xs != [] {
      var n := |xs| - 1;
      var init := xs[..n];
      ChooseSelects(init, f);
      var r0, idx0 := Choose(init, f), ChosenIndices(init, f);
      assert forall i :: 0 <= i < n ==> xs[i] == init[i];
      if f(xs[n]).Some? {
        var idx := idx0 + [n];
        assert forall i :: 0 <= i < n ==> (i in idx <==> i in idx0);
        assert n in idx;
      }
    }
  }

  /** Keeping fewer elements keeps no more of them. */
  lemma {:induction false} ChooseMonotone<T, U, V>(xs: seq<T>, f: T -> Option<U>, g: T -> Option<V>)
    requires forall i :: 0 <= i < |xs| ==> f(xs[i]).Some? ==> g(xs[i]).Some?
    ensures |Choose(xs, f)| <= |Choose(xs, g)|
    decreases |xs|
  {
    if xs != [] {
      var init := xs[..|xs| - 1];
      assert forall i :: 0 <= i < |init| ==> init[i] == xs[i];
      ChooseMonotone(init, f, g);
    }
  }

  /** Where `f` gives nothing, nothing is kept. */
  lemma {:induction false} ChooseNothing<T, U>(xs: seq<T>, f: T -> Option<U>)
    requires forall i :: 0 <= i < |xs| ==> f(xs[i]) == None
    ensures Choose(xs, f) == []
    decreases |xs|
  {
    if xs != [] {
      var init := xs[..|xs| - 1];
      assert forall i :: 0 <= i < |init| ==> init[i] == xs[i];
      ChooseNothing(init, f);
    }
  }
}
