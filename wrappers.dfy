/** Optional values, the model's stand-in for Python's `None`, and a map that stops at the first `None`. */
module Wrappers {

  datatype Option<+T> = None | Some(value: T) {

    /** Returns the value, or `default` when there is none. */
    function GetOr(default: T): T {
      match this
      case Some(v) => v
      case None => default
    }
  }

  /** `f` applied to each of `xs` in order; `None` at the first `None`. */
  function MapAll<A, B>(f: A -> Option<B>, xs: seq<A>): (r: Option<seq<B>>)
    ensures r.Some? ==> |r.value| == |xs|
  {
    if xs == [] then Some([])
    else
      var done := MapAll(f, xs[..|xs| - 1]);
      var e := f(xs[|xs| - 1]);
      if done.Some? && e.Some? then Some(done.value + [e.value]) else None
  }

  /** Once `f` fails on an element, the whole map fails. */
  lemma {:induction false} MapAllFail<A, B>(f: A -> Option<B>, xs: seq<A>, s: nat)
    requires 0 < s <= |xs|
    requires MapAll(f, xs[..s - 1]).None? || f(xs[s - 1]).None?
    ensures MapAll(f, xs) == None
    decreases |xs| - s
  {
    assert xs[..s][..s - 1] == xs[..s - 1];
    if s < |xs| {
      MapAllFail(f, xs, s + 1);
    } else {
      assert xs[..s] == xs;
    }
  }

  /** Element `k` of a successful map is `f` of element `k`. */
  lemma {:induction false} MapAllAt<A, B>(f: A -> Option<B>, xs: seq<A>, k: nat)
    requires MapAll(f, xs).Some? && k < |xs|
    ensures f(xs[k]) == Some(MapAll(f, xs).value[k])
  {
    var n := |xs| - 1;
    if k < n {
      MapAllAt(f, xs[..n], k);
      assert xs[..n][k] == xs[k];
    }
  }

  /** The map succeeds when `f` succeeds on every element. */
  lemma {:induction false} MapAllSucceeds<A, B>(f: A -> Option<B>, xs: seq<A>)
    requires forall k :: 0 <= k < |xs| ==> f(xs[k]).Some?
    ensures MapAll(f, xs).Some?
  {
    if xs != [] {
      var n := |xs| - 1;
      assert forall k :: 0 <= k < n ==> xs[..n][k] == xs[k];
      MapAllSucceeds(f, xs[..n]);
    }
  }

  /** Mapping one more element extends a successful map by its image. */
  lemma MapAllSnoc<A, B>(f: A -> Option<B>, xs: seq<A>, x: A)
    ensures MapAll(f, xs + [x]) ==
              if MapAll(f, xs).Some? && f(x).Some? then Some(MapAll(f, xs).value + [f(x).value]) else None
  {
    assert (xs + [x])[..|xs|] == xs;
  }
}
