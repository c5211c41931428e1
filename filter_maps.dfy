/**
 * The loader's three loops all have the same shape: walk a sequence in order,
 * try to turn each element into a row (or a table), append on success and skip
 * on failure. FilterMap is that shape as a function; Hits names the positions
 * that produced something, and FilterMapHits is the independent description
 * of FilterMap in terms of them.
 */
module FilterMaps {
  import opened Wrappers

  /** What one element contributes: one value on success, nothing on failure. */
  function Emit<B>(o: Option<B>): (ys: seq<B>)
    ensures |ys| == if o.Some? then 1 else 0
    ensures o.Some? ==> ys[0] == o.value
  {
    match o
    case Some(y) => [y]
    case None => []
  }

  /** The successes of `f` over `xs`, in the order of `xs`. */
  function FilterMap<A, B>(xs: seq<A>, f: A -> Option<B>): (ys: seq<B>)
    ensures |ys| <= |xs|
  {
    if |xs| == 0 then [] else FilterMap(xs[..|xs| - 1], f) + Emit(f(xs[|xs| - 1]))
  }

  /** The positions of `xs` at which `f` succeeds, in increasing order. */
  function Hits<A, B>(xs: seq<A>, f: A -> Option<B>): (hs: seq<nat>)
    ensures forall k :: 0 <= k < |hs| ==> hs[k] < |xs|
  {
    if |xs| == 0 then []
    else Hits(xs[..|xs| - 1], f) + (if f(xs[|xs| - 1]).Some? then [|xs| - 1] else [])
  }

  /** One position per value. */
  lemma {:induction false} HitsLength<A, B>(xs: seq<A>, f: A -> Option<B>)
    ensures |Hits(xs, f)| == |FilterMap(xs, f)|
  {
    if |xs| > 0 {
      HitsLength(xs[..|xs| - 1], f);
    }
  }

  /** The k-th value is what f gives at the k-th position. */
  lemma {:induction false} HitsValues<A, B>(xs: seq<A>, f: A -> Option<B>)
    ensures |Hits(xs, f)| == |FilterMap(xs, f)|
    ensures forall k :: 0 <= k < |Hits(xs, f)| ==> f(xs[Hits(xs, f)[k]]) == Some(FilterMap(xs, f)[k])
  {
    HitsLength(xs, f);
    if |xs| > 0 {
      var init, x := xs[..|xs| - 1], xs[|xs| - 1];
      HitsValues(init, f);
      var hs, ys := Hits(xs, f), FilterMap(xs, f);
      var hs0, ys0 := Hits(init, f), FilterMap(init, f);
      assert hs == hs0 + (if f(x).Some? then [|xs| - 1] else []);
      assert ys == ys0 + Emit(f(x));
      forall k | 0 <= k < |hs|
        ensures f(xs[hs[k]]) == Some(ys[k])
      {
        if k < |hs0| {
          assert hs[k] == hs0[k] && ys[k] == ys0[k];
          assert xs[hs0[k]] == init[hs0[k]];
        } else {
          assert hs[k] == |xs| - 1 && ys[k] == f(x).value;
        }
      }
    }
  }

  /** The positions increase. */
  lemma {:induction false} HitsIncreasing<A, B>(xs: seq<A>, f: A -> Option<B>)
    ensures forall k, l :: 0 <= k < l < |Hits(xs, f)| ==> Hits(xs, f)[k] < Hits(xs, f)[l]
  {
    if |xs| > 0 {
      var init, x := xs[..|xs| - 1], xs[|xs| - 1];
      HitsIncreasing(init, f);
      var hs, hs0 := Hits(xs, f), Hits(init, f);
      assert hs == hs0 + (if f(x).Some? then [|xs| - 1] else []);
      forall k, l | 0 <= k < l < |hs|
        ensures hs[k] < hs[l]
      {
        if l < |hs0| {
          assert hs[k] == hs0[k] && hs[l] == hs0[l];
        } else {
          assert hs[k] == hs0[k] < |init|;
          assert hs[l] == |xs| - 1;
        }
      }
    }
  }

  /** A position is a hit exactly when f succeeds there. */
  lemma {:induction false} HitsMembership<A, B>(xs: seq<A>, f: A -> Option<B>)
    ensures forall i :: 0 <= i < |xs| ==> (f(xs[i]).Some? <==> i in Hits(xs, f))
  {
    if |xs| > 0 {
      var init, x := xs[..|xs| - 1], xs[|xs| - 1];
      HitsMembership(init, f);
      var hs, hs0 := Hits(xs, f), Hits(init, f);
      var last: seq<nat> := if f(x).Some? then [|xs| - 1] else [];
      assert hs == hs0 + last;
      forall i | 0 <= i < |xs|
        ensures f(xs[i]).Some? <==> i in hs
      {
        if i < |init| {
          assert xs[i] == init[i];
          assert i !in last;
        } else {
          assert i !in hs0;
        }
      }
    }
  }

  /**
   * The k-th value of FilterMap(xs, f) is what f gives for the k-th position
   * at which it succeeds; those positions increase, and a position is one of
   * them exactly when f succeeds there.
   */
  lemma FilterMapHits<A, B>(xs: seq<A>, f: A -> Option<B>)
    ensures |Hits(xs, f)| == |FilterMap(xs, f)|
    ensures forall k :: 0 <= k < |Hits(xs, f)| ==> f(xs[Hits(xs, f)[k]]) == Some(FilterMap(xs, f)[k])
    ensures forall k, l :: 0 <= k < l < |Hits(xs, f)| ==> Hits(xs, f)[k] < Hits(xs, f)[l]
    ensures forall i :: 0 <= i < |xs| ==> (f(xs[i]).Some? <==> i in Hits(xs, f))
  {
    HitsValues(xs, f);
    HitsIncreasing(xs, f);
    HitsMembership(xs, f);
  }

  /** Appending one element appends its contribution (the loop step). */
  lemma FilterMapSnoc<A, B>(xs: seq<A>, x: A, f: A -> Option<B>)
    ensures FilterMap(xs + [x], f) == FilterMap(xs, f) + Emit(f(x))
  {
    assert (xs + [x])[..|xs|] == xs;
  }

  /** The loop step over a prefix: extending the prefix by one element. */
  lemma FilterMapPrefixStep<A, B>(xs: seq<A>, i: nat, f: A -> Option<B>)
    requires i < |xs|
    ensures FilterMap(xs[..i + 1], f) == FilterMap(xs[..i], f) + Emit(f(xs[i]))
  {
    assert xs[..i + 1] == xs[..i] + [xs[i]];
    FilterMapSnoc(xs[..i], xs[i], f);
  }

  /** The loop step that appends: a hit extends the output by its value. */
  lemma FilterMapAppendStep<A, B>(base: seq<B>, xs: seq<A>, i: nat, f: A -> Option<B>, y: B)
    requires i < |xs| && f(xs[i]) == Some(y)
    ensures base + FilterMap(xs[..i], f) + [y] == base + FilterMap(xs[..i + 1], f)
  {
    FilterMapPrefixStep(xs, i, f);
    assert base + FilterMap(xs[..i + 1], f) == base + (FilterMap(xs[..i], f) + [y]);
  }

  /** The loop step that skips: a miss leaves the output as it is. */
  lemma FilterMapSkipStep<A, B>(xs: seq<A>, i: nat, f: A -> Option<B>)
    requires i < |xs| && f(xs[i]).None?
    ensures FilterMap(xs[..i + 1], f) == FilterMap(xs[..i], f)
  {
    FilterMapPrefixStep(xs, i, f);
    assert FilterMap(xs[..i], f) + [] == FilterMap(xs[..i], f);
  }

  /** A sequence that agrees with `init` below its last index ends in its last element. */
  lemma SnocLast<T>(s: seq<T>, init: seq<T>)
    requires |s| == |init| + 1 && s[..|init|] == init
    ensures s == init + [s[|init|]]
  {
    assert s == s[..|init|] + [s[|init|]];
  }

  /** Concatenation is associative. */
  lemma AppendAssoc<T>(a: seq<T>, b: seq<T>, c: seq<T>)
    ensures a + b + c == a + (b + c)
  {
  }

  /** Replacing the first element keeps the rest. */
  lemma UpdateFirst<T>(s: seq<T>, x: T)
    requires |s| >= 1
    ensures s[0 := x] == [x] + s[1..]
  {
    assert s[0 := x] == [x] + s[1..];
  }
}
