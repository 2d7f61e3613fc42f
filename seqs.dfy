/**
 * Order-preserving filtering of a sequence, the shape shared by the question
 * loader (a loop that appends what parses) and the question search (a list
 * comprehension with a condition).
 */
module Seqs {
  import opened Wrappers

  /** Visit `xs` left to right and collect every value `f` produces. */
  function FilterMap<T, U>(f: T -> Option<U>, xs: seq<T>): seq<U> {
    if xs == [] then []
    else
      var rest := FilterMap(f, xs[..|xs| - 1]);
      match f(xs[|xs| - 1])
      case Some(y) => rest + [y]
      case None => rest
  }

  /** Filtering never lengthens a sequence. */
  lemma {:induction false} FilterMapShorter<T, U>(f: T -> Option<U>, xs: seq<T>)
    ensures |FilterMap(f, xs)| <= |xs|
  {
    if xs != [] {
      FilterMapShorter(f, xs[..|xs| - 1]);
    }
  }

  /** The positions of `xs` at which `f` produces a value, in increasing order. */
  ghost function Kept<T, U>(f: T -> Option<U>, xs: seq<T>): seq<nat> {
    if xs == [] then []
    else
      var rest := Kept(f, xs[..|xs| - 1]);
      if f(xs[|xs| - 1]).Some? then rest + [|xs| - 1] else rest
  }

  /** The j-th kept value is what `f` produces at the j-th kept position; the
      kept positions increase; and every position where `f` produces a value
      is kept. Together: the result is the produced values in input order. */
  lemma {:induction false} FilterMapSelects<T, U>(f: T -> Option<U>, xs: seq<T>)
    ensures |FilterMap(f, xs)| == |Kept(f, xs)|
    ensures forall j :: 0 <= j < |Kept(f, xs)| ==>
              Kept(f, xs)[j] < |xs| && f(xs[Kept(f, xs)[j]]) == Some(FilterMap(f, xs)[j])
    ensures forall j, j' :: 0 <= j < j' < |Kept(f, xs)| ==> Kept(f, xs)[j] < Kept(f, xs)[j']
    ensures forall i :: 0 <= i < |xs| && f(xs[i]).Some? ==> i in Kept(f, xs)
  {
    if xs != [] {
      var front := xs[..|xs| - 1];
      FilterMapSelects(f, front);
      assert forall i :: 0 <= i < |front| ==> front[i] == xs[i];
    }
  }

  /** Filtering one element. */
  lemma FilterMapSingle<T, U>(f: T -> Option<U>, x: T)
    ensures FilterMap(f, [x]) == if f(x).Some? then [f(x).value] else []
  {
    assert [x][..0] == [];
  }

  /** Filtering distributes over concatenation. */
  lemma {:induction false} FilterMapAppend<T, U>(f: T -> Option<U>, a: seq<T>, b: seq<T>)
    ensures FilterMap(f, a + b) == FilterMap(f, a) + FilterMap(f, b)
    decreases |b|
  {
    if b == [] {
      assert a + b == a;
    } else {
      var b' := b[..|b| - 1];
      FilterMapAppend(f, a, b');
      assert (a + b)[..|a + b| - 1] == a + b';
      assert (a + b)[|a + b| - 1] == b[|b| - 1];
    }
  }

  /** Deleting an element that `f` rejects does not change the result. */
  lemma FilterMapSkipsRejected<T, U>(f: T -> Option<U>, xs: seq<T>, i: nat)
    requires i < |xs| && f(xs[i]).None?
    ensures FilterMap(f, xs[..i] + xs[i + 1..]) == FilterMap(f, xs)
  {
    var pre, rejected, post := xs[..i], [xs[i]], xs[i + 1..];
    assert xs == pre + rejected + post;
    assert rejected[..0] == [];
    FilterMapAppend(f, pre + rejected, post);
    FilterMapAppend(f, pre, rejected);
    FilterMapAppend(f, pre, post);
  }

  /** Whatever `f` rejects everywhere yields nothing. */
  lemma {:induction false} FilterMapNone<T, U>(f: T -> Option<U>, xs: seq<T>)
    requires forall i :: 0 <= i < |xs| ==> f(xs[i]).None?
    ensures FilterMap(f, xs) == []
  {
    if xs != [] {
      var front := xs[..|xs| - 1];
      assert forall i :: 0 <= i < |front| ==> front[i] == xs[i];
      FilterMapNone(f, front);
    }
  }

  /** Two filters that agree on every element give the same result. */
  lemma {:induction false} FilterMapAgree<T, U>(f: T -> Option<U>, g: T -> Option<U>, xs: seq<T>)
    requires forall i :: 0 <= i < |xs| ==> f(xs[i]) == g(xs[i])
    ensures FilterMap(f, xs) == FilterMap(g, xs)
  {
    if xs != [] {
      var front := xs[..|xs| - 1];
      assert forall i :: 0 <= i < |front| ==> front[i] == xs[i];
      FilterMapAgree(f, g, front);
    }
  }
}
