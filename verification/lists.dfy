/**
 * Concatenated per-item output, and what it means for a loop to have produced
 * the output of a prefix of its items.
 */
module Lists {

  /** The outputs of `f` on the items of `xs`, concatenated in order. */
  function FlatMap<A, B>(f: A -> seq<B>, xs: seq<A>): seq<B> {
    if xs == [] then [] else f(xs[0]) + FlatMap(f, xs[1..])
  }

  lemma {:induction false} FlatMapAppend<A, B>(f: A -> seq<B>, a: seq<A>, b: seq<A>)
    ensures FlatMap(f, a + b) == FlatMap(f, a) + FlatMap(f, b)
  {
    if a != [] {
      assert (a + b)[0] == a[0];
      assert (a + b)[1..] == a[1..] + b;
      FlatMapAppend(f, a[1..], b);
    } else {
      assert a + b == b;
    }
  }

  lemma FlatMapSingle<A, B>(f: A -> seq<B>, x: A)
    ensures FlatMap(f, [x]) == f(x)
  {
    assert [x][1..] == [];
  }

  lemma {:induction false} FlatMapMembers<A, B>(f: A -> seq<B>, xs: seq<A>, y: B)
    ensures y in FlatMap(f, xs) <==> exists i :: 0 <= i < |xs| && y in f(xs[i])
  {
    if xs != [] {
      FlatMapMembers(f, xs[1..], y);
      if y in FlatMap(f, xs[1..]) {
        var i :| 0 <= i < |xs[1..]| && y in f(xs[1..][i]);
        assert y in f(xs[i + 1]);
      }
      forall i | 1 <= i < |xs| && y in f(xs[i]) ensures y in FlatMap(f, xs[1..]) {
        assert xs[1..][i - 1] == xs[i];
      }
    }
  }

  /** Going from `before` to `after`, exactly the outputs of the first `k` items of
      `xs` were appended. */
  ghost predicate Covered<A, B>(f: A -> seq<B>, xs: seq<A>, before: seq<B>, after: seq<B>, k: int) {
    0 <= k <= |xs| && after == before + FlatMap(f, xs[..k])
  }

  lemma CoveredNothing<A, B>(f: A -> seq<B>, xs: seq<A>, l: seq<B>)
    ensures Covered(f, xs, l, l, 0)
  {
    assert xs[..0] == [];
  }

  lemma CoveredAll<A, B>(f: A -> seq<B>, xs: seq<A>, before: seq<B>, after: seq<B>)
    requires Covered(f, xs, before, after, |xs|)
    ensures after == before + FlatMap(f, xs)
  {
    assert xs[..|xs|] == xs;
  }

  /** One item handled in front of a covered run. */
  lemma CoveredCons<A, B>(f: A -> seq<B>, x: A, xs: seq<A>, l0: seq<B>, l1: seq<B>, l: seq<B>, k: int)
    requires l1 == l0 + f(x)
    requires Covered(f, xs, l1, l, k)
    ensures Covered(f, [x] + xs, l0, l, k + 1)
  {
    assert ([x] + xs)[..k + 1] == [x] + xs[..k];
    FlatMapAppend(f, [x], xs[..k]);
    FlatMapSingle(f, x);
    assert l == l0 + (f(x) + FlatMap(f, xs[..k]));
  }

  /** A covered run over a first part extends to the first part followed by more. */
  lemma CoveredPrefix<A, B>(f: A -> seq<B>, a: seq<A>, b: seq<A>, l0: seq<B>, l: seq<B>, k: int)
    requires Covered(f, a, l0, l, k)
    ensures Covered(f, a + b, l0, l, k)
  {
    assert (a + b)[..k] == a[..k];
  }

  /** A complete run over `a` followed by a run over `b`. */
  lemma CoveredConcat<A, B>(f: A -> seq<B>, a: seq<A>, b: seq<A>, l0: seq<B>, l1: seq<B>, l: seq<B>, k: int)
    requires Covered(f, a, l0, l1, |a|)
    requires Covered(f, b, l1, l, k)
    ensures Covered(f, a + b, l0, l, |a| + k)
  {
    assert a[..|a|] == a;
    assert (a + b)[..|a| + k] == a + b[..k];
    FlatMapAppend(f, a, b[..k]);
    assert l == l0 + (FlatMap(f, a) + FlatMap(f, b[..k]));
  }

  /** The items of `xs` that satisfy `p`, in order. */
  function Filter<A>(p: A -> bool, xs: seq<A>): seq<A> {
    if xs == [] then [] else (if p(xs[0]) then [xs[0]] else []) + Filter(p, xs[1..])
  }

  lemma {:induction false} FilterMembers<A>(p: A -> bool, xs: seq<A>, x: A)
    ensures x in Filter(p, xs) <==> x in xs && p(x)
  {
    if xs != [] {
      FilterMembers(p, xs[1..], x);
      assert xs == [xs[0]] + xs[1..];
    }
  }

  /** Three filters that between them take each item exactly once split the list. */
  lemma {:induction false} FilterPartition<A>(p: A -> bool, q: A -> bool, r: A -> bool, xs: seq<A>)
    requires forall x :: (if p(x) then 1 else 0) + (if q(x) then 1 else 0) + (if r(x) then 1 else 0) == 1
    ensures |Filter(p, xs)| + |Filter(q, xs)| + |Filter(r, xs)| == |xs|
  {
    if xs != [] {
      FilterPartition(p, q, r, xs[1..]);
      assert (if p(xs[0]) then 1 else 0) + (if q(xs[0]) then 1 else 0) + (if r(xs[0]) then 1 else 0) == 1;
    }
  }
}
