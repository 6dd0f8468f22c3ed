/** The array idioms the engines rely on: `[...new Set(xs)]` (duplicates dropped),
    `xs.splice(xs.indexOf(x), 1)` (first occurrence removed), `filter`, and a loop that appends
    what each element contributes. */
module Lists {

  /** `[...new Set(s)]`: the elements of `s` without repeats. The body keeps first occurrences in
      order, as a JavaScript Set does; the contract states membership and the absence of repeats. */
  function Distinct<T(==, !new)>(s: seq<T>): (r: seq<T>)
    ensures forall x :: x in r <==> x in s
    ensures forall i, j | 0 <= i < j < |r| :: r[i] != r[j]
    ensures |r| <= |s|
    decreases |s|
  {
    if s == [] then []
    else
      var init := Distinct(s[..|s| - 1]);
      var last := s[|s| - 1];
      assert forall x :: x in s <==> x in s[..|s| - 1] || x == last;
      if last in init then init else init + [last]
  }

  /** `s.indexOf(x)`: the position of the first occurrence of `x`, or -1. */
  function IndexOf<T(==, !new)>(s: seq<T>, x: T): (i: int)
    ensures -1 <= i < |s|
    ensures i == -1 <==> x !in s
    ensures 0 <= i ==> s[i] == x && x !in s[..i]
    decreases |s|
  {
    if s == [] then -1
    else if s[0] == x then 0
    else
      var j := IndexOf(s[1..], x);
      assert forall y :: y in s <==> y == s[0] || y in s[1..];
      if j == -1 then -1
      else
        assert s[..j + 1] == [s[0]] + s[1..][..j];
        j + 1
  }

  /** `const i = s.indexOf(x); if (i > -1) s.splice(i, 1);` as a value: one occurrence of `x` fewer
      when `x` is present, `s` itself otherwise. */
  function RemoveFirst<T(==, !new)>(s: seq<T>, x: T): (r: seq<T>)
    ensures x in s ==> |r| == |s| - 1 && multiset(r) == multiset(s) - multiset{x}
    ensures x !in s ==> r == s
    ensures forall y :: y in r ==> y in s
  {
    var i := IndexOf(s, x);
    if i > -1 then
      assert s == s[..i] + [s[i]] + s[i + 1..];
      assert multiset(s) == multiset(s[..i]) + multiset{x} + multiset(s[i + 1..]);
      s[..i] + s[i + 1..]
    else s
  }

  /** The occurrence removed is the first: the result is `s` with the position of the first `x` cut out. */
  lemma RemoveFirstCutsFirst<T(!new)>(s: seq<T>, x: T)
    requires x in s
    ensures exists i | 0 <= i < |s| && s[i] == x && x !in s[..i] :: RemoveFirst(s, x) == s[..i] + s[i + 1..]
  {
    var i := IndexOf(s, x);
    assert RemoveFirst(s, x) == s[..i] + s[i + 1..];
  }

  /** The concatenation of `f(x)` for the elements `x` of `xs`, in order: a loop that appends
      what each element contributes. */
  function FlatMap<A, B>(f: A -> seq<B>, xs: seq<A>): seq<B>
    decreases |xs|
  {
    if xs == [] then [] else FlatMap(f, xs[..|xs| - 1]) + f(xs[|xs| - 1])
  }

  /** An element is produced exactly when some element of `xs` contributes it. */
  lemma {:induction false} FlatMapMembership<A, B>(f: A -> seq<B>, xs: seq<A>, y: B)
    ensures y in FlatMap(f, xs) <==> exists i | 0 <= i < |xs| :: y in f(xs[i])
    decreases |xs|
  {
    if xs != [] {
      var init := xs[..|xs| - 1];
      FlatMapMembership(f, init, y);
      if exists i | 0 <= i < |init| :: y in f(init[i]) {
        var i :| 0 <= i < |init| && y in f(init[i]);
        assert xs[i] == init[i];
      }
      if exists i | 0 <= i < |xs| :: y in f(xs[i]) {
        var i :| 0 <= i < |xs| && y in f(xs[i]);
        if i < |init| {
          assert init[i] == xs[i];
        }
      }
    }
  }

  /** One more element of `xs` appends what it contributes: the step of the loop. */
  lemma FlatMapStep<A, B>(f: A -> seq<B>, xs: seq<A>, k: int)
    requires 0 <= k < |xs|
    ensures FlatMap(f, xs[..k + 1]) == FlatMap(f, xs[..k]) + f(xs[k])
  {
    assert xs[..k + 1][..k] == xs[..k];
  }

  /** Before the loop nothing has been appended. */
  lemma FlatMapEmpty<A, B>(f: A -> seq<B>, xs: seq<A>)
    ensures FlatMap(f, xs[..0]) == []
  {
    assert xs[..0] == [];
  }

  /** `xs.filter(p)`: the elements satisfying `p`, in order. */
  function Filter<T(==, !new)>(p: T -> bool, xs: seq<T>): (r: seq<T>)
    ensures forall x :: x in r <==> x in xs && p(x)
    ensures |r| <= |xs|
    decreases |xs|
  {
    if xs == [] then []
    else
      var init := Filter(p, xs[..|xs| - 1]);
      var last := xs[|xs| - 1];
      assert forall x :: x in xs <==> x in xs[..|xs| - 1] || x == last;
      if p(last) then init + [last] else init
  }

  /** When every element `y` that `x` contributes carries the tag `x`, the elements of `xs` are
      distinct and none contributes a repeat, the concatenation has no repeats. */
  lemma {:induction false} FlatMapNoRepeats<A, B>(f: A -> seq<B>, xs: seq<A>, tag: B -> A)
    requires forall i, j | 0 <= i < j < |xs| :: xs[i] != xs[j]
    requires forall i | 0 <= i < |xs| :: forall y | y in f(xs[i]) :: tag(y) == xs[i]
    requires forall i | 0 <= i < |xs| :: forall m, n | 0 <= m < n < |f(xs[i])| :: f(xs[i])[m] != f(xs[i])[n]
    ensures forall m, n | 0 <= m < n < |FlatMap(f, xs)| :: FlatMap(f, xs)[m] != FlatMap(f, xs)[n]
    decreases |xs|
  {
    if xs != [] {
      var init := xs[..|xs| - 1];
      var last := xs[|xs| - 1];
      FlatMapNoRepeats(f, init, tag);
      var front := FlatMap(f, init);
      var r := FlatMap(f, xs);
      assert r == front + f(last);
      forall m, n | 0 <= m < n < |r|
        ensures r[m] != r[n]
      {
        if m < |front| && |front| <= n {
          FlatMapMembership(f, init, r[m]);
          var i :| 0 <= i < |init| && r[m] in f(init[i]);
          assert tag(r[m]) == xs[i];
          assert r[n] == f(last)[n - |front|];
          assert tag(r[n]) == xs[|xs| - 1];
        } else if |front| <= m {
          assert r[m] == f(last)[m - |front|] && r[n] == f(last)[n - |front|];
        }
      }
    }
  }

  /** When the elements of `xs` increase in `rank` and every element `x` contributes only
      elements of key `rank(x)`, the concatenation is ordered by key. */
  lemma {:induction false} FlatMapOrdered<A, B>(f: A -> seq<B>, xs: seq<A>, rank: A -> int, key: B -> int)
    requires forall i, j | 0 <= i < j < |xs| :: rank(xs[i]) < rank(xs[j])
    requires forall i | 0 <= i < |xs| :: forall y | y in f(xs[i]) :: key(y) == rank(xs[i])
    ensures forall m, n | 0 <= m < n < |FlatMap(f, xs)| :: key(FlatMap(f, xs)[m]) <= key(FlatMap(f, xs)[n])
    decreases |xs|
  {
    if xs != [] {
      var init := xs[..|xs| - 1];
      var last := xs[|xs| - 1];
      FlatMapOrdered(f, init, rank, key);
      var front := FlatMap(f, init);
      var r := FlatMap(f, xs);
      assert r == front + f(last);
      forall m, n | 0 <= m < n < |r|
        ensures key(r[m]) <= key(r[n])
      {
        if m < |front| && |front| <= n {
          FlatMapMembership(f, init, r[m]);
          var i :| 0 <= i < |init| && r[m] in f(init[i]);
          assert key(r[m]) == rank(xs[i]);
          assert r[n] == f(last)[n - |front|];
          assert key(r[n]) == rank(xs[|xs| - 1]);
        } else if |front| <= m {
          assert r[m] == f(last)[m - |front|] && r[n] == f(last)[n - |front|];
          assert key(r[m]) == rank(xs[|xs| - 1]);
        }
      }
    }
  }

  /** A list none of whose elements exists is empty. */
  lemma NoElementsEmpty<T>(s: seq<T>)
    requires forall x :: x !in s
    ensures s == []
  {
    forall x
      ensures multiset(s)[x] == 0
    {
      assert x !in s;
    }
    assert multiset(s) == multiset{};
    assert |multiset(s)| == |s|;
  }
}
