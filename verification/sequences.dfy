/** Sequences without repeats, and the in-order subsequence relation. */
module Sequences {
  ghost predicate Distinct<T>(s: seq<T>) {
    forall i, j :: 0 <= i < j < |s| ==> s[i] != s[j]
  }

  /** `retain(|x| x != y)`. */
  function Without<T(==, !new)>(s: seq<T>, y: T): (r: seq<T>)
    ensures forall x :: x in r <==> x in s && x != y
  {
    if s == [] then []
    else (if s[0] == y then [] else [s[0]]) + Without(s[1..], y)
  }

  lemma {:induction false} WithoutDistinct<T(!new)>(s: seq<T>, y: T)
    requires Distinct(s)
    ensures Distinct(Without(s, y))
    ensures y in s ==> |Without(s, y)| == |s| - 1
    ensures y !in s ==> Without(s, y) == s
  {
    if s != [] {
      WithoutDistinct(s[1..], y);
      assert s == [s[0]] + s[1..];
      assert s[0] !in s[1..];
    }
  }

  /** A repeat-free list is as long as the set of its elements. */
  lemma {:induction false} DistinctLength<T(!new)>(s: seq<T>, elements: set<T>)
    requires Distinct(s)
    requires forall x :: x in s <==> x in elements
    ensures |s| == |elements|
  {
    if s == [] {
      assert elements == {};
    } else {
      var rest := elements - {s[0]};
      forall x
        ensures x in s[1..] <==> x in rest
      {
        if x in s[1..] {
          assert x in s;
        }
      }
      DistinctLength(s[1..], rest);
    }
  }

  /** `a` can be obtained from `b` by deleting elements. */
  ghost predicate Subsequence<T>(a: seq<T>, b: seq<T>)
    decreases |b|
  {
    if a == [] then true
    else if b == [] then false
    else
      || (a[|a| - 1] == b[|b| - 1] && Subsequence(a[..|a| - 1], b[..|b| - 1]))
      || Subsequence(a, b[..|b| - 1])
  }

  lemma {:induction false} SubsequenceRefl<T>(a: seq<T>)
    ensures Subsequence(a, a)
  {
    if a != [] {
      SubsequenceRefl(a[..|a| - 1]);
    }
  }

  lemma {:induction false} SubsequenceTrans<T>(a: seq<T>, b: seq<T>, c: seq<T>)
    requires Subsequence(a, b) && Subsequence(b, c)
    ensures Subsequence(a, c)
    decreases |c|
  {
    if a != [] {
      var b', c' := b[..|b| - 1], c[..|c| - 1];
      if Subsequence(b, c') {
        SubsequenceTrans(a, b, c');
      } else if Subsequence(a, b') {
        SubsequenceTrans(a, b', c');
      } else {
        SubsequenceTrans(a[..|a| - 1], b', c');
      }
    }
  }

  lemma {:induction false} SubsequenceSuffix<T>(a: seq<T>, n: nat)
    requires n <= |a|
    ensures Subsequence(a[n..], a)
  {
    if n == |a| {
    } else {
      SubsequenceSuffix(a[..|a| - 1], n);
      assert a[n..][..|a| - n - 1] == a[..|a| - 1][n..];
    }
  }

  /** A common prefix does not matter. */
  lemma {:induction false} SubsequencePrepend<T>(p: seq<T>, a: seq<T>, b: seq<T>)
    requires Subsequence(a, b)
    ensures Subsequence(p + a, p + b)
    decreases |b|
  {
    if b == [] {
      SubsequenceRefl(p);
      assert p + a == p && p + b == p;
    } else {
      var b' := b[..|b| - 1];
      assert (p + b)[..|p + b| - 1] == p + b';
      if Subsequence(a, b') {
        SubsequencePrepend(p, a, b');
      } else if a != [] {
        SubsequencePrepend(p, a[..|a| - 1], b');
        assert (p + a)[..|p + a| - 1] == p + a[..|a| - 1];
      }
    }
  }

  lemma SubsequenceSnoc<T>(a: seq<T>, b: seq<T>, x: T)
    requires Subsequence(a, b)
    ensures Subsequence(a, b + [x]) && Subsequence(a + [x], b + [x])
  {
    assert (b + [x])[..|b|] == b;
    assert (a + [x])[..|a|] == a;
  }

  /** Subsequences of two lists, one after the other. */
  lemma {:induction false} SubsequenceConcat<T>(a: seq<T>, b: seq<T>, c: seq<T>, d: seq<T>)
    requires Subsequence(a, b) && Subsequence(c, d)
    ensures Subsequence(a + c, b + d)
    decreases |d|
  {
    if d == [] {
      assert a + c == a && b + d == b;
    } else {
      var d', last := d[..|d| - 1], d[|d| - 1];
      assert b + d == (b + d') + [last];
      if Subsequence(c, d') {
        SubsequenceConcat(a, b, c, d');
        SubsequenceSnoc(a + c, b + d', last);
      } else {
        var c' := c[..|c| - 1];
        SubsequenceConcat(a, b, c', d');
        SubsequenceSnoc(a + c', b + d', last);
        assert a + c == (a + c') + [last];
      }
    }
  }

  /** A subsequence holds no more copies of anything. */
  lemma {:induction false} SubsequenceCopies<T>(a: seq<T>, b: seq<T>, x: T)
    requires Subsequence(a, b)
    ensures multiset(a)[x] <= multiset(b)[x]
    decreases |b|
  {
    if a != [] {
      var a', b' := a[..|a| - 1], b[..|b| - 1];
      assert a == a' + [a[|a| - 1]] && b == b' + [b[|b| - 1]];
      if Subsequence(a, b') {
        SubsequenceCopies(a, b', x);
      } else {
        SubsequenceCopies(a', b', x);
      }
    }
  }
}
