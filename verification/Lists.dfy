/** Lists without repeats. */
module Lists {
  predicate Distinct<T(==)>(s: seq<T>) { forall i, j :: 0 <= i < j < |s| ==> s[i] != s[j] }

  lemma {:induction false} CountIs<T>(s: seq<T>, x: T)
    requires Distinct(s)
    ensures multiset(s)[x] == if x in s then 1 else 0
    decreases |s|
  {
    if s != [] {
      CountIs(s[1..], x);
      assert s == [s[0]] + s[1..];
      assert s[0] !in s[1..];
    }
  }

  lemma SameElements<T>(a: seq<T>, b: seq<T>)
    requires Distinct(a) && Distinct(b) && forall x :: x in a <==> x in b
    ensures multiset(a) == multiset(b)
  {
    forall x: T
      ensures multiset(a)[x] == multiset(b)[x]
    {
      CountIs(a, x);
      CountIs(b, x);
    }
  }

  /** A rearrangement of a list without repeats has none, and the same elements. */
  lemma Rearranged<T>(s: seq<T>, r: seq<T>)
    requires Distinct(s) && multiset(r) == multiset(s)
    ensures Distinct(r) && |r| == |s| && forall x :: x in r <==> x in s
  {
    forall x: T
      ensures x in r <==> x in s
    {
      assert x in multiset(r) <==> x in multiset(s);
    }
    if i, j :| 0 <= i < j < |r| && r[i] == r[j] {
      assert multiset(r[..j])[r[i]] >= 1 by { assert r[..j][i] == r[i]; }
      assert r == r[..j] + [r[j]] + r[j + 1..];
      assert multiset(s)[r[i]] >= 2;
      CountIs(s, r[i]);
    }
    assert |multiset(r)| == |multiset(s)|;
  }

  /** A list without the first occurrence of an element. */
  function RemoveFirst<T(==)>(s: seq<T>, x: T): seq<T> {
    if s == [] then [] else if s[0] == x then s[1..] else [s[0]] + RemoveFirst(s[1..], x)
  }

  /** The loop that finds what RemoveFirst takes out: its index, or the end. */
  method IndexOf<T(==)>(s: seq<T>, x: T) returns (i: nat)
    ensures i <= |s| && (i < |s| ==> s[i] == x) && (i == |s| ==> x !in s)
    ensures RemoveFirst(s, x) == if i < |s| then s[..i] + s[i + 1..] else s
  {
    i := 0;
    while i < |s| && s[i] != x
      invariant 0 <= i <= |s| && x !in s[..i]
      invariant RemoveFirst(s, x) == s[..i] + RemoveFirst(s[i..], x)
    {
      assert s[i..][0] == s[i] && s[i..][1..] == s[i + 1..];
      assert s[..i + 1] == s[..i] + [s[i]];
      i := i + 1;
    }
    assert s == s[..i] + s[i..];
    assert i < |s| ==> s[i..][1..] == s[i + 1..];
  }

  function Without<T>(s: seq<T>, k: nat): seq<T>
    requires k < |s|
  {
    s[..k] + s[k + 1..]
  }

  lemma TakeOut<T>(s: seq<T>, k: nat)
    requires k < |s|
    ensures multiset(s) == multiset(Without(s, k)) + multiset{s[k]}
  {
    assert s == s[..k] + [s[k]] + s[k + 1..];
  }

  lemma SameLeft<T>(a: multiset<T>, b: multiset<T>, x: T)
    requires a + multiset{x} == b + multiset{x}
    ensures a == b
  {
    assert a == (a + multiset{x}) - multiset{x} && b == (b + multiset{x}) - multiset{x};
  }

  function Map<S, T>(f: S -> T, s: seq<S>): (r: seq<T>)
    ensures |r| == |s| && forall i :: 0 <= i < |s| ==> r[i] == f(s[i])
  {
    seq(|s|, i requires 0 <= i < |s| => f(s[i]))
  }

  lemma MapTakeOut<S, T>(f: S -> T, s: seq<S>, k: nat)
    requires k < |s|
    ensures multiset(Map(f, s)) == multiset(Map(f, Without(s, k))) + multiset{f(s[k])}
  {
    TakeOut(Map(f, s), k);
    assert Without(Map(f, s), k) == Map(f, Without(s, k));
  }

  /** Mapping a rearrangement gives a rearrangement. */
  lemma {:induction false} MapRearranged<S, T>(f: S -> T, a: seq<S>, b: seq<S>)
    requires multiset(a) == multiset(b)
    ensures multiset(Map(f, a)) == multiset(Map(f, b))
    decreases |a|
  {
    hide Map, Without;
    if a == [] {
      assert |multiset(b)| == 0;
      assert b == [];
    } else {
      var k := Index(b, a[0], a);
      TakeOut(a, 0);
      TakeOut(b, k);
      SameLeft(multiset(Without(a, 0)), multiset(Without(b, k)), a[0]);
      MapTakeOut(f, a, 0);
      MapTakeOut(f, b, k);
      WithoutShorter(a, 0);
      MapRearranged(f, Without(a, 0), Without(b, k));
    }
  }

  lemma WithoutShorter<T>(s: seq<T>, k: nat)
    requires k < |s|
    ensures |Without(s, k)| == |s| - 1
  {
  }

  lemma Index<T>(b: seq<T>, x: T, a: seq<T>) returns (k: nat)
    requires multiset(a) == multiset(b) && x in a
    ensures k < |b| && b[k] == x
  {
    assert x in multiset(b);
    k :| 0 <= k < |b| && b[k] == x;
  }
}
