/** Sequences that hold the same elements in another order. */
module Permutations {
  lemma SameSize<T>(a: seq<T>, b: seq<T>)
    requires multiset(a) == multiset(b)
    ensures |a| == |b|
  {
    assert |multiset(a)| == |a| && |multiset(b)| == |b|;
  }

  lemma Cancel<T>(x: multiset<T>, y: multiset<T>, e: T)
    requires x + multiset{e} == y + multiset{e}
    ensures x == y
  {
    forall t: T ensures x[t] == y[t] {
      assert (x + multiset{e})[t] == (y + multiset{e})[t];
    }
  }

  function Without<T>(s: seq<T>, k: nat): seq<T>
    requires k < |s|
  {
    s[..k] + s[k + 1..]
  }

  lemma WithoutBag<T>(s: seq<T>, k: nat)
    requires k < |s|
    ensures multiset(Without(s, k)) + multiset{s[k]} == multiset(s)
  {
    assert s == s[..k] + [s[k]] + s[k + 1..];
  }

  lemma SameWithout<T>(a: seq<T>, b: seq<T>, k: nat)
    requires a != [] && multiset(a) == multiset(b) && k < |b| && b[k] == a[0]
    ensures multiset(a[1..]) == multiset(Without(b, k))
  {
    WithoutBag(b, k);
    WithoutBag(a, 0);
    assert Without(a, 0) == a[1..];
    Cancel(multiset(a[1..]), multiset(Without(b, k)), a[0]);
  }

  lemma Find<T>(a: seq<T>, b: seq<T>) returns (k: nat)
    requires a != [] && multiset(a) == multiset(b)
    ensures k < |b| && b[k] == a[0]
  {
    assert a[0] in multiset(b);
    k :| k < |b| && b[k] == a[0];
  }

  /** The results of f over all elements, in order. */
  function Collect<T, U>(s: seq<T>, f: T -> seq<U>): seq<U> {
    if s == [] then [] else f(s[0]) + Collect(s[1..], f)
  }

  lemma {:induction false} CollectSnoc<T, U>(s: seq<T>, x: T, f: T -> seq<U>)
    ensures Collect(s + [x], f) == Collect(s, f) + f(x)
  {
    if s == [] {
      assert [x][1..] == [] && Collect([x], f) == f(x) + Collect([x][1..], f);
    } else {
      assert (s + [x])[1..] == s[1..] + [x];
      CollectSnoc(s[1..], x, f);
    }
  }

  lemma {:induction false} CollectWithout<T, U>(s: seq<T>, k: nat, f: T -> seq<U>)
    requires k < |s|
    ensures multiset(Collect(s, f)) == multiset(f(s[k])) + multiset(Collect(Without(s, k), f))
  {
    var rest := s[1..];
    if k == 0 {
      assert Without(s, 0) == rest;
    } else {
      CollectWithout(rest, k - 1, f);
      assert Without(s, k)[0] == s[0] && Without(s, k)[1..] == Without(rest, k - 1);
    }
  }

  lemma {:induction false} CollectOfPermutation<T, U>(a: seq<T>, b: seq<T>, f: T -> seq<U>)
    requires multiset(a) == multiset(b)
    ensures multiset(Collect(a, f)) == multiset(Collect(b, f))
    decreases |a|
  {
    SameSize(a, b);
    if a != [] {
      var k := Find(a, b);
      SameWithout(a, b, k);
      CollectOfPermutation(a[1..], Without(b, k), f);
      CollectWithout(b, k, f);
    }
  }

  function Total<T>(s: seq<T>, f: T -> real): real {
    if s == [] then 0.0 else f(s[0]) + Total(s[1..], f)
  }

  /** Taking out one element takes its value out of the total. */
  lemma {:induction false} TotalWithout<T>(s: seq<T>, k: nat, f: T -> real)
    requires k < |s|
    ensures Total(s, f) == f(s[k]) + Total(Without(s, k), f)
  {
    var rest := s[1..];
    if k == 0 {
      assert Without(s, 0) == rest;
    } else {
      TotalWithout(rest, k - 1, f);
      assert Without(s, k)[0] == s[0] && Without(s, k)[1..] == Without(rest, k - 1);
    }
  }

  lemma {:induction false} TotalOfPermutation<T>(a: seq<T>, b: seq<T>, f: T -> real)
    requires multiset(a) == multiset(b)
    ensures Total(a, f) == Total(b, f)
    decreases |a|
  {
    SameSize(a, b);
    if a != [] {
      var k := Find(a, b);
      SameWithout(a, b, k);
      TotalOfPermutation(a[1..], Without(b, k), f);
      TotalWithout(b, k, f);
    }
  }
}
