/** Finite sums of integer functions over `0..n-1`, with the few laws the counting arguments need. */
module Sums {

  ghost function Sum(n: nat, f: int -> int): int {
    if n == 0 then 0 else Sum(n - 1, f) + f(n - 1)
  }

  lemma {:induction false} SumSame(n: nat, f: int -> int, g: int -> int)
    requires forall i | 0 <= i < n :: f(i) == g(i)
    ensures Sum(n, f) == Sum(n, g)
  {
    if n > 0 {
      SumSame(n - 1, f, g);
    }
  }

  lemma {:induction false} SumLe(n: nat, f: int -> int, g: int -> int)
    requires forall i | 0 <= i < n :: f(i) <= g(i)
    ensures Sum(n, f) <= Sum(n, g)
  {
    if n > 0 {
      SumLe(n - 1, f, g);
    }
  }

  /** Termwise bounded sums that agree, agree term by term. */
  lemma {:induction false} SumLeTight(n: nat, f: int -> int, g: int -> int, k: int)
    requires forall i | 0 <= i < n :: f(i) <= g(i)
    requires Sum(n, f) >= Sum(n, g) && 0 <= k < n
    ensures f(k) == g(k)
  {
    SumLe(n - 1, f, g);
    if k < n - 1 {
      SumLeTight(n - 1, f, g, k);
    }
  }

  lemma {:induction false} SumZero(n: nat, f: int -> int, k: int)
    requires forall i | 0 <= i < n :: f(i) >= 0
    ensures Sum(n, f) >= 0
    ensures Sum(n, f) == 0 && 0 <= k < n ==> f(k) == 0
    ensures (forall i | 0 <= i < n :: f(i) == 0) ==> Sum(n, f) == 0
  {
    if n > 0 {
      SumZero(n - 1, f, k);
    }
  }

  /** Changing one term by `d` changes the sum by `d`. */
  lemma {:induction false} SumBump(n: nat, f: int -> int, g: int -> int, k: int, d: int)
    requires 0 <= k < n && g(k) == f(k) + d
    requires forall i | 0 <= i < n && i != k :: g(i) == f(i)
    ensures Sum(n, g) == Sum(n, f) + d
  {
    if k == n - 1 {
      SumSame(n - 1, f, g);
    } else {
      SumBump(n - 1, f, g, k, d);
    }
  }

  lemma {:induction false} SumPlus(n: nat, f: int -> int, g: int -> int, h: int -> int)
    requires forall i | 0 <= i < n :: h(i) == f(i) + g(i)
    ensures Sum(n, h) == Sum(n, f) + Sum(n, g)
  {
    if n > 0 {
      SumPlus(n - 1, f, g, h);
    }
  }

  lemma {:induction false} SumMinus(n: nat, f: int -> int, g: int -> int, h: int -> int)
    requires forall i | 0 <= i < n :: h(i) == f(i) - g(i)
    ensures Sum(n, h) == Sum(n, f) - Sum(n, g)
  {
    if n > 0 {
      SumMinus(n - 1, f, g, h);
    }
  }

  // ---------- Counting ----------

  ghost function Below(n: nat): (r: set<int>)
    ensures |r| == n && forall x :: x in r <==> 0 <= x < n
  {
    if n == 0 then {} else Below(n - 1) + {n - 1}
  }

  lemma SubsetSizes<T>(a: set<T>, b: set<T>)
    requires a <= b
    ensures |a| <= |b| && (|a| == |b| ==> a == b)
  {
    assert b == a + (b - a);
    assert |b - a| == 0 ==> b - a == {};
  }

  ghost predicate Hits(s: set<int>, f: int -> int, k: int) { exists x :: x in s && f(x) == k }

  lemma Member<T>(s: set<T>) returns (v: T)
    requires s != {}
    ensures v in s
  {
    v :| v in s;
  }

  lemma {:induction false} ImageOf(s: set<int>, f: int -> int) returns (image: set<int>)
    requires forall x, y | x in s && y in s && x != y :: f(x) != f(y)
    ensures |image| == |s| && forall k :: k in image <==> Hits(s, f, k)
    decreases |s|
  {
    if s == {} {
      image := {};
    } else {
      var v := Member(s);
      var rest := ImageOf(s - {v}, f);
      assert !Hits(s - {v}, f, f(v));
      image := rest + {f(v)};
      forall k ensures Hits(s, f, k) <==> Hits(s - {v}, f, k) || k == f(v) {
      }
    }
  }

  /** A one-to-one map from `n` things to the numbers below `n` takes every one of them. */
  lemma OneToOneIsOnto(s: set<int>, f: int -> int, n: nat, k: int) returns (x: int)
    requires |s| == n && 0 <= k < n && forall x | x in s :: 0 <= f(x) < n
    requires forall x, y | x in s && y in s && x != y :: f(x) != f(y)
    ensures x in s && f(x) == k
  {
    var image := ImageOf(s, f);
    forall j | j in image ensures j in Below(n) {
      assert Hits(s, f, j);
    }
    SubsetSizes(image, Below(n));
    assert Hits(s, f, k);
    x :| x in s && f(x) == k;
  }
}
