/** The bags of a sequence of containers, thrown together. */
module Pooling {

  ghost function Pooled<C, T>(bag: C -> multiset<T>, t: seq<C>): multiset<T> {
    if t == [] then multiset{} else Pooled(bag, t[..|t| - 1]) + bag(t[|t| - 1])
  }

  lemma PooledPush<C, T>(bag: C -> multiset<T>, t: seq<C>, c: C)
    ensures Pooled(bag, t + [c]) == Pooled(bag, t) + bag(c)
  {
    assert (t + [c])[..|t|] == t;
  }

  lemma SumSwap<T>(a: multiset<T>, b: multiset<T>, c: multiset<T>)
    ensures a + b + c == a + c + b
  {
  }

  ghost function WithoutAt<C>(t: seq<C>, i: nat): (r: seq<C>)
    requires i < |t|
    ensures |r| == |t| - 1 && multiset(r) == multiset(t) - multiset{t[i]}
  {
    assert t == t[..i] + [t[i]] + t[i + 1..];
    t[..i] + t[i + 1..]
  }

  lemma WithoutEarlier<C>(t: seq<C>, i: nat)
    requires i < |t|
    ensures if i == |t| - 1 then WithoutAt(t, i) == t[..|t| - 1]
            else WithoutAt(t, i) == WithoutAt(t[..|t| - 1], i) + [t[|t| - 1]]
  {
  }

  lemma {:induction false} PooledWithout<C, T>(bag: C -> multiset<T>, t: seq<C>, i: nat)
    requires i < |t|
    ensures Pooled(bag, t) == Pooled(bag, WithoutAt(t, i)) + bag(t[i])
  {
    WithoutEarlier(t, i);
    if i < |t| - 1 {
      var less, last := WithoutAt(t[..|t| - 1], i), t[|t| - 1];
      PooledWithout(bag, t[..|t| - 1], i);
      PooledPush(bag, less, last);
      SumSwap(Pooled(bag, less), bag(t[i]), bag(last));
    }
  }

  lemma SomeIndex<C>(u: seq<C>, c: C) returns (i: nat)
    requires c in multiset(u)
    ensures i < |u| && u[i] == c
  {
    i :| 0 <= i < |u| && u[i] == c;
  }

  /** The order does not matter. */
  lemma {:induction false} PooledSame<C, T>(bag: C -> multiset<T>, t: seq<C>, u: seq<C>)
    requires multiset(t) == multiset(u)
    ensures Pooled(bag, t) == Pooled(bag, u)
  {
    if t == [] {
      assert |u| == |multiset(u)| == 0;
    } else {
      var front, last := t[..|t| - 1], t[|t| - 1];
      assert t == front + [last];
      var i := SomeIndex(u, last);
      assert multiset(WithoutAt(u, i)) == multiset(front);
      PooledSame(bag, front, WithoutAt(u, i));
      PooledWithout(bag, u, i);
    }
  }

  lemma {:induction false} PooledFrom<C, T>(bag: C -> multiset<T>, t: seq<C>, x: T) returns (i: nat)
    requires x in Pooled(bag, t)
    ensures i < |t| && x in bag(t[i])
  {
    if x in bag(t[|t| - 1]) {
      i := |t| - 1;
    } else {
      i := PooledFrom(bag, t[..|t| - 1], x);
    }
  }

  /** Putting something more into one of the containers. */
  lemma PooledMore<C, T>(bag: C -> multiset<T>, t: seq<C>, i: nat, c: C, more: multiset<T>)
    requires i < |t| && bag(c) == bag(t[i]) + more
    ensures Pooled(bag, t[i := c]) == Pooled(bag, t) + more
  {
    var u := t[i := c];
    PooledWithout(bag, t, i);
    PooledWithout(bag, u, i);
    assert WithoutAt(u, i) == WithoutAt(t, i);
    SumRegroup(Pooled(bag, WithoutAt(t, i)), bag(t[i]), more);
  }

  lemma SumRegroup<T>(a: multiset<T>, b: multiset<T>, c: multiset<T>)
    ensures a + (b + c) == a + b + c
  {
  }
}
