/** Sums over the members of a bag of reals. */
module BagSums {
  import opened RealSums

  ghost predicate Inhabited(m: multiset<real>) { exists x :: x in m }

  ghost function Less(m: multiset<real>, x: real): (r: multiset<real>)
    requires x in m
    ensures |r| == |m| - 1
  {
    m - multiset{x}
  }

  ghost function Pick(m: multiset<real>): (x: real)
    requires Inhabited(m)
    ensures x in m
  {
    var x :| x in m;
    x
  }

  ghost function BagSum(f: real -> real, m: multiset<real>): real
    decreases |m|
  {
    if Inhabited(m) then f(Pick(m)) + BagSum(f, Less(m, Pick(m))) else 0.0
  }

  lemma LessBoth(m: multiset<real>, x: real, y: real)
    requires x in m && y in m && x != y
    ensures x in Less(m, y) && y in Less(m, x) && Less(Less(m, x), y) == Less(Less(m, y), x)
  {
  }

  /** Which member is taken first does not matter. */
  lemma {:induction false} BagTake(f: real -> real, m: multiset<real>, x: real)
    requires x in m
    ensures BagSum(f, m) == f(x) + BagSum(f, Less(m, x))
    decreases |m|
  {
    assert Inhabited(m);
    var y := Pick(m);
    if x != y {
      LessBoth(m, x, y);
      BagTake(f, Less(m, y), x);
      BagTake(f, Less(m, x), y);
    }
  }

  lemma LessOfSum(m: multiset<real>, x: real)
    ensures Less(m + multiset{x}, x) == m
  {
  }

  lemma BagPut(f: real -> real, m: multiset<real>, x: real)
    ensures BagSum(f, m + multiset{x}) == BagSum(f, m) + f(x)
  {
    BagTake(f, m + multiset{x}, x);
    LessOfSum(m, x);
  }

  lemma LessOfPart(m: multiset<real>, n: multiset<real>, x: real)
    requires x in n
    ensures Less(m + n, x) == m + Less(n, x)
  {
  }

  lemma NothingIn(m: multiset<real>, n: multiset<real>)
    requires !Inhabited(n)
    ensures m + n == m
  {
    assert forall x :: n[x] == 0;
  }

  lemma {:induction false} BagJoin(f: real -> real, m: multiset<real>, n: multiset<real>)
    ensures BagSum(f, m + n) == BagSum(f, m) + BagSum(f, n)
    decreases |n|
  {
    if Inhabited(n) {
      var x := Pick(n);
      BagJoin(f, m, Less(n, x));
      BagTake(f, m + n, x);
      LessOfPart(m, n, x);
    } else {
      NothingIn(m, n);
    }
  }

  lemma {:induction false} BagPlus(f: real -> real, g: real -> real, h: real -> real, m: multiset<real>)
    requires forall x :: h(x) == f(x) + g(x)
    ensures BagSum(h, m) == BagSum(f, m) + BagSum(g, m)
    decreases |m|
  {
    if Inhabited(m) {
      BagPlus(f, g, h, Less(m, Pick(m)));
    }
  }

  ghost function Scaled(c: real, f: real -> real): real -> real { (x: real) => Times(c, f(x)) }

  ghost predicate Additive(s: real -> real) { s(0.0) == 0.0 && forall a, b :: s(a + b) == s(a) + s(b) }

  lemma {:induction false} BagMapped(s: real -> real, f: real -> real, g: real -> real, m: multiset<real>)
    requires Additive(s) && forall x :: g(x) == s(f(x))
    ensures BagSum(g, m) == s(BagSum(f, m))
    decreases |m|
  {
    if Inhabited(m) {
      BagMapped(s, f, g, Less(m, Pick(m)));
    }
  }

  lemma BagScaled(c: real, f: real -> real, m: multiset<real>)
    ensures BagSum(Scaled(c, f), m) == Times(c, BagSum(f, m))
  {
    var s := (y: real) => Times(c, y);
    forall a, b ensures s(a + b) == s(a) + s(b) {
      Spread(c, a, b);
    }
    BagMapped(s, f, Scaled(c, f), m);
  }

  lemma {:induction false} BagSame(f: real -> real, g: real -> real, m: multiset<real>)
    requires forall x :: f(x) == g(x)
    ensures BagSum(f, m) == BagSum(g, m)
    decreases |m|
  {
    if Inhabited(m) {
      BagSame(f, g, Less(m, Pick(m)));
    }
  }

  /** `k` more members with value `x`. */
  function More(m: multiset<real>, x: real, k: nat): multiset<real> { m[x := m[x] + k] }

  lemma OneCopyMore(m: multiset<real>, x: real, k: nat)
    requires k >= 1
    ensures More(m, x, k) == More(m, x, k - 1) + multiset{x}
  {
  }

  ghost function Repeated(k: nat, y: real): real { if k == 0 then 0.0 else Repeated(k - 1, y) + y }

  lemma OneTimeMore(r: real, y: real)
    ensures Times(r + 1.0, y) == Times(r, y) + y
  {
  }

  lemma {:induction false} RepeatedIsProduct(k: nat, y: real)
    ensures Repeated(k, y) == Times(k as real, y)
  {
    if k > 0 {
      RepeatedIsProduct(k - 1, y);
      OneTimeMore((k - 1) as real, y);
      assert k as real == (k - 1) as real + 1.0;
    }
  }

  lemma {:induction false} BagMore(f: real -> real, m: multiset<real>, x: real, k: nat)
    ensures BagSum(f, More(m, x, k)) == BagSum(f, m) + Repeated(k, f(x))
    ensures |More(m, x, k)| == |m| + k
  {
    if k == 0 {
      assert More(m, x, 0) == m;
    } else {
      BagMore(f, m, x, k - 1);
      OneCopyMore(m, x, k);
      BagPut(f, More(m, x, k - 1), x);
    }
  }
}
