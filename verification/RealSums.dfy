/** Finite sums of real functions over `0..n-1`. */
module RealSums {

  function Times(x: real, y: real): real { x * y }

  function RSum(n: nat, f: int -> real): real { if n == 0 then 0.0 else RSum(n - 1, f) + f(n - 1) }

  lemma {:induction false} RSumSame(n: nat, f: int -> real, g: int -> real)
    requires forall i | 0 <= i < n :: f(i) == g(i)
    ensures RSum(n, f) == RSum(n, g)
  {
    if n > 0 {
      RSumSame(n - 1, f, g);
    }
  }

  lemma {:induction false} RSumBump(n: nat, f: int -> real, g: int -> real, k: int, d: real)
    requires 0 <= k < n && g(k) == f(k) + d
    requires forall i | 0 <= i < n && i != k :: g(i) == f(i)
    ensures RSum(n, g) == RSum(n, f) + d
  {
    if k == n - 1 {
      RSumSame(n - 1, f, g);
    } else {
      RSumBump(n - 1, f, g, k, d);
    }
  }

  lemma {:induction false} RSumNotNegative(n: nat, f: int -> real)
    requires forall i | 0 <= i < n :: f(i) >= 0.0
    ensures RSum(n, f) >= 0.0
  {
    if n > 0 {
      RSumNotNegative(n - 1, f);
    }
  }

  lemma {:induction false} RSumLe(n: nat, f: int -> real, g: int -> real)
    requires forall i | 0 <= i < n :: f(i) <= g(i)
    ensures RSum(n, f) <= RSum(n, g)
  {
    if n > 0 {
      RSumLe(n - 1, f, g);
    }
  }

  lemma {:induction false} RSumZero(n: nat, f: int -> real)
    requires forall i | 0 <= i < n :: f(i) == 0.0
    ensures RSum(n, f) == 0.0
  {
    if n > 0 {
      RSumZero(n - 1, f);
    }
  }

  lemma {:induction false} RSumPlus(n: nat, f: int -> real, g: int -> real, h: int -> real)
    requires forall i | 0 <= i < n :: h(i) == f(i) + g(i)
    ensures RSum(n, h) == RSum(n, f) + RSum(n, g)
  {
    if n > 0 {
      RSumPlus(n - 1, f, g, h);
    }
  }

  lemma Spread(a: real, b: real, c: real)
    ensures Times(a, b + c) == Times(a, b) + Times(a, c)
  {
  }

  lemma {:induction false} RSumScaled(n: nat, c: real, f: int -> real, g: int -> real)
    requires forall i | 0 <= i < n :: g(i) == Times(c, f(i))
    ensures RSum(n, g) == Times(c, RSum(n, f))
  {
    if n > 0 {
      RSumScaled(n - 1, c, f, g);
      Spread(c, RSum(n - 1, f), f(n - 1));
    }
  }

  lemma {:induction false} RSumShifted(n: nat, f: int -> real, g: int -> real)
    requires g(0) == 0.0 && forall i | 0 <= i < n :: g(i + 1) == f(i)
    ensures RSum(n + 1, g) == RSum(n, f)
  {
    if n > 0 {
      RSumShifted(n - 1, f, g);
    }
  }
}
