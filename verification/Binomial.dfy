/** Powers and the binomial theorem over the reals. */
module Binomial {
  import opened RealSums

  function Pow(x: real, n: nat): real { if n == 0 then 1.0 else Times(x, Pow(x, n - 1)) }

  function Choose(n: nat, k: nat): nat {
    if k == 0 then 1 else if n == 0 then 0 else Choose(n - 1, k - 1) + Choose(n - 1, k)
  }

  lemma {:induction false} ChooseAbove(n: nat, k: nat)
    requires k > n
    ensures Choose(n, k) == 0
  {
    if n > 0 {
      ChooseAbove(n - 1, k - 1);
      ChooseAbove(n - 1, k);
    }
  }

  lemma PascalStep(a: int, b: int, c: int, n: int, k: int)
    requires b * k == a * (n - k) && a * (k - 1) == c * (n - k + 1)
    ensures (a + b) * k == (c + a) * (n - k + 1)
  {
    assert a * k == a * (k - 1) + a;
    assert a * (n - k + 1) == a * (n - k) + a;
  }

  lemma {:induction false} ChooseStep(n: nat, k: nat)
    requires k >= 1
    ensures Choose(n, k) * k == Choose(n, k - 1) * (n - k + 1)
  {
    if n == 0 {
      ChooseAbove(0, k);
      if k > 1 {
        ChooseAbove(0, k - 1);
      }
    } else {
      ChooseStep(n - 1, k);
      if k == 1 {
        assert Choose(n - 1, 1) * 1 == 1 * (n - 1);
      } else {
        ChooseStep(n - 1, k - 1);
        PascalStep(Choose(n - 1, k - 1), Choose(n - 1, k), Choose(n - 1, k - 2), n, k);
      }
    }
  }

  /** The `p`-th term of the expansion of `(x + y)^d`. */
  function Term(x: real, y: real, d: nat, p: nat): real {
    if p > d then 0.0 else Times(Choose(d, p) as real, Times(Pow(x, d - p), Pow(y, p)))
  }

  function Terms(x: real, y: real, d: nat): int -> real { (p: int) => if p < 0 then 0.0 else Term(x, y, d, p) }

  lemma PullOut(x: real, c: real, px: real, q: real)
    ensures Times(c, Times(Times(x, px), q)) == Times(x, Times(c, Times(px, q)))
  {
  }

  lemma PullOutSecond(y: real, c: real, q: real, py: real)
    ensures Times(c, Times(q, Times(y, py))) == Times(y, Times(c, Times(q, py)))
  {
  }

  lemma AddFactors(a: real, b: real, z: real)
    ensures Times(a + b, z) == Times(a, z) + Times(b, z)
  {
  }

  /** Pascal's rule, for whole terms. */
  lemma TermSplit(x: real, y: real, d: nat, p: nat)
    requires 1 <= p < d
    ensures Term(x, y, d, p) == Times(x, Term(x, y, d - 1, p)) + Times(y, Term(x, y, d - 1, p - 1))
  {
    var c1, c2, px, py := Choose(d - 1, p - 1) as real, Choose(d - 1, p) as real, Pow(x, d - 1 - p), Pow(y, p - 1);
    AddFactors(c1, c2, Times(Times(x, px), Times(y, py)));
    PullOut(x, c2, px, Times(y, py));
    PullOutSecond(y, c1, Times(x, px), py);
  }

  lemma FirstTerm(x: real, y: real, d: nat)
    requires d >= 1
    ensures Term(x, y, d, 0) == Times(x, Term(x, y, d - 1, 0))
  {
    PullOut(x, 1.0, Pow(x, d - 1), 1.0);
  }

  lemma LastTerm(x: real, y: real, d: nat)
    requires d >= 1
    ensures Term(x, y, d, d) == Times(y, Term(x, y, d - 1, d - 1)) && Term(x, y, d - 1, d) == 0.0
  {
    ChooseAbove(d - 1, d);
    PullOutSecond(y, Choose(d, d) as real, 1.0, Pow(y, d - 1));
  }

  ghost function Kept(x: real, y: real, d: nat): int -> real { (p: int) => Times(x, Terms(x, y, d)(p)) }

  ghost function Raised(x: real, y: real, d: nat): int -> real { (p: int) => Times(y, Terms(x, y, d)(p)) }

  ghost function Shifted(x: real, y: real, d: nat): int -> real {
    (p: int) => if p <= 0 then 0.0 else Times(y, Terms(x, y, d)(p - 1))
  }

  lemma Unfold(x: real, y: real, d: nat, p: nat)
    ensures Terms(x, y, d)(p) == Term(x, y, d, p) && Kept(x, y, d)(p) == Times(x, Term(x, y, d, p))
    ensures Shifted(x, y, d)(p) == if p == 0 then 0.0 else Times(y, Term(x, y, d, p - 1))
  {
  }

  lemma TermsSplit(x: real, y: real, d: nat, p: nat)
    requires p <= d && d >= 1
    ensures Terms(x, y, d)(p) == Kept(x, y, d - 1)(p) + Shifted(x, y, d - 1)(p)
  {
    Unfold(x, y, d, p);
    Unfold(x, y, d - 1, p);
    if p == 0 {
      FirstTerm(x, y, d);
    } else if p == d {
      LastTerm(x, y, d);
    } else {
      TermSplit(x, y, d, p);
    }
  }

  lemma SumSplit(x: real, y: real, d: nat)
    requires d >= 1
    ensures RSum(d + 1, Terms(x, y, d))
         == Times(x, RSum(d + 1, Terms(x, y, d - 1))) + Times(y, RSum(d, Terms(x, y, d - 1)))
  {
    var kept, raised, shifted := Kept(x, y, d - 1), Raised(x, y, d - 1), Shifted(x, y, d - 1);
    forall p | 0 <= p < d + 1 ensures Terms(x, y, d)(p) == kept(p) + shifted(p) {
      TermsSplit(x, y, d, p);
    }
    RSumPlus(d + 1, kept, shifted, Terms(x, y, d));
    RSumScaled(d + 1, x, Terms(x, y, d - 1), kept);
    RSumScaled(d, y, Terms(x, y, d - 1), raised);
    RSumShifted(d, raised, shifted);
  }

  lemma {:induction false} BinomialTheorem(x: real, y: real, d: nat)
    ensures RSum(d + 1, Terms(x, y, d)) == Pow(x + y, d)
  {
    if d == 0 {
      assert RSum(1, Terms(x, y, 0)) == RSum(0, Terms(x, y, 0)) + Term(x, y, 0, 0);
    } else {
      BinomialTheorem(x, y, d - 1);
      SumSplit(x, y, d);
      assert RSum(d + 1, Terms(x, y, d - 1)) == RSum(d, Terms(x, y, d - 1));
      AddFactors(x, y, Pow(x + y, d - 1));
    }
  }

  lemma {:induction false} PowOfProduct(x: real, y: real, n: nat)
    ensures Pow(Times(x, y), n) == Times(Pow(x, n), Pow(y, n))
  {
    if n > 0 {
      PowOfProduct(x, y, n - 1);
      FourFactors(x, y, Pow(x, n - 1), Pow(y, n - 1));
    }
  }

  lemma FourFactors(x: real, y: real, px: real, py: real)
    ensures Times(Times(x, y), Times(px, py)) == Times(Times(x, px), Times(y, py))
  {
    assert (x * y) * (px * py) == x * (y * (px * py));
    assert y * (px * py) == px * (y * py);
    assert x * (px * (y * py)) == (x * px) * (y * py);
  }
}
