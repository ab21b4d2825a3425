/** The load of a set of subproblems, kept as power sums of their bounds, as in `loadObject.cpp`. */
module LoadMeasure {
  import opened BagSums
  import opened Binomial
  import opened RealSums

  /** What the load object looks up in the search object. */
  datatype Global = Global(sense: int, loadMeasureDegree: nat, fathomValue: real, maxDouble: real)
  {
    predicate Ok() { (sense == 1 || sense == -1) && loadMeasureDegree >= 1 }

    function Sense(): real { if sense == 1 then 1.0 else -1.0 }

    function Signed(x: real): real { if sense == 1 then x else -x }
  }

  ghost function PowerOf(n: nat): real -> real { (b: real) => Pow(b, n) }

  ghost function PowerSums(n: nat, bag: multiset<real>): (r: seq<real>)
    ensures |r| == n && forall p | 0 <= p < n :: r[p] == BagSum(PowerOf(p + 1), bag)
  {
    seq(n, p requires 0 <= p < n => BagSum(PowerOf(p + 1), bag))
  }

  /** How far each bound is from the value at which it could be thrown away. */
  ghost function Surplus(g: Global): real -> real {
    (b: real) => Pow(Times(g.Sense(), g.fathomValue - b), g.loadMeasureDegree)
  }

  // ---------- The coefficients ----------

  /** The multiplier after `p` rounds. */
  ghost function Coef(g: Global, p: nat): real {
    Times(Pow(g.Sense(), g.loadMeasureDegree), Term(g.fathomValue, -1.0, g.loadMeasureDegree, p))
  }

  lemma FirstCoef(g: Global)
    ensures Coef(g, 0) == Pow(Times(g.Sense(), g.fathomValue), g.loadMeasureDegree)
  {
    PowOfProduct(g.Sense(), g.fathomValue, g.loadMeasureDegree);
    assert Term(g.fathomValue, -1.0, g.loadMeasureDegree, 0) == Pow(g.fathomValue, g.loadMeasureDegree);
  }

  lemma GatherLeft(c: real, k: real, px: real, py: real, x: real)
    ensures Times(Times(c, Times(px, Times(-1.0, py))), Times(x, k)) == -Times(Times(c, k), Times(x, Times(px, py)))
  {
  }

  lemma GatherRight(c: real, e: real, px: real, py: real, x: real)
    ensures Times(Times(c, Times(Times(x, px), py)), -e) == -Times(Times(c, e), Times(x, Times(px, py)))
  {
  }

  lemma ChooseRatio(d: nat, p: nat)
    requires 1 <= p <= d
    ensures Times(Choose(d, p) as real, p as real) == Times(Choose(d, p - 1) as real, -((p - 1 - d) as real))
  {
    ChooseStep(d, p);
    RealProduct(Choose(d, p), p);
    RealProduct(Choose(d, p - 1), d - p + 1);
  }

  lemma RealProduct(a: int, b: int)
    ensures Times(a as real, b as real) == (a * b) as real
  {
  }

  lemma TermRatio(x: real, d: nat, p: nat)
    requires 1 <= p <= d
    ensures Times(Term(x, -1.0, d, p), Times(x, p as real)) == Times(Term(x, -1.0, d, p - 1), (p - 1 - d) as real)
  {
    var px, py, e := Pow(x, d - p), Pow(-1.0, p - 1), -((p - 1 - d) as real);
    ChooseRatio(d, p);
    GatherLeft(Choose(d, p) as real, p as real, px, py, x);
    GatherRight(Choose(d, p - 1) as real, e, px, py, x);
    assert -e == (p - 1 - d) as real;
  }

  lemma DivideBy(a: real, u: real, v: real)
    requires Times(a, u) == v && u != 0.0
    ensures a == v / u
  {
  }

  lemma NotZero(x: real, k: real)
    requires x != 0.0 && k != 0.0
    ensures Times(x, k) != 0.0
  {
  }

  /** Each round multiplies and divides the multiplier into the next coefficient. */
  lemma NextCoef(g: Global, p: nat)
    requires 1 <= p <= g.loadMeasureDegree && g.fathomValue != 0.0
    ensures Times(g.fathomValue, p as real) != 0.0
    ensures Coef(g, p) == Times(Coef(g, p - 1), (p - 1 - g.loadMeasureDegree) as real) / Times(g.fathomValue, p as real)
  {
    var d, x, s := g.loadMeasureDegree, g.fathomValue, Pow(g.Sense(), g.loadMeasureDegree);
    TermRatio(x, d, p);
    NotZero(x, p as real);
    TimesAssociates(s, Term(x, -1.0, d, p), Times(x, p as real));
    TimesAssociates(s, Term(x, -1.0, d, p - 1), (p - 1 - d) as real);
    DivideBy(Coef(g, p), Times(x, p as real), Times(Coef(g, p - 1), (p - 1 - d) as real));
  }

  // ---------- The polynomial ----------

  ghost function PolyTerms(g: Global, b: real): int -> real {
    (p: int) => if p < 0 then 0.0 else Times(Coef(g, p), Pow(b, p))
  }

  ghost function Poly(g: Global, n: nat): real -> real { (b: real) => RSum(n + 1, PolyTerms(g, b)) }

  lemma Reassociate(c: real, px: real, py: real, pb: real)
    ensures Times(c, Times(px, Times(py, pb))) == Times(Times(c, Times(px, py)), pb)
  {
  }

  lemma TermScaled(x: real, b: real, d: nat, p: nat)
    requires p <= d
    ensures Term(x, -b, d, p) == Times(Term(x, -1.0, d, p), Pow(b, p))
  {
    PowOfProduct(-1.0, b, p);
    assert Times(-1.0, b) == -b;
    Reassociate(Choose(d, p) as real, Pow(x, d - p), Pow(-1.0, p), Pow(b, p));
  }

  lemma TimesAssociates(a: real, b: real, c: real)
    ensures Times(Times(a, b), c) == Times(a, Times(b, c))
  {
  }

  lemma PolyTermIs(g: Global, b: real, p: nat)
    requires p <= g.loadMeasureDegree
    ensures PolyTerms(g, b)(p)
         == Times(Pow(g.Sense(), g.loadMeasureDegree), Terms(g.fathomValue, -b, g.loadMeasureDegree)(p))
  {
    var d, x := g.loadMeasureDegree, g.fathomValue;
    TermScaled(x, b, d, p);
    TimesAssociates(Pow(g.Sense(), d), Term(x, -1.0, d, p), Pow(b, p));
  }

  lemma SurplusIsProduct(g: Global, b: real)
    ensures Surplus(g)(b) == Times(Pow(g.Sense(), g.loadMeasureDegree), Pow(g.fathomValue + -b, g.loadMeasureDegree))
  {
    PowOfProduct(g.Sense(), g.fathomValue - b, g.loadMeasureDegree);
    assert g.fathomValue + -b == g.fathomValue - b;
  }

  /** With all its terms the polynomial is the surplus. */
  lemma PolyIsSurplus(g: Global, b: real)
    ensures Poly(g, g.loadMeasureDegree)(b) == Surplus(g)(b)
  {
    var d, x, s := g.loadMeasureDegree, g.fathomValue, Pow(g.Sense(), g.loadMeasureDegree);
    forall p | 0 <= p < d + 1 ensures PolyTerms(g, b)(p) == Times(s, Terms(x, -b, d)(p)) {
      PolyTermIs(g, b, p);
    }
    RSumScaled(d + 1, s, Terms(x, -b, d), PolyTerms(g, b));
    BinomialTheorem(x, -b, d);
    SurplusIsProduct(g, b);
  }

  lemma {:induction false} BagCount(bag: multiset<real>)
    ensures BagSum(PowerOf(0), bag) == |bag| as real
    decreases |bag|
  {
    if Inhabited(bag) {
      BagCount(Less(bag, Pick(bag)));
    } else {
      NothingIn(multiset{}, bag);
      assert bag == multiset{};
    }
  }

  lemma FirstSum(g: Global, bag: multiset<real>)
    ensures BagSum(Poly(g, 0), bag) == Times(Coef(g, 0), |bag| as real)
  {
    forall b ensures Poly(g, 0)(b) == Scaled(Coef(g, 0), PowerOf(0))(b) {
      assert RSum(1, PolyTerms(g, b)) == RSum(0, PolyTerms(g, b)) + PolyTerms(g, b)(0);
    }
    BagSame(Poly(g, 0), Scaled(Coef(g, 0), PowerOf(0)), bag);
    BagScaled(Coef(g, 0), PowerOf(0), bag);
    BagCount(bag);
  }

  lemma NextSum(g: Global, bag: multiset<real>, p: nat)
    requires p >= 1
    ensures BagSum(Poly(g, p), bag) == BagSum(Poly(g, p - 1), bag) + Times(Coef(g, p), BagSum(PowerOf(p), bag))
  {
    var scaled := Scaled(Coef(g, p), PowerOf(p));
    forall b ensures Poly(g, p)(b) == Poly(g, p - 1)(b) + scaled(b) {
      assert RSum(p + 1, PolyTerms(g, b)) == RSum(p, PolyTerms(g, b)) + PolyTerms(g, b)(p);
    }
    BagPlus(Poly(g, p - 1), scaled, Poly(g, p), bag);
    BagScaled(Coef(g, p), PowerOf(p), bag);
  }

  lemma LastSum(g: Global, bag: multiset<real>)
    ensures BagSum(Poly(g, g.loadMeasureDegree), bag) == BagSum(Surplus(g), bag)
  {
    forall b ensures Poly(g, g.loadMeasureDegree)(b) == Surplus(g)(b) {
      PolyIsSurplus(g, b);
    }
    BagSame(Poly(g, g.loadMeasureDegree), Surplus(g), bag);
  }

  // ---------- A fathom value of zero ----------

  predicate Odd(n: nat) { n % 2 == 1 }

  lemma {:induction false} SignOfPower(n: nat)
    ensures Pow(-1.0, n) == if Odd(n) then -1.0 else 1.0
  {
    if n > 0 {
      SignOfPower(n - 1);
    }
  }

  lemma {:induction false} PowerOfOne(n: nat)
    ensures Pow(1.0, n) == 1.0
  {
    if n > 0 {
      PowerOfOne(n - 1);
    }
  }

  lemma {:induction false} PowerIsPositive(b: real, n: nat)
    requires !Odd(n)
    ensures Pow(b, n) >= 0.0 && (n >= 2 ==> (Pow(b, n) == 0.0 <==> b == 0.0))
  {
    if n >= 2 {
      PowerIsPositive(b, n - 2);
      assert Pow(b, n) == Times(b, Times(b, Pow(b, n - 2)));
      SquareTimes(b, Pow(b, n - 2));
      if n == 2 {
        assert Pow(b, 0) == 1.0;
      }
    }
  }

  lemma SquareTimes(b: real, c: real)
    requires c >= 0.0
    ensures Times(b, Times(b, c)) >= 0.0 && (Times(b, Times(b, c)) == 0.0 <==> b == 0.0 || c == 0.0)
  {
    TimesAssociates(b, b, c);
    if b != 0.0 && c != 0.0 {
      SquarePositive(b);
      BothPositive(Times(b, b), c);
    } else if b != 0.0 {
      SquarePositive(b);
    }
  }

  lemma BothPositive(a: real, c: real)
    requires a > 0.0 && c > 0.0
    ensures Times(a, c) > 0.0
  {
  }

  lemma SquarePositive(b: real)
    requires b != 0.0
    ensures Times(b, b) > 0.0
  {
    BothPositive(if b > 0.0 then b else -b, if b > 0.0 then b else -b);
    BothNegated(b);
  }

  lemma BothNegated(b: real)
    ensures Times(-b, -b) == Times(b, b)
  {
  }

  /** An even power sum vanishes only if all bounds do. */
  lemma {:induction false} EvenSumZero(bag: multiset<real>, n: nat)
    requires !Odd(n) && n >= 2
    ensures BagSum(PowerOf(n), bag) >= 0.0
    ensures BagSum(PowerOf(n), bag) == 0.0 <==> forall b | b in bag :: b == 0.0
    decreases |bag|
  {
    if Inhabited(bag) {
      var b := Pick(bag);
      EvenSumZero(Less(bag, b), n);
      PowerIsPositive(b, n);
      assert forall c :: c in bag <==> c == b || c in Less(bag, b);
    }
  }

  ghost function FlipPower(g: Global): real { Pow(Times(g.Sense(), -1.0), g.loadMeasureDegree) }

  lemma OneSurplusAtZero(g: Global, b: real)
    requires g.fathomValue == 0.0
    ensures Surplus(g)(b) == Times(FlipPower(g), Pow(b, g.loadMeasureDegree))
  {
    PowOfProduct(Times(g.Sense(), -1.0), b, g.loadMeasureDegree);
    assert Times(Times(g.Sense(), -1.0), b) == Times(g.Sense(), 0.0 - b);
  }

  /** With a fathom value of zero the surplus is, up to sign, the highest power sum. */
  lemma SurplusAtZero(g: Global, bag: multiset<real>)
    requires g.fathomValue == 0.0
    ensures BagSum(Surplus(g), bag) == Times(FlipPower(g), BagSum(PowerOf(g.loadMeasureDegree), bag))
  {
    var scaled := Scaled(FlipPower(g), PowerOf(g.loadMeasureDegree));
    forall b ensures Surplus(g)(b) == scaled(b) {
      OneSurplusAtZero(g, b);
    }
    BagSame(Surplus(g), scaled, bag);
    BagScaled(FlipPower(g), PowerOf(g.loadMeasureDegree), bag);
  }

  /** What `loadMeasure` returns when the fathom value is zero. */
  ghost function AtZero(g: Global, bag: multiset<real>): real {
    Times(SignAtZero(g), BagSum(PowerOf(g.loadMeasureDegree), bag))
  }

  function SignAtZero(g: Global): real { Times(g.Sense(), if Odd(g.loadMeasureDegree) then -1.0 else 1.0) }

  lemma SignsAtZero(g: Global)
    requires g.Ok()
    ensures g.sense == 1 || Odd(g.loadMeasureDegree) ==> SignAtZero(g) == FlipPower(g)
    ensures g.sense == -1 && !Odd(g.loadMeasureDegree) ==> SignAtZero(g) == -1.0 && FlipPower(g) == 1.0
  {
    SignOfPower(g.loadMeasureDegree);
    PowerOfOne(g.loadMeasureDegree);
    assert Times(1.0, -1.0) == -1.0 && Times(-1.0, -1.0) == 1.0;
  }

  /** It is the surplus, except when maximizing with an even degree and some bound that is not zero. */
  lemma AtZeroExactly(g: Global, bag: multiset<real>)
    requires g.Ok() && g.fathomValue == 0.0
    ensures AtZero(g, bag) == BagSum(Surplus(g), bag) <==>
              g.sense == 1 || Odd(g.loadMeasureDegree) || forall b | b in bag :: b == 0.0
  {
    SurplusAtZero(g, bag);
    SignsAtZero(g);
    if !Odd(g.loadMeasureDegree) {
      EvenSumZero(bag, g.loadMeasureDegree);
    }
  }

  /** For instance with one bound of one and degree two. */
  lemma AtZeroWrongSign(g: Global)
    requires g == Global(-1, 2, 0.0, 1000.0)
    ensures AtZero(g, multiset{1.0}) != BagSum(Surplus(g), multiset{1.0})
  {
    AtZeroExactly(g, multiset{1.0});
    assert 1.0 in multiset{1.0};
  }

  // ---------- The code ----------

  /** `agg` is at least as good as every bound. */
  ghost predicate BoundsAll(g: Global, agg: real, bag: multiset<real>) {
    forall b | b in bag :: g.Signed(agg) <= g.Signed(b)
  }

  /** `agg` is the best of the bounds seen, and the value that means "none" if there are none to speak of. */
  ghost predicate BestSeen(g: Global, agg: real, seen: set<real>) {
    && (forall b | b in seen :: g.Signed(agg) <= g.Signed(b))
    && (agg in seen || agg == g.Signed(g.maxDouble))
  }

  /** What a load knows of the bounds: those in the bag have been seen, and a known bound is the best one seen. */
  ghost predicate KnowsBounds(g: Global, unknown: bool, agg: real, bag: multiset<real>, seen: set<real>) {
    && (!unknown ==> BoundsAll(g, agg, bag) && BestSeen(g, agg, seen))
    && (forall b | b in bag :: b in seen) && (seen == {} ==> agg == g.Signed(g.maxDouble))
  }

  lemma KnowsOneMore(g: Global, unknown: bool, agg: real, bag: multiset<real>, seen: set<real>, bound: real, k: nat,
                     agg': real)
    requires KnowsBounds(g, unknown, agg, bag, seen)
    requires var first := |bag| + k == 0;
             agg' == if !unknown && (first || g.Signed(bound) < g.Signed(agg)) then bound else agg
    ensures KnowsBounds(g, unknown, agg', More(bag, bound, k), (if |bag| + k == 0 then {} else seen) + {bound})
  {
    MoreMembers(bag, bound, k);
    if !unknown {
      BestSeenGrows(g, agg, seen, bound, |bag| + k == 0, agg');
    }
  }

  lemma NothingStale(bag: multiset<real>, seen: set<real>, bound: real, k: nat)
    requires k > 0 && forall b | b in seen :: b in bag
    ensures forall b | b in seen + {bound} :: b in More(bag, bound, k)
  {
    MoreMembers(bag, bound, k);
  }

  lemma BestSeenGrows(g: Global, agg: real, seen: set<real>, bound: real, first: bool, agg': real)
    requires BestSeen(g, agg, seen) && agg' == if first || g.Signed(bound) < g.Signed(agg) then bound else agg
    ensures BestSeen(g, agg', (if first then {} else seen) + {bound})
  {
  }

  lemma MoreMembers(bag: multiset<real>, bound: real, k: nat)
    ensures forall b :: b in More(bag, bound, k) <==> b in bag || (k > 0 && b == bound)
  {
  }

  /** `t` is `s` with the powers of `bound` added `k` times. */
  ghost predicate Bumped(s: seq<real>, t: seq<real>, bound: real, k: nat) {
    |s| == |t| && forall p | 0 <= p < |s| :: t[p] == s[p] + Times(k as real, Pow(bound, p + 1))
  }

  lemma OneMoreSum(n: nat, bag: multiset<real>, bound: real, k: nat)
    ensures BagSum(PowerOf(n), More(bag, bound, k)) == BagSum(PowerOf(n), bag) + Times(k as real, Pow(bound, n))
    ensures |More(bag, bound, k)| == |bag| + k
  {
    BagMore(PowerOf(n), bag, bound, k);
    RepeatedIsProduct(k, Pow(bound, n));
  }

  lemma MoreSums(n: nat, bag: multiset<real>, bound: real, k: nat)
    ensures Bumped(PowerSums(n, bag), PowerSums(n, More(bag, bound, k)), bound, k)
    ensures |More(bag, bound, k)| == |bag| + k
  {
    var s, t := PowerSums(n, bag), PowerSums(n, More(bag, bound, k));
    OneMoreSum(0, bag, bound, k);
    forall p | 0 <= p < n ensures t[p] == s[p] + Times(k as real, Pow(bound, p + 1)) {
      OneMoreSum(p + 1, bag, bound, k);
    }
  }

  lemma BumpIsOneToOne(s: seq<real>, t: seq<real>, s': seq<real>, t': seq<real>, bound: real, k: nat)
    requires Bumped(s, t, bound, k) && Bumped(s', t', bound, k)
    ensures s == s' <==> t == t'
  {
    if t == t' {
      forall p | 0 <= p < |s| ensures s[p] == s'[p] {
        assert t[p] == t'[p];
      }
    }
  }

  lemma FewerSums(n: nat, less: multiset<real>, bag: multiset<real>, bound: real, k: nat, s: seq<real>, t: seq<real>)
    requires bag == More(less, bound, k) && t == PowerSums(n, bag) && Bumped(s, t, bound, k)
    ensures s == PowerSums(n, less) && |less| == |bag| - k
  {
    MoreSums(n, less, bound, k);
    BumpIsOneToOne(s, t, PowerSums(n, less), PowerSums(n, bag), bound, k);
  }

  lemma AllTaken(bag: multiset<real>, bound: real, k: nat)
    requires bag[bound] >= k == |bag|
    ensures bag == More(multiset{}, bound, k)
  {
    var less := bag[bound := bag[bound] - k];
    assert bag == More(less, bound, k);
    MoreSums(0, less, bound, k);
    assert less == multiset{};
  }

  lemma SumsOfNothing(n: nat)
    ensures forall p | 0 <= p < n :: PowerSums(n, multiset{})[p] == 0.0
  {
    assert !Inhabited(multiset{});
  }

  lemma JoinedSums(n: nat, a: multiset<real>, b: multiset<real>)
    ensures forall p | 0 <= p < n :: PowerSums(n, a + b)[p] == PowerSums(n, a)[p] + PowerSums(n, b)[p]
  {
    forall p | 0 <= p < n ensures PowerSums(n, a + b)[p] == PowerSums(n, a)[p] + PowerSums(n, b)[p] {
      BagJoin(PowerOf(p + 1), a, b);
    }
  }

  lemma SumsJoined(n: nat, a: multiset<real>, b: multiset<real>, t: seq<real>)
    requires |t| == n && forall p | 0 <= p < n :: t[p] == PowerSums(n, a)[p] + PowerSums(n, b)[p]
    ensures t == PowerSums(n, a + b)
  {
    JoinedSums(n, a, b);
  }

  lemma OneMoreFactor(k: real, power: real, bound: real)
    ensures Times(Times(k, power), bound) == Times(k, Times(bound, power))
  {
  }

  class LoadObject {
    var pCount: int
    const powerSum: array<real>
    var aggregateBound: real
    var boundUnknown: bool
    /** The bounds of the subproblems counted, each as often as its multiplicity. */
    ghost var bag: multiset<real>
    /** The bounds added since the load was last empty. */
    ghost var seen: set<real>

    /** The sums are those of the bag, and no bound in it is better than a known aggregate bound. */
    ghost predicate Valid(g: Global)
      reads this, powerSum
    {
      && g.Ok() && powerSum.Length == g.loadMeasureDegree && pCount == |bag|
      && powerSum[..] == PowerSums(g.loadMeasureDegree, bag)
      && KnowsBounds(g, boundUnknown, aggregateBound, bag, seen)
    }

    /** Nothing has been taken out without a double since the load was last empty. */
    ghost predicate UpToDate()
      reads this
    {
      forall b | b in seen :: b in bag
    }

    /** A known bound is then the best one there is. */
    lemma BestBoundThere(g: Global)
      requires Valid(g) && UpToDate() && !boundUnknown && exists b :: b in bag && g.Signed(b) < g.maxDouble
      ensures aggregateBound in bag && forall b | b in bag :: g.Signed(aggregateBound) <= g.Signed(b)
    {
    }

    constructor (g: Global)
      requires g.Ok()
      ensures Valid(g) && fresh(powerSum) && bag == multiset{} && seen == {} && !boundUnknown
    {
      pCount := 0;
      powerSum := new real[g.loadMeasureDegree](_ => 0.0);
      aggregateBound := g.Signed(g.maxDouble);
      boundUnknown := false;
      bag, seen := multiset{}, {};
      SumsOfNothing(g.loadMeasureDegree);
    }

    method UpdateAggBound(g: Global, bound: real)
      modifies this`aggregateBound
      ensures aggregateBound ==
                if !boundUnknown && (pCount == 0 || g.Signed(bound) < g.Signed(old(aggregateBound))) then bound
                else old(aggregateBound)
    {
      if !boundUnknown {
        if pCount == 0 || g.Signed(bound) - g.Signed(aggregateBound) < 0.0 {
          aggregateBound := bound;
        }
      }
    }

    method AddProducts(bound: real, multiplicity: nat)
      modifies powerSum
      ensures Bumped(old(powerSum[..]), powerSum[..], bound, multiplicity)
    {
      var product := multiplicity as real;
      var p := 0;
      while p < powerSum.Length
        invariant 0 <= p <= powerSum.Length && product == Times(multiplicity as real, Pow(bound, p))
        invariant forall q | 0 <= q < p ::
                    powerSum[q] == old(powerSum[q]) + Times(multiplicity as real, Pow(bound, q + 1))
        invariant forall q | p <= q < powerSum.Length :: powerSum[q] == old(powerSum[q])
      {
        OneMoreFactor(multiplicity as real, Pow(bound, p), bound);
        product := Times(product, bound);
        powerSum[p] := powerSum[p] + product;
        p := p + 1;
      }
    }

    method SubtractProducts(bound: real, multiplicity: nat)
      modifies powerSum
      ensures Bumped(powerSum[..], old(powerSum[..]), bound, multiplicity)
    {
      var product := multiplicity as real;
      var p := 0;
      while p < powerSum.Length
        invariant 0 <= p <= powerSum.Length && product == Times(multiplicity as real, Pow(bound, p))
        invariant forall q | 0 <= q < p ::
                    old(powerSum[q]) == powerSum[q] + Times(multiplicity as real, Pow(bound, q + 1))
        invariant forall q | p <= q < powerSum.Length :: powerSum[q] == old(powerSum[q])
      {
        OneMoreFactor(multiplicity as real, Pow(bound, p), bound);
        product := Times(product, bound);
        powerSum[p] := powerSum[p] - product;
        p := p + 1;
      }
    }

    method ResetSums()
      modifies powerSum
      ensures forall p | 0 <= p < powerSum.Length :: powerSum[p] == 0.0
    {
      var p := 0;
      while p < powerSum.Length
        invariant 0 <= p <= powerSum.Length && forall q | 0 <= q < p :: powerSum[q] == 0.0
      {
        powerSum[p] := 0.0;
        p := p + 1;
      }
    }

    /** The counts of `addLoad`. */
    method CountMore(g: Global, bound: real, multiplicity: nat)
      requires powerSum.Length == g.loadMeasureDegree && pCount == |bag|
      requires powerSum[..] == PowerSums(g.loadMeasureDegree, bag)
      modifies this`pCount, powerSum
      ensures pCount == |More(bag, bound, multiplicity)| == |bag| + multiplicity
      ensures powerSum[..] == PowerSums(g.loadMeasureDegree, More(bag, bound, multiplicity))
    {
      ghost var sums, more := powerSum[..], More(bag, bound, multiplicity);
      pCount := pCount + multiplicity;
      AddProducts(bound, multiplicity);
      MoreSums(g.loadMeasureDegree, bag, bound, multiplicity);
      BumpIsOneToOne(sums, powerSum[..], PowerSums(g.loadMeasureDegree, bag), PowerSums(g.loadMeasureDegree, more),
                     bound, multiplicity);
    }

    /** `multiplicity` more subproblems with this bound. */
    method AddLoad(g: Global, bound: real, multiplicity: nat)
      requires Valid(g)
      modifies this`pCount, this`aggregateBound, this`bag, this`seen, powerSum
      ensures Valid(g) && bag == More(old(bag), bound, multiplicity)
      ensures seen == (if |bag| == 0 then {} else old(seen)) + {bound}
      ensures old(UpToDate()) && multiplicity > 0 ==> UpToDate()
    {
      ghost var agg, bag0, seen0 := aggregateBound, bag, seen;
      CountMore(g, bound, multiplicity);
      UpdateAggBound(g, bound);
      KnowsOneMore(g, boundUnknown, agg, bag0, seen0, bound, multiplicity, aggregateBound);
      if multiplicity > 0 && UpToDate() {
        NothingStale(bag0, seen0, bound, multiplicity);
      }
      bag := More(bag0, bound, multiplicity);
      seen := (if pCount == 0 then {} else seen0) + {bound};
    }

    /** `multiplicity` fewer subproblems with this bound.  Asking for more than there are is an error.  Otherwise the
        power sums go down by the powers of the bound, whether or not it was ever added; and when nothing is left to
        count they start over. */
    method SubtractLoad(g: Global, bound: real, multiplicity: nat) returns (ok: bool)
      requires Valid(g)
      modifies this`pCount, this`aggregateBound, this`bag, this`seen, powerSum
      ensures ok == (multiplicity <= |old(bag)|)
      ensures ok ==> pCount == |old(bag)| - multiplicity
      ensures ok && old(bag)[bound] >= multiplicity ==> Valid(g) && old(bag) == More(bag, bound, multiplicity)
      ensures ok && multiplicity == |old(bag)| ==>
                Valid(g) && bag == multiset{} && seen == {} && aggregateBound == g.Signed(g.maxDouble)
      ensures ok && multiplicity < |old(bag)| ==>
                && Bumped(powerSum[..], old(powerSum[..]), bound, multiplicity)
                && aggregateBound == old(aggregateBound) && seen == old(seen)
    {
      ghost var bag0 := bag;
      pCount := pCount - multiplicity;
      ok := pCount >= 0;
      if ok {
        if pCount == 0 {
          aggregateBound := g.Signed(g.maxDouble);
          ResetSums();
          SumsOfNothing(g.loadMeasureDegree);
          bag, seen := multiset{}, {};
          if bag0[bound] >= multiplicity {
            AllTaken(bag0, bound, multiplicity);
          }
        } else {
          SubtractProducts(bound, multiplicity);
          if bag0[bound] >= multiplicity {
            bag := bag0[bound := bag0[bound] - multiplicity];
            assert bag0 == More(bag, bound, multiplicity);
            FewerSums(g.loadMeasureDegree, bag, bag0, bound, multiplicity, powerSum[..], old(powerSum[..]));
          }
        }
      }
    }

    method AddSums(other: LoadObject)
      requires powerSum != other.powerSum && powerSum.Length == other.powerSum.Length
      modifies powerSum
      ensures forall p | 0 <= p < powerSum.Length :: powerSum[p] == old(powerSum[p]) + other.powerSum[p]
    {
      var p := 0;
      while p < powerSum.Length
        invariant 0 <= p <= powerSum.Length
        invariant forall q | 0 <= q < p :: powerSum[q] == old(powerSum[q]) + other.powerSum[q]
        invariant forall q | p <= q < powerSum.Length :: powerSum[q] == old(powerSum[q])
      {
        powerSum[p] := powerSum[p] + other.powerSum[p];
        p := p + 1;
      }
    }

    /** Adds in what another object has counted.  The bound stays known unless a part that counts does not know it. */
    method Combine(g: Global, other: LoadObject)
      requires Valid(g) && other.Valid(g) && this != other && powerSum != other.powerSum
      modifies this`pCount, this`aggregateBound, this`boundUnknown, this`bag, this`seen, powerSum
      ensures Valid(g) && bag == old(bag) + other.bag
      ensures |other.bag| == 0 ==> seen == old(seen) && aggregateBound == old(aggregateBound)
      ensures |other.bag| > 0 ==> seen == (if |old(bag)| == 0 then {} else old(seen)) + other.seen
      ensures |other.bag| > 0 && old(UpToDate()) && other.UpToDate() ==> UpToDate()
      ensures boundUnknown ==
                if |other.bag| == 0 then old(boundUnknown) else
                  other.boundUnknown || (|old(bag)| > 0 && old(boundUnknown))
    {
      CombineBounds(g, other);
      if other.pCount > 0 {
        seen := (if pCount == 0 then {} else seen) + other.seen;
      }
      pCount := pCount + other.pCount;
      AddSums(other);
      SumsJoined(g.loadMeasureDegree, bag, other.bag, powerSum[..]);
      bag := bag + other.bag;
    }

    method CombineBounds(g: Global, other: LoadObject)
      requires pCount == |bag| && other.pCount == |other.bag| && this != other
      requires !boundUnknown ==> BoundsAll(g, aggregateBound, bag)
      requires !other.boundUnknown ==> BoundsAll(g, other.aggregateBound, other.bag)
      requires !boundUnknown ==> BestSeen(g, aggregateBound, seen)
      requires !other.boundUnknown ==> BestSeen(g, other.aggregateBound, other.seen)
      modifies this`aggregateBound, this`boundUnknown
      ensures |other.bag| == 0 ==> aggregateBound == old(aggregateBound)
      ensures !boundUnknown && |other.bag| > 0 ==>
                BestSeen(g, aggregateBound, (if |bag| == 0 then {} else seen) + other.seen)
      ensures !boundUnknown ==> BoundsAll(g, aggregateBound, bag + other.bag)
      ensures boundUnknown ==
                if |other.bag| == 0 then old(boundUnknown) else
                  other.boundUnknown || (|bag| > 0 && old(boundUnknown))
    {
      if other.pCount == 0 {
      } else if pCount == 0 {
        boundUnknown := other.boundUnknown;
      } else {
        boundUnknown := boundUnknown || other.boundUnknown;
      }
      if other.pCount > 0 {
        UpdateAggBound(g, other.aggregateBound);
      }
    }

    /** The sum of the surpluses of all subproblems counted, from the power sums alone. */
    method LoadMeasure(g: Global) returns (r: real)
      requires Valid(g)
      ensures pCount == 0 ==> r == 0.0
      ensures pCount > 0 ==>
                r == if g.fathomValue == g.Signed(g.maxDouble) then |bag| as real
                     else if g.fathomValue == 0.0 then AtZero(g, bag)
                     else BagSum(Surplus(g), bag)
    {
      if pCount == 0 {
        return 0.0;
      }
      var bound, degree := g.fathomValue, g.loadMeasureDegree;
      if bound == g.Signed(g.maxDouble) {
        return pCount as real;
      }
      if bound == 0.0 {
        return Times(Times(g.Sense(), if Odd(degree) then -1.0 else 1.0), powerSum[degree - 1]);
      }
      r := SumFromPowers(g, bound, degree);
    }

    method SumFromPowers(g: Global, bound: real, degree: nat) returns (sum: real)
      requires Valid(g) && bound == g.fathomValue && degree == g.loadMeasureDegree && bound != 0.0
      ensures sum == BagSum(Surplus(g), bag)
    {
      var multiplier := 1.0;
      var p := 0;
      while p < degree
        invariant 0 <= p <= degree && multiplier == Pow(Times(g.Sense(), bound), p)
      {
        multiplier := Times(Times(g.Sense(), bound), multiplier);
        p := p + 1;
      }
      FirstCoef(g);
      FirstSum(g, bag);
      sum := Times(multiplier, pCount as real);
      p := 0;
      while p < degree
        invariant 0 <= p <= degree && multiplier == Coef(g, p) && sum == BagSum(Poly(g, p), bag)
      {
        NextCoef(g, p + 1);
        NextSum(g, bag, p + 1);
        multiplier := Times(multiplier, (p - degree) as real);
        p := p + 1;
        multiplier := multiplier / Times(bound, p as real);
        sum := sum + Times(multiplier, powerSum[p - 1]);
      }
      LastSum(g, bag);
    }
  }
}
