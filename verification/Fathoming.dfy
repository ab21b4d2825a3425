/** The fathoming tests of `branching.cpp`, over the reals.  `maxDouble` stands for "no value yet". */
module Fathoming {
  import opened RealSums

  datatype OptimType = minimization | maximization

  /** The parameters that decide what may be thrown away. */
  datatype Settings = Settings(
    sense: OptimType, maxDouble: real, relTolerance: real, absTolerance: real,
    enumRelTol: real, enumAbsTol: real, enumCutoff: real, usingEnumCutoff: bool, enumCount: int)
  {
    /** The ranges that parameter registration enforces. */
    predicate Ok() {
      && maxDouble > 0.0 && relTolerance >= 0.0 && absTolerance >= 0.0
      && enumRelTol >= -1.0 && enumAbsTol >= -1.0 && enumCount >= 0
    }

    predicate Enumerating() {
      usingEnumCutoff || enumCount > 1 || enumRelTol >= 0.0 || enumAbsTol >= 0.0
    }

    /** The value as if the problem were a minimization. */
    function Signed(x: real): real {
      if sense.minimization? then x else -x
    }
  }

  /** What has been found so far: the incumbent's value and that of the worst solution worth keeping. */
  datatype Progress = Progress(incumbentValue: real, lastSolValue: real)

  function Abs(x: real): real { if x < 0.0 then -x else x }

  function MaxReal(x: real, y: real): real { if x < y then y else x }

  function Denom(x: real, y: real): real { MaxReal(Abs(x), Abs(y)) }

  /** `bound`, in signed form, gains less on `ref` than the tolerances ask for. */
  predicate WithinTolerance(st: Settings, ref: real, bound: real) {
    var gap := ref - bound;
    || gap < st.absTolerance
    || (gap < st.maxDouble && Denom(bound, ref) < st.maxDouble && gap <= Times(st.relTolerance, Denom(bound, ref)))
  }

  /** `bound`, in signed form, loses more than `tol` relative to `ref`. */
  predicate BeyondRelative(tol: real, ref: real, bound: real) {
    ref - bound < -Times(tol, Denom(bound, ref))
  }

  predicate CanFathom(st: Settings, pr: Progress, boundValue: real) {
    var b, inc := st.Signed(boundValue), st.Signed(pr.incumbentValue);
    if st.Enumerating() then
      || (st.usingEnumCutoff && st.Signed(st.enumCutoff) - b <= 0.0)
      || (st.enumAbsTol >= 0.0 && inc - b < -st.enumAbsTol)
      || (st.enumRelTol >= 0.0 && BeyondRelative(st.enumRelTol, inc, b))
      || (st.enumCount > 1 && WithinTolerance(st, st.Signed(pr.lastSolValue), b))
    else
      WithinTolerance(st, inc, b) || Denom(b, inc) == 0.0
  }

  /** `x` is no better than `y`. */
  predicate NoBetter(st: Settings, x: real, y: real) { st.Signed(x) >= st.Signed(y) }

  /** `pr'` is at least as far on as `pr`. */
  predicate Improves(st: Settings, pr: Progress, pr': Progress) {
    && NoBetter(st, pr.incumbentValue, pr'.incumbentValue)
    && NoBetter(st, pr.lastSolValue, pr'.lastSolValue)
  }

  // ---------- Which tolerances make the tests monotone ----------

  /** With such a relative tolerance a better bound may be thrown away while a worse one is kept. */
  predicate Loose(st: Settings) { 1.0 < st.relTolerance < 2.0 && st.absTolerance < st.maxDouble }

  predicate Cut(st: Settings, v: real) { st.usingEnumCutoff && st.Signed(st.enumCutoff) - st.Signed(v) <= 0.0 }

  /** `low * t` is below the cutoff times `s`, if there is one. */
  predicate CutoffAbove(st: Settings, low: real, s: real) {
    st.usingEnumCutoff ==> low < Times(s, st.Signed(st.enumCutoff))
  }

  /** When enumerating, `enumRelTol` spoils the test unless it is off or the other criteria cover for it. */
  predicate RelTrap(st: Settings) {
    1.0 < st.enumRelTol < 2.0 && st.enumAbsTol != 0.0 && CutoffAbove(st, 0.0, 1.0)
  }

  /** So does the count with a loose `relTolerance`, unless the cutoff keeps clear of it. */
  predicate CountTrap(st: Settings) {
    st.enumCount > 1 && Loose(st) && CutoffAbove(st, -st.maxDouble, st.relTolerance)
  }

  predicate LateCountTrap(st: Settings) {
    st.enumCount > 1 && Loose(st) && CutoffAbove(st, -Times(st.relTolerance - 1.0, st.maxDouble), st.relTolerance)
  }

  /** The settings under which no better bound is thrown away while a worse one is kept. */
  predicate Monotone(st: Settings) {
    if st.Enumerating() then !RelTrap(st) && !CountTrap(st) else !Loose(st)
  }

  /** The settings under which nothing thrown away would be kept later. */
  predicate Lasting(st: Settings) {
    if st.Enumerating() then !RelTrap(st) && !LateCountTrap(st) else !Loose(st)
  }

  /** With such an absolute tolerance any worst solution, even none yet, makes all that is worse than zero
      fathomable, and the count covers for `enumRelTol`. */
  predicate CountCovers(st: Settings) { st.enumCount > 1 && st.absTolerance >= st.maxDouble }

  /** Both values of a search start from `maxDouble` and are those of solutions later. */
  predicate InRange(st: Settings, pr: Progress) {
    Abs(pr.incumbentValue) <= st.maxDouble && Abs(pr.lastSolValue) <= st.maxDouble
  }

  ghost predicate FathomsUpward(st: Settings) {
    forall pr, a, b :: InRange(st, pr) && NoBetter(st, b, a) && CanFathom(st, pr, a) ==> CanFathom(st, pr, b)
  }

  ghost predicate FathomsForGood(st: Settings) {
    forall pr, pr', b :: InRange(st, pr) && InRange(st, pr') && Improves(st, pr, pr') && CanFathom(st, pr, b) ==>
      CanFathom(st, pr', b)
  }

  ghost predicate UpwardClosed(st: Settings) {
    forall ref, a, b :: a <= b && WithinTolerance(st, ref, a) ==> WithinTolerance(st, ref, b)
  }

  ghost predicate StableAsReferenceImproves(st: Settings) {
    forall ref, ref', b :: ref' <= ref && WithinTolerance(st, ref, b) ==> WithinTolerance(st, ref', b)
  }

  lemma Scale(t: real, x: real, y: real)
    requires t >= 0.0 && x <= y
    ensures Times(t, x) <= Times(t, y)
  {
  }

  lemma TimesDifference(t: real, x: real, y: real)
    ensures Times(t, x - y) == Times(t, x) - Times(t, y)
  {
  }

  lemma AtMostOnce(t: real, x: real)
    requires t <= 1.0 && x >= 0.0
    ensures Times(t, x) <= x
  {
    assert x - t * x == (1.0 - t) * x;
  }

  lemma AtLeastTwice(t: real, x: real)
    requires t >= 2.0 && x >= 0.0
    ensures x + x <= Times(t, x)
  {
    assert t * x - (x + x) == (t - 2.0) * x;
  }

  lemma Positive(t: real, x: real)
    requires t > 0.0 && x > 0.0
    ensures Times(t, x) > 0.0
  {
  }

  lemma BetweenOnceAndTwice(t: real, x: real)
    requires 1.0 < t < 2.0 && x > 0.0
    ensures x < Times(t, x) < x + x
  {
    Positive(t - 1.0, x);
    Positive(2.0 - t, x);
    assert (t - 1.0) * x == t * x - x && (2.0 - t) * x == x + x - t * x;
  }

  /** Scaling by at most one does not stretch a distance. */
  lemma Shrinks(t: real, x: real, y: real, e: real)
    requires 0.0 <= t <= 1.0 && x - y <= e && e >= 0.0
    ensures Times(t, x) - Times(t, y) <= e
  {
    if x > y {
      TimesDifference(t, x, y);
      AtMostOnce(t, x - y);
    } else {
      Scale(t, x, y);
    }
  }

  /** `t * d` moves no faster than `d` when `t <= 1`, and exceeds any gap when `t >= 2`. */
  lemma ToleranceGrowth(t: real, ref: real, a: real, b: real)
    requires t >= 0.0 && a <= b <= ref
    ensures t <= 1.0 ==> Times(t, Denom(a, ref)) - Times(t, Denom(b, ref)) <= b - a
    ensures t >= 2.0 ==> ref - b <= Times(t, Denom(b, ref))
  {
    if t <= 1.0 {
      Shrinks(t, Denom(a, ref), Denom(b, ref), b - a);
    } else if t >= 2.0 {
      AtLeastTwice(t, Denom(b, ref));
    }
  }

  lemma ReferenceGrowth(t: real, ref: real, ref': real, b: real)
    requires t >= 0.0 && b <= ref' <= ref
    ensures t <= 1.0 ==> Times(t, Denom(b, ref)) - Times(t, Denom(b, ref')) <= ref - ref'
    ensures t >= 2.0 ==> ref' - b <= Times(t, Denom(b, ref'))
  {
    if t <= 1.0 {
      Shrinks(t, Denom(b, ref), Denom(b, ref'), ref - ref');
    } else if t >= 2.0 {
      AtLeastTwice(t, Denom(b, ref'));
    }
  }

  lemma WithinToleranceUpward(st: Settings, ref: real, a: real, b: real)
    requires st.Ok() && !Loose(st)
    requires a <= b && WithinTolerance(st, ref, a)
    ensures WithinTolerance(st, ref, b)
  {
    if ref - b >= st.absTolerance {
      ToleranceGrowth(st.relTolerance, ref, a, b);
    }
  }

  lemma WithinToleranceStable(st: Settings, ref: real, ref': real, b: real)
    requires st.Ok() && !Loose(st)
    requires ref' <= ref && WithinTolerance(st, ref, b)
    ensures WithinTolerance(st, ref', b)
  {
    if ref' - b >= st.absTolerance {
      ReferenceGrowth(st.relTolerance, ref, ref', b);
    }
  }

  lemma FactorPositive(t: real, x: real)
    requires t > 0.0 && Times(t, x) > 0.0
    ensures x > 0.0
  {
    if x <= 0.0 {
      Scale(t, x, 0.0);
    }
  }

  function MinReal(x: real, y: real): real { if x < y then x else y }

  // ---------- Traps ----------

  /** Two values at a given distance that pass the relative test with equality. */
  lemma TrapValues(t: real, gap: real) returns (ref: real, a: real)
    requires 1.0 < t < 2.0 && gap > 0.0
    ensures 0.0 < ref < -a < gap && ref - a == gap && Times(t, -a) == gap && Times(t, ref) == Times(t - 1.0, gap)
  {
    var s := gap / t;
    assert Times(t, s) == gap && s > 0.0;
    BetweenOnceAndTwice(t, s);
    ref, a := gap - s, -s;
    TimesDifference(t, gap, s);
    assert Times(t - 1.0, gap) == Times(t, gap) - gap;
  }

  /** Slightly closer ones fail it; exchanging and negating them changes nothing. */
  lemma TrapSprung(st: Settings, ref: real, a: real, d: real)
    requires st.Ok() && Loose(st) && 0.0 < ref < -a && ref - a == Times(st.relTolerance, -a) < st.maxDouble
    requires 0.0 < d <= -a - ref && d <= ref - a - st.absTolerance
    ensures WithinTolerance(st, ref, a) && !WithinTolerance(st, ref, a + d)
    ensures WithinTolerance(st, -a, -ref) && !WithinTolerance(st, -(a + d), -ref)
  {
    var t := st.relTolerance;
    TimesDifference(t, -a, d);
    BetweenOnceAndTwice(t, d);
    assert Denom(a, ref) == -a && Denom(a + d, ref) == -a - d;
  }

  /** The same for the relative criterion of enumeration, as close to zero as one likes. */
  lemma RelativeTrap(t: real, b: real) returns (s: real)
    requires 1.0 < t < 2.0 && b > 0.0
    ensures 0.0 < s < b && BeyondRelative(t, -s, s) && !BeyondRelative(t, -s, b) && !BeyondRelative(t, -b, s)
  {
    BetweenOnceAndTwice(t, b);
    s := Times(t, b) - b;
    BetweenOnceAndTwice(t, s);
  }

  /** What is beyond a tolerance of more than one is worse than zero and worse than the reference. */
  lemma BeyondIsPositive(t: real, ref: real, b: real)
    requires t >= 1.0 && BeyondRelative(t, ref, b)
    ensures b > 0.0 && b > ref
  {
    assert Times(t, Denom(b, ref)) - Denom(b, ref) == Times(t - 1.0, Denom(b, ref));
    Scale(t - 1.0, 0.0, Denom(b, ref));
    assert Times(t - 1.0, 0.0) == 0.0;
  }

  // ---------- The test against one reference value ----------

  /** The test against a reference value is upward closed in the bound exactly for these tolerances. */
  lemma UpwardClosedExactly(st: Settings)
    requires st.Ok()
    ensures UpwardClosed(st) <==> !Loose(st)
  {
    if !Loose(st) {
      forall ref, a, b | a <= b && WithinTolerance(st, ref, a) ensures WithinTolerance(st, ref, b) {
        WithinToleranceUpward(st, ref, a, b);
      }
    } else {
      var ref, a := TrapValues(st.relTolerance, (st.maxDouble + st.absTolerance) / 2.0);
      var d := MinReal(-a - ref, ref - a - st.absTolerance);
      TrapSprung(st, ref, a, d);
      assert a <= a + d;
    }
  }

  /** The same trap, sprung by a better reference instead of a worse bound. */
  lemma StableExactly(st: Settings)
    requires st.Ok()
    ensures StableAsReferenceImproves(st) <==> !Loose(st)
  {
    if !Loose(st) {
      forall ref, ref', b | ref' <= ref && WithinTolerance(st, ref, b) ensures WithinTolerance(st, ref', b) {
        WithinToleranceStable(st, ref, ref', b);
      }
    } else {
      var ref, a := TrapValues(st.relTolerance, (st.maxDouble + st.absTolerance) / 2.0);
      var d := MinReal(-a - ref, ref - a - st.absTolerance);
      TrapSprung(st, ref, a, d);
      assert -(a + d) <= -a;
    }
  }

  lemma BeyondUpward(t: real, ref: real, a: real, b: real)
    requires t >= 0.0 && (t <= 1.0 || t >= 2.0) && a <= b && BeyondRelative(t, ref, a)
    ensures BeyondRelative(t, ref, b)
  {
    if t >= 2.0 {
      AtLeastTwice(t, Denom(a, ref));
    } else {
      Shrinks(t, Denom(b, ref), Denom(a, ref), b - a);
    }
  }

  lemma BeyondStable(t: real, ref: real, ref': real, b: real)
    requires t >= 0.0 && (t <= 1.0 || t >= 2.0) && ref' <= ref && BeyondRelative(t, ref, b)
    ensures BeyondRelative(t, ref', b)
  {
    if t >= 2.0 {
      AtLeastTwice(t, Denom(b, ref));
    } else {
      Shrinks(t, Denom(b, ref'), Denom(b, ref), ref - ref');
    }
  }

  /** For the relative criterion of enumeration the tolerances that fit are these, in both respects. */
  lemma BeyondExactly(t: real)
    requires t >= 0.0
    ensures (forall ref, a, b :: a <= b && BeyondRelative(t, ref, a) ==> BeyondRelative(t, ref, b))
            <==> t <= 1.0 || t >= 2.0
    ensures (forall ref, ref', b :: ref' <= ref && BeyondRelative(t, ref, b) ==> BeyondRelative(t, ref', b))
            <==> t <= 1.0 || t >= 2.0
  {
    if t <= 1.0 || t >= 2.0 {
      forall ref, a, b | a <= b && BeyondRelative(t, ref, a) ensures BeyondRelative(t, ref, b) {
        BeyondUpward(t, ref, a, b);
      }
      forall ref, ref', b | ref' <= ref && BeyondRelative(t, ref, b) ensures BeyondRelative(t, ref', b) {
        BeyondStable(t, ref, ref', b);
      }
    } else {
      var s := RelativeTrap(t, 1.0);
      assert s <= 1.0 && -1.0 <= -s;
    }
  }

  // ---------- canFathom as a whole ----------

  lemma Unsigned(st: Settings, x: real)
    ensures st.Signed(st.Signed(x)) == x
  {
  }

  /** Beyond the tolerance, and so for all that is worse: it is beyond, or the other criteria settle it. */
  lemma RelativeUpward(st: Settings, ref: real, a: real, b: real)
    requires !RelTrap(st) && st.enumRelTol >= 0.0 && a <= b && BeyondRelative(st.enumRelTol, ref, a)
    ensures BeyondRelative(st.enumRelTol, ref, b) || (st.enumAbsTol >= 0.0 && ref - b < -st.enumAbsTol)
            || Cut(st, st.Signed(b))
  {
    Unsigned(st, b);
    if 1.0 < st.enumRelTol < 2.0 {
      BeyondIsPositive(st.enumRelTol, ref, a);
      assert Times(1.0, st.Signed(st.enumCutoff)) == st.Signed(st.enumCutoff);
    } else {
      BeyondUpward(st.enumRelTol, ref, a, b);
    }
  }

  lemma RelativeStable(st: Settings, ref: real, ref': real, b: real)
    requires !RelTrap(st) && st.enumRelTol >= 0.0 && ref' <= ref && BeyondRelative(st.enumRelTol, ref, b)
    ensures BeyondRelative(st.enumRelTol, ref', b) || (st.enumAbsTol >= 0.0 && ref' - b < -st.enumAbsTol)
            || Cut(st, st.Signed(b))
  {
    Unsigned(st, b);
    if 1.0 < st.enumRelTol < 2.0 {
      BeyondIsPositive(st.enumRelTol, ref, b);
      assert Times(1.0, st.Signed(st.enumCutoff)) == st.Signed(st.enumCutoff);
    } else {
      BeyondStable(st.enumRelTol, ref, ref', b);
    }
  }

  /** A cutoff far enough below zero leaves only bounds that outweigh every gap. */
  lemma CountUpward(st: Settings, ref: real, a: real, b: real)
    requires st.Ok() && st.enumCount > 1 && !CountTrap(st) && a <= b && WithinTolerance(st, ref, a)
    ensures WithinTolerance(st, ref, b) || Cut(st, st.Signed(b))
  {
    Unsigned(st, b);
    if !Loose(st) {
      WithinToleranceUpward(st, ref, a, b);
    } else if b < st.Signed(st.enumCutoff) && ref - b >= st.absTolerance {
      var t, c := st.relTolerance, st.Signed(st.enumCutoff);
      assert Times(t, -c) == -Times(t, c);
      FactorPositive(t, -c);
      Scale(t, -c, Denom(b, ref));
    }
  }

  lemma CountStable(st: Settings, ref: real, ref': real, b: real)
    requires st.Ok() && st.enumCount > 1 && !LateCountTrap(st) && ref' <= ref && WithinTolerance(st, ref, b)
    ensures WithinTolerance(st, ref', b) || Cut(st, st.Signed(b))
  {
    Unsigned(st, b);
    if !Loose(st) {
      WithinToleranceStable(st, ref, ref', b);
    } else if b < st.Signed(st.enumCutoff) && ref' - b >= st.absTolerance {
      FarBelow(st, ref, ref', b, st.Signed(st.enumCutoff));
    }
  }

  lemma FarBelow(st: Settings, ref: real, ref': real, b: real, c: real)
    requires st.Ok() && Loose(st) && ref' <= ref && WithinTolerance(st, ref, b) && ref' - b >= st.absTolerance
    requires b < c && Times(st.relTolerance, c) <= -Times(st.relTolerance - 1.0, st.maxDouble)
    ensures WithinTolerance(st, ref', b)
  {
    var t, p := st.relTolerance, -b;
    BelowCutoff(t, st.maxDouble, b, c);
    if ref' > 0.0 {
      OutweighsGap(t, st.maxDouble, ref, ref', p);
    } else {
      Scale(t, p, Denom(b, ref'));
    }
  }

  lemma BelowCutoff(t: real, m: real, b: real, c: real)
    requires 1.0 < t && m > 0.0 && b < c && Times(t, c) <= -Times(t - 1.0, m)
    ensures b < 0.0 && Times(t - 1.0, m) < Times(t, -b) && -b < Times(t, -b)
  {
    Positive(t - 1.0, m);
    Positive(t, c - b);
    TimesDifference(t, c, b);
    assert Times(t, -b) == -Times(t, b);
    FactorPositive(t, -b);
    Positive(t - 1.0, -b);
    assert Times(t - 1.0, -b) == Times(t, -b) + b;
  }

  lemma GapOf(t: real, ref: real, p: real)
    requires p <= Times(t - 1.0, ref)
    ensures Times(t, p) <= Times(t - 1.0, ref + p)
  {
    assert Times(t - 1.0, ref + p) == Times(t - 1.0, ref) + Times(t - 1.0, p);
    assert Times(t - 1.0, p) == Times(t, p) - p;
  }

  lemma OutweighsGap(t: real, m: real, ref: real, ref': real, p: real)
    requires 1.0 < t < 2.0 && p > 0.0 && 0.0 < ref' <= ref && ref + p < m
    requires Times(t, p) > Times(t - 1.0, m) && ref + p <= Times(t, MaxReal(p, ref))
    ensures p + ref' <= Times(t, MaxReal(p, ref'))
  {
    Scale(t - 1.0, ref + p, m);
    if p <= Times(t - 1.0, ref) {
      GapOf(t, ref, p);
    }
    assert Times(t - 1.0, ref) == Times(t, ref) - ref;
    Scale(t, p, MaxReal(p, ref'));
  }

  /** A worse bound than a fathomable one is fathomable, in every mode. */
  lemma FathomUpward(st: Settings, pr: Progress, a: real, b: real)
    requires st.Ok() && Monotone(st) && NoBetter(st, b, a) && CanFathom(st, pr, a)
    ensures CanFathom(st, pr, b)
  {
    var sa, sb, inc, last := st.Signed(a), st.Signed(b), st.Signed(pr.incumbentValue), st.Signed(pr.lastSolValue);
    Unsigned(st, b);
    if !st.Enumerating() {
      NoTestOfItsOwn(st, inc, sa);
      WithinToleranceUpward(st, inc, sa, sb);
    } else if st.enumRelTol >= 0.0 && BeyondRelative(st.enumRelTol, inc, sa) {
      RelativeUpward(st, inc, sa, sb);
    } else if st.enumCount > 1 && WithinTolerance(st, last, sa) {
      CountUpward(st, last, sa, sb);
    }
  }

  /** The test for a zero denominator accepts nothing that the tolerances do not. */
  lemma NoTestOfItsOwn(st: Settings, inc: real, b: real)
    requires st.Ok()
    ensures Denom(b, inc) == 0.0 ==> WithinTolerance(st, inc, b)
  {
    if Denom(b, inc) == 0.0 {
      assert Times(st.relTolerance, 0.0) == 0.0;
    }
  }

  /** What could be fathomed once can be fathomed ever after, in every mode. */
  lemma FathomStable(st: Settings, pr: Progress, pr': Progress, b: real)
    requires st.Ok() && Lasting(st) && Improves(st, pr, pr') && CanFathom(st, pr, b)
    ensures CanFathom(st, pr', b)
  {
    var sb, inc, last := st.Signed(b), st.Signed(pr.incumbentValue), st.Signed(pr.lastSolValue);
    var inc', last' := st.Signed(pr'.incumbentValue), st.Signed(pr'.lastSolValue);
    Unsigned(st, b);
    if !st.Enumerating() {
      NoTestOfItsOwn(st, inc, sb);
      WithinToleranceStable(st, inc, inc', sb);
    } else if st.enumRelTol >= 0.0 && BeyondRelative(st.enumRelTol, inc, sb) {
      RelativeStable(st, inc, inc', sb);
    } else if st.enumCount > 1 && WithinTolerance(st, last, sb) {
      CountStable(st, last, last', sb);
    }
  }

  /** A value between zero and the cutoff, if there is one, not beyond `enumAbsTol` and at most `limit`. */
  lemma SmallValue(st: Settings, limit: real) returns (b: real)
    requires RelTrap(st) && limit > 0.0
    ensures 0.0 < b <= limit && !Cut(st, st.Signed(b)) && (st.enumAbsTol >= 0.0 ==> b + b <= st.enumAbsTol)
  {
    Unsigned(st, st.enumCutoff);
    assert Times(1.0, st.Signed(st.enumCutoff)) == st.Signed(st.enumCutoff);
    b := if st.enumAbsTol >= 0.0 then MinReal(limit, st.enumAbsTol / 2.0) else limit;
    if st.usingEnumCutoff {
      b := MinReal(b, st.Signed(st.enumCutoff) / 2.0);
    }
    Unsigned(st, b);
  }

  /** A trap before there is a `lastSolId`, which leaves it to the relative criterion alone. */
  lemma RelTrapFails(st: Settings)
    requires st.Ok() && RelTrap(st) && !CountCovers(st)
    ensures !FathomsUpward(st) && !FathomsForGood(st)
  {
    var b := SmallValue(st, if st.enumCount > 1 then st.maxDouble - st.absTolerance else st.maxDouble);
    var s := RelativeTrap(st.enumRelTol, b);
    var last := st.Signed(st.maxDouble);
    var x, y, inc, inc' := st.Signed(s), st.Signed(b), st.Signed(-s), st.Signed(-b);
    assert InRange(st, Progress(inc, last)) && InRange(st, Progress(inc', last));
    assert !CanFathom(st, Progress(inc, last), y) && CanFathom(st, Progress(inc, last), x) && NoBetter(st, y, x);
    assert !CanFathom(st, Progress(inc', last), x) && Improves(st, Progress(inc, last), Progress(inc', last));
  }

  /** A gap that `absTolerance` does not cover, and for which `factor` times the gap clears the cutoff. */
  lemma GapAbove(st: Settings, factor: real) returns (gap: real)
    requires st.Ok() && Loose(st) && factor > 0.0
    requires CutoffAbove(st, -Times(factor, st.maxDouble), st.relTolerance)
    ensures st.absTolerance < gap < st.maxDouble && CutoffAbove(st, -Times(factor, gap), st.relTolerance)
  {
    var low := st.absTolerance;
    if st.usingEnumCutoff {
      var q := -Times(st.relTolerance, st.Signed(st.enumCutoff)) / factor;
      assert Times(factor, q) == -Times(st.relTolerance, st.Signed(st.enumCutoff));
      TimesDifference(factor, st.maxDouble, q);
      FactorPositive(factor, st.maxDouble - q);
      low := MaxReal(low, q);
      gap := (st.maxDouble + low) / 2.0;
      TimesDifference(factor, gap, q);
      Positive(factor, gap - q);
    } else {
      gap := (st.maxDouble + low) / 2.0;
    }
  }

  /** What is `x` times the tolerance above, is below the cutoff. */
  lemma ClearsCutoff(st: Settings, x: real)
    requires st.relTolerance > 0.0 && CutoffAbove(st, Times(st.relTolerance, x), st.relTolerance)
    ensures !Cut(st, st.Signed(x))
  {
    Unsigned(st, x);
    if st.usingEnumCutoff {
      TimesDifference(st.relTolerance, st.Signed(st.enumCutoff), x);
      FactorPositive(st.relTolerance, st.Signed(st.enumCutoff) - x);
    }
  }

  /** Only the cutoff and the count can fathom the incumbent's own value when enumerating. */
  lemma OnlyTheCount(st: Settings, inc: real, last: real)
    requires st.Ok() && st.Enumerating()
    ensures CanFathom(st, Progress(inc, last), inc) <==>
            Cut(st, inc) || (st.enumCount > 1 && WithinTolerance(st, st.Signed(last), st.Signed(inc)))
  {
    if st.enumRelTol >= 0.0 {
      Scale(st.enumRelTol, 0.0, Denom(st.Signed(inc), st.Signed(inc)));
      assert Times(st.enumRelTol, 0.0) == 0.0;
    }
  }

  function RoomFor(st: Settings, ref: real, a: real): real {
    MinReal(MinReal(-a - ref, ref - a - st.absTolerance),
            if st.usingEnumCutoff then (st.Signed(st.enumCutoff) - a) / 2.0 else st.maxDouble)
  }

  lemma CountTrapFails(st: Settings)
    requires st.Ok() && CountTrap(st)
    ensures !FathomsUpward(st)
  {
    assert Times(1.0, st.maxDouble) == st.maxDouble;
    var gap := GapAbove(st, 1.0);
    var ref, a := TrapValues(st.relTolerance, gap);
    assert Times(st.relTolerance, -a) == -Times(st.relTolerance, a) && Times(1.0, gap) == gap;
    ClearsCutoff(st, a);
    var d := RoomFor(st, ref, a);
    TrapSprung(st, ref, a, d);
    var x, y, last := st.Signed(a), st.Signed(a + d), st.Signed(ref);
    OnlyTheCount(st, y, last);
    assert InRange(st, Progress(y, last));
    assert CanFathom(st, Progress(y, last), x) && NoBetter(st, y, x) && !CanFathom(st, Progress(y, last), y);
  }

  lemma LateCountTrapFails(st: Settings)
    requires st.Ok() && LateCountTrap(st)
    ensures !FathomsForGood(st)
  {
    var gap := GapAbove(st, st.relTolerance - 1.0);
    var ref, a := TrapValues(st.relTolerance, gap);
    assert Times(st.relTolerance, -ref) == -Times(st.relTolerance, ref);
    ClearsCutoff(st, -ref);
    var d := MinReal(-a - ref, ref - a - st.absTolerance);
    TrapSprung(st, ref, a, d);
    var x, last, last' := st.Signed(-ref), st.Signed(-a), st.Signed(-(a + d));
    OnlyTheCount(st, x, last);
    OnlyTheCount(st, x, last');
    assert InRange(st, Progress(x, last)) && InRange(st, Progress(x, last'));
    assert Improves(st, Progress(x, last), Progress(x, last'));
  }

  lemma LooseFails(st: Settings)
    requires st.Ok() && !st.Enumerating() && Loose(st)
    ensures !FathomsUpward(st) && !FathomsForGood(st)
  {
    var ref, a := TrapValues(st.relTolerance, (st.maxDouble + st.absTolerance) / 2.0);
    var d := MinReal(-a - ref, ref - a - st.absTolerance);
    TrapSprung(st, ref, a, d);
    NoTestOfItsOwn(st, ref, a + d);
    NoTestOfItsOwn(st, -(a + d), -ref);
    var inc, x, y := st.Signed(ref), st.Signed(a), st.Signed(a + d);
    assert InRange(st, Progress(inc, inc));
    assert CanFathom(st, Progress(inc, inc), x) && NoBetter(st, y, x) && !CanFathom(st, Progress(inc, inc), y);
    var inc0, inc1, z := st.Signed(-a), st.Signed(-(a + d)), st.Signed(-ref);
    assert InRange(st, Progress(inc0, inc0)) && InRange(st, Progress(inc1, inc1));
    assert CanFathom(st, Progress(inc0, inc0), z) && Improves(st, Progress(inc0, inc0), Progress(inc1, inc1));
    assert !CanFathom(st, Progress(inc1, inc1), z);
  }

  /** For instance, with an incumbent of 1 the bound -2 is fathomed and the worse bound -1.5 is not. */
  lemma WorseBoundKept(st: Settings)
    requires st.sense == minimization && st.maxDouble == 1000.0 && !st.Enumerating()
    requires st.relTolerance == 1.5 && st.absTolerance == 0.0
    ensures CanFathom(st, Progress(1.0, 1000.0), -2.0) && !CanFathom(st, Progress(1.0, 1000.0), -1.5)
  {
    assert Times(1.5, 2.0) == 3.0 && Times(1.5, 1.5) == 2.25;
  }

  /** All that is worse than zero is within such a tolerance of any worst solution. */
  lemma AllCovered(st: Settings, pr: Progress, b: real)
    requires st.Ok() && CountCovers(st) && InRange(st, pr) && st.Signed(b) > 0.0
    ensures CanFathom(st, pr, b)
  {
  }

  lemma CoveredUpward(st: Settings, pr: Progress, a: real, b: real)
    requires st.Ok() && CountCovers(st) && InRange(st, pr) && NoBetter(st, b, a) && CanFathom(st, pr, a)
    ensures CanFathom(st, pr, b)
  {
    if !RelTrap(st) {
      FathomUpward(st, pr, a, b);
    } else if BeyondRelative(st.enumRelTol, st.Signed(pr.incumbentValue), st.Signed(a)) {
      BeyondIsPositive(st.enumRelTol, st.Signed(pr.incumbentValue), st.Signed(a));
      AllCovered(st, pr, b);
    } else {
      var off := st.(enumRelTol := -1.0);
      FathomUpward(off, pr, a, b);
    }
  }

  lemma CoveredForGood(st: Settings, pr: Progress, pr': Progress, b: real)
    requires st.Ok() && CountCovers(st) && InRange(st, pr') && Improves(st, pr, pr') && CanFathom(st, pr, b)
    ensures CanFathom(st, pr', b)
  {
    if !RelTrap(st) {
      FathomStable(st, pr, pr', b);
    } else if BeyondRelative(st.enumRelTol, st.Signed(pr.incumbentValue), st.Signed(b)) {
      BeyondIsPositive(st.enumRelTol, st.Signed(pr.incumbentValue), st.Signed(b));
      AllCovered(st, pr', b);
    } else {
      var off := st.(enumRelTol := -1.0);
      FathomStable(off, pr, pr', b);
    }
  }

  /** Whatever the mode and however the criteria are combined: no better bound than a kept one is ever thrown
      away if and only if the settings are `Monotone` or the count covers for them. */
  lemma FathomUpwardExactly(st: Settings)
    requires st.Ok()
    ensures FathomsUpward(st) <==> Monotone(st) || CountCovers(st)
  {
    if CountCovers(st) {
      forall pr, a, b | InRange(st, pr) && NoBetter(st, b, a) && CanFathom(st, pr, a) ensures CanFathom(st, pr, b) {
        CoveredUpward(st, pr, a, b);
      }
    } else if Monotone(st) {
      forall pr, a, b | NoBetter(st, b, a) && CanFathom(st, pr, a) ensures CanFathom(st, pr, b) {
        FathomUpward(st, pr, a, b);
      }
    } else if !st.Enumerating() {
      LooseFails(st);
    } else if RelTrap(st) {
      RelTrapFails(st);
    } else {
      CountTrapFails(st);
    }
  }

  /** Likewise nothing that was thrown away would be kept later if and only if they are `Lasting` or covered for. */
  lemma FathomStableExactly(st: Settings)
    requires st.Ok()
    ensures FathomsForGood(st) <==> Lasting(st) || CountCovers(st)
  {
    if CountCovers(st) {
      forall pr, pr', b | InRange(st, pr') && Improves(st, pr, pr') && CanFathom(st, pr, b)
        ensures CanFathom(st, pr', b)
      {
        CoveredForGood(st, pr, pr', b);
      }
    } else if Lasting(st) {
      forall pr, pr', b | Improves(st, pr, pr') && CanFathom(st, pr, b) ensures CanFathom(st, pr', b) {
        FathomStable(st, pr, pr', b);
      }
    } else if !st.Enumerating() {
      LooseFails(st);
    } else if RelTrap(st) {
      RelTrapFails(st);
    } else {
      LateCountTrapFails(st);
    }
  }

  /** The first is the harder condition to meet. */
  lemma MonotoneIsLasting(st: Settings)
    requires st.Ok() && Monotone(st)
    ensures Lasting(st)
  {
    if st.enumCount > 1 && Loose(st) {
      Scale(st.maxDouble, st.relTolerance - 1.0, 1.0);
      assert Times(st.maxDouble, st.relTolerance - 1.0) == Times(st.relTolerance - 1.0, st.maxDouble);
      assert Times(st.maxDouble, 1.0) == st.maxDouble;
    }
  }

  /** Without enumeration the incumbent makes its own value, and anything worse, fathomable. */
  lemma IncumbentFathomsItself(st: Settings, pr: Progress, v: real)
    requires st.Ok() && !st.Enumerating() && Abs(v) < st.maxDouble
    requires NoBetter(st, v, pr.incumbentValue)
    ensures CanFathom(st, pr, v)
  {
    var inc := st.Signed(pr.incumbentValue);
    if inc == st.Signed(v) {
      Scale(st.relTolerance, 0.0, Denom(inc, inc));
    }
  }

  /** With zero tolerances only values no better than the incumbent are fathomed. */
  lemma ZeroToleranceMeansOptimal(st: Settings, pr: Progress, v: real)
    requires st.Ok() && !st.Enumerating() && st.relTolerance == 0.0 && st.absTolerance == 0.0
    ensures CanFathom(st, pr, v) ==> NoBetter(st, v, pr.incumbentValue)
  {
    assert Times(0.0, Denom(st.Signed(v), st.Signed(pr.incumbentValue))) == 0.0;
  }

  // ---------- fathomValue ----------

  /** The signed value from which on `fathomValue` promises that any bound may be fathomed. */
  function FathomValue(st: Settings, inc: real): real {
    if inc < st.maxDouble then MinReal(inc - st.absTolerance, inc - Times(st.relTolerance, Abs(inc))) else st.maxDouble
  }

  /** The promise fails exactly where the absolute tolerance decides and is met with equality; and the
      other way round, `canFathom` accepts more bounds exactly where the bound outweighs the incumbent. */
  lemma FathomValueExactly(st: Settings, inc: real, b: real)
    requires st.Ok() && Abs(inc) < st.maxDouble && Abs(b) < st.maxDouble && inc - b < st.maxDouble
    ensures var fathoms, gap := WithinTolerance(st, inc, b) || Denom(b, inc) == 0.0, inc - b;
            && (b >= FathomValue(st, inc) && !fathoms <==>
                gap == st.absTolerance && gap > Times(st.relTolerance, Denom(b, inc)) && Denom(b, inc) > 0.0)
            && (b < FathomValue(st, inc) && fathoms <==>
                st.absTolerance < gap && Times(st.relTolerance, Abs(inc)) < gap <= Times(st.relTolerance, Abs(b)))
  {
    Scale(st.relTolerance, Abs(inc), Denom(b, inc));
    Scale(st.relTolerance, Abs(b), Denom(b, inc));
    assert Denom(b, inc) == Abs(inc) || Denom(b, inc) == Abs(b);
    ThresholdCases(inc, b, st.absTolerance, Times(st.relTolerance, Abs(inc)), Times(st.relTolerance, Abs(b)),
                   Times(st.relTolerance, Denom(b, inc)), Denom(b, inc));
  }

  lemma ThresholdCases(inc: real, b: real, absTol: real, p: real, r: real, q: real, d: real)
    requires p <= q && r <= q && (q == p || q == r) && d >= 0.0 && absTol >= 0.0 && (d == 0.0 ==> q == 0.0 && inc == b)
    ensures var fathoms, gap, fv := inc - b < absTol || inc - b <= q || d == 0.0, inc - b, MinReal(inc - absTol, inc - p);
            && (b >= fv && !fathoms <==> gap == absTol && gap > q && d > 0.0)
            && (b < fv && fathoms <==> absTol < gap && p < gap <= r)
  {
  }

  /** A bound that `fathomValue` gives up and `canFathom` keeps. */
  lemma FathomValueTooEager(st: Settings)
    requires st.relTolerance == 0.0 && st.absTolerance == 1.0 && st.maxDouble == 1000.0
    ensures 4.0 >= FathomValue(st, 5.0) && !(WithinTolerance(st, 5.0, 4.0) || Denom(4.0, 5.0) == 0.0)
  {
    assert Times(st.relTolerance, Denom(4.0, 5.0)) == 0.0;
  }

  /** When enumerating with a relative tolerance the two differ exactly on the bounds that outweigh the
      incumbent by no more than the tolerance allows. */
  lemma EnumRelFathomValueExactly(t: real, inc: real, b: real)
    requires t >= 0.0
    ensures b > inc + Times(t, Abs(inc)) && !BeyondRelative(t, inc, b) <==>
            Times(t, Abs(inc)) < b - inc <= Times(t, Abs(b))
    ensures BeyondRelative(t, inc, b) ==> b > inc + Times(t, Abs(inc))
  {
    Scale(t, Abs(inc), Denom(b, inc));
  }
}
