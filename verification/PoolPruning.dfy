/** The subproblem pool: the order of subproblems fits the fathoming test, so pruning the leaves of the
    heap is enough. */
module PoolPruning {
  import opened Fathoming
  import opened RealSums
  import opened BinaryHeap

  /** What `coreSPInfo` compares. */
  datatype SPInfo = SPInfo(bound: real, integralityMeasure: real, depth: int, serial: int, creatingProcessor: int)

  function SgnInt(x: int): int { if x < 0 then -1 else if x > 0 then 1 else 0 }

  function SgnReal(x: real): int { if x < 0.0 then -1 else if x > 0.0 then 1 else 0 }

  /** Better bounds first, ties broken down to the creating processor. */
  function Compare(st: Settings, a: SPInfo, b: SPInfo): int {
    if a.bound != b.bound then SgnReal(st.Signed(a.bound) - st.Signed(b.bound))
    else if a.integralityMeasure != b.integralityMeasure then SgnReal(a.integralityMeasure - b.integralityMeasure)
    else if a.serial != b.serial then SgnInt(a.serial - b.serial)
    else SgnInt(a.creatingProcessor - b.creatingProcessor)
  }

  /** While diving for a first incumbent deeper subproblems come first. */
  function DynamicCompare(st: Settings, diving: bool, integralityDive: bool, a: SPInfo, b: SPInfo): int {
    if diving && integralityDive && a.integralityMeasure != b.integralityMeasure then
      SgnReal(a.integralityMeasure - b.integralityMeasure)
    else if diving && a.depth != b.depth then SgnInt(b.depth - a.depth)
    else Compare(st, a, b)
  }

  function PoolOrder(st: Settings, diving: bool, integralityDive: bool): (SPInfo, SPInfo) -> bool {
    (a: SPInfo, b: SPInfo) => DynamicCompare(st, diving, integralityDive, a, b) < 0
  }

  function FathomTest(st: Settings, pr: Progress): SPInfo -> bool {
    (p: SPInfo) => CanFathom(st, pr, p.bound)
  }

  lemma PoolOrderIsWeakOrder(st: Settings, diving: bool, integralityDive: bool)
    ensures WeakOrder(PoolOrder(st, diving, integralityDive))
  {
  }

  /** What comes out of the pool first: while diving for a first incumbent the deepest subproblem, or on request the one
      nearest to integral; otherwise the one with the best bound, then the one nearest to integral, then the oldest. */
  lemma FirstOut(st: Settings, diving: bool, integralityDive: bool, t: seq<SPInfo>, k: int)
    requires Ordered(PoolOrder(st, diving, integralityDive), t, 1) && 1 <= k <= |t|
    ensures var a, b := Member(t, 1), Member(t, k);
            var byMeasure, sameMeasure := diving && integralityDive, a.integralityMeasure == b.integralityMeasure;
            || (byMeasure && a.integralityMeasure < b.integralityMeasure)
            || ((byMeasure ==> sameMeasure) && diving && a.depth > b.depth)
            || ((byMeasure ==> sameMeasure) && (diving ==> a.depth == b.depth)
                && (|| st.Signed(a.bound) < st.Signed(b.bound)
                    || (a.bound == b.bound
                        && (|| a.integralityMeasure < b.integralityMeasure
                            || (sameMeasure && (a.serial < b.serial
                                || (a.serial == b.serial && a.creatingProcessor <= b.creatingProcessor)))))))
  {
    PoolOrderIsWeakOrder(st, diving, integralityDive);
    TopIsBest(PoolOrder(st, diving, integralityDive), t, k);
  }

  /** No better bound than a kept one is thrown away. */
  predicate FathomsInOrder(st: Settings, pr: Progress) { Monotone(st) || (CountCovers(st) && InRange(st, pr)) }

  /** Without diving, no better in the pool's order means no better bound. */
  lemma FathomTestFitsOrder(st: Settings, pr: Progress)
    requires st.Ok() && FathomsInOrder(st, pr)
    ensures BinaryHeap.UpwardClosed(PoolOrder(st, false, false), FathomTest(st, pr))
  {
    var better, fathom := PoolOrder(st, false, false), FathomTest(st, pr);
    forall x, y | fathom(x) && !better(y, x) ensures fathom(y) {
      if Monotone(st) {
        FathomUpward(st, pr, x.bound, y.bound);
      } else {
        CoveredUpward(st, pr, x.bound, y.bound);
      }
    }
  }

  /** It does for all values that a search can have under these settings only. */
  lemma FathomTestFitsExactly(st: Settings)
    requires st.Ok()
    ensures (forall pr | InRange(st, pr) :: BinaryHeap.UpwardClosed(PoolOrder(st, false, false), FathomTest(st, pr)))
            <==> Monotone(st) || CountCovers(st)
  {
    var better := PoolOrder(st, false, false);
    FathomUpwardExactly(st);
    if Monotone(st) || CountCovers(st) {
      forall pr | InRange(st, pr) ensures BinaryHeap.UpwardClosed(better, FathomTest(st, pr)) {
        var fathom := FathomTest(st, pr);
        forall x, y | fathom(x) && !better(y, x) ensures fathom(y) {
          assert NoBetter(st, y.bound, x.bound) && CanFathom(st, pr, x.bound);
        }
      }
    } else {
      var pr, a, b :| InRange(st, pr) && NoBetter(st, b, a) && CanFathom(st, pr, a) && !CanFathom(st, pr, b);
      var x, y := SPInfo(a, 0.0, 0, 0, 0), SPInfo(b, 0.0, 0, 0, 0);
      assert FathomTest(st, pr)(x) && !FathomTest(st, pr)(y) && !better(y, x);
    }
  }

  /** While diving the order ignores bounds, and a fathomable item may have leaves that are not. */
  lemma DivingOrderDoesNotFit(st: Settings) returns (x: SPInfo, y: SPInfo, pr: Progress)
    requires st.Ok() && !st.Enumerating() && st.sense == minimization && st.maxDouble > 10.0
    requires st.relTolerance == 0.0 && st.absTolerance == 0.0
    ensures FathomTest(st, pr)(x) && !PoolOrder(st, true, false)(y, x) && !FathomTest(st, pr)(y)
  {
    x, y, pr := SPInfo(6.0, 0.0, 2, 1, 0), SPInfo(4.0, 0.0, 1, 2, 0), Progress(5.0, st.maxDouble);
    assert Times(0.0, Denom(6.0, 5.0)) == 0.0 && Times(0.0, Denom(4.0, 5.0)) == 0.0;
  }

  /** `heapPool::prune`.  On the first prune after an initial dive the array may be in no order at all:
      the dive's order ended with the first incumbent.  In either case what is left is exactly what
      cannot be fathomed. */
  method PrunePool(pool: Heap<SPInfo>, st: Settings, pr: Progress, initialDive: bool, firstPrune: bool)
    returns (size: nat)
    requires st.Ok() && FathomsInOrder(st, pr)
    requires !(initialDive && firstPrune) ==> pool.Valid() && pool.better == PoolOrder(st, false, false)
    modifies pool
    ensures pool.Valid() && pool.better == PoolOrder(st, false, false) && size == |pool.tree|
    ensures forall x :: multiset(pool.tree)[x] == if CanFathom(st, pr, x.bound) then 0 else multiset(old(pool.tree))[x]
  {
    PoolOrderIsWeakOrder(st, false, false);
    FathomTestFitsOrder(st, pr);
    size := pool.Prune(FathomTest(st, pr), initialDive && firstPrune, PoolOrder(st, false, false));
  }
}
