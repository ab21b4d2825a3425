/** What the knapsack bound is: the optimum of the fractional relaxation of a subproblem. */
module KnapsackRelaxed {
  import opened Fathoming
  import opened RealSums
  import opened Knapsack

  function WeightPart(inst: Instance, x: seq<real>): int -> real {
    j => if 0 <= j < |inst.item| && j < |x| then Times(x[j], inst.item[j].weight) else 0.0
  }

  function ValuePart(inst: Instance, x: seq<real>): int -> real {
    j => if 0 <= j < |inst.item| && j < |x| then Times(x[j], inst.item[j].value) else 0.0
  }

  /** `x[j]` is how much of item `j` is packed. */
  function RelaxedWeight(inst: Instance, x: seq<real>): real { RSum(|inst.item|, WeightPart(inst, x)) }

  function RelaxedValue(inst: Instance, x: seq<real>): real { RSum(|inst.item|, ValuePart(inst, x)) }

  /** A solution of the relaxed subproblem. */
  predicate Relaxed(inst: Instance, sub: KSub, x: seq<real>) {
    && |x| == |inst.item| && RelaxedWeight(inst, x) <= inst.capacity
    && (forall j | 0 <= j < |x| :: 0.0 <= x[j] <= 1.0)
    && (forall j | j in sub.inList && 0 <= j < |x| :: x[j] == 1.0)
    && (forall j | j in sub.outList && 0 <= j < |x| :: x[j] == 0.0)
  }

  ghost predicate Optimal(inst: Instance, sub: KSub, bound: real) {
    forall x | Relaxed(inst, sub, x) :: RelaxedValue(inst, x) <= bound
  }

  /** `bound` is the value of a relaxed solution that packs all of an item or nothing of it, except `measure` of the
      item `split`. */
  ghost predicate Reached(inst: Instance, sub: KSub, bound: real, split: int, measure: real) {
    exists x :: Relaxed(inst, sub, x) && RelaxedValue(inst, x) == bound && PartOf(x, split, measure)
  }

  predicate PartOf(x: seq<real>, split: int, measure: real) {
    && (forall j | 0 <= j < |x| && j != split :: x[j] == 0.0 || x[j] == 1.0)
    && if split == TERMINAL then measure == 0.0 else 0 <= split < |x| && x[split] == measure && 0.0 < measure < 1.0
  }

  // ---------- The bound is reached ----------

  /** Of the item that did not fit as much as there was space for. */
  function Fractional(inst: Instance, sub: KSub, j: int): real {
    var r := Packing(inst, sub);
    if GreedySel(inst, sub)(j) then 1.0
    else if r.split && j == r.stop && 0 <= j < |inst.item| && inst.item[j].weight != 0.0 then
      r.left / inst.item[j].weight
    else 0.0
  }

  function GreedyPart(inst: Instance, sub: KSub): seq<real> {
    seq(|inst.item|, j => Fractional(inst, sub, j))
  }

  lemma OneTimes(x: real)
    ensures Times(1.0, x) == x && Times(0.0, x) == 0.0
  {
  }

  lemma PartAt(inst: Instance, sub: KSub, j: int)
    requires 0 <= j < |inst.item|
    requires !(Packing(inst, sub).split && j == Packing(inst, sub).stop && !GreedySel(inst, sub)(j))
    ensures WeightPart(inst, GreedyPart(inst, sub))(j) == WeightTerm(inst, GreedySel(inst, sub))(j)
    ensures ValuePart(inst, GreedyPart(inst, sub))(j) == ValueTerm(inst, GreedySel(inst, sub))(j)
  {
    OneTimes(inst.item[j].weight);
    OneTimes(inst.item[j].value);
  }

  lemma ProperPart(left: real, weight: real)
    requires 0.0 < left < weight
    ensures 0.0 < left / weight < 1.0 && Times(left / weight, weight) == left
  {
    var q := left / weight;
    assert q * weight == left;
    assert Times(weight, 1.0) == weight && Times(weight, q) == left;
    if q >= 1.0 {
      Scale(weight, 1.0, q);
    }
  }

  lemma GreedyPartSums(inst: Instance, sub: KSub)
    requires inst.Usable() && SubOk(inst, sub) && sub.capBase >= 0.0
    ensures RelaxedValue(inst, GreedyPart(inst, sub)) == Bound(inst, sub)
    ensures RelaxedWeight(inst, GreedyPart(inst, sub)) <= inst.capacity
  {
    var r, t, x := Packing(inst, sub), GreedySel(inst, sub), GreedyPart(inst, sub);
    PackingShape(inst, sub);
    GreedyWeight(inst, sub);
    forall j | 0 <= j < |inst.item| && !(r.split && j == r.stop)
      ensures WeightPart(inst, x)(j) == WeightTerm(inst, t)(j) && ValuePart(inst, x)(j) == ValueTerm(inst, t)(j)
    {
      PartAt(inst, sub, j);
    }
    if r.split {
      SplitPart(inst, sub);
      RSumBump(|inst.item|, WeightTerm(inst, t), WeightPart(inst, x), r.stop, r.left);
      RSumBump(|inst.item|, ValueTerm(inst, t), ValuePart(inst, x), r.stop,
               Times(r.left / inst.item[r.stop].weight, inst.item[r.stop].value));
    } else {
      RSumSame(|inst.item|, WeightTerm(inst, t), WeightPart(inst, x));
      RSumSame(|inst.item|, ValueTerm(inst, t), ValuePart(inst, x));
    }
  }

  lemma SplitPart(inst: Instance, sub: KSub)
    requires inst.Usable() && SubOk(inst, sub) && sub.capBase >= 0.0 && Packing(inst, sub).split
    ensures var r, t, x := Packing(inst, sub), GreedySel(inst, sub), GreedyPart(inst, sub);
            && 0 <= r.stop < |inst.item| && !t(r.stop) && inst.item[r.stop].weight > 0.0
            && x[r.stop] == r.left / inst.item[r.stop].weight && 0.0 < x[r.stop] < 1.0
            && WeightPart(inst, x)(r.stop) == r.left && WeightTerm(inst, t)(r.stop) == 0.0
            && ValuePart(inst, x)(r.stop) == Times(x[r.stop], inst.item[r.stop].value)
            && ValueTerm(inst, t)(r.stop) == 0.0
  {
    PackingShape(inst, sub);
    var r := Packing(inst, sub);
    ProperPart(r.left, inst.item[r.stop].weight);
  }

  /** How much of the split item is packed, or zero. */
  function Measure(inst: Instance, sub: KSub): real {
    var r := Packing(inst, sub);
    if r.split && 0 <= r.stop < |inst.item| && inst.item[r.stop].weight != 0.0 then r.left / inst.item[r.stop].weight
    else 0.0
  }

  lemma GreedyPartIsRelaxed(inst: Instance, sub: KSub)
    requires inst.Usable() && SubOk(inst, sub) && sub.capBase >= 0.0
    ensures Relaxed(inst, sub, GreedyPart(inst, sub))
    ensures PartOf(GreedyPart(inst, sub), if Packing(inst, sub).split then Packing(inst, sub).stop else TERMINAL,
                   Measure(inst, sub))
  {
    PackingShape(inst, sub);
    GreedyPartSums(inst, sub);
    if Packing(inst, sub).split {
      SplitPart(inst, sub);
    }
  }

  lemma BoundIsReached(inst: Instance, sub: KSub)
    requires inst.Usable() && SubOk(inst, sub) && sub.capBase >= 0.0
    ensures Reached(inst, sub, Bound(inst, sub), if Packing(inst, sub).split then Packing(inst, sub).stop else TERMINAL,
                    Measure(inst, sub))
  {
    GreedyPartIsRelaxed(inst, sub);
    GreedyPartSums(inst, sub);
  }

  // ---------- Nothing relaxed is better ----------

  lemma RelaxedGain(x: real, v: real, w: real, rate: real)
    requires 0.0 <= x <= 1.0
    ensures v >= Times(rate, w) ==> Times(x, v) - v <= Times(rate, Times(x, w) - w)
    ensures v <= Times(rate, w) ==> Times(x, v) <= Times(rate, Times(x, w))
  {
    if v >= Times(rate, w) {
      Scale(1.0 - x, Times(rate, w), v);
      assert Times(rate, Times(x, w) - w) == -Times(1.0 - x, Times(rate, w));
      assert Times(1.0 - x, v) == v - Times(x, v);
    }
    if v <= Times(rate, w) {
      Scale(x, v, Times(rate, w));
      assert Times(x, Times(rate, w)) == Times(rate, Times(x, w));
    }
  }

  lemma NoGain(rate: real, w: real)
    ensures Times(rate, w - w) == 0.0
  {
    assert w - w == 0.0;
  }

  lemma RelaxedExchange(inst: Instance, sub: KSub, x: seq<real>, j: int)
    requires inst.Ok() && SubOk(inst, sub) && sub.capBase >= 0.0 && Relaxed(inst, sub, x)
    requires 0 <= j < |inst.item| && Weighs(inst, Packing(inst, sub).stop)
    ensures var t, rate := GreedySel(inst, sub), Rate(inst, Packing(inst, sub).stop);
            ValuePart(inst, x)(j) - ValueTerm(inst, t)(j)
            <= Times(rate, WeightPart(inst, x)(j) - WeightTerm(inst, t)(j))
  {
    PackingShape(inst, sub);
    var stop, v, w := Packing(inst, sub).stop, inst.item[j].value, inst.item[j].weight;
    var rate := Rate(inst, stop);
    RateSeparates(inst, stop, j);
    OneTimes(v);
    OneTimes(w);
    NoGain(rate, w);
    NoGain(rate, 0.0);
    RelaxedGain(x[j], v, w, rate);
    TimesSigns(rate, Times(x[j], w));
  }

  lemma RelaxedExchangeAll(inst: Instance, sub: KSub, x: seq<real>)
    requires inst.Ok() && SubOk(inst, sub) && sub.capBase >= 0.0 && Relaxed(inst, sub, x)
    requires Weighs(inst, Packing(inst, sub).stop)
    ensures var t, rate := GreedySel(inst, sub), Rate(inst, Packing(inst, sub).stop);
            RelaxedValue(inst, x) - ValueOf(inst, t) <= Times(rate, RelaxedWeight(inst, x) - WeightOf(inst, t))
  {
    var t, rate := GreedySel(inst, sub), Rate(inst, Packing(inst, sub).stop);
    forall j | 0 <= j < |inst.item|
      ensures ValuePart(inst, x)(j) - ValueTerm(inst, t)(j)
              <= Times(rate, WeightPart(inst, x)(j) - WeightTerm(inst, t)(j))
    {
      RelaxedExchange(inst, sub, x, j);
    }
    ExchangeGain(|inst.item|, ValueTerm(inst, t), WeightTerm(inst, t), ValuePart(inst, x), WeightPart(inst, x), rate);
  }

  lemma RelaxedWithSpace(inst: Instance, sub: KSub, x: seq<real>)
    requires inst.Ok() && SubOk(inst, sub) && sub.capBase > 0.0 && Relaxed(inst, sub, x)
    ensures RelaxedValue(inst, x) <= Bound(inst, sub)
  {
    var r, t := Packing(inst, sub), GreedySel(inst, sub);
    PackingShape(inst, sub);
    GreedyWeight(inst, sub);
    StopWeighs(inst, sub);
    RelaxedExchangeAll(inst, sub, x);
    RateNotNegative(inst, r.stop);
    Scale(Rate(inst, r.stop), RelaxedWeight(inst, x) - WeightOf(inst, t), r.left);
    LeftAtRate(inst, r);
  }

  lemma PartWeight(x: real, w: real)
    requires x >= 0.0 && w >= 0.0
    ensures Times(x, w) >= 0.0 && (x > 0.0 && w > 0.0 ==> Times(x, w) > 0.0)
  {
  }

  /** Without space nothing with weight is packed in addition, not even a part of it. */
  lemma OnlyWeightlessParts(inst: Instance, sub: KSub, x: seq<real>, k: int)
    requires inst.Usable() && SubOk(inst, sub) && sub.capBase == 0.0 && Relaxed(inst, sub, x)
    requires 0 <= k < |x| && x[k] > 0.0 && k !in sub.inList
    ensures inst.item[k].weight == 0.0 && Free(sub, k)
  {
    var w := inst.item[k].weight;
    var forced := WeightTerm(inst, ListSel(sub.inList));
    var more := (j: int) => forced(j) + if j == k then Times(x[k], w) else 0.0;
    RSumBump(|inst.item|, forced, more, k, Times(x[k], w));
    forall j | 0 <= j < |inst.item| ensures more(j) <= WeightPart(inst, x)(j) {
      OneTimes(inst.item[j].weight);
      PartWeight(x[j], inst.item[j].weight);
    }
    RSumLe(|inst.item|, more, WeightPart(inst, x));
    PartWeight(x[k], w);
  }

  lemma PartValue(x: real, v: real)
    requires 0.0 <= x <= 1.0 && v > 0.0
    ensures 0.0 <= Times(x, v) <= v && (x == 0.0 ==> Times(x, v) == 0.0)
  {
    assert v - Times(x, v) == Times(1.0 - x, v);
    PartWeight(1.0 - x, v);
    PartWeight(x, v);
  }

  lemma RelaxedWithoutSpace(inst: Instance, sub: KSub, x: seq<real>)
    requires inst.Ok() && SubOk(inst, sub) && sub.capBase == 0.0 && Relaxed(inst, sub, x) && !Misses(inst, sub)
    ensures RelaxedValue(inst, x) <= Bound(inst, sub)
  {
    WithoutSpace(inst, sub);
    PackingShape(inst, sub);
    var t := GreedySel(inst, sub);
    forall j | 0 <= j < |inst.item| ensures ValuePart(inst, x)(j) <= ValueTerm(inst, t)(j) {
      PartValue(x[j], inst.item[j].value);
      if x[j] > 0.0 && j !in sub.inList {
        OnlyWeightlessParts(inst, sub, x, j);
      }
    }
    RSumLe(|inst.item|, ValuePart(inst, x), ValueTerm(inst, t));
  }

  // ---------- Exactly ----------

  lemma WholeItems(inst: Instance, s: seq<bool>) returns (x: seq<real>)
    requires |s| == |inst.item|
    ensures |x| == |s| && forall j | 0 <= j < |s| :: x[j] == if s[j] then 1.0 else 0.0
    ensures RelaxedWeight(inst, x) == WeightOf(inst, Sel(s)) && RelaxedValue(inst, x) == ValueOf(inst, Sel(s))
  {
    x := seq(|s|, j requires 0 <= j < |s| => if s[j] then 1.0 else 0.0);
    forall j | 0 <= j < |s|
      ensures WeightPart(inst, x)(j) == WeightTerm(inst, Sel(s))(j)
      ensures ValuePart(inst, x)(j) == ValueTerm(inst, Sel(s))(j)
    {
      OneTimes(inst.item[j].weight);
      OneTimes(inst.item[j].value);
    }
    RSumSame(|inst.item|, WeightPart(inst, x), WeightTerm(inst, Sel(s)));
    RSumSame(|inst.item|, ValuePart(inst, x), ValueTerm(inst, Sel(s)));
  }

  /** The bound is the value of a relaxed solution that packs just one item in part, and no relaxed solution has more,
      except exactly where the subproblem misses an item without weight. */
  lemma BoundIsRelaxedOptimum(inst: Instance, sub: KSub)
    requires inst.Ok() && SubOk(inst, sub) && sub.capBase >= 0.0
    ensures Reached(inst, sub, Bound(inst, sub), if Packing(inst, sub).split then Packing(inst, sub).stop else TERMINAL,
                    Measure(inst, sub))
    ensures Optimal(inst, sub, Bound(inst, sub)) <==> !Misses(inst, sub)
  {
    BoundIsReached(inst, sub);
    if Misses(inst, sub) {
      var s := MissedSolution(inst, sub);
      var x := WholeItems(inst, s);
      assert Relaxed(inst, sub, x);
    } else {
      forall x | Relaxed(inst, sub, x) ensures RelaxedValue(inst, x) <= Bound(inst, sub) {
        if sub.capBase == 0.0 {
          RelaxedWithoutSpace(inst, sub, x);
        } else {
          RelaxedWithSpace(inst, sub, x);
        }
      }
    }
  }
}
