/** The binary knapsack application of `serialKnapsack.cpp`: its bound and how it splits. */
module Knapsack {
  import opened Fathoming
  import opened RealSums

  datatype Item = Item(weight: real, value: real)

  /** An instance after setup: unusable items dropped, the rest in order of value per weight.  Items without
      weight are let through, and come first. */
  datatype Instance = Instance(capacity: real, item: seq<Item>) {
    predicate Usable() {
      capacity >= 0.0 && forall i | 0 <= i < |item| :: 0.0 <= item[i].weight <= capacity && item[i].value > 0.0
    }

    predicate Ok() {
      Usable() && forall i, j | 0 <= i < j < |item| :: !Outranks(item[j], item[i])
    }
  }

  /** `knapsackItem::compare` puts `a` before `b`. */
  predicate Outranks(a: Item, b: Item) { Times(b.value, a.weight) < Times(a.value, b.weight) }

  const TERMINAL := -1
  const NOT_SPLIT := -2

  /** The data of a subproblem: items forced in and out, the capacity left to the others, and after
      bounding what it would split on. */
  datatype KSub = KSub(inList: seq<int>, outList: seq<int>, capBase: real, splitItem: int,
                       tSplitInitial: nat, tSplitGenItem: seq<int>)

  function TSplitItem(sub: KSub, i: nat): int
    requires i < sub.tSplitInitial + |sub.tSplitGenItem|
  {
    if i < sub.tSplitInitial then i else sub.tSplitGenItem[i - sub.tSplitInitial]
  }

  // ---------- Sums over the items ----------

  /** A selection of items, as membership. */
  function WeightOf(inst: Instance, sel: int -> bool): real {
    RSum(|inst.item|, WeightTerm(inst, sel))
  }

  function ValueOf(inst: Instance, sel: int -> bool): real {
    RSum(|inst.item|, ValueTerm(inst, sel))
  }

  function WeightTerm(inst: Instance, sel: int -> bool): int -> real {
    j => if 0 <= j < |inst.item| && sel(j) then inst.item[j].weight else 0.0
  }

  function ValueTerm(inst: Instance, sel: int -> bool): int -> real {
    j => if 0 <= j < |inst.item| && sel(j) then inst.item[j].value else 0.0
  }

  function ListSel(list: seq<int>): int -> bool { j => j in list }

  lemma SameSelection(inst: Instance, a: int -> bool, b: int -> bool)
    requires forall j | 0 <= j < |inst.item| :: a(j) == b(j)
    ensures WeightOf(inst, a) == WeightOf(inst, b) && ValueOf(inst, a) == ValueOf(inst, b)
  {
    RSumSame(|inst.item|, WeightTerm(inst, a), WeightTerm(inst, b));
    RSumSame(|inst.item|, ValueTerm(inst, a), ValueTerm(inst, b));
  }

  lemma AddToSelection(inst: Instance, a: int -> bool, b: int -> bool, k: int)
    requires 0 <= k < |inst.item| && !a(k) && b(k)
    requires forall j | 0 <= j < |inst.item| && j != k :: a(j) == b(j)
    ensures WeightOf(inst, b) == WeightOf(inst, a) + inst.item[k].weight
    ensures ValueOf(inst, b) == ValueOf(inst, a) + inst.item[k].value
  {
    RSumBump(|inst.item|, WeightTerm(inst, a), WeightTerm(inst, b), k, inst.item[k].weight);
    RSumBump(|inst.item|, ValueTerm(inst, a), ValueTerm(inst, b), k, inst.item[k].value);
  }

  lemma SmallerSelection(inst: Instance, a: int -> bool, b: int -> bool)
    requires inst.Usable() && forall j | 0 <= j < |inst.item| && a(j) :: b(j)
    ensures WeightOf(inst, a) <= WeightOf(inst, b) && ValueOf(inst, a) <= ValueOf(inst, b)
  {
    RSumLe(|inst.item|, WeightTerm(inst, a), WeightTerm(inst, b));
    RSumLe(|inst.item|, ValueTerm(inst, a), ValueTerm(inst, b));
  }

  // ---------- Subproblems and their solutions ----------

  predicate Sorted(list: seq<int>) { forall i, j | 0 <= i < j < |list| :: list[i] < list[j] }

  predicate Items(inst: Instance, list: seq<int>) { forall i | 0 <= i < |list| :: 0 <= list[i] < |inst.item| }

  /** The lists are sorted and disjoint, and `capBase` is what the forced-in items leave. */
  predicate SubOk(inst: Instance, sub: KSub) {
    && Sorted(sub.inList) && Sorted(sub.outList) && Items(inst, sub.inList) && Items(inst, sub.outList)
    && (forall j | j in sub.inList :: j !in sub.outList)
    && sub.capBase == inst.capacity - WeightOf(inst, ListSel(sub.inList))
  }

  predicate Free(sub: KSub, j: int) { j !in sub.inList && j !in sub.outList }

  /** `s[j]` tells whether item `j` is packed. */
  function Sel(s: seq<bool>): int -> bool { j => 0 <= j < |s| && s[j] }

  predicate Packs(inst: Instance, s: seq<bool>) {
    |s| == |inst.item| && WeightOf(inst, Sel(s)) <= inst.capacity
  }

  predicate Obeys(sub: KSub, s: seq<bool>) {
    && (forall j | j in sub.inList :: 0 <= j < |s| && s[j])
    && (forall j | j in sub.outList && 0 <= j < |s| :: !s[j])
  }

  /** The solutions of a subproblem. */
  predicate Covers(inst: Instance, sub: KSub, s: seq<bool>) { Packs(inst, s) && Obeys(sub, s) }

  // ---------- The bound ----------

  datatype Fill = Fill(taken: seq<int>, stop: int, split: bool, left: real)

  /** Packs the free items from `k` on, in order, until one does not fit or no space is left. */
  function Greedy(inst: Instance, sub: KSub, k: nat, space: real): Fill
    requires k <= |inst.item|
    decreases |inst.item| - k
  {
    if k == |inst.item| || space <= 0.0 then Fill([], k, false, space)
    else if !Free(sub, k) then Greedy(inst, sub, k + 1, space)
    else if inst.item[k].weight > space then Fill([], k, true, space)
    else
      var r := Greedy(inst, sub, k + 1, space - inst.item[k].weight);
      r.(taken := [k] + r.taken)
  }

  /** The longest sequence of free items from `k` on that fits, and what the greedy packing does after it. */
  datatype Start = Start(initial: nat, rest: Fill)

  function StartFrom(inst: Instance, sub: KSub, k: nat, space: real): Start
    requires k <= |inst.item|
    decreases |inst.item| - k
  {
    if k < |inst.item| && Free(sub, k) && inst.item[k].weight <= space then
      StartFrom(inst, sub, k + 1, space - inst.item[k].weight)
    else Start(k, Greedy(inst, sub, k, space))
  }

  function Numbers(k: nat): seq<int> { seq(k, i => i) }

  /** `tSplitInitial`: how many first items are packed before any list is looked at, even when no space is left. */
  function Initial(inst: Instance, sub: KSub): nat { StartFrom(inst, sub, 0, sub.capBase).initial }

  /** How `boundComputation` packs a subproblem. */
  function Packing(inst: Instance, sub: KSub): Fill {
    var p := StartFrom(inst, sub, 0, sub.capBase);
    p.rest.(taken := Numbers(p.initial) + p.rest.taken)
  }

  ghost function TakenSel(sub: KSub, k: int, stop: int): int -> bool { j => k <= j < stop && Free(sub, j) }

  lemma {:induction false} GreedyShape(inst: Instance, sub: KSub, k: nat, space: real)
    requires inst.Usable() && k <= |inst.item| && space >= 0.0
    ensures var r := Greedy(inst, sub, k, space);
            && k <= r.stop <= |inst.item| && Sorted(r.taken) && r.left >= 0.0
            && (forall j :: j in r.taken <==> k <= j < r.stop && Free(sub, j))
            && (r.split ==> r.stop < |inst.item| && Free(sub, r.stop) && 0.0 < r.left < inst.item[r.stop].weight)
            && (!r.split ==> r.stop == |inst.item| || r.left == 0.0)
    decreases |inst.item| - k
  {
    if k == |inst.item| || space <= 0.0 || (Free(sub, k) && inst.item[k].weight > space) {
    } else if !Free(sub, k) {
      GreedyShape(inst, sub, k + 1, space);
    } else {
      GreedyShape(inst, sub, k + 1, space - inst.item[k].weight);
      var rest := Greedy(inst, sub, k + 1, space - inst.item[k].weight).taken;
      assert forall i | 0 <= i < |rest| :: rest[i] in rest;
    }
  }

  lemma {:induction false} GreedyLeft(inst: Instance, sub: KSub, k: nat, space: real)
    requires inst.Usable() && k <= |inst.item| && space >= 0.0
    ensures var r := Greedy(inst, sub, k, space); r.left == space - WeightOf(inst, TakenSel(sub, k, r.stop))
    decreases |inst.item| - k
  {
    var r, none := Greedy(inst, sub, k, space), (j: int) => false;
    if k == |inst.item| || space <= 0.0 || (Free(sub, k) && inst.item[k].weight > space) {
      SameSelection(inst, TakenSel(sub, k, r.stop), none);
      EmptySelection(inst);
    } else if !Free(sub, k) {
      GreedyLeft(inst, sub, k + 1, space);
      SameSelection(inst, TakenSel(sub, k, r.stop), TakenSel(sub, k + 1, r.stop));
    } else {
      var rest := space - inst.item[k].weight;
      GreedyLeft(inst, sub, k + 1, rest);
      GreedyShape(inst, sub, k + 1, rest);
      AddToSelection(inst, TakenSel(sub, k + 1, r.stop), TakenSel(sub, k, r.stop), k);
    }
  }

  lemma EmptySelection(inst: Instance)
    ensures WeightOf(inst, (j: int) => false) == 0.0 && ValueOf(inst, (j: int) => false) == 0.0
  {
    var none, zero := (j: int) => false, (j: int) => 0.0;
    RSumSame(|inst.item|, WeightTerm(inst, none), zero);
    RSumSame(|inst.item|, ValueTerm(inst, none), zero);
    RSumZero(|inst.item|, zero);
  }

  lemma {:induction false} StartShape(inst: Instance, sub: KSub, k: nat, space: real)
    requires inst.Usable() && k <= |inst.item| && space >= 0.0
    ensures var p := StartFrom(inst, sub, k, space);
            var left := space - WeightOf(inst, TakenSel(sub, k, p.initial));
            && k <= p.initial <= |inst.item| && (forall j | k <= j < p.initial :: Free(sub, j))
            && left >= 0.0 && p.rest == Greedy(inst, sub, p.initial, left)
    decreases |inst.item| - k
  {
    var p := StartFrom(inst, sub, k, space);
    if k < |inst.item| && Free(sub, k) && inst.item[k].weight <= space {
      StartShape(inst, sub, k + 1, space - inst.item[k].weight);
      AddToSelection(inst, TakenSel(sub, k + 1, p.initial), TakenSel(sub, k, p.initial), k);
    } else {
      SameSelection(inst, TakenSel(sub, k, p.initial), (j: int) => false);
      EmptySelection(inst);
    }
  }

  lemma NumbersMembers(k: nat)
    ensures forall j :: j in Numbers(k) <==> 0 <= j < k
    ensures Sorted(Numbers(k))
  {
    forall j | 0 <= j < k ensures j in Numbers(k) {
      assert Numbers(k)[j] == j;
    }
  }

  lemma PackingShape(inst: Instance, sub: KSub)
    requires inst.Usable() && sub.capBase >= 0.0
    ensures var r := Packing(inst, sub);
            && 0 <= r.stop <= |inst.item| && Sorted(r.taken) && r.left >= 0.0
            && (forall j :: j in r.taken <==> 0 <= j < r.stop && Free(sub, j))
            && (r.split ==> r.stop < |inst.item| && Free(sub, r.stop) && 0.0 < r.left < inst.item[r.stop].weight)
            && (!r.split ==> r.stop == |inst.item| || r.left == 0.0)
            && Initial(inst, sub) <= |r.taken|
  {
    var p := StartFrom(inst, sub, 0, sub.capBase);
    StartShape(inst, sub, 0, sub.capBase);
    GreedyShape(inst, sub, p.initial, sub.capBase - WeightOf(inst, TakenSel(sub, 0, p.initial)));
    NumbersMembers(p.initial);
    Joined(Numbers(p.initial), p.rest.taken, p.initial);
  }

  lemma Joined(a: seq<int>, b: seq<int>, k: int)
    requires Sorted(a) && Sorted(b) && (forall j | j in a :: j < k) && (forall j | j in b :: k <= j)
    ensures Sorted(a + b)
  {
    assert (forall i | 0 <= i < |a| :: a[i] in a) && (forall i | 0 <= i < |b| :: b[i] in b);
  }

  lemma PackingLeft(inst: Instance, sub: KSub)
    requires inst.Usable() && sub.capBase >= 0.0
    ensures var r := Packing(inst, sub); r.left == sub.capBase - WeightOf(inst, TakenSel(sub, 0, r.stop))
  {
    var p := StartFrom(inst, sub, 0, sub.capBase);
    StartShape(inst, sub, 0, sub.capBase);
    var left := sub.capBase - WeightOf(inst, TakenSel(sub, 0, p.initial));
    GreedyShape(inst, sub, p.initial, left);
    GreedyLeft(inst, sub, p.initial, left);
    DisjointWeights(inst, TakenSel(sub, 0, p.initial), TakenSel(sub, p.initial, p.rest.stop), TakenSel(sub, 0, p.rest.stop));
  }

  /** The items packed by the greedy solution of a subproblem. */
  function GreedySel(inst: Instance, sub: KSub): int -> bool {
    var r := Packing(inst, sub);
    j => j in sub.inList || j in r.taken
  }

  /** `bound` as `boundComputation` leaves it. */
  function Bound(inst: Instance, sub: KSub): real {
    var r := Packing(inst, sub);
    ValueOf(inst, GreedySel(inst, sub))
    + if r.split && 0 <= r.stop < |inst.item| && inst.item[r.stop].weight != 0.0
      then Times(r.left / inst.item[r.stop].weight, inst.item[r.stop].value) else 0.0
  }

  lemma GreedyWeight(inst: Instance, sub: KSub)
    requires inst.Usable() && SubOk(inst, sub) && sub.capBase >= 0.0
    ensures WeightOf(inst, GreedySel(inst, sub)) + Packing(inst, sub).left == inst.capacity
  {
    PackingShape(inst, sub);
    PackingLeft(inst, sub);
    var r := Packing(inst, sub);
    DisjointWeights(inst, ListSel(sub.inList), TakenSel(sub, 0, r.stop), GreedySel(inst, sub));
  }

  lemma DisjointWeights(inst: Instance, a: int -> bool, b: int -> bool, c: int -> bool)
    requires forall j | 0 <= j < |inst.item| :: c(j) == (a(j) || b(j)) && !(a(j) && b(j))
    ensures WeightOf(inst, c) == WeightOf(inst, a) + WeightOf(inst, b)
  {
    RSumPlus(|inst.item|, WeightTerm(inst, a), WeightTerm(inst, b), WeightTerm(inst, c));
  }

  /** What exchanging the greedy packing for another gains is paid for in weight, at `rate` or less. */
  lemma {:induction false} ExchangeGain(n: nat, v: int -> real, w: int -> real, v': int -> real, w': int -> real, rate: real)
    requires forall j | 0 <= j < n :: v'(j) - v(j) <= Times(rate, w'(j) - w(j))
    ensures RSum(n, v') - RSum(n, v) <= Times(rate, RSum(n, w') - RSum(n, w))
  {
    if n > 0 {
      ExchangeGain(n - 1, v, w, v', w', rate);
      TimesSum(rate, RSum(n - 1, w') - RSum(n - 1, w), w'(n - 1) - w(n - 1));
    }
  }

  lemma TimesSum(t: real, x: real, y: real)
    ensures Times(t, x + y) == Times(t, x) + Times(t, y)
  {
  }

  predicate Weighs(inst: Instance, stop: int) { 0 <= stop < |inst.item| ==> inst.item[stop].weight > 0.0 }

  /** The value per weight where the greedy packing stops. */
  ghost function Rate(inst: Instance, stop: int): real {
    if 0 <= stop < |inst.item| && inst.item[stop].weight > 0.0 then inst.item[stop].value / inst.item[stop].weight else 0.0
  }

  lemma RateSeparates(inst: Instance, stop: int, j: int)
    requires inst.Ok() && 0 <= stop <= |inst.item| && 0 <= j < |inst.item| && Weighs(inst, stop)
    ensures Rate(inst, stop) >= 0.0
    ensures j < stop ==> inst.item[j].value >= Times(Rate(inst, stop), inst.item[j].weight)
    ensures stop <= j ==> inst.item[j].value <= Times(Rate(inst, stop), inst.item[j].weight)
  {
    if stop < |inst.item| {
      var a, b, rate := inst.item[stop], inst.item[j], Rate(inst, stop);
      RateOf(a.value, a.weight, b.weight);
      assert j < stop ==> !Outranks(a, b);
      assert stop < j ==> !Outranks(b, a);
      RateCompares(a, b, rate);
    } else {
      assert Times(0.0, inst.item[j].weight) == 0.0;
    }
  }

  lemma RateOf(v: real, w: real, x: real)
    requires w > 0.0 && v > 0.0
    ensures v / w > 0.0 && Times(v / w, w) == v
  {
  }

  lemma RateCompares(a: Item, b: Item, rate: real)
    requires a.weight > 0.0 && Times(rate, a.weight) == a.value
    ensures Times(a.value, b.weight) <= Times(b.value, a.weight) ==> Times(rate, b.weight) <= b.value
    ensures Times(b.value, a.weight) <= Times(a.value, b.weight) ==> b.value <= Times(rate, b.weight)
  {
    var x := rate * b.weight;
    assert a.value * b.weight == x * a.weight;
    if x * a.weight <= b.value * a.weight {
      CancelWeight(x, b.value, a.weight);
    }
    if b.value * a.weight <= x * a.weight {
      CancelWeight(b.value, x, a.weight);
    }
  }

  lemma CancelWeight(x: real, y: real, w: real)
    requires w > 0.0 && x * w <= y * w
    ensures x <= y
  {
    assert (x - y) * w == x * w - y * w;
    assert x > y ==> (x - y) * w > 0.0;
  }

  /** Only items before the stop are given up for others, and only items from there on taken instead. */
  lemma ExchangedWhere(inst: Instance, sub: KSub, s: seq<bool>, j: int)
    requires inst.Usable() && sub.capBase >= 0.0 && Obeys(sub, s) && |s| == |inst.item| && 0 <= j < |s|
    ensures var r, t := Packing(inst, sub), GreedySel(inst, sub);
            && 0 <= r.stop <= |inst.item|
            && (s[j] && !t(j) ==> r.stop <= j) && (!s[j] && t(j) ==> j < r.stop)
  {
    PackingShape(inst, sub);
  }

  lemma ExchangeAt(inst: Instance, sub: KSub, s: seq<bool>, j: int)
    requires inst.Ok() && sub.capBase >= 0.0 && Obeys(sub, s) && |s| == |inst.item|
    requires 0 <= j < |inst.item| && Weighs(inst, Packing(inst, sub).stop)
    ensures var t, rate := GreedySel(inst, sub), Rate(inst, Packing(inst, sub).stop);
            ValueTerm(inst, Sel(s))(j) - ValueTerm(inst, t)(j)
            <= Times(rate, WeightTerm(inst, Sel(s))(j) - WeightTerm(inst, t)(j))
  {
    ExchangedWhere(inst, sub, s, j);
    var stop, w := Packing(inst, sub).stop, inst.item[j].weight;
    RateSeparates(inst, stop, j);
    TimesSigns(Rate(inst, stop), w);
  }

  lemma TimesSigns(t: real, w: real)
    ensures Times(t, w - 0.0) == Times(t, w) && Times(t, 0.0 - w) == -Times(t, w)
    ensures Times(t, w - w) == 0.0 && Times(t, 0.0 - 0.0) == 0.0
  {
    assert w - w == 0.0 && 0.0 - 0.0 == 0.0;
  }

  lemma ExchangeAll(inst: Instance, sub: KSub, s: seq<bool>)
    requires inst.Ok() && SubOk(inst, sub) && sub.capBase >= 0.0 && Obeys(sub, s) && |s| == |inst.item|
    requires Weighs(inst, Packing(inst, sub).stop)
    ensures var t, rate := GreedySel(inst, sub), Rate(inst, Packing(inst, sub).stop);
            ValueOf(inst, Sel(s)) - ValueOf(inst, t) <= Times(rate, WeightOf(inst, Sel(s)) - WeightOf(inst, t))
  {
    var t, rate := GreedySel(inst, sub), Rate(inst, Packing(inst, sub).stop);
    var v, w, v', w' := ValueTerm(inst, t), WeightTerm(inst, t), ValueTerm(inst, Sel(s)), WeightTerm(inst, Sel(s));
    forall j | 0 <= j < |inst.item| ensures v'(j) - v(j) <= Times(rate, w'(j) - w(j)) {
      ExchangeAt(inst, sub, s, j);
    }
    ExchangeGain(|inst.item|, v, w, v', w', rate);
  }

  lemma RateNotNegative(inst: Instance, stop: int)
    requires inst.Usable()
    ensures Rate(inst, stop) >= 0.0
  {
  }

  // ---------- When the bound holds ----------

  lemma WeightlessFirst(inst: Instance, i: int, j: int)
    requires inst.Ok() && 0 <= i <= j < |inst.item| && inst.item[j].weight == 0.0
    ensures inst.item[i].weight == 0.0
  {
    if i < j {
      assert !Outranks(inst.item[j], inst.item[i]) && Times(inst.item[i].value, 0.0) == 0.0;
      if inst.item[i].weight > 0.0 {
        Positive(inst.item[j].value, inst.item[i].weight);
      }
    }
  }

  /** No space is left, and behind an item that has been decided there is one that would need none. */
  ghost predicate Misses(inst: Instance, sub: KSub) {
    sub.capBase == 0.0 && exists f, j ::
      0 <= f < j < |inst.item| && !Free(sub, f) && Free(sub, j) && inst.item[j].weight == 0.0
  }

  /** Without space only free items without weight are packed, up to the first item that is not free. */
  lemma {:induction false} StartWithoutSpace(inst: Instance, sub: KSub, k: nat)
    requires inst.Ok() && k <= |inst.item|
    ensures var p := StartFrom(inst, sub, k, 0.0);
            && k <= p.initial <= |inst.item| && p.rest == Fill([], p.initial, false, 0.0)
            && (forall i | k <= i < p.initial :: Free(sub, i))
            && (forall j | p.initial <= j < |inst.item| && Free(sub, j) && inst.item[j].weight == 0.0 ::
                  p.initial < j && !Free(sub, p.initial))
    decreases |inst.item| - k
  {
    if k < |inst.item| && Free(sub, k) {
      if inst.item[k].weight <= 0.0 {
        StartWithoutSpace(inst, sub, k + 1);
      } else {
        forall j | k <= j < |inst.item| ensures inst.item[j].weight != 0.0 {
          if inst.item[j].weight == 0.0 {
            WeightlessFirst(inst, k, j);
          }
        }
      }
    }
  }

  lemma WithoutSpace(inst: Instance, sub: KSub)
    requires inst.Ok() && sub.capBase == 0.0
    ensures var r := Packing(inst, sub);
            && !r.split && 0 <= r.stop <= |inst.item|
            && (Misses(inst, sub) <==>
                exists j :: r.stop <= j < |inst.item| && Free(sub, j) && inst.item[j].weight == 0.0)
  {
    StartWithoutSpace(inst, sub, 0);
    var stop := Packing(inst, sub).stop;
    if j :| stop <= j < |inst.item| && Free(sub, j) && inst.item[j].weight == 0.0 {
      assert 0 <= stop < j && !Free(sub, stop);
    }
  }

  /** With space at the start, packing does not stop before an item without weight. */
  lemma StopWeighs(inst: Instance, sub: KSub)
    requires inst.Ok() && sub.capBase > 0.0
    ensures Weighs(inst, Packing(inst, sub).stop)
  {
    PackingShape(inst, sub);
    PackingLeft(inst, sub);
    var r := Packing(inst, sub);
    if r.stop < |inst.item| && inst.item[r.stop].weight == 0.0 {
      var t := TakenSel(sub, 0, r.stop);
      forall j | 0 <= j < |inst.item| ensures WeightTerm(inst, t)(j) == 0.0 {
        if j < r.stop {
          WeightlessFirst(inst, j, r.stop);
        }
      }
      RSumZero(|inst.item|, WeightTerm(inst, t));
    }
  }

  /** Without space a solution adds nothing but items without weight. */
  lemma OnlyWeightless(inst: Instance, sub: KSub, s: seq<bool>, j: int)
    requires inst.Usable() && SubOk(inst, sub) && sub.capBase == 0.0 && Covers(inst, sub, s)
    requires 0 <= j < |s| && s[j] && j !in sub.inList
    ensures inst.item[j].weight == 0.0 && Free(sub, j)
  {
    var more := (i: int) => i == j || i in sub.inList;
    AddToSelection(inst, ListSel(sub.inList), more, j);
    SmallerSelection(inst, more, Sel(s));
  }

  lemma BoundWithoutSpace(inst: Instance, sub: KSub, s: seq<bool>)
    requires inst.Ok() && SubOk(inst, sub) && sub.capBase == 0.0 && Covers(inst, sub, s) && !Misses(inst, sub)
    ensures ValueOf(inst, Sel(s)) <= Bound(inst, sub)
  {
    WithoutSpace(inst, sub);
    PackingShape(inst, sub);
    var r := Packing(inst, sub);
    forall j | 0 <= j < |inst.item| && Sel(s)(j) ensures GreedySel(inst, sub)(j) {
      if j !in sub.inList {
        OnlyWeightless(inst, sub, s, j);
      }
    }
    SmallerSelection(inst, Sel(s), GreedySel(inst, sub));
  }

  lemma BoundWithSpace(inst: Instance, sub: KSub, s: seq<bool>)
    requires inst.Ok() && SubOk(inst, sub) && sub.capBase > 0.0 && Covers(inst, sub, s)
    ensures ValueOf(inst, Sel(s)) <= Bound(inst, sub)
  {
    var r := Packing(inst, sub);
    PackingShape(inst, sub);
    GreedyWeight(inst, sub);
    StopWeighs(inst, sub);
    ExchangeAll(inst, sub, s);
    RateNotNegative(inst, r.stop);
    Scale(Rate(inst, r.stop), WeightOf(inst, Sel(s)) - WeightOf(inst, GreedySel(inst, sub)), r.left);
    LeftAtRate(inst, r);
  }

  /** The bound is at least the value of every solution of the subproblem, unless it misses an item. */
  lemma BoundIsValid(inst: Instance, sub: KSub, s: seq<bool>)
    requires inst.Ok() && SubOk(inst, sub) && sub.capBase >= 0.0 && Covers(inst, sub, s) && !Misses(inst, sub)
    ensures ValueOf(inst, Sel(s)) <= Bound(inst, sub)
  {
    if sub.capBase == 0.0 {
      BoundWithoutSpace(inst, sub, s);
    } else {
      BoundWithSpace(inst, sub, s);
    }
  }

  /** The space left, at the rate where packing stopped, is what the bound adds. */
  lemma LeftAtRate(inst: Instance, r: Fill)
    requires inst.Usable() && 0 <= r.stop <= |inst.item| && (r.split ==> r.stop < |inst.item|) && Weighs(inst, r.stop)
    requires !r.split ==> r.stop == |inst.item| || r.left == 0.0
    ensures Times(Rate(inst, r.stop), r.left)
            == if r.split then Times(r.left / inst.item[r.stop].weight, inst.item[r.stop].value) else 0.0
  {
    if r.split {
      var v, w := inst.item[r.stop].value, inst.item[r.stop].weight;
      Fraction(v, w, r.left);
    }
  }

  lemma Fraction(v: real, w: real, x: real)
    requires w > 0.0
    ensures Times(v / w, x) == Times(x / w, v)
  {
  }

  /** What it misses makes a better solution. */
  lemma MissedSolution(inst: Instance, sub: KSub) returns (s: seq<bool>)
    requires inst.Ok() && SubOk(inst, sub) && Misses(inst, sub)
    ensures Covers(inst, sub, s) && ValueOf(inst, Sel(s)) > Bound(inst, sub)
    ensures forall j | 0 <= j < |s| && GreedySel(inst, sub)(j) :: s[j]
  {
    WithoutSpace(inst, sub);
    PackingShape(inst, sub);
    GreedyWeight(inst, sub);
    var j :| Packing(inst, sub).stop <= j < |inst.item| && Free(sub, j) && inst.item[j].weight == 0.0;
    var t := GreedySel(inst, sub);
    s := seq(|inst.item|, i requires 0 <= i < |inst.item| => i == j || t(i));
    AddToSelection(inst, t, Sel(s), j);
  }

  /** Exactly where the bound is one: there is space, or nothing without weight behind a decided item. */
  lemma BoundIsValidExactly(inst: Instance, sub: KSub)
    requires inst.Ok() && SubOk(inst, sub) && sub.capBase >= 0.0
    ensures (forall s | Covers(inst, sub, s) :: ValueOf(inst, Sel(s)) <= Bound(inst, sub)) <==> !Misses(inst, sub)
  {
    if Misses(inst, sub) {
      var s := MissedSolution(inst, sub);
    } else {
      forall s | Covers(inst, sub, s) ensures ValueOf(inst, Sel(s)) <= Bound(inst, sub) {
        BoundIsValid(inst, sub, s);
      }
    }
  }

  // ---------- Which instances have such subproblems ----------

  ghost predicate FillsUp(inst: Instance) {
    exists s: seq<bool> :: |s| == |inst.item| && WeightOf(inst, Sel(s)) == inst.capacity
  }

  /** Two items need no space, and some others use up all there is. */
  ghost predicate CanMiss(inst: Instance) {
    |inst.item| >= 2 && inst.item[0].weight == 0.0 && inst.item[1].weight == 0.0 && FillsUp(inst)
  }

  /** The items with weight of a selection, in order. */
  function HeavyOnes(inst: Instance, s: seq<bool>, n: nat): seq<int>
    requires n <= |s| == |inst.item|
  {
    if n == 0 then []
    else if s[n - 1] && inst.item[n - 1].weight > 0.0 then HeavyOnes(inst, s, n - 1) + [n - 1]
    else HeavyOnes(inst, s, n - 1)
  }

  lemma {:induction false} HeavyOnesShape(inst: Instance, s: seq<bool>, n: nat)
    requires n <= |s| == |inst.item|
    ensures var list := HeavyOnes(inst, s, n);
            Sorted(list) && forall j :: j in list <==> 0 <= j < n && s[j] && inst.item[j].weight > 0.0
  {
    if n > 0 {
      HeavyOnesShape(inst, s, n - 1);
      var list := HeavyOnes(inst, s, n - 1);
      assert forall i | 0 <= i < |list| :: list[i] in list;
    }
  }

  lemma MissingSub(inst: Instance) returns (sub: KSub)
    requires inst.Ok() && CanMiss(inst)
    ensures SubOk(inst, sub) && Misses(inst, sub)
  {
    var s: seq<bool> :| |s| == |inst.item| && WeightOf(inst, Sel(s)) == inst.capacity;
    var list := HeavyOnes(inst, s, |s|);
    HeavyOnesWeigh(inst, s);
    sub := KSub(list, [0], 0.0, NOT_SPLIT, 0, []);
    assert 0 !in list && 1 !in list;
    assert !Free(sub, 0) && Free(sub, 1);
  }

  lemma HeavyOnesWeigh(inst: Instance, s: seq<bool>)
    requires inst.Usable() && |s| == |inst.item|
    ensures var list := HeavyOnes(inst, s, |s|);
            && Sorted(list) && Items(inst, list) && WeightOf(inst, ListSel(list)) == WeightOf(inst, Sel(s))
            && forall j | j in list :: 0 <= j < |inst.item| && inst.item[j].weight > 0.0
  {
    var list := HeavyOnes(inst, s, |s|);
    HeavyOnesShape(inst, s, |s|);
    assert forall i | 0 <= i < |list| :: list[i] in list;
    RSumSame(|inst.item|, WeightTerm(inst, Sel(s)), WeightTerm(inst, ListSel(list)));
  }

  lemma MissingNeeds(inst: Instance, sub: KSub)
    requires inst.Ok() && SubOk(inst, sub) && Misses(inst, sub)
    ensures CanMiss(inst)
  {
    var f, j :| 0 <= f < j < |inst.item| && !Free(sub, f) && Free(sub, j) && inst.item[j].weight == 0.0;
    WeightlessFirst(inst, 0, j);
    WeightlessFirst(inst, 1, j);
    var s := seq(|inst.item|, i => i in sub.inList);
    SameSelection(inst, Sel(s), ListSel(sub.inList));
  }

  /** For just these instances some subproblem's bound is wrong. */
  lemma MissesExactly(inst: Instance)
    requires inst.Ok()
    ensures CanMiss(inst) <==> exists sub :: SubOk(inst, sub) && Misses(inst, sub)
  {
    if CanMiss(inst) {
      var sub := MissingSub(inst);
    } else if sub :| SubOk(inst, sub) && Misses(inst, sub) {
      MissingNeeds(inst, sub);
    }
  }
}
