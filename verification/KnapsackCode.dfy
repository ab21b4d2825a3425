/** The computations of `serialKnapsack.cpp` as it carries them out: partial sums, binary search,
    compact solutions and list cursors; each is proved equal to its plain definition. */
module KnapsackCode {
  import opened RealSums
  import opened Knapsack
  import opened KnapsackRelaxed
  import opened KnapsackTree

  const NO_ITEM := -1

  ghost function First(k: int): int -> bool { j => 0 <= j < k }

  lemma FirstGrows(inst: Instance, k: nat)
    requires k < |inst.item|
    ensures WeightOf(inst, First(k + 1)) == WeightOf(inst, First(k)) + inst.item[k].weight
    ensures ValueOf(inst, First(k + 1)) == ValueOf(inst, First(k)) + inst.item[k].value
  {
    AddToSelection(inst, First(k), First(k + 1), k);
  }

  lemma FirstIsEmpty(inst: Instance)
    ensures WeightOf(inst, First(0)) == 0.0 && ValueOf(inst, First(0)) == 0.0
  {
    EmptySelection(inst);
    SameSelection(inst, First(0), (j: int) => false);
  }

  lemma {:induction false} FirstIncreases(inst: Instance, k: nat, l: nat)
    requires inst.Usable() && k <= l <= |inst.item|
    ensures WeightOf(inst, First(k)) <= WeightOf(inst, First(l))
    decreases l
  {
    if k < l {
      FirstIncreases(inst, k, l - 1);
      FirstGrows(inst, l - 1);
    }
  }

  /** The table of partial sums that `preprocess` fills. */
  ghost predicate PartialSums(inst: Instance, w: seq<real>, v: seq<real>) {
    && |w| == |v| == |inst.item| + 1
    && forall k | 0 <= k <= |inst.item| :: w[k] == WeightOf(inst, First(k)) && v[k] == ValueOf(inst, First(k))
  }

  /** With the length of the longest sequence of first items that fits. */
  ghost predicate Tables(inst: Instance, w: seq<real>, v: seq<real>, fitSize: nat) {
    && PartialSums(inst, w, v) && fitSize <= |inst.item|
    && forall k | 0 <= k <= |inst.item| :: w[k] <= inst.capacity <==> k <= fitSize
  }

  /** Fills the tables and finds the longest sequence of first items that fits. */
  method Preprocess(inst: Instance) returns (w: seq<real>, v: seq<real>, fitSize: nat)
    requires inst.Usable()
    ensures Tables(inst, w, v, fitSize)
  {
    var runningSumW, runningSumV, j := 0.0, 0.0, 0;
    w, v, fitSize := [], [], 0;
    FirstIsEmpty(inst);
    while j <= |inst.item|
      invariant 0 <= j <= |inst.item| + 1 && |w| == |v| == j && fitSize <= |inst.item|
      invariant j <= |inst.item| ==> runningSumW == WeightOf(inst, First(j)) && runningSumV == ValueOf(inst, First(j))
      invariant forall k | 0 <= k < j :: w[k] == WeightOf(inst, First(k)) && v[k] == ValueOf(inst, First(k))
      invariant forall k | 0 <= k < j :: w[k] <= inst.capacity <==> k <= fitSize
      invariant j == 0 ==> fitSize == 0
      invariant j > 0 ==> fitSize < j
    {
      w, v := w + [runningSumW], v + [runningSumV];
      if j > 0 {
        FirstGrows(inst, j - 1);
      }
      if runningSumW <= inst.capacity {
        fitSize := j;
      }
      if j < |inst.item| {
        FirstGrows(inst, j);
        runningSumV := runningSumV + inst.item[j].value;
        runningSumW := runningSumW + inst.item[j].weight;
      }
      j := j + 1;
    }
  }

  /** The longest of the first `maxLength + 1` sequences that is within the limit, by binary search. */
  method FitSequence(partialSumW: seq<real>, weightLimit: real, maxLength: nat) returns (top: nat)
    requires maxLength < |partialSumW| && partialSumW[0] <= weightLimit
    requires forall i, j | 0 <= i <= j < |partialSumW| :: partialSumW[i] <= partialSumW[j]
    ensures top <= maxLength && forall k | 0 <= k <= maxLength :: partialSumW[k] <= weightLimit <==> k <= top
  {
    top := maxLength;
    var bottom := 0;
    while partialSumW[top] > weightLimit
      invariant 0 <= bottom <= top <= maxLength && partialSumW[bottom] <= weightLimit
      invariant forall k | top < k <= maxLength :: partialSumW[k] > weightLimit
      decreases top - bottom
    {
      var middle := (top + bottom) / 2;
      if partialSumW[middle] > weightLimit || middle == bottom {
        top := middle;
      } else {
        bottom := middle;
      }
    }
  }

  /** `growList`: copies the list, putting the new element in its place. */
  method GrowList(oldList: seq<int>, newElement: int) returns (newList: seq<int>)
    requires Sorted(oldList) && newElement !in oldList
    ensures newList == Insert(oldList, newElement)
  {
    var i := 0;
    newList := [];
    while i < |oldList| && oldList[i] < newElement
      invariant 0 <= i <= |oldList| && newList == oldList[..i]
      invariant forall k | 0 <= k < i :: oldList[k] < newElement
    {
      newList := newList + [oldList[i]];
      i := i + 1;
    }
    ghost var place := i;
    newList := newList + [newElement];
    while i < |oldList|
      invariant place <= i <= |oldList| && newList == oldList[..place] + [newElement] + oldList[place..i]
    {
      assert oldList[place..i + 1] == oldList[place..i] + [oldList[i]];
      newList := newList + [oldList[i]];
      i := i + 1;
    }
    assert oldList[place..i] == oldList[place..];
    InsertSplits(oldList, newElement, place);
  }

  lemma {:induction false} InsertSplits(list: seq<int>, x: int, i: nat)
    requires i <= |list| && (forall k | 0 <= k < i :: list[k] < x) && (i < |list| ==> x <= list[i])
    ensures Insert(list, x) == list[..i] + [x] + list[i..]
  {
    if i > 0 {
      InsertSplits(list[1..], x, i - 1);
      assert list[1..][..i - 1] == list[1..i] && list[1..][i - 1..] == list[i..];
      assert [list[0]] + list[1..i] == list[..i];
    }
  }

  /** The list of items forced into child `which` of a terminal subproblem, by merging. */
  method MergeIn(inst: Instance, sub: KSub, which: nat) returns (inList: seq<int>, capBase: real)
    requires inst.Usable() && Split(inst, sub) && sub.splitItem == TERMINAL && which < Children(sub)
    ensures inList == ChildOf(inst, sub, which).inList && capBase == ChildOf(inst, sub, which).capBase
  {
    ghost var taken := Packing(inst, sub).taken;
    PackingShape(inst, sub);
    TSplitIsTaken(inst, sub);
    assert forall k | 0 <= k < |taken| :: taken[k] in taken;
    inList, capBase := MergeTaken(inst, sub, which, taken);
  }

  method MergeTaken(inst: Instance, sub: KSub, which: nat, ghost taken: seq<int>)
    returns (inList: seq<int>, capBase: real)
    requires Sorted(sub.inList) && Sorted(taken) && forall k | 0 <= k < |taken| :: taken[k] !in sub.inList
    requires which <= |taken| == sub.tSplitInitial + |sub.tSplitGenItem|
    requires forall k | 0 <= k < |taken| :: TSplitItem(sub, k) == taken[k]
    ensures inList == InsertAll(sub.inList, taken[..which]) && capBase == Rest(inst, taken[..which], sub.capBase)
  {
    var p, t := 0, 0;
    inList, capBase := [], sub.capBase;
    while t < which
      invariant 0 <= t <= which && Merged(sub.inList, p, taken, t, inList) && Between(sub.inList, p, taken, t)
      invariant capBase == Rest(inst, taken[..t], sub.capBase)
    {
      var inItem := TSplitItem(sub, t);
      p, inList := CopyUpTo(sub.inList, p, inItem, inList, taken, t);
      inList := inList + [inItem];
      capBase := capBase - WeightAt(inst, inItem);
      assert taken[..t + 1][..t] == taken[..t];
      t := t + 1;
    }
    p, inList := CopyRest(sub.inList, p, inList, taken, t);
    MergedIsInsertAll(sub.inList, taken, which, inList);
  }

  lemma MergedIsInsertAll(list: seq<int>, taken: seq<int>, which: nat, merged: seq<int>)
    requires Sorted(list) && Sorted(taken) && which <= |taken| && Merged(list, |list|, taken, which, merged)
    requires forall k | 0 <= k < |taken| :: taken[k] !in list
    ensures merged == InsertAll(list, taken[..which])
  {
    assert list[..|list|] == list;
    InsertAllKeepsSorted(list, taken[..which]);
    SortedUnique(merged, InsertAll(list, taken[..which]));
  }

  /** What has been taken from either list is smaller than what is left of the other. */
  ghost predicate Between(list: seq<int>, p: nat, xs: seq<int>, t: nat) {
    && p <= |list| && t <= |xs|
    && (p < |list| ==> forall j | j in xs[..t] :: j < list[p])
    && (t < |xs| ==> forall j | j in list[..p] :: j < xs[t])
  }

  method CopyUpTo(list: seq<int>, p0: nat, inItem: int, merged0: seq<int>, ghost xs: seq<int>, ghost t: nat)
    returns (p: nat, merged: seq<int>)
    requires Sorted(list) && Sorted(xs) && Merged(list, p0, xs, t, merged0) && Between(list, p0, xs, t)
    requires t < |xs| && xs[t] == inItem && inItem !in list
    ensures Merged(list, p, xs, t + 1, merged + [inItem]) && Between(list, p, xs, t + 1)
  {
    p, merged := p0, merged0;
    while p < |list| && list[p] < inItem
      invariant Merged(list, p, xs, t, merged) && Between(list, p, xs, t)
    {
      TakeOld(list, p, xs, t, merged);
      merged := merged + [list[p]];
      p := p + 1;
    }
    TakeNew(list, p, xs, t, merged);
  }

  method CopyRest(list: seq<int>, p0: nat, merged0: seq<int>, ghost xs: seq<int>, ghost t: nat)
    returns (p: nat, merged: seq<int>)
    requires Sorted(list) && Sorted(xs) && Merged(list, p0, xs, t, merged0)
    requires p0 < |list| ==> forall j | j in xs[..t] :: j < list[p0]
    ensures Merged(list, |list|, xs, t, merged)
  {
    p, merged := p0, merged0;
    while p < |list|
      invariant Merged(list, p, xs, t, merged)
      invariant p < |list| ==> forall j | j in xs[..t] :: j < list[p]
    {
      TakeOldLast(list, p, xs, t, merged);
      merged := merged + [list[p]];
      p := p + 1;
    }
  }

  /** `merged` is the first `p` of one list and the first `t` of the other, in order. */
  ghost predicate Merged(list: seq<int>, p: nat, xs: seq<int>, t: nat, merged: seq<int>) {
    && p <= |list| && t <= |xs| && Sorted(merged)
    && (forall j :: j in merged <==> j in list[..p] || j in xs[..t])
  }

  lemma TakeOldLast(list: seq<int>, p: nat, xs: seq<int>, t: nat, merged: seq<int>)
    requires Sorted(list) && Merged(list, p, xs, t, merged) && p < |list| && forall j | j in xs[..t] :: j < list[p]
    ensures Merged(list, p + 1, xs, t, merged + [list[p]])
    ensures p + 1 < |list| ==> forall j | j in xs[..t] :: j < list[p + 1]
  {
    assert forall j :: j in list[..p + 1] <==> j in list[..p] || j == list[p];
    assert forall k | 0 <= k < |merged| :: merged[k] in merged;
  }

  lemma TakeOld(list: seq<int>, p: nat, xs: seq<int>, t: nat, merged: seq<int>)
    requires Sorted(list) && Merged(list, p, xs, t, merged) && Between(list, p, xs, t)
    requires p < |list| && t < |xs| && list[p] < xs[t]
    ensures Merged(list, p + 1, xs, t, merged + [list[p]]) && Between(list, p + 1, xs, t)
  {
    TakeOldLast(list, p, xs, t, merged);
    assert forall j :: j in list[..p + 1] <==> j in list[..p] || j == list[p];
  }

  lemma TakeNew(list: seq<int>, p: nat, xs: seq<int>, t: nat, merged: seq<int>)
    requires Sorted(list) && Sorted(xs) && Merged(list, p, xs, t, merged) && Between(list, p, xs, t)
    requires t < |xs| && (p < |list| ==> xs[t] <= list[p]) && xs[t] !in list
    ensures Merged(list, p, xs, t + 1, merged + [xs[t]]) && Between(list, p, xs, t + 1)
  {
    assert forall j :: j in xs[..t + 1] <==> j in xs[..t] || j == xs[t];
    assert forall k | 0 <= k < |merged| :: merged[k] in merged;
    assert forall j | j in xs[..t] :: j < xs[t];
  }

  // ---------- Solutions in compact form ----------

  /** The items are in order, and the first one stored explicitly leaves a gap. */
  ghost predicate Compact(initialSequence: nat, genItem: seq<int>) {
    && Sorted(Numbers(initialSequence) + genItem)
    && (genItem != [] ==> genItem[0] > initialSequence)
  }

  /** Adding an item beyond the last keeps the form compact. */
  lemma AppendItem(inst: Instance, k: nat, gen: seq<int>, last: int, i: nat)
    requires Compact(k, gen) && (forall j | j in Numbers(k) + gen :: j <= last) && last < i < |inst.item|
    ensures var a := Numbers(k) + gen;
            && (i == k ==> gen == [] && Numbers(k + 1) == a + [i] && Compact(k + 1, []))
            && (i != k ==> Numbers(k) + (gen + [i]) == a + [i] && Compact(k, gen + [i]))
            && WeightOf(inst, ListSel(a + [i])) == WeightOf(inst, ListSel(a)) + inst.item[i].weight
            && ValueOf(inst, ListSel(a + [i])) == ValueOf(inst, ListSel(a)) + inst.item[i].value
  {
    var a := Numbers(k) + gen;
    assert gen != [] ==> gen[0] in a;
    assert forall m | 0 <= m < |a| :: a[m] in a;
    assert Numbers(k) + (gen + [i]) == a + [i];
    NumbersMembers(k);
    assert i in Numbers(k) ==> i in a;
    AddToSelection(inst, ListSel(a), ListSel(a + [i]), i);
    assert i == k ==> Numbers(k + 1) == a + [i] && Numbers(k + 1) + [] == a + [i];
  }

  /** A solution that starts with the first `initialSequence` items stores only that number, and the
      other items in order. */
  class BinKnapSolution {
    const inst: Instance
    var initialSequence: nat
    var genItem: seq<int>
    var value: real
    var left: real
    var lastItem: int

    function Items(): seq<int>
      reads this
    {
      Numbers(initialSequence) + genItem
    }

    ghost predicate Valid()
      reads this
    {
      && inst.Usable() && Compact(initialSequence, genItem) && Knapsack.Items(inst, Items())
      && value == ValueOf(inst, ListSel(Items())) && left == inst.capacity - WeightOf(inst, ListSel(Items()))
      && (forall j | j in Items() :: j <= lastItem) && -1 <= lastItem < |inst.item|
    }

    constructor (inst: Instance)
      requires inst.Usable()
      ensures Valid() && this.inst == inst && Items() == []
    {
      this.inst := inst;
      initialSequence, genItem, value, left, lastItem := 0, [], 0.0, inst.capacity, -1;
      SameSelection(inst, ListSel([]), (j: int) => false);
      EmptySelection(inst);
    }

    /** Rolls back to just the `k` first items. */
    method Reset(k: nat, partialSumW: seq<real>, partialSumV: seq<real>)
      requires inst.Usable() && k <= |inst.item| && PartialSums(inst, partialSumW, partialSumV)
      modifies this
      ensures Valid() && Items() == Numbers(k) && lastItem == k - 1
    {
      genItem, initialSequence := [], k;
      value, left, lastItem := partialSumV[k], inst.capacity - partialSumW[k], k - 1;
      NumbersMembers(k);
      assert Items() == Numbers(k);
      SameSelection(inst, ListSel(Items()), First(k));
    }

    /** Adds an item; items must be added in order. */
    method AddItem(i: nat)
      requires Valid() && lastItem < i < |inst.item|
      modifies this
      ensures Valid() && Items() == old(Items()) + [i] && lastItem == i
    {
      ghost var before := Items();
      AppendItem(inst, initialSequence, genItem, lastItem, i);
      if i == initialSequence {
        initialSequence := initialSequence + 1;
      } else {
        genItem := genItem + [i];
      }
      assert Items() == before + [i];
      value := value + inst.item[i].value;
      left := left - inst.item[i].weight;
      lastItem := i;
    }
  }

  /** The compact form is unique, so equal stored sequences mean equal solutions and conversely. */
  lemma CompactFormIsUnique(k: nat, gen: seq<int>, l: nat, gen': seq<int>)
    requires Compact(k, gen) && Compact(l, gen')
    ensures k == l && gen == gen' <==> forall j :: j in Numbers(k) + gen <==> j in Numbers(l) + gen'
  {
    var a, b := Numbers(k) + gen, Numbers(l) + gen';
    if forall j :: j in a <==> j in b {
      SortedUnique(a, b);
      SamePrefix(k, gen, l, gen');
      SamePrefix(l, gen', k, gen);
      assert gen == a[k..] && gen' == b[l..];
    }
  }

  lemma GapAfterPrefix(k: nat, gen: seq<int>)
    requires Compact(k, gen)
    ensures k !in Numbers(k) + gen && forall j | 0 <= j < k :: j in Numbers(k) + gen
  {
    var a := Numbers(k) + gen;
    NumbersMembers(k);
    assert forall i | 0 <= i < |gen| :: a[k + i] == gen[i] && a[k] == gen[0];
  }

  lemma SamePrefix(k: nat, gen: seq<int>, l: nat, gen': seq<int>)
    requires Compact(k, gen) && Compact(l, gen') && Numbers(k) + gen == Numbers(l) + gen'
    ensures l <= k
  {
    GapAfterPrefix(k, gen);
    GapAfterPrefix(l, gen');
  }

  // ---------- The bound computation ----------

  /** Everything before `i` is free and fits, and nothing more: that is the initial sequence. */
  lemma {:induction false} PrefixIsInitial(inst: Instance, sub: KSub, i: nat, k: nat)
    requires inst.Usable() && k <= i <= |inst.item| && (forall j | 0 <= j < i :: Free(sub, j))
    requires WeightOf(inst, First(i)) <= sub.capBase
    requires i < |inst.item| && Free(sub, i) ==> WeightOf(inst, First(i + 1)) > sub.capBase
    ensures StartFrom(inst, sub, k, sub.capBase - WeightOf(inst, First(k)))
            == Start(i, Greedy(inst, sub, i, sub.capBase - WeightOf(inst, First(i))))
    decreases i - k
  {
    if k < |inst.item| {
      FirstGrows(inst, k);
    }
    if k < i {
      FirstIncreases(inst, k + 1, i);
      PrefixIsInitial(inst, sub, i, k + 1);
    }
  }

  lemma PackingFrom(inst: Instance, sub: KSub, i: nat)
    requires inst.Usable() && i <= |inst.item| && (forall j | 0 <= j < i :: Free(sub, j))
    requires WeightOf(inst, First(i)) <= sub.capBase
    requires i < |inst.item| && Free(sub, i) ==> WeightOf(inst, First(i + 1)) > sub.capBase
    ensures var g := Greedy(inst, sub, i, sub.capBase - WeightOf(inst, First(i)));
            && Initial(inst, sub) == i && Later(inst, sub) == g.taken
            && Packing(inst, sub) == g.(taken := Numbers(i) + g.taken)
  {
    FirstIsEmpty(inst);
    PrefixIsInitial(inst, sub, i, 0);
  }

  lemma {:induction false} StartIsGreedy(inst: Instance, sub: KSub, k: nat, space: real)
    requires inst.Ok() && k <= |inst.item| && space >= 0.0 && (space > 0.0 || Weighs(inst, k))
    ensures var p := StartFrom(inst, sub, k, space);
            && k <= p.initial
            && Greedy(inst, sub, k, space) == p.rest.(taken := Numbers(p.initial)[k..] + p.rest.taken)
    decreases |inst.item| - k
  {
    var p := StartFrom(inst, sub, k, space);
    if k < |inst.item| && Free(sub, k) && inst.item[k].weight <= space {
      if k + 1 < |inst.item| && inst.item[k + 1].weight == 0.0 {
        WeightlessFirst(inst, k, k + 1);
      }
      StartIsGreedy(inst, sub, k + 1, space - inst.item[k].weight);
      assert Numbers(p.initial)[k..] + p.rest.taken == [k] + (Numbers(p.initial)[k + 1..] + p.rest.taken);
    } else {
      assert Numbers(p.initial)[k..] + p.rest.taken == p.rest.taken;
    }
  }

  /** With space at the start the initial sequence is just how the greedy packing begins. */
  lemma PackingIsGreedy(inst: Instance, sub: KSub)
    requires inst.Ok() && sub.capBase > 0.0
    ensures Packing(inst, sub) == Greedy(inst, sub, 0, sub.capBase)
  {
    StartIsGreedy(inst, sub, 0, sub.capBase);
    assert Numbers(Initial(inst, sub))[0..] == Numbers(Initial(inst, sub));
  }

  function Next(list: seq<int>, cursor: nat): int { if cursor < |list| then list[cursor] else NO_ITEM }

  /** `cursor` separates what the list has below `i` from the rest. */
  ghost predicate At(list: seq<int>, cursor: nat, i: int) {
    && cursor <= |list|
    && (forall q | 0 <= q < cursor :: list[q] < i) && (forall q | cursor <= q < |list| :: i <= list[q])
  }

  lemma AdvanceCursor(list: seq<int>, cursor: nat, i: nat)
    requires Sorted(list) && At(list, cursor, i) && forall q | 0 <= q < |list| :: 0 <= list[q]
    ensures i in list <==> Next(list, cursor) == i
    ensures At(list, if i in list then cursor + 1 else cursor, i + 1)
  {
  }

  lemma CapacityLeft(inst: Instance, sub: KSub)
    requires inst.Usable() && SubOk(inst, sub)
    ensures sub.capBase <= inst.capacity
  {
    EmptySelection(inst);
    SmallerSelection(inst, (j: int) => false, ListSel(sub.inList));
  }

  /** The initial sequence: as much as comes before all forced items and is light enough to leave room for them. */
  method InitialSequence(inst: Instance, sub: KSub, w: seq<real>, v: seq<real>, fitSize: nat) returns (i: nat)
    requires inst.Usable() && SubOk(inst, sub) && sub.capBase >= 0.0 && Tables(inst, w, v, fitSize)
    ensures i <= |inst.item| && (forall j | 0 <= j < i :: Free(sub, j)) && w[i] <= sub.capBase
    ensures At(sub.inList, 0, i) && At(sub.outList, 0, i)
    ensures i < |inst.item| && Free(sub, i) ==> w[i + 1] > sub.capBase
  {
    var r := fitSize;
    if Next(sub.inList, 0) != NO_ITEM && Next(sub.inList, 0) < r {
      r := Next(sub.inList, 0);
    }
    if Next(sub.outList, 0) != NO_ITEM && Next(sub.outList, 0) < r {
      r := Next(sub.outList, 0);
    }
    FirstIsEmpty(inst);
    forall k, l | 0 <= k <= l < |w| ensures w[k] <= w[l] {
      FirstIncreases(inst, k, l);
    }
    CapacityLeft(inst, sub);
    i := FitSequence(w, sub.capBase, r);
  }

  /** The items of `wsol` are all those before `i` that are not forced out. */
  ghost predicate Packed(items: seq<int>, sub: KSub, i: int) {
    forall j :: j in items <==> 0 <= j < i && j !in sub.outList
  }

  /** `g` is what remains of the greedy packing `all` after `done`. */
  ghost predicate Remains(all: Fill, done: seq<int>, g: Fill) { all == g.(taken := done + g.taken) }

  /** Where the loop over the items stands: those before `i` are dealt with. */
  ghost predicate Filling(inst: Instance, sub: KSub, items: seq<int>, last: int, i: nat, space: real, inCursor: nat,
                          outCursor: nat, done: seq<int>, all: Fill) {
    && i <= |inst.item| && space >= 0.0 && last < i && Packed(items, sub, i)
    && At(sub.inList, inCursor, i) && At(sub.outList, outCursor, i)
    && Remains(all, done, Greedy(inst, sub, i, space))
  }

  /** The loop has come to an end. */
  ghost predicate Filled(sub: KSub, items: seq<int>, last: int, stop: nat, split: bool, space: real, inCursor: nat,
                         done: seq<int>, all: Fill) {
    && last < stop && Packed(items, sub, stop) && At(sub.inList, inCursor, stop)
    && all == Fill(done, stop, split, space)
  }

  /** One round of the loop over the items that are not in the initial sequence. */
  method ConsiderItem(inst: Instance, sub: KSub, wsol: BinKnapSolution, i: nat, space0: real, inCursor0: nat,
                      outCursor0: nat, inNotForced0: seq<int>, ghost all: Fill)
    returns (space: real, inCursor: nat, outCursor: nat, inNotForced: seq<int>, split: bool)
    requires inst.Usable() && SubOk(inst, sub) && wsol.Valid() && wsol.inst == inst
    requires Filling(inst, sub, wsol.Items(), wsol.lastItem, i, space0, inCursor0, outCursor0, inNotForced0, all)
    requires i < |inst.item| && space0 > 0.0
    modifies wsol
    ensures wsol.Valid()
    ensures split ==> Filled(sub, wsol.Items(), wsol.lastItem, i, true, space, inCursor, inNotForced, all)
    ensures !split ==>
              Filling(inst, sub, wsol.Items(), wsol.lastItem, i + 1, space, inCursor, outCursor, inNotForced, all)
  {
    space, inCursor, outCursor, inNotForced, split := space0, inCursor0, outCursor0, inNotForced0, false;
    AdvanceCursor(sub.inList, inCursor0, i);
    AdvanceCursor(sub.outList, outCursor0, i);
    if i == Next(sub.outList, outCursor) {
      outCursor := outCursor + 1;
    } else if i == Next(sub.inList, inCursor) {
      wsol.AddItem(i);
      inCursor := inCursor + 1;
    } else if inst.item[i].weight > space {
      split := true;
      assert inNotForced + [] == inNotForced;
    } else {
      wsol.AddItem(i);
      space := space - inst.item[i].weight;
      inNotForced := inNotForced + [i];
      ghost var g := Greedy(inst, sub, i + 1, space);
      assert inNotForced0 + ([i] + g.taken) == inNotForced + g.taken;
    }
  }

  lemma FillingEnds(inst: Instance, sub: KSub, items: seq<int>, last: int, i: nat, space: real, inCursor: nat,
                    outCursor: nat, done: seq<int>, all: Fill)
    requires Filling(inst, sub, items, last, i, space, inCursor, outCursor, done, all)
    requires i == |inst.item| || space <= 0.0
    ensures Filled(sub, items, last, i, false, space, inCursor, done, all)
  {
    assert done + [] == done;
  }

  /** The loop over the items not in the initial sequence, up to the first that does not fit. */
  method FillUp(inst: Instance, sub: KSub, wsol: BinKnapSolution, i0: nat, space0: real, ghost all: Fill)
    returns (stop: nat, split: bool, space: real, inNotForced: seq<int>, inCursor: nat)
    requires inst.Usable() && SubOk(inst, sub) && wsol.Valid() && wsol.inst == inst
    requires Filling(inst, sub, wsol.Items(), wsol.lastItem, i0, space0, 0, 0, [], all)
    modifies wsol
    ensures wsol.Valid()
    ensures Filled(sub, wsol.Items(), wsol.lastItem, stop, split, space, inCursor, inNotForced, all)
  {
    var outCursor := 0;
    stop, split, space, inNotForced, inCursor := i0, false, space0, [], 0;
    while stop < |inst.item| && space > 0.0
      invariant wsol.Valid() && wsol.inst == inst && !split && stop <= |inst.item|
      invariant Filling(inst, sub, wsol.Items(), wsol.lastItem, stop, space, inCursor, outCursor, inNotForced, all)
      decreases |inst.item| - stop
    {
      space, inCursor, outCursor, inNotForced, split :=
        ConsiderItem(inst, sub, wsol, stop, space, inCursor, outCursor, inNotForced, all);
      if split {
        return;
      }
      stop := stop + 1;
    }
    FillingEnds(inst, sub, wsol.Items(), wsol.lastItem, stop, space, inCursor, outCursor, inNotForced, all);
  }

  /** `items` is `before` with the stretch of the list from `c0` to `c`. */
  ghost predicate Extended(before: seq<int>, list: seq<int>, c0: nat, c: nat, items: seq<int>, last: int) {
    && c0 <= c <= |list| && (forall j :: j in items <==> j in before || j in list[c0..c])
    && (c < |list| ==> last < list[c])
  }

  lemma ExtendStep(before: seq<int>, list: seq<int>, c0: nat, c: nat, items: seq<int>, last: int)
    requires Sorted(list) && Extended(before, list, c0, c, items, last) && c < |list|
    ensures Extended(before, list, c0, c + 1, items + [list[c]], list[c])
  {
    assert list[c0..c + 1] == list[c0..c] + [list[c]];
  }

  /** Adds the items of the list from `c0` on. */
  method AddAll(inst: Instance, list: seq<int>, c0: nat, wsol: BinKnapSolution)
    requires Sorted(list) && Items(inst, list) && wsol.Valid() && wsol.inst == inst && c0 <= |list|
    requires c0 < |list| ==> wsol.lastItem < list[c0]
    modifies wsol
    ensures wsol.Valid() && Extended(old(wsol.Items()), list, c0, |list|, wsol.Items(), wsol.lastItem)
  {
    var cursor := c0;
    ghost var before := wsol.Items();
    while Next(list, cursor) != NO_ITEM
      invariant wsol.Valid() && Extended(before, list, c0, cursor, wsol.Items(), wsol.lastItem)
      decreases |list| - cursor
    {
      ghost var items, last := wsol.Items(), wsol.lastItem;
      AddNext(inst, list, cursor, wsol);
      ExtendStep(before, list, c0, cursor, items, last);
      cursor := cursor + 1;
    }
    assert cursor == |list|;
  }

  method AddNext(inst: Instance, list: seq<int>, cursor: nat, wsol: BinKnapSolution)
    requires wsol.Valid() && wsol.inst == inst && Items(inst, list) && cursor < |list| && wsol.lastItem < list[cursor]
    modifies wsol
    ensures wsol.Valid() && wsol.Items() == old(wsol.Items()) + [list[cursor]] && wsol.lastItem == list[cursor]
  {
    wsol.AddItem(list[cursor]);
  }

  /** Adds the forced-in items that are left. */
  method AddForced(inst: Instance, sub: KSub, wsol: BinKnapSolution, stop: nat, inCursor: nat)
    requires SubOk(inst, sub) && wsol.Valid() && wsol.inst == inst && wsol.lastItem < stop
    requires Packed(wsol.Items(), sub, stop) && At(sub.inList, inCursor, stop)
    modifies wsol
    ensures wsol.Valid()
    ensures forall j :: j in wsol.Items() <==> j in sub.inList || (0 <= j < stop && j !in sub.outList)
  {
    ghost var before := wsol.Items();
    AddAll(inst, sub.inList, inCursor, wsol);
    ForcedDone(inst, sub, before, stop, inCursor, wsol.Items(), wsol.lastItem);
  }

  lemma ForcedDone(inst: Instance, sub: KSub, before: seq<int>, stop: int, cursor: nat, items: seq<int>, last: int)
    requires SubOk(inst, sub) && Packed(before, sub, stop) && At(sub.inList, cursor, stop)
    requires Extended(before, sub.inList, cursor, |sub.inList|, items, last)
    ensures forall j :: j in items <==> j in sub.inList || (0 <= j < stop && j !in sub.outList)
  {
    assert sub.inList[cursor..|sub.inList|] == sub.inList[cursor..];
    RestOfForced(sub, before, stop, cursor);
  }

  lemma RestOfForced(sub: KSub, before: seq<int>, stop: int, cursor: nat)
    requires Packed(before, sub, stop) && At(sub.inList, cursor, stop)
    requires forall j | j in sub.inList :: 0 <= j && j !in sub.outList
    ensures forall j :: j in before || j in sub.inList[cursor..] <==> j in sub.inList || (0 <= j < stop && j !in sub.outList)
  {
    assert sub.inList == sub.inList[..cursor] + sub.inList[cursor..];
    assert forall q | 0 <= q < cursor :: sub.inList[q] in sub.inList;
    assert forall j | j in sub.inList[..cursor] :: j < stop;
  }

  /** Packs the initial sequence and the free items that fit. */
  method PackFree(inst: Instance, sub: KSub, wsol: BinKnapSolution, w: seq<real>, v: seq<real>, i: nat)
    returns (stop: nat, split: bool, space: real, inNotForced: seq<int>, inCursor: nat)
    requires inst.Usable() && SubOk(inst, sub) && wsol.inst == inst && PartialSums(inst, w, v) && i <= |inst.item|
    requires w[i] <= sub.capBase && (forall j | 0 <= j < i :: Free(sub, j))
    requires At(sub.inList, 0, i) && At(sub.outList, 0, i)
    modifies wsol
    ensures wsol.Valid()
    ensures Filled(sub, wsol.Items(), wsol.lastItem, stop, split, space, inCursor, inNotForced,
                   Greedy(inst, sub, i, sub.capBase - w[i]))
  {
    wsol.Reset(i, w, v);
    StartFilling(inst, sub, i, sub.capBase - w[i]);
    ghost var all := Greedy(inst, sub, i, sub.capBase - w[i]);
    stop, split, space, inNotForced, inCursor := FillUp(inst, sub, wsol, i, sub.capBase - w[i], all);
  }

  /** The part of `boundComputation` that packs the working solution. */
  method PackGreedily(inst: Instance, sub: KSub, wsol: BinKnapSolution, w: seq<real>, v: seq<real>, fitSize: nat)
    returns (i: nat, stop: nat, split: bool, space: real, inNotForced: seq<int>)
    requires inst.Usable() && SubOk(inst, sub) && sub.capBase >= 0.0 && wsol.inst == inst
    requires Tables(inst, w, v, fitSize)
    modifies wsol
    ensures wsol.Valid() && Packing(inst, sub) == Fill(Numbers(i) + inNotForced, stop, split, space)
    ensures i == Initial(inst, sub) && inNotForced == Later(inst, sub)
    ensures forall j :: j in wsol.Items() <==> j in sub.inList || (0 <= j < stop && j !in sub.outList)
  {
    i := InitialSequence(inst, sub, w, v, fitSize);
    PackingFrom(inst, sub, i);
    var inCursor;
    stop, split, space, inNotForced, inCursor := PackFree(inst, sub, wsol, w, v, i);
    AddForced(inst, sub, wsol, stop, inCursor);
  }

  lemma StartFilling(inst: Instance, sub: KSub, i: nat, space: real)
    requires SubOk(inst, sub) && i <= |inst.item| && (forall j | 0 <= j < i :: Free(sub, j)) && space >= 0.0
    requires At(sub.inList, 0, i) && At(sub.outList, 0, i)
    ensures Filling(inst, sub, Numbers(i), i - 1, i, space, 0, 0, [], Greedy(inst, sub, i, space))
  {
    NumbersMembers(i);
    var g := Greedy(inst, sub, i, space);
    assert [] + g.taken == g.taken;
  }

  /** `boundComputation`: packs greedily and reads off the bound and what to split on. */
  method BoundComputation(inst: Instance, sub: KSub, wsol: BinKnapSolution, w: seq<real>, v: seq<real>, fitSize: nat,
                          enumerating: bool)
    returns (sub': KSub, bound: real, integralityMeasure: real)
    requires inst.Usable() && SubOk(inst, sub) && sub.capBase >= 0.0 && wsol.inst == inst
    requires Tables(inst, w, v, fitSize)
    modifies wsol
    ensures wsol.Valid() && bound == Bound(inst, sub)
    ensures Reached(inst, sub, bound, sub'.splitItem, integralityMeasure)
    ensures inst.Ok() && !Misses(inst, sub) ==> Optimal(inst, sub, bound)
    ensures forall j :: j in wsol.Items() <==> GreedySel(inst, sub)(j)
    ensures sub' == Bounded(inst, sub, enumerating) && SplitItemOk(inst, sub') && (enumerating ==> Split(inst, sub'))
  {
    var i, stop, split, space, inNotForced := PackGreedily(inst, sub, wsol, w, v, fitSize);
    PackingShape(inst, sub);
    WorkingSolution(inst, sub, wsol.Items());
    bound, integralityMeasure := wsol.value, 0.0;
    sub' := sub.(tSplitInitial := i, splitItem := if split then stop else TERMINAL);
    if !split {
      if enumerating {
        sub' := sub'.(tSplitGenItem := inNotForced);
      }
    } else {
      integralityMeasure := space / inst.item[stop].weight;
      bound := bound + Times(integralityMeasure, inst.item[stop].value);
    }
    BoundedSplits(inst, sub, enumerating);
    BoundIsReached(inst, sub);
    if inst.Ok() {
      BoundIsRelaxedOptimum(inst, sub);
    }
  }

  /** What the loops have packed is the greedy packing. */
  lemma WorkingSolution(inst: Instance, sub: KSub, items: seq<int>)
    requires inst.Usable() && SubOk(inst, sub) && sub.capBase >= 0.0
    requires var stop := Packing(inst, sub).stop;
             forall j :: j in items <==> j in sub.inList || (0 <= j < stop && j !in sub.outList)
    ensures forall j :: j in items <==> GreedySel(inst, sub)(j)
    ensures ValueOf(inst, ListSel(items)) == ValueOf(inst, GreedySel(inst, sub))
  {
    PackingShape(inst, sub);
    SameSelection(inst, ListSel(items), GreedySel(inst, sub));
  }
}
