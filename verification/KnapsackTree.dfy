/** How a knapsack subproblem splits: on a fractional item, or for enumeration on the items of a
    terminal solution. */
module KnapsackTree {
  import opened Knapsack

  /** The sorted list with `x` added, as `growList` builds it. */
  function Insert(list: seq<int>, x: int): (r: seq<int>)
    ensures |r| == |list| + 1
  {
    if list == [] || x <= list[0] then [x] + list else [list[0]] + Insert(list[1..], x)
  }

  function InsertAll(list: seq<int>, xs: seq<int>): (r: seq<int>)
    ensures |r| == |list| + |xs|
  {
    if xs == [] then list else Insert(InsertAll(list, xs[..|xs| - 1]), xs[|xs| - 1])
  }

  lemma {:induction false} InsertKeepsSorted(list: seq<int>, x: int)
    requires Sorted(list) && x !in list
    ensures Sorted(Insert(list, x))
    ensures forall j :: j in Insert(list, x) <==> j == x || j in list
  {
    if list != [] {
      assert forall j :: j in list <==> j == list[0] || j in list[1..];
      if x > list[0] {
        InsertKeepsSorted(list[1..], x);
        var rest := Insert(list[1..], x);
        assert forall i | 0 <= i < |rest| :: rest[i] in rest;
        assert forall j | j in list[1..] :: list[0] < j;
      }
    }
  }

  lemma {:induction false} InsertAllKeepsSorted(list: seq<int>, xs: seq<int>)
    requires Sorted(list) && Sorted(xs) && forall j | j in list :: j !in xs
    ensures Sorted(InsertAll(list, xs))
    ensures forall j :: j in InsertAll(list, xs) <==> j in list || j in xs
  {
    if xs != [] {
      var front, last := xs[..|xs| - 1], xs[|xs| - 1];
      assert forall j :: j in xs <==> j in front || j == last;
      InsertAllKeepsSorted(list, front);
      assert last in xs;
      InsertKeepsSorted(InsertAll(list, front), last);
    }
  }

  /** Sorted lists are determined by their members. */
  lemma {:induction false} SortedUnique(a: seq<int>, b: seq<int>)
    requires Sorted(a) && Sorted(b) && forall j :: j in a <==> j in b
    ensures a == b
  {
    assert b != [] ==> b[0] in b;
    if a != [] {
      assert a[0] in a;
      assert a[0] in b && b[0] in a;
      assert forall j :: j in a <==> j == a[0] || j in a[1..];
      assert forall j :: j in b <==> j == b[0] || j in b[1..];
      assert a[0] == b[0];
      assert a[0] !in a[1..] && b[0] !in b[1..];
      SortedUnique(a[1..], b[1..]);
    }
  }

  function WeightAt(inst: Instance, j: int): real { if 0 <= j < |inst.item| then inst.item[j].weight else 0.0 }

  /** `cap` less the weights of the items listed. */
  function Rest(inst: Instance, list: seq<int>, cap: real): real {
    if list == [] then cap else Rest(inst, list[..|list| - 1], cap) - WeightAt(inst, list[|list| - 1])
  }

  /** The packed items that come after the initial sequence. */
  function Later(inst: Instance, sub: KSub): seq<int> { StartFrom(inst, sub, 0, sub.capBase).rest.taken }

  /** What bounding leaves in a subproblem.  Only an enumeration will split it without a split item, and only for
      that are the packed items stored. */
  function Bounded(inst: Instance, sub: KSub, enumerating: bool): KSub {
    var r := Packing(inst, sub);
    sub.(splitItem := if r.split then r.stop else TERMINAL, tSplitInitial := Initial(inst, sub),
         tSplitGenItem := if !r.split && enumerating then Later(inst, sub) else sub.tSplitGenItem)
  }

  /** The subproblem remembers where its packing stopped. */
  predicate SplitItemOk(inst: Instance, sub: KSub) {
    && SubOk(inst, sub) && sub.capBase >= 0.0 && sub.tSplitInitial == Initial(inst, sub)
    && sub.splitItem == if Packing(inst, sub).split then Packing(inst, sub).stop else TERMINAL
  }

  /** It is ready to be split: without a split item it also remembers what was packed. */
  predicate Split(inst: Instance, sub: KSub) {
    SplitItemOk(inst, sub) && (sub.splitItem == TERMINAL ==> sub.tSplitGenItem == Later(inst, sub))
  }

  /** The packing looks at nothing but the lists and the space. */
  lemma {:induction false} GreedySame(inst: Instance, a: KSub, b: KSub, k: nat, space: real)
    requires k <= |inst.item| && a.inList == b.inList && a.outList == b.outList
    ensures Greedy(inst, a, k, space) == Greedy(inst, b, k, space)
    decreases |inst.item| - k
  {
    if k < |inst.item| && space > 0.0 {
      GreedySame(inst, a, b, k + 1, space);
      GreedySame(inst, a, b, k + 1, space - inst.item[k].weight);
    }
  }

  lemma {:induction false} StartSame(inst: Instance, a: KSub, b: KSub, k: nat, space: real)
    requires k <= |inst.item| && a.inList == b.inList && a.outList == b.outList
    ensures StartFrom(inst, a, k, space) == StartFrom(inst, b, k, space)
    decreases |inst.item| - k
  {
    GreedySame(inst, a, b, k, space);
    if k < |inst.item| {
      StartSame(inst, a, b, k + 1, space - inst.item[k].weight);
    }
  }

  lemma BoundedSplits(inst: Instance, sub: KSub, enumerating: bool)
    requires inst.Usable() && SubOk(inst, sub) && sub.capBase >= 0.0
    ensures var next := Bounded(inst, sub, enumerating);
            && SplitItemOk(inst, next) && (enumerating ==> Split(inst, next))
            && Packing(inst, next) == Packing(inst, sub)
  {
    PackingShape(inst, sub);
    StartSame(inst, sub, Bounded(inst, sub, enumerating), 0, sub.capBase);
  }

  function Children(sub: KSub): nat {
    if sub.splitItem == TERMINAL then sub.tSplitInitial + |sub.tSplitGenItem| else 2
  }

  /** The first `k` items of the terminal solution that are not forced in. */
  function TSplitItems(sub: KSub, k: nat): seq<int>
    requires k <= sub.tSplitInitial + |sub.tSplitGenItem|
  {
    seq(k, i requires 0 <= i < k => TSplitItem(sub, i))
  }

  /** `binKnapSubAsChildOf`: child `i`. */
  function ChildOf(inst: Instance, sub: KSub, i: nat): KSub
    requires i < Children(sub)
  {
    if sub.splitItem == TERMINAL then
      var ins := TSplitItems(sub, i);
      KSub(InsertAll(sub.inList, ins), Insert(sub.outList, TSplitItem(sub, i)), Rest(inst, ins, sub.capBase), NOT_SPLIT, 0, [])
    else if i == 0 then
      KSub(Insert(sub.inList, sub.splitItem), sub.outList, sub.capBase - WeightAt(inst, sub.splitItem), NOT_SPLIT, 0, [])
    else
      KSub(sub.inList, Insert(sub.outList, sub.splitItem), sub.capBase, NOT_SPLIT, 0, [])
  }

  lemma TSplitIsTaken(inst: Instance, sub: KSub)
    requires inst.Usable() && Split(inst, sub) && sub.splitItem == TERMINAL
    ensures var r := Packing(inst, sub);
            && sub.tSplitInitial + |sub.tSplitGenItem| == |r.taken|
            && (forall i | 0 <= i < |r.taken| :: TSplitItem(sub, i) == r.taken[i])
            && (forall k | 0 <= k <= |r.taken| :: TSplitItems(sub, k) == r.taken[..k])
            && Items(inst, r.taken)
  {
    PackingShape(inst, sub);
    var taken := Packing(inst, sub).taken;
    assert forall i | 0 <= i < |taken| :: taken[i] in taken;
    assert taken == Numbers(sub.tSplitInitial) + sub.tSplitGenItem;
  }

  /** The terminal solution. */
  function GreedySolution(inst: Instance, sub: KSub): seq<bool> {
    var r := Packing(inst, sub);
    seq(|inst.item|, j => j in sub.inList || j in r.taken)
  }

  /** A terminal subproblem attains its bound. */
  lemma TerminalAttainsBound(inst: Instance, sub: KSub)
    requires inst.Usable() && SubOk(inst, sub) && sub.capBase >= 0.0 && !Packing(inst, sub).split
    ensures Covers(inst, sub, GreedySolution(inst, sub))
    ensures ValueOf(inst, Sel(GreedySolution(inst, sub))) == Bound(inst, sub)
  {
    PackingShape(inst, sub);
    GreedyWeight(inst, sub);
    SameSelection(inst, Sel(GreedySolution(inst, sub)), GreedySel(inst, sub));
  }

  /** `s` packs the first `k` items of the list and not the next one. */
  predicate FirstMissing(taken: seq<int>, k: int, s: seq<bool>) {
    && 0 <= k < |taken| && (forall i | 0 <= i < k :: 0 <= taken[i] < |s| && s[taken[i]])
    && 0 <= taken[k] < |s| && !s[taken[k]]
  }

  lemma {:induction false} MissingOrAll(taken: seq<int>, m: nat, s: seq<bool>)
    requires m <= |taken| && forall i | 0 <= i < |taken| :: 0 <= taken[i] < |s|
    ensures (exists k :: 0 <= k < m && FirstMissing(taken, k, s)) || forall i | 0 <= i < m :: s[taken[i]]
  {
    if m > 0 {
      MissingOrAll(taken, m - 1, s);
      if forall i | 0 <= i < m - 1 :: s[taken[i]] {
        assert s[taken[m - 1]] || FirstMissing(taken, m - 1, s);
      }
    }
  }

  lemma LeftOutWeighs(inst: Instance, sub: KSub, j: int)
    requires inst.Ok() && sub.capBase >= 0.0 && !Misses(inst, sub)
    requires Free(sub, j) && 0 <= j < |inst.item| && Packing(inst, sub).stop <= j
    ensures inst.item[j].weight > 0.0
  {
    if inst.item[j].weight == 0.0 {
      if sub.capBase == 0.0 {
        WithoutSpace(inst, sub);
      } else {
        StopWeighs(inst, sub);
        PackingShape(inst, sub);
        WeightlessFirst(inst, Packing(inst, sub).stop, j);
      }
    }
  }

  /** A solution of a terminal subproblem that packs all of the terminal solution is that solution. */
  lemma NothingElseFits(inst: Instance, sub: KSub, s: seq<bool>)
    requires inst.Ok() && SubOk(inst, sub) && sub.capBase >= 0.0 && Covers(inst, sub, s) && !Misses(inst, sub)
    requires var r := Packing(inst, sub);
             !r.split && forall j | j in r.taken :: 0 <= j < |s| && s[j]
    ensures s == GreedySolution(inst, sub)
  {
    var r, t := Packing(inst, sub), GreedySolution(inst, sub);
    PackingShape(inst, sub);
    GreedyWeight(inst, sub);
    SameSelection(inst, Sel(t), GreedySel(inst, sub));
    forall j | 0 <= j < |s| ensures s[j] == t[j] {
      if s[j] && !t[j] {
        LeftOutWeighs(inst, sub, j);
        var more := (i: int) => i == j || Sel(t)(i);
        AddToSelection(inst, Sel(t), more, j);
        SmallerSelection(inst, more, Sel(s));
      }
    }
  }

  /** The children of a terminal subproblem share out its solutions, except the terminal one. */
  lemma TerminalPartition(inst: Instance, sub: KSub, s: seq<bool>)
    requires inst.Ok() && SubOk(inst, sub) && sub.capBase >= 0.0 && Covers(inst, sub, s) && !Misses(inst, sub)
    requires !Packing(inst, sub).split
    ensures var taken := Packing(inst, sub).taken;
            && (s != GreedySolution(inst, sub) <==> exists k :: 0 <= k < |taken| && FirstMissing(taken, k, s))
            && (forall k, l | FirstMissing(taken, k, s) && FirstMissing(taken, l, s) :: k == l)
  {
    var taken := Packing(inst, sub).taken;
    PackingShape(inst, sub);
    assert forall i | 0 <= i < |taken| :: taken[i] in taken;
    MissingOrAll(taken, |taken|, s);
    if forall i | 0 <= i < |taken| :: s[taken[i]] {
      NothingElseFits(inst, sub, s);
    }
  }

  /** They do so exactly where the bound is valid: what it misses is in no child either. */
  lemma TerminalPartitionExactly(inst: Instance, sub: KSub)
    requires inst.Ok() && SubOk(inst, sub) && sub.capBase >= 0.0 && !Packing(inst, sub).split
    ensures var taken := Packing(inst, sub).taken;
            (forall s | Covers(inst, sub, s) && s != GreedySolution(inst, sub) ::
               exists k :: 0 <= k < |taken| && FirstMissing(taken, k, s)) <==> !Misses(inst, sub)
  {
    var taken := Packing(inst, sub).taken;
    if Misses(inst, sub) {
      var s := LostSolution(inst, sub);
      forall k | 0 <= k < |taken| ensures !FirstMissing(taken, k, s) {
        assert taken[k] in taken;
      }
    } else {
      forall s | Covers(inst, sub, s) && s != GreedySolution(inst, sub)
        ensures exists k :: 0 <= k < |taken| && FirstMissing(taken, k, s)
      {
        TerminalPartition(inst, sub, s);
      }
    }
  }

  lemma LostSolution(inst: Instance, sub: KSub) returns (s: seq<bool>)
    requires inst.Ok() && SubOk(inst, sub) && Misses(inst, sub)
    ensures Covers(inst, sub, s) && s != GreedySolution(inst, sub)
    ensures forall j | j in Packing(inst, sub).taken :: 0 <= j < |s| && s[j]
    ensures ValueOf(inst, Sel(s)) > Bound(inst, sub)
  {
    s := MissedSolution(inst, sub);
    WithoutSpace(inst, sub);
    PackingShape(inst, sub);
    TerminalAttainsBound(inst, sub);
  }

  lemma {:induction false} RestWeight(inst: Instance, list: seq<int>, xs: seq<int>, cap: real)
    requires Items(inst, xs) && Sorted(list) && Sorted(xs) && forall j | j in list :: j !in xs
    requires cap == inst.capacity - WeightOf(inst, ListSel(list))
    ensures Rest(inst, xs, cap) == inst.capacity - WeightOf(inst, ListSel(InsertAll(list, xs)))
  {
    if xs != [] {
      var front, last := xs[..|xs| - 1], xs[|xs| - 1];
      assert forall j :: j in xs <==> j in front || j == last;
      assert last in xs;
      RestWeight(inst, list, front, cap);
      InsertAllKeepsSorted(list, front);
      InsertWeight(inst, InsertAll(list, front), last);
    }
  }

  lemma InsertWeight(inst: Instance, list: seq<int>, x: int)
    requires Sorted(list) && x !in list && 0 <= x < |inst.item|
    ensures WeightOf(inst, ListSel(Insert(list, x))) == WeightOf(inst, ListSel(list)) + inst.item[x].weight
  {
    InsertKeepsSorted(list, x);
    AddToSelection(inst, ListSel(list), ListSel(Insert(list, x)), x);
  }

  /** Child `i` is a proper subproblem, and its solutions are those of its parent that decide the split
      item its way, or that pack the first `i` items of the terminal solution but not the next. */
  ghost predicate ChildGood(inst: Instance, sub: KSub, i: nat, s: seq<bool>)
    requires i < Children(sub)
  {
    var c, taken := ChildOf(inst, sub, i), Packing(inst, sub).taken;
    && SubOk(inst, c)
    && (Covers(inst, c, s) <==>
        && Covers(inst, sub, s)
        && if sub.splitItem == TERMINAL then FirstMissing(taken, i, s)
           else 0 <= sub.splitItem < |s| && s[sub.splitItem] == (i == 0))
  }

  lemma FractionalChild(inst: Instance, sub: KSub, i: nat, s: seq<bool>)
    requires inst.Usable() && Split(inst, sub) && i < Children(sub) && sub.splitItem != TERMINAL
    ensures ChildGood(inst, sub, i, s)
  {
    PackingShape(inst, sub);
    if i == 0 {
      InsertKeepsSorted(sub.inList, sub.splitItem);
      InsertWeight(inst, sub.inList, sub.splitItem);
      InsertedItems(inst, sub.inList, sub.splitItem);
    } else {
      InsertKeepsSorted(sub.outList, sub.splitItem);
      InsertedItems(inst, sub.outList, sub.splitItem);
    }
  }

  lemma InsertedItems(inst: Instance, list: seq<int>, x: int)
    requires Sorted(list) && Items(inst, list) && 0 <= x < |inst.item| && x !in list
    ensures Items(inst, Insert(list, x))
  {
    InsertKeepsSorted(list, x);
    var r := Insert(list, x);
    assert forall i | 0 <= i < |r| :: r[i] in r;
  }

  lemma MembersInRange(inst: Instance, list: seq<int>)
    requires forall j | j in list :: 0 <= j < |inst.item|
    ensures Items(inst, list)
  {
    assert forall i | 0 <= i < |list| :: list[i] in list;
  }

  /** The lists of a terminal subproblem's child. */
  lemma TerminalChildLists(inst: Instance, sub: KSub, taken: seq<int>, i: nat)
    requires SubOk(inst, sub) && Sorted(taken) && i < |taken|
    requires forall j | j in taken :: Free(sub, j) && 0 <= j < |inst.item|
    ensures var ins, outs := InsertAll(sub.inList, taken[..i]), Insert(sub.outList, taken[i]);
            && Sorted(ins) && Sorted(outs)
            && (forall j :: j in ins <==> j in sub.inList || j in taken[..i])
            && (forall j :: j in outs <==> j in sub.outList || j == taken[i])
            && taken[i] !in taken[..i]
  {
    var front, x := taken[..i], taken[i];
    assert x in taken && x !in front && forall j | j in front :: j in taken;
    InsertAllKeepsSorted(sub.inList, front);
    InsertKeepsSorted(sub.outList, x);
  }

  lemma TerminalChildOk(inst: Instance, sub: KSub, taken: seq<int>, i: nat)
    requires SubOk(inst, sub) && Sorted(taken) && i < |taken|
    requires forall j | j in taken :: Free(sub, j) && 0 <= j < |inst.item|
    ensures SubOk(inst, KSub(InsertAll(sub.inList, taken[..i]), Insert(sub.outList, taken[i]),
                             Rest(inst, taken[..i], sub.capBase), NOT_SPLIT, 0, []))
  {
    TerminalChildLists(inst, sub, taken, i);
    var front, x := taken[..i], taken[i];
    assert x in taken && forall j | j in front :: j in taken;
    MembersInRange(inst, front);
    RestWeight(inst, sub.inList, front, sub.capBase);
    RangesKept(inst, sub.inList, InsertAll(sub.inList, front), front);
    RangesKept(inst, sub.outList, Insert(sub.outList, x), [x]);
  }

  lemma RangesKept(inst: Instance, list: seq<int>, bigger: seq<int>, xs: seq<int>)
    requires Items(inst, list) && Items(inst, xs) && forall j | j in bigger :: j in list || j in xs
    ensures Items(inst, bigger)
  {
    MembersInRange(inst, bigger);
  }

  lemma ObeysTerminalChild(sub: KSub, c: KSub, taken: seq<int>, i: nat, s: seq<bool>)
    requires i < |taken| && forall j | j in taken :: 0 <= j < |s|
    requires forall j :: j in c.inList <==> j in sub.inList || j in taken[..i]
    requires forall j :: j in c.outList <==> j in sub.outList || j == taken[i]
    ensures Obeys(c, s) <==> Obeys(sub, s) && FirstMissing(taken, i, s)
  {
    assert forall k | 0 <= k < i :: taken[k] in taken[..i] && taken[k] in taken;
    var x := taken[i];
    assert x in taken && (x in c.outList <==> x in sub.outList || x == taken[i]);
    assert forall j | j in taken[..i] :: j in taken;
    assert forall j | j in taken[..i] :: exists k :: 0 <= k < i && taken[k] == j;
  }

  lemma TerminalChild(inst: Instance, sub: KSub, i: nat, s: seq<bool>)
    requires inst.Usable() && Split(inst, sub) && i < Children(sub) && sub.splitItem == TERMINAL
    ensures ChildGood(inst, sub, i, s)
  {
    PackingShape(inst, sub);
    TSplitIsTaken(inst, sub);
    var taken := Packing(inst, sub).taken;
    TerminalChildLists(inst, sub, taken, i);
    TerminalChildOk(inst, sub, taken, i);
    if |s| == |inst.item| {
      ObeysTerminalChild(sub, ChildOf(inst, sub, i), taken, i, s);
    }
  }
}
