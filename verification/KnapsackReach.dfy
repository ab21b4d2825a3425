/** Which subproblems an enumeration can reach, and for which instances one of them has a wrong bound. */
module KnapsackReach {
  import opened RealSums
  import opened Sums
  import opened Knapsack
  import opened KnapsackTree
  import opened KnapsackCode

  function RootData(inst: Instance): KSub { KSub([], [], inst.capacity, NOT_SPLIT, 0, []) }

  // ---------- Free items ----------

  function FreeCount(inst: Instance, sub: KSub): nat {
    if |sub.inList| + |sub.outList| <= |inst.item| then |inst.item| - |sub.inList| - |sub.outList| else 0
  }

  lemma {:induction false} SortedSize(a: seq<int>)
    requires Sorted(a)
    ensures |set x | x in a| == |a|
  {
    if a != [] {
      var front, last := a[..|a| - 1], a[|a| - 1];
      SortedSize(front);
      assert (set x | x in a) == (set x | x in front) + {last};
    }
  }

  ghost function Range(n: nat): (r: set<int>)
    ensures |r| == n && forall x :: x in r <==> 0 <= x < n
  {
    if n == 0 then {} else Range(n - 1) + {n - 1}
  }

  lemma SetsFit(a: set<int>, b: set<int>, c: set<int>, n: nat)
    requires a !! b && a !! c && b !! c && forall x | x in a || x in b || x in c :: 0 <= x < n
    ensures |a| + |b| + |c| <= n
  {
    assert |a + b + c| == |a| + |b| + |c|;
    SubsetSizes(a + b + c, Range(n));
  }

  /** Disjoint lists of items have no more members than there are items. */
  lemma DisjointFit(inst: Instance, sub: KSub, taken: seq<int>)
    requires SubOk(inst, sub) && Sorted(taken) && forall j | j in taken :: Free(sub, j) && 0 <= j < |inst.item|
    ensures |sub.inList| + |sub.outList| + |taken| <= |inst.item|
  {
    var ins, outs, t := set x | x in sub.inList, set x | x in sub.outList, set x | x in taken;
    SortedSize(sub.inList);
    SortedSize(sub.outList);
    SortedSize(taken);
    SetsFit(ins, outs, t, |inst.item|);
  }

  /** A split that is ready stays as it is when bounded again. */
  lemma BoundedAgain(inst: Instance, sub: KSub)
    requires Split(inst, sub)
    ensures Bounded(inst, sub, true) == sub
  {
  }

  lemma ChildIsProper(inst: Instance, sub: KSub, i: nat)
    requires inst.Usable() && Split(inst, sub) && i < Children(sub)
    ensures SubOk(inst, ChildOf(inst, sub, i))
  {
    if sub.splitItem == TERMINAL {
      TerminalChild(inst, sub, i, []);
    } else {
      FractionalChild(inst, sub, i, []);
    }
  }

  /** What a terminal subproblem forces in leaves room: it is part of the terminal solution. */
  lemma TerminalChildFits(inst: Instance, sub: KSub, i: nat)
    requires inst.Usable() && Split(inst, sub) && i < Children(sub) && sub.splitItem == TERMINAL
    ensures ChildOf(inst, sub, i).capBase >= 0.0
  {
    PackingShape(inst, sub);
    TSplitIsTaken(inst, sub);
    var taken := Packing(inst, sub).taken;
    var c := ChildOf(inst, sub, i);
    ChildIsProper(inst, sub, i);
    TerminalChildLists(inst, sub, taken, i);
    GreedyWeight(inst, sub);
    assert forall j | j in taken[..i] :: j in taken;
    SmallerSelection(inst, ListSel(c.inList), GreedySel(inst, sub));
  }

  // ---------- What can go wrong ----------

  /** Every item that has been decided has weight. */
  predicate DecidedWeigh(inst: Instance, sub: KSub) {
    forall j | 0 <= j < |inst.item| && !Free(sub, j) :: inst.item[j].weight > 0.0
  }

  predicate WeightlessDecided(inst: Instance, sub: KSub) {
    forall j | 0 <= j < |inst.item| && Free(sub, j) :: inst.item[j].weight > 0.0
  }

  predicate TwoWeightless(inst: Instance) {
    |inst.item| >= 2 && inst.item[0].weight == 0.0 && inst.item[1].weight == 0.0
  }

  /** No more than `more` splits on fractional items lead to where all space is used up. */
  predicate Fills(inst: Instance, sub: KSub, more: nat)
    decreases more
  {
    || sub.capBase == 0.0
    || (more > 0 && sub.capBase > 0.0 && var b := Bounded(inst, sub, true);
        b.splitItem != TERMINAL
        && (Fills(inst, ChildOf(inst, b, 0), more - 1) || Fills(inst, ChildOf(inst, b, 1), more - 1)))
  }

  /** Two items need no space, and splits on fractional items can use up all there is. */
  predicate Loses(inst: Instance) {
    TwoWeightless(inst) && Fills(inst, RootData(inst), |inst.item|)
  }

  /** From `sub` on nothing is missed: the items without weight are still together and space will be left, or they
      are all packed, or all decided. */
  predicate Safe(inst: Instance, sub: KSub) {
    || !TwoWeightless(inst)
    || (DecidedWeigh(inst, sub) && !Fills(inst, sub, FreeCount(inst, sub)))
    || (sub.capBase > 0.0 && !Packing(inst, sub).split)
    || WeightlessDecided(inst, sub)
  }

  lemma RootIsSafe(inst: Instance)
    requires inst.Usable()
    ensures SubOk(inst, RootData(inst)) && (Safe(inst, RootData(inst)) <==> !Loses(inst))
  {
    EmptySelection(inst);
    SameSelection(inst, ListSel([]), (j: int) => false);
  }

  lemma SafeMissesNothing(inst: Instance, sub: KSub)
    requires inst.Ok() && SubOk(inst, sub) && Safe(inst, sub)
    ensures !Misses(inst, sub)
  {
    if Misses(inst, sub) {
      MissingNeeds(inst, sub);
    }
  }

  /** An item that is split on does not fit the space left, so it has weight. */
  lemma ChildDecidedWeigh(inst: Instance, sub: KSub, i: nat)
    requires inst.Usable() && Split(inst, sub) && i < Children(sub) && sub.splitItem != TERMINAL
    requires DecidedWeigh(inst, sub)
    ensures DecidedWeigh(inst, ChildOf(inst, sub, i))
  {
    PackingShape(inst, sub);
    InsertKeepsSorted(sub.inList, sub.splitItem);
    InsertKeepsSorted(sub.outList, sub.splitItem);
    var c := ChildOf(inst, sub, i);
    forall j | 0 <= j < |inst.item| && !Free(c, j) ensures inst.item[j].weight > 0.0 {
      assert j == sub.splitItem || !Free(sub, j);
    }
  }

  lemma FractionalKeepsSafe(inst: Instance, sub: KSub, i: nat)
    requires inst.Ok() && Split(inst, sub) && i < Children(sub) && sub.splitItem != TERMINAL
    requires DecidedWeigh(inst, sub) && !Fills(inst, sub, FreeCount(inst, sub))
    ensures Safe(inst, ChildOf(inst, sub, i))
  {
    PackingShape(inst, sub);
    DisjointFit(inst, sub, [sub.splitItem]);
    BoundedAgain(inst, sub);
    ChildDecidedWeigh(inst, sub, i);
    assert FreeCount(inst, ChildOf(inst, sub, i)) == FreeCount(inst, sub) - 1;
  }

  /** Items without weight make no difference to where packing stops. */
  lemma {:induction false} GreedyAlike(inst: Instance, a: KSub, b: KSub, k: nat, space: real)
    requires inst.Usable() && k <= |inst.item|
    requires forall j | 0 <= j < |inst.item| && inst.item[j].weight > 0.0 :: Free(a, j) == Free(b, j)
    ensures Greedy(inst, a, k, space).split == Greedy(inst, b, k, space).split
    decreases |inst.item| - k
  {
    if k < |inst.item| && space > 0.0 {
      GreedyAlike(inst, a, b, k + 1, space);
      GreedyAlike(inst, a, b, k + 1, space - inst.item[k].weight);
    }
  }

  lemma {:induction false} RestOfWeightless(inst: Instance, list: seq<int>, cap: real)
    requires forall j | j in list :: WeightAt(inst, j) == 0.0
    ensures Rest(inst, list, cap) == cap
  {
    if list != [] {
      var front := list[..|list| - 1];
      assert forall j | j in front :: j in list;
      assert list[|list| - 1] in list;
      RestOfWeightless(inst, front, cap);
    }
  }

  /** A child for an item without weight leaves the space, and all the items with weight, to be packed. */
  lemma WeightlessChild(inst: Instance, sub: KSub, i: nat)
    requires inst.Ok() && Split(inst, sub) && i < Children(sub) && sub.splitItem == TERMINAL && sub.capBase > 0.0
    requires WeightAt(inst, TSplitItem(sub, i)) == 0.0
    ensures var c := ChildOf(inst, sub, i); c.capBase == sub.capBase && !Packing(inst, c).split
  {
    PackingShape(inst, sub);
    TSplitIsTaken(inst, sub);
    var taken, c := Packing(inst, sub).taken, ChildOf(inst, sub, i);
    TerminalChildLists(inst, sub, taken, i);
    forall j | j in taken[..i] ensures inst.item[j].weight == 0.0 {
      WeightlessFirst(inst, j, taken[i]);
    }
    RestOfWeightless(inst, taken[..i], sub.capBase);
    PackingIsGreedy(inst, sub);
    PackingIsGreedy(inst, c);
    GreedyAlike(inst, sub, c, 0, sub.capBase);
  }

  /** With space, all free items without weight are packed. */
  lemma WeightlessIsTaken(inst: Instance, sub: KSub, j: int)
    requires inst.Ok() && sub.capBase > 0.0 && 0 <= j < |inst.item| && inst.item[j].weight == 0.0 && Free(sub, j)
    ensures j in Packing(inst, sub).taken
  {
    PackingShape(inst, sub);
    if Packing(inst, sub).stop <= j {
      LeftOutWeighs(inst, sub, j);
    }
  }

  lemma BeforeWeighty(inst: Instance, taken: seq<int>, i: nat, j: int)
    requires inst.Ok() && Sorted(taken) && Items(inst, taken) && i < |taken| && j in taken
    requires inst.item[taken[i]].weight != 0.0 && inst.item[j].weight == 0.0
    ensures j in taken[..i]
  {
    var k :| 0 <= k < |taken| && taken[k] == j;
    if i <= k {
      WeightlessFirst(inst, taken[i], j);
    } else {
      assert taken[..i][k] == j;
    }
  }

  /** A child for an item with weight has all items without weight behind it. */
  lemma WeightyChild(inst: Instance, sub: KSub, i: nat)
    requires inst.Ok() && Split(inst, sub) && i < Children(sub) && sub.splitItem == TERMINAL && sub.capBase > 0.0
    requires WeightAt(inst, TSplitItem(sub, i)) != 0.0
    ensures WeightlessDecided(inst, ChildOf(inst, sub, i))
  {
    PackingShape(inst, sub);
    TSplitIsTaken(inst, sub);
    var taken, c := Packing(inst, sub).taken, ChildOf(inst, sub, i);
    TerminalChildLists(inst, sub, taken, i);
    forall j | 0 <= j < |inst.item| && inst.item[j].weight == 0.0 ensures !Free(c, j) {
      if Free(sub, j) {
        WeightlessIsTaken(inst, sub, j);
        BeforeWeighty(inst, taken, i, j);
      }
    }
  }

  lemma ChildStaysDecided(inst: Instance, sub: KSub, i: nat)
    requires inst.Ok() && Split(inst, sub) && i < Children(sub) && WeightlessDecided(inst, sub)
    ensures WeightlessDecided(inst, ChildOf(inst, sub, i))
  {
    PackingShape(inst, sub);
    if sub.splitItem == TERMINAL {
      TSplitIsTaken(inst, sub);
      TerminalChildLists(inst, sub, Packing(inst, sub).taken, i);
    } else {
      InsertKeepsSorted(sub.inList, sub.splitItem);
      InsertKeepsSorted(sub.outList, sub.splitItem);
    }
  }

  /** What is safe has safe children. */
  lemma ChildIsSafe(inst: Instance, sub: KSub, i: nat)
    requires inst.Ok() && Split(inst, sub) && i < Children(sub) && Safe(inst, sub)
    ensures Safe(inst, ChildOf(inst, sub, i))
  {
    if TwoWeightless(inst) {
      if WeightlessDecided(inst, sub) {
        ChildStaysDecided(inst, sub, i);
      } else if sub.splitItem != TERMINAL {
        FractionalKeepsSafe(inst, sub, i);
      } else if WeightAt(inst, TSplitItem(sub, i)) == 0.0 {
        WeightlessChild(inst, sub, i);
      } else {
        WeightyChild(inst, sub, i);
      }
    }
  }

  // ---------- Whole paths of splits ----------

  ghost predicate SplitStep(inst: Instance, a: KSub, b: KSub) {
    var s := Bounded(inst, a, true);
    b.capBase >= 0.0 && exists i :: 0 <= i < Children(s) && b == ChildOf(inst, s, i)
  }

  /** The subproblems from the root down to one, each a child that fits the knapsack. */
  ghost predicate IsPath(inst: Instance, path: seq<KSub>) {
    && path != [] && path[0] == RootData(inst)
    && forall i, j | 0 <= i && j == i + 1 && j < |path| :: SplitStep(inst, path[i], path[j])
  }

  /** `s` is a solution of `sub` that beats its bound, is not its candidate, and is in none of its children. */
  ghost predicate LostAt(inst: Instance, sub: KSub, s: seq<bool>) {
    var b := Bounded(inst, sub, true);
    && Covers(inst, sub, s) && ValueOf(inst, Sel(s)) > Bound(inst, sub)
    && b.splitItem == TERMINAL && s != GreedySolution(inst, b)
    && forall i | 0 <= i < Children(b) :: !Covers(inst, ChildOf(inst, b, i), s)
  }

  ghost predicate LosesOn(inst: Instance, path: seq<KSub>, s: seq<bool>) {
    IsPath(inst, path) && LostAt(inst, path[|path| - 1], s)
  }

  lemma {:induction false} PathStaysSafe(inst: Instance, path: seq<KSub>, n: nat)
    requires inst.Ok() && IsPath(inst, path) && !Loses(inst) && n < |path|
    ensures SubOk(inst, path[n]) && path[n].capBase >= 0.0 && Safe(inst, path[n])
  {
    if n == 0 {
      RootIsSafe(inst);
    } else {
      PathStaysSafe(inst, path, n - 1);
      assert SplitStep(inst, path[n - 1], path[n]);
      StepStaysSafe(inst, path[n - 1], path[n]);
    }
  }

  lemma StepStaysSafe(inst: Instance, a: KSub, b: KSub)
    requires inst.Ok() && SubOk(inst, a) && a.capBase >= 0.0 && Safe(inst, a) && SplitStep(inst, a, b)
    ensures SubOk(inst, b) && Safe(inst, b)
  {
    var s := Bounded(inst, a, true);
    BoundedSplits(inst, a, true);
    BoundedIsSafe(inst, a);
    var i :| 0 <= i < Children(s) && b == ChildOf(inst, s, i);
    ChildIsProper(inst, s, i);
    ChildIsSafe(inst, s, i);
  }

  lemma BoundedIsSafe(inst: Instance, sub: KSub)
    requires inst.Usable() && SubOk(inst, sub) && sub.capBase >= 0.0
    ensures Safe(inst, Bounded(inst, sub, true)) <==> Safe(inst, sub)
  {
    BoundedSplits(inst, sub, true);
    BoundedAgain(inst, Bounded(inst, sub, true));
  }

  // ---------- A path to a loss ----------

  ghost predicate Leads(inst: Instance, path: seq<KSub>, sub: KSub) {
    && IsPath(inst, path) && path[|path| - 1] == sub
    && SubOk(inst, sub) && sub.capBase >= 0.0
  }

  lemma Longer(inst: Instance, path: seq<KSub>, sub: KSub, i: nat)
    requires inst.Usable() && Leads(inst, path, sub)
    requires var b := Bounded(inst, sub, true); i < Children(b) && ChildOf(inst, b, i).capBase >= 0.0
    ensures var c := ChildOf(inst, Bounded(inst, sub, true), i); Leads(inst, path + [c], c)
  {
    var b := Bounded(inst, sub, true);
    BoundedSplits(inst, sub, true);
    ChildIsProper(inst, b, i);
    var c := ChildOf(inst, b, i);
    assert SplitStep(inst, sub, c);
    var longer := path + [c];
    forall i, j | 0 <= i && j == i + 1 && j < |longer| ensures SplitStep(inst, longer[i], longer[j]) {
      if j < |path| {
        assert SplitStep(inst, path[i], path[j]);
      }
    }
  }

  lemma {:induction false} PathToNoSpace(inst: Instance, path: seq<KSub>, sub: KSub, more: nat)
    returns (longer: seq<KSub>, full: KSub)
    requires inst.Ok() && Leads(inst, path, sub) && Fills(inst, sub, more) && DecidedWeigh(inst, sub)
    ensures Leads(inst, longer, full) && full.capBase == 0.0 && DecidedWeigh(inst, full)
    decreases more
  {
    if sub.capBase == 0.0 {
      longer, full := path, sub;
    } else {
      var b := Bounded(inst, sub, true);
      BoundedSplits(inst, sub, true);
      var i := if Fills(inst, ChildOf(inst, b, 0), more - 1) then 0 else 1;
      var c := ChildOf(inst, b, i);
      FillsFits(inst, c, more - 1);
      Longer(inst, path, sub, i);
      ChildDecidedWeigh(inst, b, i);
      longer, full := PathToNoSpace(inst, path + [c], c, more - 1);
    }
  }

  lemma FillsFits(inst: Instance, sub: KSub, more: nat)
    requires Fills(inst, sub, more)
    ensures sub.capBase >= 0.0
  {
  }

  /** Without space the first child decides the first item and leaves the second. */
  lemma FirstChildMisses(inst: Instance, full: KSub)
    requires inst.Ok() && TwoWeightless(inst) && SubOk(inst, full) && full.capBase == 0.0 && DecidedWeigh(inst, full)
    ensures var b := Bounded(inst, full, true); Children(b) > 0 && ChildOf(inst, b, 0).capBase == 0.0
    ensures Misses(inst, ChildOf(inst, Bounded(inst, full, true), 0))
  {
    var b := Bounded(inst, full, true);
    BoundedSplits(inst, full, true);
    WithoutSpace(inst, full);
    PackingShape(inst, full);
    TSplitIsTaken(inst, b);
    assert Free(full, 0) && Free(full, 1);
    var taken := Packing(inst, full).taken;
    FirstTaken(inst, full);
    TerminalChildLists(inst, b, taken, 0);
    var c := ChildOf(inst, b, 0);
    assert !Free(c, 0) && Free(c, 1);
  }

  lemma FirstTaken(inst: Instance, full: KSub)
    requires inst.Ok() && TwoWeightless(inst) && full.capBase == 0.0 && Free(full, 0)
    ensures var taken := Packing(inst, full).taken; taken != [] && taken[0] == 0
  {
    StartWithoutSpace(inst, full, 0);
    assert Initial(inst, full) > 0;
  }

  lemma MissedIsLost(inst: Instance, sub: KSub) returns (s: seq<bool>)
    requires inst.Ok() && SubOk(inst, sub) && Misses(inst, sub)
    ensures LostAt(inst, sub, s)
  {
    s := LostSolution(inst, sub);
    WithoutSpace(inst, sub);
    BoundedSplits(inst, sub, true);
    var b := Bounded(inst, sub, true);
    TSplitIsTaken(inst, b);
    forall i | 0 <= i < Children(b) ensures !Covers(inst, ChildOf(inst, b, i), s) {
      TerminalChild(inst, b, i, s);
      assert Packing(inst, sub).taken[i] in Packing(inst, sub).taken;
    }
  }

  /** The splits of an enumeration lead to a subproblem that loses a solution for these instances only. */
  lemma LosesExactly(inst: Instance)
    requires inst.Ok()
    ensures Loses(inst) <==> exists path, s :: LosesOn(inst, path, s)
  {
    if Loses(inst) {
      RootIsSafe(inst);
      var path, full := PathToNoSpace(inst, [RootData(inst)], RootData(inst), |inst.item|);
      FirstChildMisses(inst, full);
      Longer(inst, path, full, 0);
      var c := ChildOf(inst, Bounded(inst, full, true), 0);
      var s := MissedIsLost(inst, c);
      var longer := path + [c];
      assert LosesOn(inst, longer, s);
    } else if path, s :| LosesOn(inst, path, s) {
      var n := |path| - 1;
      PathStaysSafe(inst, path, n);
      SafeMissesNothing(inst, path[n]);
      BoundIsValid(inst, path[n], s);
    }
  }

  /** Not all instances with a wrong bound somewhere are among them: here everything fits at the root. */
  lemma EverythingFits()
    ensures var inst := Instance(1.0, [Item(0.0, 1.0), Item(0.0, 1.0), Item(1.0, 1.0)]);
            inst.Ok() && CanMiss(inst) && !Loses(inst)
  {
    var inst := Instance(1.0, [Item(0.0, 1.0), Item(0.0, 1.0), Item(1.0, 1.0)]);
    assert Times(1.0, 0.0) == 0.0 && Times(1.0, 1.0) == 1.0;
    var s := [false, false, true];
    var none := (j: int) => false;
    EmptySelection(inst);
    AddToSelection(inst, none, Sel(s), 2);
    var root := RootData(inst);
    assert StartFrom(inst, root, 3, 0.0) == Start(3, Fill([], 3, false, 0.0));
    assert StartFrom(inst, root, 2, 1.0) == Start(3, Fill([], 3, false, 0.0));
    assert StartFrom(inst, root, 1, 1.0) == Start(3, Fill([], 3, false, 0.0));
  }
}
