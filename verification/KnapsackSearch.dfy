/** The knapsack application keeps the contract of the search engine, so a search solves it. */
module KnapsackSearch {
  import opened Fathoming
  import opened Options
  import opened RealSums
  import opened Application
  import opened SearchEngine
  import opened Knapsack
  import opened KnapsackTree
  import opened KnapsackReach

  // ---------- How much work a subproblem can make ----------

  function Pow3(k: nat): nat { if k == 0 then 1 else 3 * Pow3(k - 1) }

  function Whole(free: int): nat { if free <= 0 then 6 else 6 * Pow3(free) }

  /** The free items of child `i`. */
  function ChildFree(inst: Instance, sub: KSub, i: nat): int {
    if sub.splitItem == TERMINAL then FreeCount(inst, sub) - i - 1 else FreeCount(inst, sub) - 1
  }

  function RestEffort(inst: Instance, sub: KSub, i: nat, n: nat): (e: nat)
    ensures e > 0
    decreases n - i
  {
    if i >= n then 1 else Whole(ChildFree(inst, sub, i)) + RestEffort(inst, sub, i + 1, n) + 2
  }

  function Effort(inst: Instance, p: Sub<KSub>): nat {
    match p.state
    case boundable | beingBounded => Whole(FreeCount(inst, p.data)) + 1
    case bounded | beingSeparated => Whole(FreeCount(inst, p.data))
    case separated =>
      RestEffort(inst, p.data, if p.childrenLeft <= p.totalChildren then p.totalChildren - p.childrenLeft else 0,
                 p.totalChildren)
    case dead => 1
  }

  lemma {:induction false} PowAbove(k: nat)
    ensures Pow3(k) > k
  {
    if k > 0 {
      PowAbove(k - 1);
    }
  }

  lemma {:induction false} TerminalEffort(inst: Instance, sub: KSub, i: nat, n: nat)
    requires sub.splitItem == TERMINAL && i <= n <= FreeCount(inst, sub)
    ensures RestEffort(inst, sub, i, n) <= 3 * Pow3(FreeCount(inst, sub) - i) - 2 + 2 * (n - i)
    decreases n - i
  {
    var free := FreeCount(inst, sub) - i;
    PowAbove(free);
    if i < n {
      TerminalEffort(inst, sub, i + 1, n);
      assert Pow3(free) == 3 * Pow3(free - 1);
    }
  }

  // ---------- The application ----------

  /** `s` is in child `i` or a later one. */
  predicate Remaining(inst: Instance, sub: KSub, i: nat, s: seq<bool>) {
    && Covers(inst, sub, s)
    && if sub.splitItem == TERMINAL then
         var taken := Packing(inst, sub).taken;
         exists k :: i <= k < |taken| && FirstMissing(taken, k, s)
       else i == 0 || (i == 1 && 0 <= sub.splitItem < |s| && !s[sub.splitItem])
  }

  /** What a search meets; without enumeration only items too heavy for the space left are ever decided. */
  predicate Meets(inst: Instance, enumerating: bool, sub: KSub) {
    SubOk(inst, sub) && sub.capBase >= 0.0 && if enumerating then Safe(inst, sub) else DecidedWeigh(inst, sub)
  }

  predicate WellFormed(inst: Instance, enumerating: bool, p: Sub<KSub>) {
    match p.state
    case boundable | beingBounded => Meets(inst, enumerating, p.data)
    case bounded | beingSeparated =>
      && Meets(inst, enumerating, p.data) && SplitItemOk(inst, p.data) && (enumerating ==> Split(inst, p.data))
      && p.bound == Bound(inst, p.data)
    case separated =>
      && Meets(inst, enumerating, p.data) && Split(inst, p.data) && p.totalChildren == Children(p.data)
      && (!enumerating ==> p.data.splitItem != TERMINAL)
    case dead => true
  }

  /** Child `i` as `binKnapSubAsChildOf` leaves it: dead if the items forced in are too heavy. */
  function ChildSub(inst: Instance, st: Settings, p: Sub<KSub>, i: nat): Sub<KSub> {
    if i >= Children(p.data) then Sub(p.data, dead, p.bound, 0, 0)
    else
      var c := ChildOf(inst, p.data, i);
      if p.data.splitItem != TERMINAL && i == 0 && c.capBase < 0.0 then Sub(c, dead, -st.maxDouble, 0, 0)
      else Sub(c, boundable, p.bound, 0, 0)
  }

  function AllItems(): int -> bool { j => true }

  function BoundAnswer(inst: Instance, st: Settings, p: Sub<KSub>): Answer<KSub, seq<bool>> {
    Answer(Sub(Bounded(inst, p.data, st.Enumerating()), bounded, Bound(inst, p.data), 0, 0), [], 0)
  }

  /** The application, with any initial guess and any heuristic that report feasible solutions. */
  function KnapsackApp(inst: Instance, st: Settings, guess: Option<seq<bool>>,
                       heuristic: (nat, Sub<KSub>) -> seq<seq<bool>>): App<KSub, seq<bool>>
  {
    App(Sub(RootData(inst), boundable, ValueOf(inst, AllItems()), 0, 0),
        (call: nat, pr: Progress, p: Sub<KSub>) => BoundAnswer(inst, st, p),
        (d: KSub) => d.splitItem == TERMINAL,
        (d: KSub) => GreedySolution(inst, d),
        (call: nat, pr: Progress, p: Sub<KSub>) => Answer(p.(state := separated), [], Children(p.data)),
        (call: nat, p: Sub<KSub>, i: nat) => Offspring(ChildSub(inst, st, p, i), p.data, p.bound),
        true, heuristic, (call: nat, p: Sub<KSub>) => false, guess,
        (s: seq<bool>) => Packs(inst, s),
        (s: seq<bool>) => ValueOf(inst, Sel(s)),
        (d: KSub, s: seq<bool>) => Covers(inst, d, s),
        (d: KSub, i: nat, s: seq<bool>) => Remaining(inst, d, i, s),
        (p: Sub<KSub>) => WellFormed(inst, st.Enumerating(), p),
        (p: Sub<KSub>) => Effort(inst, p))
  }

  /** What an instance and the settings must satisfy. */
  ghost predicate Suits(inst: Instance, st: Settings, guess: Option<seq<bool>>,
                        heuristic: (nat, Sub<KSub>) -> seq<seq<bool>>)
  {
    && inst.Ok() && Usable(st) && st.sense == maximization && ValueOf(inst, AllItems()) < st.maxDouble
    && (guess.Some? ==> Packs(inst, guess.value))
    && forall call, p, s | s in heuristic(call, p) :: Packs(inst, s)
  }

  /** Enumeration is spared the instances for which it loses solutions. */
  predicate Finds(inst: Instance, st: Settings) { st.Enumerating() ==> !Loses(inst) }

  lemma NothingMissed(inst: Instance, st: Settings, sub: KSub)
    requires inst.Ok() && Meets(inst, st.Enumerating(), sub)
    ensures !Misses(inst, sub)
  {
    if Misses(inst, sub) {
      if st.Enumerating() {
        SafeMissesNothing(inst, sub);
      } else {
        var f, j :| 0 <= f < j < |inst.item| && !Free(sub, f) && Free(sub, j) && inst.item[j].weight == 0.0;
        WeightlessFirst(inst, f, j);
      }
    }
  }

  lemma BoundSame(inst: Instance, a: KSub, b: KSub)
    requires Packing(inst, a) == Packing(inst, b) && a.inList == b.inList
    ensures Bound(inst, a) == Bound(inst, b)
  {
    SameSelection(inst, GreedySel(inst, a), GreedySel(inst, b));
  }

  /** What bounding leaves: the same solutions, a valid bound, and a candidate that is a solution. */
  lemma BoundingKeeps(inst: Instance, st: Settings, sub: KSub, s: seq<bool>)
    requires inst.Ok() && Meets(inst, st.Enumerating(), sub)
    ensures var next := Bounded(inst, sub, st.Enumerating());
            && Meets(inst, st.Enumerating(), next) && SplitItemOk(inst, next)
            && (st.Enumerating() ==> Split(inst, next))
            && Bound(inst, next) == Bound(inst, sub)
            && (Covers(inst, next, s) <==> Covers(inst, sub, s))
            && (Covers(inst, next, s) ==> ValueOf(inst, Sel(s)) <= Bound(inst, sub))
            && (next.splitItem == TERMINAL ==> Packs(inst, GreedySolution(inst, next)))
            && FreeCount(inst, next) == FreeCount(inst, sub)
  {
    var next := Bounded(inst, sub, st.Enumerating());
    BoundedSplits(inst, sub, st.Enumerating());
    BoundedIsSafe(inst, sub);
    BoundSame(inst, next, sub);
    PackingShape(inst, sub);
    if next.splitItem == TERMINAL {
      TerminalAttainsBound(inst, next);
    }
    if Covers(inst, sub, s) {
      NothingMissed(inst, st, sub);
      BoundIsValid(inst, sub, s);
    }
  }

  /** What is left to show for a bound computation that bounds at once and finds nothing else. */
  lemma BoundOkFrom(app: App<KSub, seq<bool>>, st: Settings, call: nat, pr: Progress, p: Sub<KSub>)
    requires p.state == beingBounded && Sound(app, st, p)
    requires var r := app.boundComputation(call, pr, p);
             && r.sub.state == bounded && r.found == [] && r.sub.childrenLeft <= r.sub.totalChildren
             && app.wellFormed(r.sub) && app.effort(r.sub) < app.effort(p)
             && (app.candidateSolution(r.sub.data) ==> app.feasible(app.extractSolution(r.sub.data)))
             && (forall s | app.feasible(s) :: app.covers(r.sub.data, s) <==> app.covers(p.data, s))
             && (forall s | app.feasible(s) && app.covers(r.sub.data, s) :: NoBetter(st, app.value(s), r.sub.bound))
    ensures BoundOk(app, st, call, pr, p)
  {
  }

  lemma KnapsackBoundOk(inst: Instance, st: Settings, guess: Option<seq<bool>>,
                        heuristic: (nat, Sub<KSub>) -> seq<seq<bool>>, call: nat, pr: Progress, p: Sub<KSub>)
    requires Suits(inst, st, guess, heuristic)
    ensures BoundOk(KnapsackApp(inst, st, guess, heuristic), st, call, pr, p)
  {
    var app, sub := KnapsackApp(inst, st, guess, heuristic), p.data;
    if p.state == beingBounded && Sound(app, st, p) {
      SoundIsWellFormed(inst, st, guess, heuristic, p);
      var next := Bounded(inst, sub, st.Enumerating());
      forall s
        ensures Covers(inst, next, s) <==> Covers(inst, sub, s)
        ensures Covers(inst, next, s) ==> ValueOf(inst, Sel(s)) <= Bound(inst, sub)
      {
        BoundingKeeps(inst, st, sub, s);
      }
      BoundingKeeps(inst, st, sub, []);
      BoundOkFrom(app, st, call, pr, p);
    }
  }

  lemma SoundIsWellFormed(inst: Instance, st: Settings, guess: Option<seq<bool>>,
                          heuristic: (nat, Sub<KSub>) -> seq<seq<bool>>, p: Sub<KSub>)
    requires Sound(KnapsackApp(inst, st, guess, heuristic), st, p)
    ensures WellFormed(inst, st.Enumerating(), p) && p.childrenLeft <= p.totalChildren
  {
  }

  lemma SplitEffort(inst: Instance, sub: KSub)
    requires inst.Usable() && Split(inst, sub) && Children(sub) > 0
    ensures RestEffort(inst, sub, 0, Children(sub)) < Whole(FreeCount(inst, sub))
    ensures sub.splitItem != TERMINAL ==> FreeCount(inst, sub) > 0
    ensures sub.splitItem == TERMINAL ==> Children(sub) <= FreeCount(inst, sub)
    ensures |sub.inList| + |sub.outList| <= |inst.item|
  {
    var free := FreeCount(inst, sub);
    PackingShape(inst, sub);
    if sub.splitItem == TERMINAL {
      TSplitIsTaken(inst, sub);
      DisjointFit(inst, sub, Packing(inst, sub).taken);
      TerminalEffort(inst, sub, 0, Children(sub));
      PowAbove(free);
    } else {
      DisjointFit(inst, sub, [sub.splitItem]);
      TwoChildrenEffort(inst, sub);
    }
  }

  lemma TwoChildrenEffort(inst: Instance, sub: KSub)
    requires sub.splitItem != TERMINAL && FreeCount(inst, sub) > 0
    ensures RestEffort(inst, sub, 0, 2) < Whole(FreeCount(inst, sub))
  {
    var free := FreeCount(inst, sub);
    PowAbove(free - 1);
    assert Pow3(free) == 3 * Pow3(free - 1);
    assert RestEffort(inst, sub, 2, 2) == 1;
    assert RestEffort(inst, sub, 1, 2) == Whole(free - 1) + 3;
  }

  /** `next` together have the solutions of `p`. */
  ghost predicate Shared(app: App<KSub, seq<bool>>, p: Sub<KSub>, next: seq<Sub<KSub>>) {
    forall s | app.feasible(s) :: Open(app, p, s) <==> OpenIn(app, next, s)
  }

  /** A subproblem that has a share of the solutions of a sound one, with its bound, is sound. */
  lemma ShareIsSound(app: App<KSub, seq<bool>>, st: Settings, p: Sub<KSub>, next: seq<Sub<KSub>>, q: Sub<KSub>)
    requires Sound(app, st, p) && Shared(app, p, next) && q in next && app.wellFormed(q)
    requires q.state == dead || q.bound == p.bound
    requires q.childrenLeft <= q.totalChildren
    requires q.state == separated ==> forall s | app.feasible(s) :: !app.remaining(q.data, q.totalChildren, s)
    ensures Sound(app, st, q)
  {
    forall s | app.feasible(s) && Open(app, q, s) ensures NoBetter(st, app.value(s), q.bound) {
      assert OpenIn(app, next, s);
    }
  }

  /** What is left to show for a split that changes nothing but the state. */
  lemma SplitOkFrom(app: App<KSub, seq<bool>>, st: Settings, call: nat, pr: Progress, p: Sub<KSub>, q: Sub<KSub>)
    requires Sound(app, st, p) && p.state == beingSeparated
    requires var r := app.splitComputation(call, pr, p);
             && q == AfterSplit(r) && r.found == [] && r.sub.state == separated && r.sub.bound == p.bound
             && (!CanFathomSub(st, pr, r.sub) ==>
                   Shared(app, p, [q]) && Sound(app, st, q) && app.effort(q) < app.effort(p))
    ensures SplitOk(app, st, call, pr, p)
  {
    var r := app.splitComputation(call, pr, p);
    forall s | app.feasible(s) && Open(app, p, s) && !CanFathomSub(st, pr, r.sub) ensures Open(app, q, s) {
      assert OpenIn(app, [q], s);
    }
  }

  /** A split subproblem: dead without children, separated with them. */
  function SplitSub(p: Sub<KSub>): Sub<KSub> {
    var n := Children(p.data);
    p.(state := if n == 0 then dead else separated, childrenLeft := n, totalChildren := n)
  }

  lemma SplitSubIsAfterSplit(inst: Instance, st: Settings, guess: Option<seq<bool>>,
                             heuristic: (nat, Sub<KSub>) -> seq<seq<bool>>, call: nat, pr: Progress, p: Sub<KSub>)
    ensures var r := KnapsackApp(inst, st, guess, heuristic).splitComputation(call, pr, p);
            AfterSplit(r) == SplitSub(p) && r.found == [] && r.sub.state == separated && r.sub.bound == p.bound
  {
  }

  /** What `Open` means here. */
  predicate KOpen(inst: Instance, p: Sub<KSub>, s: seq<bool>) {
    match p.state
    case boundable | beingBounded => Covers(inst, p.data, s)
    case bounded | beingSeparated =>
      Covers(inst, p.data, s) && !(p.data.splitItem == TERMINAL && s == GreedySolution(inst, p.data))
    case separated => p.childrenLeft <= p.totalChildren && Remaining(inst, p.data, p.totalChildren - p.childrenLeft, s)
    case dead => false
  }

  lemma OpenIsKOpen(inst: Instance, st: Settings, guess: Option<seq<bool>>,
                    heuristic: (nat, Sub<KSub>) -> seq<seq<bool>>, p: Sub<KSub>, s: seq<bool>)
    ensures Open(KnapsackApp(inst, st, guess, heuristic), p, s) == KOpen(inst, p, s)
  {
  }

  lemma OpenInOne(app: App<KSub, seq<bool>>, q: Sub<KSub>, s: seq<bool>)
    ensures OpenIn(app, [q], s) <==> Open(app, q, s)
  {
    assert q in [q];
  }

  lemma KnapsackSplitShares(inst: Instance, st: Settings, guess: Option<seq<bool>>,
                            heuristic: (nat, Sub<KSub>) -> seq<seq<bool>>, p: Sub<KSub>)
    requires inst.Ok() && Split(inst, p.data) && p.state == beingSeparated && !Misses(inst, p.data)
    ensures Shared(KnapsackApp(inst, st, guess, heuristic), p, [SplitSub(p)])
  {
    var app, q := KnapsackApp(inst, st, guess, heuristic), SplitSub(p);
    forall s | app.feasible(s) ensures Open(app, p, s) <==> OpenIn(app, [q], s) {
      SplitKeepsSolutions(inst, p.data, s);
      OpenIsKOpen(inst, st, guess, heuristic, p, s);
      OpenIsKOpen(inst, st, guess, heuristic, q, s);
      OpenInOne(app, q, s);
    }
  }

  /** Without enumeration the incumbent makes a terminal subproblem fathomable, so it is never split. */
  lemma TerminalIsFathomed(inst: Instance, st: Settings, guess: Option<seq<bool>>,
                           heuristic: (nat, Sub<KSub>) -> seq<seq<bool>>, pr: Progress, p: Sub<KSub>)
    requires Suits(inst, st, guess, heuristic) && !st.Enumerating() && p.state == beingSeparated
    requires WellFormed(inst, false, p) && p.data.splitItem == TERMINAL
    requires Extracted(KnapsackApp(inst, st, guess, heuristic), st, pr, p)
    ensures CanFathomSub(st, pr, p)
  {
    PackingShape(inst, p.data);
    TerminalAttainsBound(inst, p.data);
    var s := GreedySolution(inst, p.data);
    KnapsackRootOk(inst, st, s);
    if !CanFathomSub(st, pr, p) {
      IncumbentFathomsItself(st, pr, ValueOf(inst, Sel(s)));
    }
  }

  lemma KnapsackSplitOk(inst: Instance, st: Settings, guess: Option<seq<bool>>,
                        heuristic: (nat, Sub<KSub>) -> seq<seq<bool>>, call: nat, pr: Progress, p: Sub<KSub>)
    requires Suits(inst, st, guess, heuristic)
    ensures SplitOk(KnapsackApp(inst, st, guess, heuristic), st, call, pr, p)
  {
    var app, q := KnapsackApp(inst, st, guess, heuristic), SplitSub(p);
    if p.state == beingSeparated && Sound(app, st, p) && Extracted(app, st, pr, p) {
      SoundIsWellFormed(inst, st, guess, heuristic, p);
      SplitSubIsAfterSplit(inst, st, guess, heuristic, call, pr, p);
      if !st.Enumerating() && p.data.splitItem == TERMINAL {
        TerminalIsFathomed(inst, st, guess, heuristic, pr, p);
      } else {
        NothingMissed(inst, st, p.data);
        KnapsackSplitShares(inst, st, guess, heuristic, p);
        NoneBeyondLast(inst, p.data);
        ShareIsSound(app, st, p, [q], q);
        SplitCosts(inst, p, q);
      }
      SplitOkFrom(app, st, call, pr, p, q);
    }
  }

  lemma NoneBeyondLast(inst: Instance, sub: KSub)
    requires inst.Usable() && Split(inst, sub)
    ensures forall s :: !Remaining(inst, sub, Children(sub), s)
  {
    PackingShape(inst, sub);
    if sub.splitItem == TERMINAL {
      TSplitIsTaken(inst, sub);
    }
  }

  lemma SplitCosts(inst: Instance, p: Sub<KSub>, q: Sub<KSub>)
    requires inst.Usable() && Split(inst, p.data) && p.state == beingSeparated && q.data == p.data
    requires if Children(p.data) == 0 then q.state == dead
             else q.state == separated && q.childrenLeft == q.totalChildren == Children(p.data)
    ensures Effort(inst, q) < Effort(inst, p)
  {
    if Children(p.data) > 0 {
      SplitEffort(inst, p.data);
    } else {
      PowAbove(FreeCount(inst, p.data));
    }
  }

  /** The children together have the solutions of a bounded subproblem, without its candidate. */
  lemma SplitKeepsSolutions(inst: Instance, sub: KSub, s: seq<bool>)
    requires inst.Ok() && Split(inst, sub) && !Misses(inst, sub)
    ensures Covers(inst, sub, s) && !(sub.splitItem == TERMINAL && s == GreedySolution(inst, sub))
            <==> Remaining(inst, sub, 0, s)
    ensures Children(sub) == 0 ==> !Remaining(inst, sub, 0, s)
  {
    PackingShape(inst, sub);
    if sub.splitItem == TERMINAL {
      TSplitIsTaken(inst, sub);
      if Covers(inst, sub, s) {
        TerminalPartition(inst, sub, s);
      }
    }
  }

  /** Child `i` takes over what is left, up to child `i + 1`. */
  lemma ChildTakesShare(inst: Instance, sub: KSub, i: nat, s: seq<bool>)
    requires inst.Usable() && Split(inst, sub) && i < Children(sub)
    ensures Remaining(inst, sub, i, s) <==> Remaining(inst, sub, i + 1, s) || Covers(inst, ChildOf(inst, sub, i), s)
    ensures SubOk(inst, ChildOf(inst, sub, i))
  {
    PackingShape(inst, sub);
    if sub.splitItem == TERMINAL {
      TSplitIsTaken(inst, sub);
      TerminalChild(inst, sub, i, s);
    } else {
      FractionalChild(inst, sub, i, s);
    }
  }

  /** A child that is too heavy has no solutions. */
  lemma HeavyIsEmpty(inst: Instance, c: KSub, s: seq<bool>)
    requires inst.Usable() && SubOk(inst, c) && c.capBase < 0.0
    ensures !Covers(inst, c, s)
  {
    if Covers(inst, c, s) {
      SmallerSelection(inst, ListSel(c.inList), Sel(s));
    }
  }

  lemma ChildEffort(inst: Instance, st: Settings, p: Sub<KSub>, i: nat)
    requires inst.Usable() && Split(inst, p.data) && i < Children(p.data)
    ensures Effort(inst, ChildSub(inst, st, p, i)) <= Whole(ChildFree(inst, p.data, i)) + 1
  {
    var sub := p.data;
    SplitEffort(inst, sub);
    if sub.splitItem == TERMINAL {
      TSplitIsTaken(inst, sub);
    }
    var c := ChildOf(inst, sub, i);
    assert |c.inList| + |c.outList| == |sub.inList| + |sub.outList| + if sub.splitItem == TERMINAL then i + 1 else 1;
  }

  lemma ChildSubTakesShare(inst: Instance, st: Settings, p: Sub<KSub>, i: nat, s: seq<bool>)
    requires inst.Usable() && Split(inst, p.data) && i < Children(p.data)
    ensures var d := ChildSub(inst, st, p, i);
            Remaining(inst, p.data, i, s) <==>
            Remaining(inst, p.data, i + 1, s) || (d.state == boundable && Covers(inst, d.data, s))
  {
    var c := ChildOf(inst, p.data, i);
    ChildTakesShare(inst, p.data, i, s);
    if c.capBase < 0.0 {
      HeavyIsEmpty(inst, c, s);
    }
  }

  lemma ChildSubWellFormed(inst: Instance, st: Settings, p: Sub<KSub>, i: nat)
    requires inst.Ok() && WellFormed(inst, st.Enumerating(), p) && p.state == separated && i < Children(p.data)
    ensures WellFormed(inst, st.Enumerating(), ChildSub(inst, st, p, i))
    ensures var d := ChildSub(inst, st, p, i);
            d.childrenLeft == d.totalChildren == 0 && (d.state == dead || (d.state == boundable && d.bound == p.bound))
  {
    if p.data.splitItem == TERMINAL {
      TerminalChildFits(inst, p.data, i);
    }
    if st.Enumerating() {
      ChildIsSafe(inst, p.data, i);
    } else {
      ChildDecidedWeigh(inst, p.data, i);
    }
    ChildTakesShare(inst, p.data, i, []);
  }

  lemma OpenSeparated(inst: Instance, p: Sub<KSub>, s: seq<bool>)
    requires p.state == separated && p.childrenLeft <= p.totalChildren
    ensures KOpen(inst, p, s) == Remaining(inst, p.data, p.totalChildren - p.childrenLeft, s)
  {
  }

  lemma OpenNew(inst: Instance, d: Sub<KSub>, s: seq<bool>)
    requires d.state == boundable || d.state == dead
    ensures KOpen(inst, d, s) == (d.state == boundable && Covers(inst, d.data, s))
  {
  }

  lemma ChildSharesOne(inst: Instance, st: Settings, p: Sub<KSub>, q: Sub<KSub>, d: Sub<KSub>, i: nat, s: seq<bool>)
    requires inst.Ok() && WellFormed(inst, st.Enumerating(), p) && p.state == separated
    requires 0 < p.childrenLeft <= p.totalChildren && i == p.totalChildren - p.childrenLeft
    requires q == p.(childrenLeft := p.childrenLeft - 1) && d == ChildSub(inst, st, p, i)
    ensures KOpen(inst, p, s) <==> KOpen(inst, q, s) || KOpen(inst, d, s)
  {
    ChildSubWellFormed(inst, st, p, i);
    ChildSubTakesShare(inst, st, p, i, s);
    OpenSeparated(inst, p, s);
    OpenSeparated(inst, q, s);
    OpenNew(inst, d, s);
  }

  lemma SharedByTwo(app: App<KSub, seq<bool>>, p: Sub<KSub>, q: Sub<KSub>, d: Sub<KSub>)
    requires forall s | app.feasible(s) :: Open(app, p, s) <==> Open(app, q, s) || Open(app, d, s)
    ensures Shared(app, p, [q, d])
  {
    forall s | app.feasible(s) ensures Open(app, p, s) <==> OpenIn(app, [q, d], s) {
      OpenInTwo(app, q, d, s);
    }
  }

  lemma KnapsackChildShares(inst: Instance, st: Settings, guess: Option<seq<bool>>,
                            heuristic: (nat, Sub<KSub>) -> seq<seq<bool>>, p: Sub<KSub>)
    requires inst.Ok() && WellFormed(inst, st.Enumerating(), p)
    requires p.state == separated && 0 < p.childrenLeft <= p.totalChildren
    ensures var i := p.totalChildren - p.childrenLeft;
            Shared(KnapsackApp(inst, st, guess, heuristic), p,
                   [p.(childrenLeft := p.childrenLeft - 1), ChildSub(inst, st, p, i)])
  {
    var app, i := KnapsackApp(inst, st, guess, heuristic), p.totalChildren - p.childrenLeft;
    var q, d := p.(childrenLeft := p.childrenLeft - 1), ChildSub(inst, st, p, i);
    forall s ensures Open(app, p, s) <==> Open(app, q, s) || Open(app, d, s) {
      ChildSharesOne(inst, st, p, q, d, i, s);
      OpenIsKOpen(inst, st, guess, heuristic, p, s);
      OpenIsKOpen(inst, st, guess, heuristic, q, s);
      OpenIsKOpen(inst, st, guess, heuristic, d, s);
    }
    SharedByTwo(app, p, q, d);
  }

  lemma OpenInTwo(app: App<KSub, seq<bool>>, q: Sub<KSub>, d: Sub<KSub>, s: seq<bool>)
    ensures OpenIn(app, [q, d], s) <==> Open(app, q, s) || Open(app, d, s)
  {
    assert q in [q, d] && d in [q, d];
  }

  lemma ChildOkFrom(app: App<KSub, seq<bool>>, st: Settings, call: nat, p: Sub<KSub>, q: Sub<KSub>, d: Sub<KSub>)
    requires Sound(app, st, p) && p.state == separated && p.childrenLeft > 0
    requires var r := app.makeChild(call, p, p.totalChildren - p.childrenLeft); q == AfterChild(p, r) && d == r.child
    requires Shared(app, p, [q, d]) && Sound(app, st, q) && Sound(app, st, d)
    requires app.effort(q) + app.effort(d) < app.effort(p) && (d.state == boundable || d.state == dead)
    ensures ChildOk(app, st, call, p)
  {
    forall s | app.feasible(s) && Open(app, p, s) ensures Open(app, q, s) || Open(app, d, s) {
      assert OpenIn(app, [q, d], s);
    }
  }

  lemma ChildCosts(inst: Instance, st: Settings, p: Sub<KSub>)
    requires inst.Ok() && WellFormed(inst, st.Enumerating(), p)
    requires p.state == separated && 0 < p.childrenLeft <= p.totalChildren
    ensures Effort(inst, p.(childrenLeft := p.childrenLeft - 1))
            + Effort(inst, ChildSub(inst, st, p, p.totalChildren - p.childrenLeft)) < Effort(inst, p)
  {
    ChildEffort(inst, st, p, p.totalChildren - p.childrenLeft);
  }

  lemma KnapsackChildrenSound(inst: Instance, st: Settings, guess: Option<seq<bool>>,
                              heuristic: (nat, Sub<KSub>) -> seq<seq<bool>>, p: Sub<KSub>)
    requires Sound(KnapsackApp(inst, st, guess, heuristic), st, p)
    requires inst.Ok() && WellFormed(inst, st.Enumerating(), p)
    requires p.state == separated && 0 < p.childrenLeft <= p.totalChildren
    ensures Sound(KnapsackApp(inst, st, guess, heuristic), st, p.(childrenLeft := p.childrenLeft - 1))
    ensures Sound(KnapsackApp(inst, st, guess, heuristic), st, ChildSub(inst, st, p, p.totalChildren - p.childrenLeft))
  {
    var app, i := KnapsackApp(inst, st, guess, heuristic), p.totalChildren - p.childrenLeft;
    var q, d := p.(childrenLeft := p.childrenLeft - 1), ChildSub(inst, st, p, i);
    KnapsackChildShares(inst, st, guess, heuristic, p);
    ChildSubWellFormed(inst, st, p, i);
    ShareIsSound(app, st, p, [q, d], q);
    ShareIsSound(app, st, p, [q, d], d);
  }

  lemma KnapsackMakes(inst: Instance, st: Settings, guess: Option<seq<bool>>,
                      heuristic: (nat, Sub<KSub>) -> seq<seq<bool>>, call: nat, p: Sub<KSub>)
    requires inst.Ok() && WellFormed(inst, st.Enumerating(), p)
    requires p.state == separated && 0 < p.childrenLeft <= p.totalChildren
    ensures var app, i := KnapsackApp(inst, st, guess, heuristic), p.totalChildren - p.childrenLeft;
            var r, q, d := app.makeChild(call, p, i), p.(childrenLeft := p.childrenLeft - 1), ChildSub(inst, st, p, i);
            q == AfterChild(p, r) && d == r.child && app.effort(q) + app.effort(d) < app.effort(p)
  {
    ChildCosts(inst, st, p);
  }

  lemma KnapsackChildOk(inst: Instance, st: Settings, guess: Option<seq<bool>>,
                        heuristic: (nat, Sub<KSub>) -> seq<seq<bool>>, call: nat, p: Sub<KSub>)
    requires Suits(inst, st, guess, heuristic)
    ensures ChildOk(KnapsackApp(inst, st, guess, heuristic), st, call, p)
  {
    var app := KnapsackApp(inst, st, guess, heuristic);
    if p.state == separated && Sound(app, st, p) && p.childrenLeft > 0 {
      SoundIsWellFormed(inst, st, guess, heuristic, p);
      var q, d := p.(childrenLeft := p.childrenLeft - 1), ChildSub(inst, st, p, p.totalChildren - p.childrenLeft);
      KnapsackChildShares(inst, st, guess, heuristic, p);
      KnapsackChildrenSound(inst, st, guess, heuristic, p);
      KnapsackMakes(inst, st, guess, heuristic, call, p);
      ChildOkFrom(app, st, call, p, q, d);
    }
  }

  lemma KnapsackRootOk(inst: Instance, st: Settings, s: seq<bool>)
    requires inst.Ok() && Packs(inst, s) && ValueOf(inst, AllItems()) < st.maxDouble
    ensures Covers(inst, RootData(inst), s) && 0.0 <= ValueOf(inst, Sel(s)) <= ValueOf(inst, AllItems())
  {
    EmptySelection(inst);
    SmallerSelection(inst, Sel(s), AllItems());
    SmallerSelection(inst, (j: int) => false, Sel(s));
  }

  /** The knapsack application keeps the contract. */
  lemma KnapsackKeepsContract(inst: Instance, st: Settings, guess: Option<seq<bool>>,
                              heuristic: (nat, Sub<KSub>) -> seq<seq<bool>>)
    requires Suits(inst, st, guess, heuristic) && Finds(inst, st)
    ensures AppOk(KnapsackApp(inst, st, guess, heuristic), st)
    ensures BoundsAtOnce(KnapsackApp(inst, st, guess, heuristic))
  {
    var app := KnapsackApp(inst, st, guess, heuristic);
    RootIsSafe(inst);
    forall s | app.feasible(s) ensures Abs(app.value(s)) < st.maxDouble && app.covers(app.root.data, s)
      ensures NoBetter(st, app.value(s), app.root.bound)
    {
      KnapsackRootOk(inst, st, s);
    }
    forall call, pr, p ensures BoundOk(app, st, call, pr, p) && SplitOk(app, st, call, pr, p) {
      KnapsackBoundOk(inst, st, guess, heuristic, call, pr, p);
      KnapsackSplitOk(inst, st, guess, heuristic, call, pr, p);
    }
    forall call, p ensures ChildOk(app, st, call, p) && HeuristicOk(app, call, p) {
      KnapsackChildOk(inst, st, guess, heuristic, call, p);
    }
    forall p ensures EffortOk(app, p) && RelabelOk(app, p) {
      PowAbove(FreeCount(inst, p.data));
    }
  }

  /** It keeps the contract exactly unless it enumerates and its splits lead to where a solution is lost. */
  lemma KeepsContractExactly(inst: Instance, st: Settings, guess: Option<seq<bool>>,
                             heuristic: (nat, Sub<KSub>) -> seq<seq<bool>>)
    requires Suits(inst, st, guess, heuristic)
    ensures AppOk(KnapsackApp(inst, st, guess, heuristic), st) <==>
            !st.Enumerating() || !exists path, s :: LosesOn(inst, path, s)
  {
    LosesExactly(inst);
    RootIsSafe(inst);
    if Finds(inst, st) {
      KnapsackKeepsContract(inst, st, guess, heuristic);
    }
  }

  // ---------- A run that loses a solution ----------

  function SmallInstance(): Instance {
    Instance(1.0, [Item(0.0, 1.0), Item(0.0, 1.0), Item(0.5, 1.0), Item(1.0, 1.0)])
  }

  lemma SmallInstanceOk()
    ensures SmallInstance().Ok()
  {
    assert Times(1.0, 0.0) == 0.0 && Times(1.0, 0.5) == 0.5 && Times(1.0, 1.0) == 1.0;
  }

  /** The root splits on item 3. */
  lemma FirstSplit()
    ensures Bounded(SmallInstance(), RootData(SmallInstance()), true).splitItem == 3
  {
    var inst, sub := SmallInstance(), RootData(SmallInstance());
    assert StartFrom(inst, sub, 3, 0.5) == Start(3, Fill([], 3, true, 0.5));
    assert StartFrom(inst, sub, 2, 1.0) == Start(3, Fill([], 3, true, 0.5));
    assert StartFrom(inst, sub, 1, 1.0) == Start(3, Fill([], 3, true, 0.5));
    assert StartFrom(inst, sub, 0, 1.0) == Start(3, Fill([], 3, true, 0.5));
  }

  /** With item 3 forced in no space is left; what is packed are the items without weight. */
  lemma SecondSplit(sub: KSub)
    requires sub == KSub([3], [], 0.0, NOT_SPLIT, 0, [])
    ensures var c := Bounded(SmallInstance(), sub, true); c.splitItem == TERMINAL && c.tSplitInitial == 2
  {
    var inst := SmallInstance();
    assert StartFrom(inst, sub, 2, 0.0) == Start(2, Fill([], 2, false, 0.0));
    assert StartFrom(inst, sub, 1, 0.0) == Start(2, Fill([], 2, false, 0.0));
    assert StartFrom(inst, sub, 0, 0.0) == Start(2, Fill([], 2, false, 0.0));
  }

  /** Two splits of the code lead from the root to a subproblem with a solution that beats the bound, is not the
      candidate, and is in no child. */
  lemma EnumerationLosesSolution() returns (d: KSub, s: seq<bool>)
    ensures var inst := SmallInstance();
            var root := Bounded(inst, RootData(inst), true);
            && inst.Ok() && CanMiss(inst) && Children(root) == 2
            && var c := Bounded(inst, ChildOf(inst, root, 0), true);
               && Children(c) == 2 && d == Bounded(inst, ChildOf(inst, c, 0), true)
               && d.splitItem == TERMINAL && Children(d) == 0 && s != GreedySolution(inst, d)
               && Covers(inst, d, s) && ValueOf(inst, Sel(s)) > Bound(inst, d)
  {
    var inst := SmallInstance();
    SmallInstanceOk();
    FirstSplit();
    var root := Bounded(inst, RootData(inst), true);
    var sub := ChildOf(inst, root, 0);
    assert sub == KSub([3], [], 0.0, NOT_SPLIT, 0, []);
    SecondSplit(sub);
    var c := Bounded(inst, sub, true);
    var e := ChildOf(inst, c, 0);
    assert e == KSub([3], [0], 0.0, NOT_SPLIT, 0, []);
    d := Bounded(inst, e, true);
    s := LostInSmall(d);
  }

  lemma LostInSmall(d: KSub) returns (s: seq<bool>)
    requires d == Bounded(SmallInstance(), KSub([3], [0], 0.0, NOT_SPLIT, 0, []), true)
    ensures var inst := SmallInstance();
            && CanMiss(inst) && d.splitItem == TERMINAL && Children(d) == 0 && s != GreedySolution(inst, d)
            && Covers(inst, d, s) && ValueOf(inst, Sel(s)) > Bound(inst, d)
  {
    var inst := SmallInstance();
    SmallInstanceOk();
    assert !Free(d, 0) && Free(d, 1);
    var none := (j: int) => false;
    EmptySelection(inst);
    AddToSelection(inst, none, ListSel([3]), 3);
    MissingNeeds(inst, d);
    s := LostSolution(inst, d);
  }
}
