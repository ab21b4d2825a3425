/** The serial search of `branching.cpp`: the main loop, the three subproblem handlers and the shells
    around the application's computations. */
module SearchEngine {
  import opened Fathoming
  import opened Options
  import opened Repository
  import opened SolutionStore
  import opened Application

  datatype Handler = lazyHandler | hybridHandler | eagerHandler

  ghost function Efforts<A, S>(app: App<A, S>, nodes: seq<Sub<A>>): nat {
    if nodes == [] then 0 else Efforts(app, nodes[..|nodes| - 1]) + app.effort(nodes[|nodes| - 1])
  }

  lemma EffortsAdd<A, S>(app: App<A, S>, nodes: seq<Sub<A>>, p: Sub<A>)
    ensures Efforts(app, nodes + [p]) == Efforts(app, nodes) + app.effort(p)
  {
    assert (nodes + [p])[..|nodes|] == nodes;
  }

  lemma {:induction false} EffortsOut<A, S>(app: App<A, S>, nodes: seq<Sub<A>>, i: nat)
    requires i < |nodes|
    ensures Efforts(app, nodes) == Efforts(app, nodes[..i] + nodes[i + 1..]) + app.effort(nodes[i])
  {
    var front, last := nodes[..|nodes| - 1], nodes[|nodes| - 1];
    if i == |nodes| - 1 {
      assert nodes[..i] + nodes[i + 1..] == front;
    } else {
      EffortsOut(app, front, i);
      assert nodes[..i] + nodes[i + 1..] == (front[..i] + front[i + 1..]) + [last];
      EffortsAdd(app, front[..i] + front[i + 1..], last);
    }
  }

  /** What is left of the pool after pruning. */
  function Unfathomed<A(!new)>(st: Settings, pr: Progress, pool: seq<Sub<A>>): (kept: seq<Sub<A>>)
    ensures forall n :: n in kept <==> n in pool && !CanFathomSub(st, pr, n)
  {
    if pool == [] then []
    else
      var rest := Unfathomed(st, pr, pool[..|pool| - 1]);
      if CanFathomSub(st, pr, pool[|pool| - 1]) then rest else rest + [pool[|pool| - 1]]
  }

  lemma {:induction false} PruningSavesEffort<A(!new), S>(app: App<A, S>, st: Settings, pr: Progress, pool: seq<Sub<A>>)
    ensures Efforts(app, Unfathomed(st, pr, pool)) <= Efforts(app, pool)
  {
    if pool != [] {
      var front := pool[..|pool| - 1];
      PruningSavesEffort(app, st, pr, front);
      EffortsAdd(app, Unfathomed(st, pr, front), pool[|pool| - 1]);
    }
  }

  lemma PruningIsSafe<A(!new), S(!new)>(app: App<A, S>, st: Settings, pr: Progress, found: set<S>, pool: seq<Sub<A>>,
                                      rest: seq<Sub<A>>)
    requires Usable(st) && Complete(app, st, pr, found, pool + rest)
    ensures Complete(app, st, pr, found, Unfathomed(st, pr, pool) + rest)
  {
    var kept := Unfathomed(st, pr, pool);
    forall s | app.feasible(s) ensures Accounted(app, st, pr, found, kept + rest, s) {
      assert Accounted(app, st, pr, found, pool + rest, s);
      if n :| n in pool + rest && Open(app, n, s) {
        if n in kept + rest {
        } else {
          FathomUpward(st, pr, n.bound, app.value(s));
        }
      }
    }
  }

  /** A subproblem that has just been bounded takes over from what it was before. */
  lemma BoundTakesOver<A(!new), S(!new)>(app: App<A, S>, st: Settings, call: nat, pr: Progress, p: Sub<A>,
                                       pr': Progress, found: set<S>)
    requires Usable(st) && AppOk(app, st) && Sound(app, st, p) && p.state == beingBounded
    requires Improves(st, pr, pr')
    requires var r := app.boundComputation(call, pr, p);
             && (forall s | s in r.found :: s in found)
             && (r.sub.state == bounded && !CanFathomSub(st, pr', r.sub) && app.candidateSolution(r.sub.data) ==>
                   app.extractSolution(r.sub.data) in found)
    ensures TakenOver(app, st, pr', found, p, [app.boundComputation(call, pr, p).sub])
  {
    var r := app.boundComputation(call, pr, p);
    assert BoundOk(app, st, call, pr, p);
    forall s | app.feasible(s) && Open(app, p, s) ensures Accounted(app, st, pr', found, [r.sub], s) {
      if CanFathom(st, pr, app.value(s)) {
        MonotoneIsLasting(st);
        FathomStable(st, pr, pr', app.value(s));
      } else if s !in found {
        assert r.sub in [r.sub];
        if CanFathomSub(st, pr', r.sub) {
          FathomUpward(st, pr', r.sub.bound, app.value(s));
        }
      }
    }
  }

  lemma NotedIsExtracted<A(!new), S(!new)>(app: App<A, S>, st: Settings, inc: real, incumbent: Option<S>, r: Repo<S>,
                                         found: set<S>, p: Sub<A>)
    requires Recorded(app, st, inc, incumbent, r, found) && p.state == beingSeparated
    requires Noted(app, st, Progress(inc, r.last.value), found, p)
    ensures Extracted(app, st, Progress(inc, r.last.value), p)
  {
  }

  /** So does one that has just been split; unless it can be fathomed, its children are counted. */
  lemma SplitTakesOver<A(!new), S(!new)>(app: App<A, S>, st: Settings, call: nat, pr: Progress, found: set<S>, p: Sub<A>,
                                       pr': Progress, found': set<S>)
    requires Usable(st) && AppOk(app, st) && Sound(app, st, p) && p.state == beingSeparated
    requires Noted(app, st, pr, found, p) && Extracted(app, st, pr, p) && Improves(st, pr, pr') && found <= found'
    requires forall s | s in app.splitComputation(call, pr, p).found :: s in found'
    ensures var r := app.splitComputation(call, pr, p);
            TakenOver(app, st, pr', found', p, if CanFathomSub(st, pr', r.sub) then [] else [AfterSplit(r)])
  {
    var r := app.splitComputation(call, pr, p);
    assert SplitOk(app, st, call, pr, p);
    var next := if CanFathomSub(st, pr', r.sub) then [] else [AfterSplit(r)];
    if !CanFathomSub(st, pr', r.sub) {
      StillUnfathomed(st, pr, pr', r.sub);
      SplitIsNoted(app, st, pr, found, p, r, pr', found');
    }
    forall s | app.feasible(s) && Open(app, p, s) ensures Accounted(app, st, pr', found', next, s) {
      if CanFathom(st, pr, app.value(s)) {
        MonotoneIsLasting(st);
        FathomStable(st, pr, pr', app.value(s));
      } else if s !in found' {
        assert AfterSplit(r) in [AfterSplit(r)];
        if CanFathomSub(st, pr', r.sub) {
          FathomUpward(st, pr', r.sub.bound, app.value(s));
        }
      }
    }
  }

  lemma StillUnfathomed<A>(st: Settings, pr: Progress, pr': Progress, n: Sub<A>)
    requires Usable(st) && Improves(st, pr, pr') && !CanFathomSub(st, pr', n)
    ensures !CanFathomSub(st, pr, n)
  {
    if CanFathomSub(st, pr, n) {
      MonotoneIsLasting(st);
      FathomStable(st, pr, pr', n.bound);
    }
  }

  lemma SplitIsNoted<A(!new), S(!new)>(app: App<A, S>, st: Settings, pr: Progress, found: set<S>, p: Sub<A>,
                                     r: Answer<A, S>, pr': Progress, found': set<S>)
    requires Usable(st) && p.state == beingSeparated && Noted(app, st, pr, found, p) && SplitLeaves(app, st, pr, p, r)
    requires Improves(st, pr, pr') && found <= found'
    requires r.sub.state == beingSeparated || r.sub.state == separated || r.sub.state == dead
    ensures Noted(app, st, pr', found', AfterSplit(r))
  {
    if r.sub.state == beingSeparated && !CanFathomSub(st, pr', r.sub) {
      StillUnfathomed(st, pr, pr', r.sub);
    }
  }

  lemma ChildTakesOver<A(!new), S(!new)>(app: App<A, S>, st: Settings, call: nat, p: Sub<A>, pr: Progress, found: set<S>)
    requires AppOk(app, st) && Sound(app, st, p) && p.state == separated && p.childrenLeft > 0
    ensures var r := app.makeChild(call, p, p.totalChildren - p.childrenLeft);
            TakenOver(app, st, pr, found, p, [AfterChild(p, r), r.child])
  {
    var r := app.makeChild(call, p, p.totalChildren - p.childrenLeft);
    assert ChildOk(app, st, call, p);
    var next := [AfterChild(p, r), r.child];
    assert AfterChild(p, r) in next && r.child in next;
  }

  lemma Recast<A(!new), S(!new)>(app: App<A, S>, st: Settings, pr: Progress, found: set<S>, pool: seq<Sub<A>>,
                               p: Sub<A>, p1: Sub<A>)
    requires AppOk(app, st) && Complete(app, st, pr, found, pool + [p]) && p1 == p.(state := p1.state)
    requires || ((p.state == boundable || p.state == beingBounded) && p1.state == beingBounded)
             || ((p.state == bounded || p.state == beingSeparated) && p1.state == beingSeparated)
    ensures Complete(app, st, pr, found, pool + [p1]) && Sound(app, st, p1)
  {
    assert RelabelOk(app, p) && p in pool + [p] && p1 in [p1];
    Replace(app, st, pr, found, pool, p, [p1]);
  }

  lemma BoundCompletes<A(!new), S(!new)>(app: App<A, S>, st: Settings, call: nat, pr: Progress, found: set<S>,
                                       pool: seq<Sub<A>>, p: Sub<A>, pr': Progress, found': set<S>)
    requires Usable(st) && AppOk(app, st) && p.state == beingBounded && Complete(app, st, pr, found, pool + [p])
    requires Improves(st, pr, pr') && found <= found'
    requires var r := app.boundComputation(call, pr, p);
             && (forall s | s in r.found :: s in found')
             && (r.sub.state == bounded && !CanFathomSub(st, pr', r.sub) && app.candidateSolution(r.sub.data) ==>
                   app.extractSolution(r.sub.data) in found')
    ensures Complete(app, st, pr', found', pool + [app.boundComputation(call, pr, p).sub])
  {
    assert p in pool + [p];
    StillAccounted(app, st, pr, found, pool + [p], pr', found');
    BoundTakesOver(app, st, call, pr, p, pr', found');
    Replace(app, st, pr', found', pool, p, [app.boundComputation(call, pr, p).sub]);
  }

  lemma SplitCompletes<A(!new), S(!new)>(app: App<A, S>, st: Settings, call: nat, pr: Progress, found: set<S>,
                                       pool: seq<Sub<A>>, p: Sub<A>, pr': Progress, found': set<S>)
    requires Usable(st) && AppOk(app, st) && p.state == beingSeparated && Complete(app, st, pr, found, pool + [p])
    requires Extracted(app, st, pr, p) && Improves(st, pr, pr') && found <= found'
    requires forall s | s in app.splitComputation(call, pr, p).found :: s in found'
    ensures var r := app.splitComputation(call, pr, p);
            Complete(app, st, pr', found', if CanFathomSub(st, pr', r.sub) then pool else pool + [AfterSplit(r)])
  {
    var r := app.splitComputation(call, pr, p);
    var next := if CanFathomSub(st, pr', r.sub) then [] else [AfterSplit(r)];
    assert p in pool + [p];
    StillAccounted(app, st, pr, found, pool + [p], pr', found');
    SplitTakesOver(app, st, call, pr, found, p, pr', found');
    Replace(app, st, pr', found', pool, p, next);
    assert pool + [] == pool;
  }

  /** A split that is of any use leaves less work. */
  lemma SplitShrinks<A(!new), S(!new)>(app: App<A, S>, st: Settings, call: nat, pr: Progress, p: Sub<A>, r: Answer<A, S>,
                                     pr': Progress)
    requires Usable(st) && AppOk(app, st) && Improves(st, pr, pr')
    requires p.state == bounded || p.state == beingSeparated
    requires var p1 := p.(state := beingSeparated);
             Sound(app, st, p1) && Extracted(app, st, pr, p1) && r == app.splitComputation(call, pr, p1)
    ensures r.sub.state == beingSeparated || r.sub.state == separated || r.sub.state == dead
    ensures !CanFathomSub(st, pr', r.sub) ==> app.effort(AfterSplit(r)) < app.effort(p)
  {
    var p1 := p.(state := beingSeparated);
    assert SplitOk(app, st, call, pr, p1) && EffortOk(app, p);
    if !CanFathomSub(st, pr', r.sub) {
      StillUnfathomed(st, pr, pr', r.sub);
    }
    assert p == p1 || p.state == bounded;
  }

  /** Fathomable, dead and exhausted subproblems may be erased. */
  predicate Erasable<A>(st: Settings, pr: Progress, p: Sub<A>) {
    CanFathomSub(st, pr, p) || (p.state == separated && p.childrenLeft == 0)
  }

  lemma EraseCompletes<A(!new), S(!new)>(app: App<A, S>, st: Settings, pr: Progress, found: set<S>, pool: seq<Sub<A>>,
                                       p: Sub<A>)
    requires Usable(st) && Complete(app, st, pr, found, pool + [p]) && Erasable(st, pr, p)
    ensures Complete(app, st, pr, found, pool)
  {
    assert p in pool + [p];
    if CanFathomSub(st, pr, p) {
      FathomedTakenOver(app, st, pr, found, p);
    } else {
      ExhaustedTakenOver(app, st, pr, found, p);
    }
    Replace(app, st, pr, found, pool, p, []);
    assert pool + [] == pool;
  }

  /** Making a child and keeping it, unless it can be fathomed. */
  lemma ChildCompletes<A(!new), S(!new)>(app: App<A, S>, st: Settings, call: nat, pr: Progress, found: set<S>,
                                       pool: seq<Sub<A>>, p: Sub<A>)
    requires Usable(st) && AppOk(app, st) && Complete(app, st, pr, found, pool + [p])
    requires p.state == separated && p.childrenLeft > 0
    ensures assert p in pool + [p];
            var r := app.makeChild(call, p, p.totalChildren - p.childrenLeft);
            Complete(app, st, pr, found, pool + [AfterChild(p, r)] + [r.child])
            && app.effort(AfterChild(p, r)) + app.effort(r.child) < app.effort(p)
  {
    assert p in pool + [p];
    assert ChildOk(app, st, call, p);
    ChildTakesOver(app, st, call, p, pr, found);
    var r := app.makeChild(call, p, p.totalChildren - p.childrenLeft);
    Replace(app, st, pr, found, pool, p, [AfterChild(p, r), r.child]);
    assert pool + [AfterChild(p, r), r.child] == pool + [AfterChild(p, r)] + [r.child];
  }

  /** Only which subproblems are open matters, not their order. */
  lemma Reordered<A(!new), S(!new)>(app: App<A, S>, st: Settings, pr: Progress, found: set<S>, nodes: seq<Sub<A>>,
                                  nodes': seq<Sub<A>>)
    requires Complete(app, st, pr, found, nodes) && forall n :: n in nodes <==> n in nodes'
    ensures Complete(app, st, pr, found, nodes')
  {
    forall s | app.feasible(s) ensures Accounted(app, st, pr, found, nodes', s) {
      assert Accounted(app, st, pr, found, nodes, s);
    }
  }

  lemma PrunedEfforts<A(!new), S(!new)>(app: App<A, S>, st: Settings, pr: Progress, pool: seq<Sub<A>>, rest: seq<Sub<A>>)
    requires |rest| <= 1
    ensures Efforts(app, Unfathomed(st, pr, pool) + rest) <= Efforts(app, pool + rest)
  {
    PruningSavesEffort(app, st, pr, pool);
    if rest == [] {
      assert pool + rest == pool && Unfathomed(st, pr, pool) + rest == Unfathomed(st, pr, pool);
    } else {
      assert rest == [rest[0]];
      EffortsAdd(app, pool, rest[0]);
      EffortsAdd(app, Unfathomed(st, pr, pool), rest[0]);
    }
  }

  lemma StartCovers<A(!new), S(!new)>(app: App<A, S>, st: Settings, pr: Progress)
    requires AppOk(app, st)
    ensures Complete(app, st, pr, {}, [app.root])
  {
    assert app.root in [app.root];
    forall s | app.feasible(s) ensures Accounted(app, st, pr, {}, [app.root], s) {
      assert app.covers(app.root.data, s);
    }
  }

  lemma GuessImproves<A(!new), S(!new)>(app: App<A, S>, st: Settings, inc: real, r: Repo<S>, s: S, serial: int, r': Repo<S>)
    requires InOrder(app, st, inc, None, r, {}, false) && app.feasible(s) && Found(app, st, inc, r, s, serial, r')
    ensures Improves(st, Progress(inc, r.last.value), Progress(app.value(s), r'.last.value))
  {
    FoundIsRecorded(app, st, inc, None, r, {}, s, serial, r');
  }

  /** The state a finished search leaves: nothing is open any more. */
  ghost predicate Settled<A(!new), S(!new)>(app: App<A, S>, st: Settings, inc: real, incumbent: Option<S>, r: Repo<S>,
                                          found: set<S>) {
    && InOrder(app, st, inc, incumbent, r, found, st.enumCount != 0)
    && Complete(app, st, Progress(inc, r.last.value), found, [])
  }

  lemma ImprovesOn(st: Settings, a: Progress, b: Progress, c: Progress)
    requires Improves(st, a, b) && Improves(st, b, c)
    ensures Improves(st, a, c)
  {
  }

  ghost predicate BoundedAtOnce<A(!new), S>(app: App<A, S>, call: nat, pr: Progress, p: Sub<A>) {
    app.boundComputation(call, pr, p).sub.state != beingBounded
  }

  ghost predicate ChildBoundable<A(!new), S>(app: App<A, S>, call: nat, p: Sub<A>, i: nat) {
    var c := app.makeChild(call, p, i).child;
    c.state == boundable || c.state == dead
  }

  /** What the eager handler needs beyond the contract. */
  ghost predicate BoundsAtOnce<A(!new), S(!new)>(app: App<A, S>) {
    && (forall call, pr, p :: BoundedAtOnce(app, call, pr, p))
    && (forall call, p, i :: ChildBoundable(app, call, p, i))
  }

  /** Whatever has been put in the pool had been bounded before. */
  ghost predicate BoundedFirst<A>(pool: seq<Sub<A>>, pool': seq<Sub<A>>) {
    forall n | n in pool' && n !in pool :: n.state == bounded || n.state == beingBounded
  }

  predicate StrictlyBetter(st: Settings, x: real, y: real) { if st.sense.minimization? then x < y else y < x }

  /** What the hybrid handler leaves of a subproblem it does not finish: one state further, or with a changed bound. */
  ghost predicate Advanced<A>(p: Sub<A>, q: Sub<A>) {
    match p.state
    case boundable => q.state == beingBounded || q.state == bounded
    case beingBounded => q.state == beingBounded || q.state == bounded
    case bounded => q.state == beingSeparated || q.state == separated
    case beingSeparated => q.state == beingSeparated || q.state == separated
    case separated => q.state == separated && q.bound != p.bound
    case dead => false
  }

  class Branching<A(!new), S(!new,==)> {
    const app: App<A, S>
    const st: Settings
    const repository: Store<S>
    var incumbentValue: real
    var incumbent: Option<S>
    var pool: seq<Sub<A>>
    var currentSP: Option<Sub<A>>
    var needPruning: bool
    var solSerialCounter: int
    var calls: nat
    ghost var found: set<S>

    function Pr(): Progress
      reads this, repository
    {
      Progress(incumbentValue, repository.lastSolId.value)
    }

    ghost predicate Valid()
      reads this, repository, repository.reposHeap
    {
      && repository.Valid() && repository.st == st
      && InOrder(app, st, incumbentValue, incumbent, repository.View(), found, needPruning)
    }

    /** Nothing feasible has been lost as long as `nodes` are still open. */
    ghost predicate Covers(nodes: seq<Sub<A>>)
      reads this, repository, repository.reposHeap
    {
      Valid() && Complete(app, st, Pr(), found, nodes)
    }

    /** Unless pruning is due, nothing in the pool can be fathomed. */
    ghost predicate Tidy()
      reads this, repository
    {
      !needPruning ==> forall n | n in pool :: !CanFathomSub(st, Pr(), n)
    }

    /** Nor can the current subproblem. */
    ghost predicate TidyCurrent()
      reads this, repository
    {
      !needPruning && currentSP.Some? ==> !CanFathomSub(st, Pr(), currentSP.value)
    }

    constructor (app: App<A, S>, st: Settings, hash: S -> nat, enumHashSize: nat, maxInt: int)
      requires Usable(st) && AppOk(app, st) && enumHashSize > 0
      ensures Valid() && this.app == app && this.st == st && fresh(repository) && fresh(repository.reposHeap)
      ensures found == {} && pool == [] && currentSP == None && incumbent == None && !needPruning
      ensures repository.View().held == {} && repository.hash == hash && repository.enumHashSize == enumHashSize
    {
      this.app, this.st := app, st;
      var store := new Store(st, hash, enumHashSize, maxInt);
      repository := store;
      incumbentValue, incumbent := st.Signed(st.maxDouble), None;
      pool, currentSP, needPruning, solSerialCounter, calls, found := [], None, false, 0, 0, {};
    }

    method ReplaceIncumbentIfBetter(s: S)
      modifies this`incumbentValue, this`incumbent, this`needPruning
      ensures incumbentValue == BetterValue(app, st, old(incumbentValue), s)
      ensures incumbent == BetterSolution(app, st, old(incumbentValue), old(incumbent), s)
      ensures needPruning == (old(needPruning) || incumbentValue != old(incumbentValue))
    {
      if st.Signed(app.value(s)) - st.Signed(incumbentValue) < 0.0 {
        incumbent, incumbentValue := Some(s), app.value(s);
        needPruning := true;
      }
    }

    method ReposOrDrop(s: S, ghost inc: real)
      requires repository.Valid() && repository.st == st && incumbentValue == BetterValue(app, st, inc, s)
      modifies this`needPruning, this`solSerialCounter
      modifies repository`reposTable, repository`lastSolId, repository.reposHeap
      ensures repository.Valid() && (old(needPruning) ==> needPruning)
      ensures st.enumCount == 0 ==> needPruning == old(needPruning)
      ensures needPruning <==> old(needPruning) || repository.lastSolId.value != old(repository.lastSolId.value)
      ensures Found(app, st, inc, old(repository.View()), s, old(solSerialCounter), repository.View())
    {
      ghost var before := repository.View();
      var sol := Stamped(app, s, solSerialCounter);
      solSerialCounter := solSerialCounter + 1;
      if st.Enumerating() {
        var prune := repository.OfferToRepository(sol, incumbentValue);
        needPruning := needPruning || prune;
        assert Offered(st, incumbentValue, before, sol, repository.View());
      }
    }

    /** Takes note of a feasible solution: it may become the incumbent and is offered to the repository. */
    method FoundSolution(s: S)
      requires Valid() && app.feasible(s)
      modifies this`incumbentValue, this`incumbent, this`needPruning, this`solSerialCounter, this`found
      modifies repository`reposTable, repository`lastSolId, repository.reposHeap
      ensures Valid() && found == old(found) + {s} && Improves(st, old(Pr()), Pr())
      ensures needPruning <==> old(needPruning) || Pr() != old(Pr())
      ensures if StrictlyBetter(st, app.value(s), old(incumbentValue))
              then incumbent == Some(s) && incumbentValue == app.value(s)
              else incumbent == old(incumbent) && incumbentValue == old(incumbentValue)
    {
      ghost var inc0, incumbent0, view0, prune0 := incumbentValue, incumbent, repository.View(), needPruning;
      ghost var serial0 := solSerialCounter;
      ReplaceIncumbentIfBetter(s);
      ReposOrDrop(s, inc0);
      FoundKeepsOrder(app, st, inc0, incumbent0, view0, found, prune0, s, serial0,
                      incumbentValue, incumbent, repository.View(), needPruning);
      found := found + {s};
    }

    method FoundSolutions(solutions: seq<S>)
      requires Valid() && AllFeasible(app, solutions)
      modifies this`incumbentValue, this`incumbent, this`needPruning, this`solSerialCounter, this`found
      modifies repository`reposTable, repository`lastSolId, repository.reposHeap
      ensures Valid() && Improves(st, old(Pr()), Pr())
      ensures !needPruning ==> !old(needPruning) && Pr() == old(Pr())
      ensures old(found) <= found && forall s | s in solutions :: s in found
    {
      if solutions != [] {
        ghost var pr0 := Pr();
        FoundSolution(solutions[0]);
        ghost var pr1 := Pr();
        FoundSolutions(solutions[1..]);
        ImprovesOn(st, pr0, pr1, Pr());
      }
    }

    /** Calls the application's bound computation and takes note of what it finds. */
    method RunBound(p: Sub<A>, ghost open: seq<Sub<A>>) returns (q: Sub<A>)
      requires Valid() && Sound(app, st, p) && p.state == beingBounded && Complete(app, st, Pr(), found, open + [p])
      modifies this`incumbentValue, this`incumbent, this`needPruning, this`solSerialCounter, this`found, this`calls
      modifies repository`reposTable, repository`lastSolId, repository.reposHeap
      ensures Valid() && q == app.boundComputation(old(calls), old(Pr()), p).sub
      ensures !needPruning ==> !old(needPruning) && Pr() == old(Pr())
      ensures Complete(app, st, Pr(), found, open + [q])
    {
      ghost var pr0, call, found0 := Pr(), calls, found;
      var r := app.boundComputation(calls, Pr(), p);
      assert BoundOk(app, st, call, pr0, p);
      calls := calls + 1;
      FoundSolutions(r.found);
      q := r.sub;
      var extracts := q.state == bounded && app.candidateSolution(q.data)
                      && !CanFathomSub(st, Pr(), q);
      if extracts {
        FoundSolution(app.extractSolution(q.data));
      }
      BoundCompletes(app, st, call, pr0, found0, open, p, Pr(), found);
    }

    /** The shell around one bound computation, including the extraction of a candidate. */
    method ComputeBound(p: Sub<A>, ghost open: seq<Sub<A>>) returns (q: Sub<A>)
      requires Covers(open + [p]) && (p.state == boundable || p.state == beingBounded)
      modifies this`incumbentValue, this`incumbent, this`needPruning, this`solSerialCounter, this`found, this`calls
      modifies repository`reposTable, repository`lastSolId, repository.reposHeap
      ensures Covers(open + [q]) && app.effort(q) < app.effort(p)
      ensures q == app.boundComputation(old(calls), old(Pr()), p.(state := beingBounded)).sub
      ensures !needPruning ==> !old(needPruning) && Pr() == old(Pr())
      ensures q.state == beingBounded || q.state == bounded || q.state == dead
      ensures BoundsAtOnce(app) ==> q.state != beingBounded
    {
      var p1 := p.(state := beingBounded);
      Recast(app, st, Pr(), found, open, p, p1);
      assert BoundOk(app, st, calls, Pr(), p1) && EffortOk(app, p);
      assert BoundsAtOnce(app) ==> BoundedAtOnce(app, calls, Pr(), p1);
      q := RunBound(p1, open);
    }

    /** Calls the application's split computation and takes note of what it finds. */
    method RunSplit(p: Sub<A>, ghost open: seq<Sub<A>>) returns (r: Answer<A, S>)
      requires Valid() && Sound(app, st, p) && p.state == beingSeparated && Complete(app, st, Pr(), found, open + [p])
      modifies this`incumbentValue, this`incumbent, this`needPruning, this`solSerialCounter, this`found, this`calls
      modifies repository`reposTable, repository`lastSolId, repository.reposHeap
      ensures Valid() && r == app.splitComputation(old(calls), old(Pr()), p) && Improves(st, old(Pr()), Pr())
      ensures !needPruning ==> !old(needPruning) && Pr() == old(Pr())
      ensures old(Extracted(app, st, Pr(), p))
      ensures Complete(app, st, Pr(), found, if CanFathomSub(st, Pr(), r.sub) then open else open + [AfterSplit(r)])
    {
      ghost var pr0, call, found0 := Pr(), calls, found;
      r := app.splitComputation(calls, Pr(), p);
      assert p in open + [p];
      NotedIsExtracted(app, st, incumbentValue, incumbent, repository.View(), found, p);
      assert SplitOk(app, st, call, pr0, p);
      calls := calls + 1;
      FoundSolutions(r.found);
      SplitCompletes(app, st, call, pr0, found0, open, p, Pr(), found);
    }

    /** The shell around one split computation; what it returns can be fathomed, needs more splitting, or
        has children left. */
    method SplitProblem(p: Sub<A>, ghost open: seq<Sub<A>>) returns (q: Sub<A>)
      requires Covers(open + [p]) && (p.state == bounded || p.state == beingSeparated)
      modifies this`incumbentValue, this`incumbent, this`needPruning, this`solSerialCounter, this`found, this`calls
      modifies repository`reposTable, repository`lastSolId, repository.reposHeap
      ensures Covers(if CanFathomSub(st, Pr(), q) then open else open + [q])
      ensures var r := app.splitComputation(old(calls), old(Pr()), p.(state := beingSeparated));
              q == if CanFathomSub(st, Pr(), r.sub) then r.sub.(childrenLeft := 0, totalChildren := 0)
                   else AfterSplit(r)
      ensures !needPruning ==> !old(needPruning) && Pr() == old(Pr())
      ensures !CanFathomSub(st, Pr(), q) ==> app.effort(q) < app.effort(p)
      ensures CanFathomSub(st, Pr(), q) || q.state == beingSeparated || (q.state == separated && q.childrenLeft > 0)
    {
      var p1 := p.(state := beingSeparated);
      Recast(app, st, Pr(), found, open, p, p1);
      ghost var pr0, call := Pr(), calls;
      var r := RunSplit(p1, open);
      q := r.sub;
      SplitShrinks(app, st, call, pr0, p, r, Pr());
      if CanFathomSub(st, Pr(), q) {
        q := q.(childrenLeft := 0, totalChildren := 0);
      } else if q.state == separated {
        q := q.(childrenLeft := r.children, totalChildren := r.children);
        if r.children == 0 {
          q := q.(state := dead);
          EraseCompletes(app, st, Pr(), found, open, q);
        }
      }
    }

    /** Lets the application look for solutions of its own near `p`. */
    method Heuristic(p: Sub<A>, ghost open: seq<Sub<A>>)
      requires Covers(open)
      modifies this`incumbentValue, this`incumbent, this`needPruning, this`solSerialCounter, this`found, this`calls
      modifies repository`reposTable, repository`lastSolId, repository.reposHeap
      ensures Covers(open)
      ensures app.haveIncumbentHeuristic && !app.candidateSolution(p.data) ==>
                forall s | s in app.incumbentHeuristic(old(calls), p) :: s in found
      ensures !needPruning ==> !old(needPruning) && Pr() == old(Pr())
    {
      if app.haveIncumbentHeuristic && !app.candidateSolution(p.data) {
        ghost var pr0, found0 := Pr(), found;
        var solutions := app.incumbentHeuristic(calls, p);
        assert HeuristicOk(app, calls, p);
        calls := calls + 1;
        FoundSolutions(solutions);
        StillAccounted(app, st, pr0, found0, open, Pr(), found);
      }
    }

    /** Makes the next child of `p`. */
    method GetChild(p: Sub<A>, ghost open: seq<Sub<A>>) returns (q: Sub<A>, c: Sub<A>)
      requires Covers(open + [p]) && p.state == separated && p.childrenLeft > 0
      modifies this`calls
      ensures Covers(open + [q] + [c]) && app.effort(q) + app.effort(c) < app.effort(p)
      ensures p.childrenLeft <= p.totalChildren
      ensures var r := app.makeChild(old(calls), p, p.totalChildren - p.childrenLeft);
              q == AfterChild(p, r) && c == r.child
      ensures q.state == separated && q.childrenLeft == p.childrenLeft - 1
      ensures BoundsAtOnce(app) ==> c.state == boundable || c.state == dead
    {
      ChildCompletes(app, st, calls, Pr(), found, open, p);
      assert p in open + [p];
      var r := app.makeChild(calls, p, p.totalChildren - p.childrenLeft);
      assert BoundsAtOnce(app) ==> ChildBoundable(app, calls, p, p.totalChildren - p.childrenLeft);
      calls := calls + 1;
      q, c := AfterChild(p, r), r.child;
    }

    /** Puts the child `c` in the pool, unless it can be fathomed. */
    method PlaceChild(q: Sub<A>, c: Sub<A>)
      requires Covers(pool + [q] + [c])
      modifies this`pool
      ensures Covers(pool + [q]) && Efforts(app, pool) <= old(Efforts(app, pool)) + app.effort(c)
      ensures pool == if CanFathomSub(st, Pr(), c) then old(pool) else old(pool) + [c]
      ensures old(Tidy()) ==> Tidy()
      ensures CanFathomSub(st, Pr(), c) || c.state == bounded || c.state == beingBounded ==>
                BoundedFirst(old(pool), pool)
    {
      if CanFathomSub(st, Pr(), c) {
        EraseCompletes(app, st, Pr(), found, pool + [q], c);
      } else {
        Reordered(app, st, Pr(), found, pool + [q] + [c], pool + [c] + [q]);
        EffortsAdd(app, pool, c);
        pool := pool + [c];
      }
    }

    method SpinOffChild(p: Sub<A>) returns (q: Sub<A>)
      requires Covers(pool + [p]) && p.state == separated && p.childrenLeft > 0
      modifies this`calls, this`pool
      ensures Covers(pool + [q]) && q.state == separated && q.childrenLeft == p.childrenLeft - 1
      ensures old(Tidy()) ==> Tidy()
      ensures Efforts(app, pool) + app.effort(q) < old(Efforts(app, pool)) + app.effort(p)
    {
      var c;
      q, c := GetChild(p, pool);
      PlaceChild(q, c);
    }

    ghost function Nodes(): seq<Sub<A>>
      reads this
    {
      if currentSP.Some? then pool + [currentSP.value] else pool
    }

    ghost function Total(): nat
      reads this
    {
      Efforts(app, Nodes())
    }

    method Erase(p: Sub<A>)
      requires Covers(pool + [p]) && Erasable(st, Pr(), p)
      modifies this`currentSP
      ensures Covers(Nodes()) && currentSP == None && Total() < Efforts(app, pool) + app.effort(p)
    {
      EraseCompletes(app, st, Pr(), found, pool, p);
      assert EffortOk(app, p);
      currentSP := None;
    }

    method Keep(p: Sub<A>)
      requires Covers(pool + [p])
      modifies this`currentSP
      ensures Covers(Nodes()) && currentSP == Some(p) && Total() == Efforts(app, pool) + app.effort(p)
    {
      EffortsAdd(app, pool, p);
      currentSP := Some(p);
    }

    /** Bounds `p`, and stops if it can be fathomed or needs more bounding. */
    method BoundPhase(p: Sub<A>) returns (q: Sub<A>, stop: bool)
      requires Covers(pool + [p]) && (p.state == boundable || p.state == beingBounded)
      modifies this`incumbentValue, this`incumbent, this`needPruning, this`solSerialCounter, this`found, this`calls
      modifies this`currentSP, repository`reposTable, repository`lastSolId, repository.reposHeap
      ensures stop ==> Covers(Nodes()) && Total() < Efforts(app, pool) + app.effort(p) && TidyCurrent()
      ensures !stop ==> Covers(pool + [q]) && app.effort(q) < app.effort(p) && q.state == bounded
      ensures !stop ==> !CanFathomSub(st, Pr(), q)
      ensures !needPruning ==> !old(needPruning) && Pr() == old(Pr())
      ensures BoundsAtOnce(app) && stop ==> currentSP == None
      ensures stop && currentSP.Some? ==> q.state == beingBounded && currentSP.value == q
    {
      q := ComputeBound(p, pool);
      stop := true;
      if CanFathomSub(st, Pr(), q) {
        Erase(q);
      } else if q.state == beingBounded {
        Keep(q);
      } else {
        stop := false;
      }
    }

    /** The first part of the lazy and eager handlers: what is not bounded yet is, as far as one call goes, and the
        application may look for solutions. */
    method BoundStage(p0: Sub<A>) returns (p: Sub<A>, stop: bool)
      requires Covers(pool + [p0]) && !CanFathomSub(st, Pr(), p0)
      modifies this`incumbentValue, this`incumbent, this`needPruning, this`solSerialCounter, this`found, this`calls
      modifies this`currentSP, repository`reposTable, repository`lastSolId, repository.reposHeap
      ensures stop ==> Covers(Nodes()) && Total() < Efforts(app, pool) + app.effort(p0) && TidyCurrent()
      ensures stop && currentSP.Some? ==> p.state == beingBounded && currentSP.value == p
      ensures BoundsAtOnce(app) && stop ==> currentSP == None
      ensures !stop ==> Covers(pool + [p]) && app.effort(p) <= app.effort(p0)
      ensures !stop ==> p.state == bounded || p.state == beingSeparated || p.state == separated
      ensures !needPruning ==> !old(needPruning) && Pr() == old(Pr())
    {
      p, stop := p0, false;
      if p.state == boundable || p.state == beingBounded {
        p, stop := BoundPhase(p);
      }
      if !stop && p.state == bounded {
        Heuristic(p, pool + [p]);
      }
    }

    /** Splits `p`, and stops if it can be fathomed or needs more splitting. */
    method SplitPhase(p: Sub<A>) returns (q: Sub<A>, stop: bool)
      requires Covers(pool + [p]) && (p.state == bounded || p.state == beingSeparated)
      modifies this`incumbentValue, this`incumbent, this`needPruning, this`solSerialCounter, this`found, this`calls
      modifies this`currentSP, repository`reposTable, repository`lastSolId, repository.reposHeap
      ensures stop ==> Covers(Nodes()) && Total() < Efforts(app, pool) + app.effort(p) && TidyCurrent()
      ensures stop && currentSP.Some? ==> currentSP.value.state == beingSeparated
      ensures !stop ==> Covers(pool + [q]) && app.effort(q) < app.effort(p) && q.state == separated
      ensures !stop ==> !CanFathomSub(st, Pr(), q)
      ensures !needPruning ==> !old(needPruning) && Pr() == old(Pr())
    {
      q := SplitProblem(p, pool);
      stop := true;
      if CanFathomSub(st, Pr(), q) {
        assert EffortOk(app, p);
        currentSP := None;
      } else if q.state == beingSeparated {
        Keep(q);
      } else {
        stop := false;
      }
    }

    /** `lazyHandler::execute`: bound, split and spin off all children in one go. */
    method LazyExecute(p0: Sub<A>)
      requires Covers(pool + [p0]) && !CanFathomSub(st, Pr(), p0)
      modifies this`incumbentValue, this`incumbent, this`needPruning, this`solSerialCounter, this`found, this`calls
      modifies this`pool
      modifies this`currentSP, repository`reposTable, repository`lastSolId, repository.reposHeap
      ensures Covers(Nodes()) && Total() < old(Efforts(app, pool)) + app.effort(p0)
      ensures old(Tidy()) ==> Tidy() && TidyCurrent()
      ensures currentSP.Some? ==> currentSP.value.state == beingBounded || currentSP.value.state == beingSeparated
    {
      var p, stop := BoundStage(p0);
      if !stop && (p.state == bounded || p.state == beingSeparated) {
        p, stop := SplitPhase(p);
      }
      if !stop {
        Heuristic(p, pool + [p]);
        SpinOffAll(p);
      }
    }

    method SpinOffAll(p: Sub<A>)
      requires Covers(pool + [p]) && p.state == separated
      modifies this`calls, this`pool, this`currentSP
      ensures Covers(Nodes()) && currentSP == None && Total() < old(Efforts(app, pool)) + app.effort(p)
      ensures old(Tidy()) ==> Tidy()
    {
      var q, childCount := p, p.childrenLeft;
      while childCount > 0 && !CanFathomSub(st, Pr(), q)
        invariant Covers(pool + [q]) && q.state == separated && childCount == q.childrenLeft
        invariant old(Tidy()) ==> Tidy()
        invariant Efforts(app, pool) + app.effort(q) <= old(Efforts(app, pool)) + app.effort(p)
        decreases childCount
      {
        q := SpinOffChild(q);
        childCount := childCount - 1;
      }
      Erase(q);
    }

    /** `hybridHandler::execute`: advance by one state, or pull out children until the bound changes. */
    method HybridExecute(p0: Sub<A>)
      requires Covers(pool + [p0]) && !CanFathomSub(st, Pr(), p0)
      modifies this`incumbentValue, this`incumbent, this`needPruning, this`solSerialCounter, this`found, this`calls
      modifies this`pool
      modifies this`currentSP, repository`reposTable, repository`lastSolId, repository.reposHeap
      ensures Covers(Nodes()) && Total() < old(Efforts(app, pool)) + app.effort(p0)
      ensures old(Tidy()) ==> Tidy() && TidyCurrent()
      ensures currentSP.Some? ==> Advanced(p0, currentSP.value)
      ensures p0.state != separated ==> pool == old(pool)
    {
      if p0.state == boundable || p0.state == beingBounded {
        var p, stop := BoundPhase(p0);
        if !stop {
          Heuristic(p, pool + [p]);
          Keep(p);
        }
      } else if p0.state == bounded || p0.state == beingSeparated {
        var p, stop := SplitPhase(p0);
        if !stop {
          Heuristic(p, pool + [p]);
          Keep(p);
        }
      } else {
        SpinOffSome(p0);
      }
    }

    method SpinOffSome(p: Sub<A>)
      requires Covers(pool + [p]) && p.state == separated
      modifies this`calls, this`pool, this`currentSP
      ensures Covers(Nodes()) && Total() < old(Efforts(app, pool)) + app.effort(p)
      ensures old(Tidy()) ==> Tidy() && TidyCurrent()
      ensures currentSP.Some? ==> currentSP.value.state == separated && currentSP.value.bound != p.bound
    {
      var q, startBound := p, p.bound;
      while q.childrenLeft > 0 && !CanFathomSub(st, Pr(), q) && q.bound == startBound
        invariant Covers(pool + [q]) && q.state == separated
        invariant old(Tidy()) ==> Tidy()
        invariant Efforts(app, pool) + app.effort(q) <= old(Efforts(app, pool)) + app.effort(p)
        invariant q == p || Efforts(app, pool) + app.effort(q) < old(Efforts(app, pool)) + app.effort(p)
        decreases q.childrenLeft
      {
        q := SpinOffChild(q);
      }
      if q.childrenLeft > 0 && !CanFathomSub(st, Pr(), q) {
        Keep(q);
      } else {
        Erase(q);
      }
    }

    /** `boundSubHandler` for a child: bounds it unless it can be thrown away; fails on a child that
        was not created boundable. */
    method BoundChild(c: Sub<A>, ghost open: seq<Sub<A>>) returns (d: Sub<A>, ok: bool)
      requires Covers(open + [c])
      modifies this`incumbentValue, this`incumbent, this`needPruning, this`solSerialCounter, this`found, this`calls
      modifies repository`reposTable, repository`lastSolId, repository.reposHeap
      ensures ok ==> Covers(open + [d]) && app.effort(d) <= app.effort(c)
      ensures ok ==> CanFathomSub(st, Pr(), d) || d.state == bounded || d.state == beingBounded
      ensures !needPruning ==> !old(needPruning) && Pr() == old(Pr())
      ensures ok == (old(CanFathomSub(st, Pr(), c)) || c.state == boundable || c.state == beingBounded)
    {
      d, ok := c, true;
      if !CanFathomSub(st, Pr(), c) {
        ok := c.state == boundable || c.state == beingBounded;
        if ok {
          d := ComputeBound(c, open);
        }
      }
    }

    /** One round of the loop of the eager handler. */
    method BoundNextChild(p: Sub<A>) returns (q: Sub<A>, ok: bool)
      requires Covers(pool + [p]) && p.state == separated && p.childrenLeft > 0
      modifies this`incumbentValue, this`incumbent, this`needPruning, this`solSerialCounter, this`found, this`calls
      modifies this`pool
      modifies repository`reposTable, repository`lastSolId, repository.reposHeap
      ensures ok ==> Covers(pool + [q]) && q.state == separated && q.childrenLeft == p.childrenLeft - 1
      ensures ok ==> Efforts(app, pool) + app.effort(q) < old(Efforts(app, pool)) + app.effort(p)
      ensures (old(Tidy()) ==> Tidy()) && BoundedFirst(old(pool), pool)
      ensures BoundsAtOnce(app) ==> ok
    {
      var c, d;
      q, c := GetChild(p, pool);
      d, ok := BoundChild(c, pool + [q]);
      if ok {
        PlaceChild(q, d);
      }
    }

    /** The loop of the eager handler: every child is bounded before it enters the pool. */
    method BoundAllChildren(p: Sub<A>) returns (ok: bool)
      requires Covers(pool + [p]) && p.state == separated
      modifies this`incumbentValue, this`incumbent, this`needPruning, this`solSerialCounter, this`found, this`calls
      modifies this`pool
      modifies this`currentSP, repository`reposTable, repository`lastSolId, repository.reposHeap
      ensures ok ==> Covers(Nodes()) && Total() < old(Efforts(app, pool)) + app.effort(p)
      ensures old(Tidy()) ==> Tidy()
      ensures ok ==> currentSP == None && BoundedFirst(old(pool), pool)
      ensures BoundsAtOnce(app) ==> ok
    {
      var q := p;
      while q.childrenLeft > 0 && !CanFathomSub(st, Pr(), q)
        invariant Covers(pool + [q]) && q.state == separated
        invariant (old(Tidy()) ==> Tidy()) && BoundedFirst(old(pool), pool)
        invariant Efforts(app, pool) + app.effort(q) <= old(Efforts(app, pool)) + app.effort(p)
        decreases q.childrenLeft
      {
        q, ok := BoundNextChild(q);
        if !ok {
          return;
        }
      }
      Erase(q);
      ok := true;
    }

    /** `eagerHandler::execute`; it fails when it would split a subproblem that is not bounded yet or
        bound a child that is not boundable. */
    method EagerExecute(p0: Sub<A>) returns (ok: bool)
      requires Covers(pool + [p0]) && !CanFathomSub(st, Pr(), p0)
      modifies this`incumbentValue, this`incumbent, this`needPruning, this`solSerialCounter, this`found, this`calls
      modifies this`pool
      modifies this`currentSP, repository`reposTable, repository`lastSolId, repository.reposHeap
      ensures ok ==> Covers(Nodes()) && Total() < old(Efforts(app, pool)) + app.effort(p0)
      ensures ok && old(Tidy()) ==> Tidy() && TidyCurrent()
      ensures ok ==> BoundedFirst(old(pool), pool)
      ensures ok && currentSP.Some? ==> currentSP.value.state == beingSeparated
      ensures BoundsAtOnce(app) ==> ok
    {
      ok := true;
      var p, stop := BoundStage(p0);
      if stop && currentSP.Some? {
        Heuristic(p, Nodes());
        return false;
      }
      if !stop && (p.state == bounded || p.state == beingSeparated) {
        p, stop := SplitPhase(p);
        if !stop {
          Heuristic(p, pool + [p]);
        }
      }
      if !stop {
        ok := BoundAllChildren(p);
      }
    }

    method Execute(handler: Handler, p0: Sub<A>) returns (ok: bool)
      requires Covers(pool + [p0]) && !CanFathomSub(st, Pr(), p0)
      modifies this`incumbentValue, this`incumbent, this`needPruning, this`solSerialCounter, this`found, this`calls
      modifies this`pool
      modifies this`currentSP, repository`reposTable, repository`lastSolId, repository.reposHeap
      ensures ok ==> Covers(Nodes()) && Total() < old(Efforts(app, pool)) + app.effort(p0)
      ensures ok && old(Tidy()) ==> Tidy() && TidyCurrent()
      ensures handler != eagerHandler || BoundsAtOnce(app) ==> ok
    {
      ok := true;
      match handler {
        case lazyHandler => LazyExecute(p0);
        case hybridHandler => HybridExecute(p0);
        case eagerHandler => ok := EagerExecute(p0);
      }
    }

    /** There is but one subproblem, in the pool, as at the start. */
    ghost predicate Alone()
      reads this
    {
      currentSP == None && |pool| <= 1
    }

    /** Makes a subproblem of the pool the current one, if there is none.  Which one a heap, a stack or
        a queue selects makes no difference here. */
    method LoadCurrentSP()
      requires Covers(Nodes()) && (currentSP.Some? || pool != [])
      modifies this`pool, this`currentSP
      ensures Covers(Nodes()) && currentSP.Some? && Total() == old(Total())
      ensures old(Tidy()) || old(Alone()) ==> Tidy()
    {
      if currentSP.None? {
        var i :| 0 <= i < |pool|;
        var p, rest := pool[i], pool[..i] + pool[i + 1..];
        Reordered(app, st, Pr(), found, pool, rest + [p]) by {
          assert pool == pool[..i] + [p] + pool[i + 1..];
        }
        EffortsOut(app, pool, i);
        EffortsAdd(app, rest, p);
        pool, currentSP := rest, Some(p);
      }
    }

    /** Returns the current subproblem to the pool, unless it asks to stay. */
    method UnloadCurrentSP()
      requires Covers(Nodes())
      modifies this`pool, this`currentSP
      ensures Covers(Nodes()) && Total() == old(Total())
      ensures old(Tidy() && TidyCurrent()) ==> Tidy()
      ensures if old(currentSP).Some? && !app.forceStayCurrent(calls, old(currentSP).value)
              then currentSP == None && pool == old(pool) + [old(currentSP).value]
              else currentSP == old(currentSP) && pool == old(pool)
    {
      if currentSP.Some? && !app.forceStayCurrent(calls, currentSP.value) {
        pool, currentSP := pool + [currentSP.value], None;
      }
    }

    method Prune()
      requires Covers(Nodes())
      modifies this`pool, this`needPruning, repository`reposTable, repository.reposHeap
      ensures Covers(Nodes()) && Total() <= old(Total()) && !needPruning
      ensures pool == if old(needPruning) then Unfathomed(st, Pr(), old(pool)) else old(pool)
      ensures old(Tidy()) ==> forall n | n in pool :: !CanFathomSub(st, Pr(), n)
    {
      if needPruning {
        ghost var view0, rest := repository.View(), if currentSP.Some? then [currentSP.value] else [];
        PruningIsSafe(app, st, Pr(), found, pool, rest) by {
          assert Nodes() == pool + rest;
        }
        PrunedEfforts(app, st, Pr(), pool, rest);
        pool := Unfathomed(st, Pr(), pool);
        assert Nodes() == pool + rest;
        if st.Enumerating() {
          repository.PruneRepository(incumbentValue);
        }
        PruneKeepsOrder(app, st, incumbentValue, incumbent, view0, found, needPruning, repository.View());
        needPruning := false;
      }
    }

    /** One round of the main loop. */
    method Round(handler: Handler) returns (ok: bool)
      requires Covers(Nodes()) && (currentSP.Some? || pool != [])
      modifies this, repository`reposTable, repository`lastSolId, repository.reposHeap
      ensures ok ==> Covers(Nodes()) && Total() < old(Total()) && (!old(needPruning) ==> !needPruning)
      ensures ok && old(Tidy() || Alone()) ==> Tidy()
      ensures handler != eagerHandler || BoundsAtOnce(app) ==> ok
    {
      LoadCurrentSP();
      var p := currentSP.value;
      EffortsAdd(app, pool, p);
      ok := true;
      if CanFathomSub(st, Pr(), p) {
        Erase(p);
      } else {
        ok := Execute(handler, p);
        if ok {
          UnloadCurrentSP();
          Prune();
        }
      }
    }

    /** Records the application's initial guess; this alone does not ask for pruning. */
    method TakeInitialGuess()
      requires Valid() && found == {} && incumbent == None && !needPruning
      modifies this`incumbentValue, this`incumbent, this`needPruning, this`solSerialCounter, this`found
      modifies repository`reposTable, repository`lastSolId, repository.reposHeap
      ensures Valid() && Improves(st, old(Pr()), Pr()) && (st.enumCount == 0 ==> !needPruning)
    {
      if app.initialGuess.Some? {
        ghost var inc0, view0, serial0 := incumbentValue, repository.View(), solSerialCounter;
        var guessSol := app.initialGuess.value;
        incumbent, incumbentValue := Some(guessSol), app.value(guessSol);
        assert incumbentValue == BetterValue(app, st, inc0, guessSol);
        ReposOrDrop(guessSol, inc0);
        GuessKeepsOrder(app, st, inc0, view0, guessSol, serial0, repository.View(), needPruning);
        GuessImproves(app, st, inc0, view0, guessSol, serial0, repository.View());
        found := {guessSol};
      }
    }

    /** Puts the root in the pool; with it nothing has been lost yet. */
    method Begin()
      requires Valid() && found == {} && pool == [] && currentSP == None && incumbent == None && !needPruning
      modifies this, repository`reposTable, repository`lastSolId, repository.reposHeap
      ensures Covers(Nodes()) && (st.enumCount == 0 ==> !needPruning) && Alone()
    {
      pool := pool + [app.root];
      assert Nodes() == [app.root];
      StartCovers(app, st, Pr());
      ghost var pr0 := Pr();
      TakeInitialGuess();
      StillAccounted(app, st, pr0, {}, [app.root], Pr(), found);
    }

    lemma NothingOpen()
      requires Covers(Nodes()) && pool == [] && currentSP == None && (st.enumCount == 0 ==> !needPruning)
      ensures Settled(app, st, incumbentValue, incumbent, repository.View(), found)
    {
      assert Nodes() == [];
    }

    /** `searchFramework`: it ends, and leaves no subproblem that could still matter. */
    method Search(handler: Handler) returns (ok: bool)
      requires Valid() && found == {} && pool == [] && currentSP == None && incumbent == None && !needPruning
      modifies this, repository`reposTable, repository`lastSolId, repository.reposHeap
      ensures ok ==> Settled(app, st, incumbentValue, incumbent, repository.View(), found)
      ensures ok ==> repository.Valid() && pool == [] && currentSP == None
      ensures handler != eagerHandler || BoundsAtOnce(app) ==> ok
    {
      Begin();
      ok := true;
      while currentSP.Some? || |pool| > 0
        invariant Covers(Nodes()) && ok && (st.enumCount == 0 ==> !needPruning) && (Tidy() || Alone())
        decreases Total()
      {
        ok := Round(handler);
        if !ok {
          return;
        }
      }
      NothingOpen();
    }
  }
}
