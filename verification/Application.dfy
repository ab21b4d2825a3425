/** What the search engine of `branching.cpp` asks of an application, and what it keeps track of. */
module Application {
  import opened Options
  import opened Fathoming
  import opened Repository

  datatype SubState = boundable | beingBounded | bounded | beingSeparated | separated | dead

  /** A subproblem; the application owns `data`. */
  datatype Sub<A> = Sub(data: A, state: SubState, bound: real, childrenLeft: nat, totalChildren: nat)

  /** What a bound or split computation leaves behind: the changed subproblem, the solutions it
      reported on the way, and after a split the number of children. */
  datatype Answer<A, S> = Answer(sub: Sub<A>, found: seq<S>, children: nat)

  /** A child, and the data and bound its making leaves in the parent. */
  datatype Offspring<A> = Offspring(child: Sub<A>, data: A, bound: real)

  /** The virtual functions of an application.  Each may answer differently at every call (the first
      argument counts them) and depend on the incumbent.  The last six say what the answers mean: the
      solutions, those in a subproblem, those in the children from a given one on, which subproblems the
      application is prepared to meet, and a bound on the work left in one. */
  datatype App<!A, !S> = App(
    root: Sub<A>,
    boundComputation: (nat, Progress, Sub<A>) -> Answer<A, S>,
    candidateSolution: A -> bool,
    extractSolution: A -> S,
    splitComputation: (nat, Progress, Sub<A>) -> Answer<A, S>,
    makeChild: (nat, Sub<A>, nat) -> Offspring<A>,
    haveIncumbentHeuristic: bool,
    incumbentHeuristic: (nat, Sub<A>) -> seq<S>,
    forceStayCurrent: (nat, Sub<A>) -> bool,
    initialGuess: Option<S>,
    feasible: S -> bool,
    value: S -> real,
    covers: (A, S) -> bool,
    remaining: (A, nat, S) -> bool,
    wellFormed: Sub<A> -> bool,
    effort: Sub<A> -> nat)

  /** `s` may still be found below `p`.  Once `p` is bounded its candidate has been extracted. */
  ghost predicate Open<A, S>(app: App<A, S>, p: Sub<A>, s: S) {
    match p.state
    case boundable | beingBounded => app.covers(p.data, s)
    case bounded | beingSeparated =>
      app.covers(p.data, s) && !(app.candidateSolution(p.data) && s == app.extractSolution(p.data))
    case separated => p.childrenLeft <= p.totalChildren && app.remaining(p.data, p.totalChildren - p.childrenLeft, s)
    case dead => false
  }

  /** The bound of `p` is no worse than any solution in it, and its children are all there is to it. */
  ghost predicate Sound<A, S(!new)>(app: App<A, S>, st: Settings, p: Sub<A>) {
    && p.childrenLeft <= p.totalChildren && app.wellFormed(p)
    && (forall s | app.feasible(s) && Open(app, p, s) :: NoBetter(st, app.value(s), p.bound))
    && (p.state == separated ==> forall s | app.feasible(s) :: !app.remaining(p.data, p.totalChildren, s))
  }

  predicate CanFathomSub<A>(st: Settings, pr: Progress, p: Sub<A>) {
    p.state == dead || CanFathom(st, pr, p.bound)
  }

  ghost predicate AllFeasible<A, S(!new)>(app: App<A, S>, found: seq<S>) {
    forall s | s in found :: app.feasible(s)
  }

  /** Bounding keeps every solution that matters, bounds it, and makes progress. */
  ghost predicate BoundOk<A(!new), S(!new)>(app: App<A, S>, st: Settings, call: nat, pr: Progress, p: Sub<A>) {
    p.state == beingBounded && Sound(app, st, p) ==>
      var r := app.boundComputation(call, pr, p);
      && (r.sub.state == beingBounded || r.sub.state == bounded || r.sub.state == dead)
      && AllFeasible(app, r.found) && r.sub.childrenLeft <= r.sub.totalChildren && app.wellFormed(r.sub)
      && (forall s | app.feasible(s) && Open(app, p, s) && s !in r.found && !CanFathom(st, pr, app.value(s)) ::
            r.sub.state != dead && app.covers(r.sub.data, s))
      && (forall s | app.feasible(s) && app.covers(r.sub.data, s) :: NoBetter(st, app.value(s), r.sub.bound))
      && (app.candidateSolution(r.sub.data) ==> app.feasible(app.extractSolution(r.sub.data)))
      && app.effort(r.sub) < app.effort(p)
  }

  /** The subproblem after a split: with its children counted, or dead without any. */
  function AfterSplit<A, S>(r: Answer<A, S>): Sub<A> {
    if r.sub.state != separated then r.sub
    else if r.children == 0 then r.sub.(childrenLeft := 0, totalChildren := 0, state := dead)
    else r.sub.(childrenLeft := r.children, totalChildren := r.children)
  }

  /** A bounded subproblem's candidate is no better than the incumbent any more, unless it was not worth having. */
  predicate Extracted<A, S>(app: App<A, S>, st: Settings, pr: Progress, p: Sub<A>) {
    app.candidateSolution(p.data) ==>
      CanFathomSub(st, pr, p) || NoBetter(st, app.value(app.extractSolution(p.data)), pr.incumbentValue)
  }

  /** Splitting loses no solution but the extracted candidate, and a split that takes several calls makes no new
      one.  What it leaves need not be in order if it can be thrown away at once. */
  ghost predicate SplitOk<A(!new), S(!new)>(app: App<A, S>, st: Settings, call: nat, pr: Progress, p: Sub<A>) {
    p.state == beingSeparated && Sound(app, st, p) && Extracted(app, st, pr, p) ==>
      var r := app.splitComputation(call, pr, p);
      && (r.sub.state == beingSeparated || r.sub.state == separated || r.sub.state == dead)
      && AllFeasible(app, r.found)
      && (forall s | app.feasible(s) && Open(app, p, s) && s !in r.found && !CanFathom(st, pr, app.value(s)) ::
            r.sub.state != dead && NoBetter(st, app.value(s), r.sub.bound))
      && (!CanFathomSub(st, pr, r.sub) ==> SplitLeaves(app, st, pr, p, r))
  }

  ghost predicate SplitLeaves<A(!new), S(!new)>(app: App<A, S>, st: Settings, pr: Progress, p: Sub<A>, r: Answer<A, S>) {
    && Sound(app, st, AfterSplit(r)) && app.effort(AfterSplit(r)) < app.effort(p)
    && (forall s | app.feasible(s) && Open(app, p, s) && s !in r.found && !CanFathom(st, pr, app.value(s)) ::
          Open(app, AfterSplit(r), s))
    && (r.sub.state == beingSeparated && app.candidateSolution(r.sub.data) ==>
          app.candidateSolution(p.data) && app.extractSolution(r.sub.data) == app.extractSolution(p.data)
          && r.sub.bound == p.bound)
  }

  /** The parent once `r` has been made. */
  function AfterChild<A>(p: Sub<A>, r: Offspring<A>): Sub<A>
    requires p.childrenLeft > 0
  {
    p.(data := r.data, bound := r.bound, childrenLeft := p.childrenLeft - 1)
  }

  /** A child takes over what it takes away from its parent; if it comes bounded it has no candidate of its own. */
  ghost predicate ChildOk<A(!new), S(!new)>(app: App<A, S>, st: Settings, call: nat, p: Sub<A>) {
    p.state == separated && Sound(app, st, p) && p.childrenLeft > 0 ==>
      var r := app.makeChild(call, p, p.totalChildren - p.childrenLeft);
      var q := AfterChild(p, r);
      && Sound(app, st, q) && Sound(app, st, r.child)
      && (forall s | app.feasible(s) && Open(app, p, s) :: Open(app, q, s) || Open(app, r.child, s))
      && app.effort(q) + app.effort(r.child) < app.effort(p)
      && (r.child.state == bounded || r.child.state == beingSeparated ==> !app.candidateSolution(r.child.data))
  }

  ghost predicate HeuristicOk<A(!new), S(!new)>(app: App<A, S>, call: nat, p: Sub<A>) {
    AllFeasible(app, app.incumbentHeuristic(call, p))
  }

  /** Work is left in every subproblem; starting a computation adds none. */
  ghost predicate EffortOk<A(!new), S>(app: App<A, S>, p: Sub<A>) {
    && app.effort(p) > 0
    && (p.state == boundable ==> app.effort(p.(state := beingBounded)) <= app.effort(p))
    && (p.state == bounded ==> app.effort(p.(state := beingSeparated)) <= app.effort(p))
  }

  ghost predicate RelabelOk<A(!new), S>(app: App<A, S>, p: Sub<A>) {
    app.wellFormed(p) ==>
      && (p.state == boundable ==> app.wellFormed(p.(state := beingBounded)))
      && (p.state == bounded ==> app.wellFormed(p.(state := beingSeparated)))
  }

  /** The contract of an application. */
  ghost predicate AppOk<A(!new), S(!new)>(app: App<A, S>, st: Settings) {
    && (forall s | app.feasible(s) :: Abs(app.value(s)) < st.maxDouble && app.covers(app.root.data, s))
    && app.root.state == boundable && Sound(app, st, app.root)
    && (app.initialGuess.Some? ==> app.feasible(app.initialGuess.value))
    && (forall call, pr, p :: BoundOk(app, st, call, pr, p) && SplitOk(app, st, call, pr, p))
    && (forall call, p :: ChildOk(app, st, call, p) && HeuristicOk(app, call, p))
    && (forall p :: EffortOk(app, p) && RelabelOk(app, p))
  }

  // ---------- Solutions found ----------

  /** A solution found is still on record, or has become fathomable. */
  ghost predicate Secured<A, S(!new)>(app: App<A, S>, st: Settings, pr: Progress, held: set<Solution<S>>, s: S) {
    (st.Enumerating() && Holds(held, s)) || CanFathom(st, pr, app.value(s))
  }

  /** Enumeration with room for a single solution. */
  predicate Single(st: Settings) { st.Enumerating() && st.enumCount == 1 }

  /** Then what is held is wanted, and something is held as soon as the incumbent is wanted. */
  ghost predicate HoldsOne<S(!new)>(st: Settings, inc: real, some: bool, r: Repo<S>) {
    Tight(st, inc, r) && (some && !Cut(st, inc) ==> r.held != {})
  }

  /** The incumbent and the repository agree with the solutions found so far. */
  ghost predicate Recorded<A, S(!new)>(app: App<A, S>, st: Settings, inc: real, incumbent: Option<S>, r: Repo<S>,
                                        found: set<S>) {
    && (forall s | s in found :: app.feasible(s) && NoBetter(st, app.value(s), inc))
    && (!Single(st) ==> forall s | s in found :: Secured(app, st, Progress(inc, r.last.value), r.held, s))
    && (Single(st) ==> HoldsOne(st, inc, incumbent.Some?, r))
    && (if incumbent.Some? then incumbent.value in found && inc == app.value(incumbent.value)
        else st.Signed(inc) == st.maxDouble)
    && (forall h | h in r.held :: h.contents in found && h.id.value == app.value(h.contents))
    && Good(st, r) && (CountOnly(st) ==> LastIsWorst(st, r))
    && (forall h | h in r.held :: !Cut(st, h.id.value))
  }

  /** While no pruning is due nothing held can be fathomed (unless a count decides). */
  ghost predicate Tight<S(!new)>(st: Settings, inc: real, r: Repo<S>) {
    forall h | h in r.held :: !CanFathom(st, Progress(inc, r.last.value), h.id.value)
  }

  /** Every feasible solution has been found, can be fathomed, or is still open in `nodes`. */
  ghost predicate Accounted<A(!new), S(!new)>(app: App<A, S>, st: Settings, pr: Progress, found: set<S>,
                                               nodes: seq<Sub<A>>, s: S) {
    s in found || CanFathom(st, pr, app.value(s)) || OpenIn(app, nodes, s)
  }

  ghost predicate OpenIn<A(!new), S>(app: App<A, S>, nodes: seq<Sub<A>>, s: S) {
    exists n :: n in nodes && Open(app, n, s)
  }

  /** The candidate of a bounded subproblem has been found, unless it can be fathomed anyway. */
  ghost predicate Noted<A, S(!new)>(app: App<A, S>, st: Settings, pr: Progress, found: set<S>, n: Sub<A>) {
    (n.state == bounded || n.state == beingSeparated) && app.candidateSolution(n.data) ==>
      CanFathomSub(st, pr, n) || app.extractSolution(n.data) in found
  }

  ghost predicate Complete<A(!new), S(!new)>(app: App<A, S>, st: Settings, pr: Progress, found: set<S>,
                                              nodes: seq<Sub<A>>) {
    && (forall n | n in nodes :: Sound(app, st, n) && Noted(app, st, pr, found, n))
    && (forall s | app.feasible(s) :: Accounted(app, st, pr, found, nodes, s))
  }

  predicate Usable(st: Settings) {
    st.Ok() && Monotone(st)
  }

  /** The solution as it is offered to the repository. */
  function Stamped<A, S>(app: App<A, S>, s: S, serial: int): Solution<S> {
    Solution(s, SolutionId(app.value(s), serial))
  }

  lemma SecuredStays<A(!new), S(!new)>(app: App<A, S>, st: Settings, inc: real, inc': real, r: Repo<S>, found: set<S>, s: S)
    requires Usable(st) && NoBetter(st, inc, inc') && Secured(app, st, Progress(inc, r.last.value), r.held, s)
    ensures Secured(app, st, Progress(inc', r.last.value), r.held, s)
  {
    if CanFathom(st, Progress(inc, r.last.value), app.value(s)) {
      MonotoneIsLasting(st);
      FathomStable(st, Progress(inc, r.last.value), Progress(inc', r.last.value), app.value(s));
    }
  }

  /** The incumbent and its value after `s` has been found. */
  function BetterValue<A, S>(app: App<A, S>, st: Settings, inc: real, s: S): real {
    if st.Signed(app.value(s)) - st.Signed(inc) < 0.0 then app.value(s) else inc
  }

  function BetterSolution<A, S>(app: App<A, S>, st: Settings, inc: real, incumbent: Option<S>, s: S): Option<S> {
    if st.Signed(app.value(s)) - st.Signed(inc) < 0.0 then Some(s) else incumbent
  }

  /** What `foundSolution` does to the incumbent's value and the repository. */
  ghost predicate Found<A(!new), S(!new)>(app: App<A, S>, st: Settings, inc: real, r: Repo<S>, s: S, serial: int,
                                        r': Repo<S>) {
    if st.Enumerating() then Offered(st, BetterValue(app, st, inc, s), r, Stamped(app, s, serial), r') else r' == r
  }

  lemma FoundStaysSecured<A(!new), S(!new)>(app: App<A, S>, st: Settings, inc: real, incumbent: Option<S>, r: Repo<S>,
                                          found: set<S>, s: S, serial: int, r': Repo<S>, x: S)
    requires Usable(st) && AppOk(app, st) && Recorded(app, st, inc, incumbent, r, found) && app.feasible(s)
    requires Found(app, st, inc, r, s, serial, r') && x in found + {s} && !Single(st)
    ensures Secured(app, st, Progress(BetterValue(app, st, inc, s), r'.last.value), r'.held, x)
  {
    var inc' := BetterValue(app, st, inc, s);
    if x in found {
      SecuredStays(app, st, inc, inc', r, found, x);
    }
    if st.Enumerating() {
      var sol, y := Stamped(app, s, serial), Stamped(app, x, serial);
      var prune :| Offer(st, inc', r, sol, r', prune);
      MonotoneIsLasting(st);
      OfferKeepsWanted(st, inc', r, sol, r', prune, y);
    } else {
      IncumbentFathomsItself(st, Progress(inc', r'.last.value), app.value(x));
    }
  }

  lemma FoundKeepsHeld<A(!new), S(!new)>(app: App<A, S>, st: Settings, inc: real, incumbent: Option<S>, r: Repo<S>,
                                       found: set<S>, s: S, serial: int, r': Repo<S>)
    requires Usable(st) && AppOk(app, st) && Recorded(app, st, inc, incumbent, r, found) && app.feasible(s)
    requires Found(app, st, inc, r, s, serial, r')
    ensures forall h | h in r'.held :: (h in r.held || h == Stamped(app, s, serial)) && !Cut(st, h.id.value)
    ensures Good(st, r') && (CountOnly(st) ==> LastIsWorst(st, r'))
    ensures st.Signed(r'.last.value) <= st.Signed(r.last.value)
  {
    if st.Enumerating() {
      var sol, inc' := Stamped(app, s, serial), BetterValue(app, st, inc, s);
      var prune :| Offer(st, inc', r, sol, r', prune);
      OfferKeepsGood(st, inc', r, sol, r', prune);
      OfferImproves(st, inc', r, sol, r', prune);
      if CountOnly(st) {
        LastStaysWorst(st, inc', r, sol, r', prune);
      }
    }
  }

  /** With room for one, a new incumbent always gets it. */
  lemma FoundHoldsOne<A(!new), S(!new)>(app: App<A, S>, st: Settings, inc: real, incumbent: Option<S>, r: Repo<S>,
                                      found: set<S>, s: S, serial: int, r': Repo<S>)
    requires Usable(st) && AppOk(app, st) && Recorded(app, st, inc, incumbent, r, found) && app.feasible(s)
    requires Found(app, st, inc, r, s, serial, r') && Single(st)
    ensures HoldsOne(st, BetterValue(app, st, inc, s), true, r')
  {
    var sol, inc' := Stamped(app, s, serial), BetterValue(app, st, inc, s);
    var prune :| Offer(st, inc', r, sol, r', prune);
    NewestReplaces(st, inc', r, sol, r', prune);
    if inc' != inc {
      OnlyTheCount(st, inc', r.last.value);
    }
  }

  /** A solution that is found is put on record, and no other is lost. */
  lemma FoundIsRecorded<A(!new), S(!new)>(app: App<A, S>, st: Settings, inc: real, incumbent: Option<S>, r: Repo<S>,
                                        found: set<S>, s: S, serial: int, r': Repo<S>)
    requires Usable(st) && AppOk(app, st) && Recorded(app, st, inc, incumbent, r, found) && app.feasible(s)
    requires Found(app, st, inc, r, s, serial, r')
    ensures Recorded(app, st, BetterValue(app, st, inc, s), BetterSolution(app, st, inc, incumbent, s), r', found + {s})
    ensures Improves(st, Progress(inc, r.last.value), Progress(BetterValue(app, st, inc, s), r'.last.value))
    ensures st.enumCount == 0 && Tight(st, inc, r) && BetterValue(app, st, inc, s) == inc ==> Tight(st, inc, r')
  {
    FoundKeepsHeld(app, st, inc, incumbent, r, found, s, serial, r');
    forall x | x in found + {s} && !Single(st)
      ensures Secured(app, st, Progress(BetterValue(app, st, inc, s), r'.last.value), r'.held, x)
    {
      FoundStaysSecured(app, st, inc, incumbent, r, found, s, serial, r', x);
    }
    if Single(st) {
      FoundHoldsOne(app, st, inc, incumbent, r, found, s, serial, r');
    }
  }

  /** All that the search state owes to the solutions found so far. */
  ghost predicate InOrder<A(!new), S(!new)>(app: App<A, S>, st: Settings, inc: real, incumbent: Option<S>, r: Repo<S>,
                                          found: set<S>, needPruning: bool) {
    && Usable(st) && AppOk(app, st) && Recorded(app, st, inc, incumbent, r, found)
    && (st.Enumerating() && st.enumCount == 0 && !needPruning ==> Tight(st, inc, r))
  }

  lemma FoundKeepsOrder<A(!new), S(!new)>(app: App<A, S>, st: Settings, inc: real, incumbent: Option<S>, r: Repo<S>,
                                        found: set<S>, needPruning: bool, s: S, serial: int, inc': real,
                                        incumbent': Option<S>, r': Repo<S>, needPruning': bool)
    requires InOrder(app, st, inc, incumbent, r, found, needPruning) && app.feasible(s)
    requires inc' == BetterValue(app, st, inc, s) && incumbent' == BetterSolution(app, st, inc, incumbent, s)
    requires Found(app, st, inc, r, s, serial, r')
    requires needPruning || inc' != inc ==> needPruning'
    ensures InOrder(app, st, inc', incumbent', r', found + {s}, needPruning')
    ensures Improves(st, Progress(inc, r.last.value), Progress(inc', r'.last.value))
  {
    FoundIsRecorded(app, st, inc, incumbent, r, found, s, serial, r');
  }

  /** The initial guess is put on record without a call for pruning. */
  lemma GuessKeepsOrder<A(!new), S(!new)>(app: App<A, S>, st: Settings, inc: real, r: Repo<S>, s: S, serial: int,
                                        r': Repo<S>, needPruning': bool)
    requires InOrder(app, st, inc, None, r, {}, false) && app.feasible(s) && Found(app, st, inc, r, s, serial, r')
    ensures InOrder(app, st, app.value(s), Some(s), r', {s}, needPruning')
  {
    FoundIsRecorded(app, st, inc, None, r, {}, s, serial, r');
    FoundKeepsHeld(app, st, inc, None, r, {}, s, serial, r');
    assert Some(s) == BetterSolution(app, st, inc, None, s) && {} + {s} == {s};
    if st.Enumerating() && st.enumCount == 0 {
      var prune :| Offer(st, app.value(s), r, Stamped(app, s, serial), r', prune);
    }
  }

  lemma PruneKeepsOrder<A(!new), S(!new)>(app: App<A, S>, st: Settings, inc: real, incumbent: Option<S>, r: Repo<S>,
                                        found: set<S>, needPruning: bool, r': Repo<S>)
    requires InOrder(app, st, inc, incumbent, r, found, needPruning)
    requires if st.Enumerating() then Pruned(st, inc, r, r') else r' == r
    ensures InOrder(app, st, inc, incumbent, r', found, false)
  {
    if st.Enumerating() {
      PruneIsRecorded(app, st, inc, incumbent, r, found, r');
    }
  }

  lemma PruneKeepsOne<S(!new)>(st: Settings, inc: real, r: Repo<S>, r': Repo<S>)
    requires st.Ok() && Single(st) && Good(st, r) && Pruned(st, inc, r, r') && Tight(st, inc, r)
    ensures r' == r
  {
    forall h | h in r.held ensures h in r'.held {
      if CanFathomFromRepository(st, inc, r.last, h.id) {
        PrunedIsFathomable(st, inc, r.last, h.id);
      }
    }
  }

  lemma PruneIsRecorded<A(!new), S(!new)>(app: App<A, S>, st: Settings, inc: real, incumbent: Option<S>, r: Repo<S>,
                                        found: set<S>, r': Repo<S>)
    requires Usable(st) && AppOk(app, st) && Recorded(app, st, inc, incumbent, r, found)
    requires st.Enumerating() && Pruned(st, inc, r, r')
    ensures Recorded(app, st, inc, incumbent, r', found)
    ensures st.enumCount == 0 ==> Tight(st, inc, r')
  {
    PruneKeepsGood(st, inc, r, r');
    if Single(st) {
      PruneKeepsOne(st, inc, r, r');
    } else {
      forall x | x in found ensures Secured(app, st, Progress(inc, r'.last.value), r'.held, x) {
        PruneKeepsWanted(st, inc, r, r', Stamped(app, x, 0));
      }
    }
    if CountOnly(st) {
      forall h | h in r.held ensures h in r'.held {
        NothingToPrune(st, inc, r, h);
      }
      assert r' == r;
    }
  }

  // ---------- Open subproblems ----------

  /** Progress never uncovers a solution. */
  lemma StillAccounted<A(!new), S(!new)>(app: App<A, S>, st: Settings, pr: Progress, found: set<S>, nodes: seq<Sub<A>>,
                                       pr': Progress, found': set<S>)
    requires Usable(st) && Complete(app, st, pr, found, nodes) && Improves(st, pr, pr') && found <= found'
    ensures Complete(app, st, pr', found', nodes)
  {
    forall n | n in nodes ensures Noted(app, st, pr', found', n) {
      if CanFathom(st, pr, n.bound) {
        MonotoneIsLasting(st);
        FathomStable(st, pr, pr', n.bound);
      }
    }
    forall s | app.feasible(s) ensures Accounted(app, st, pr', found', nodes, s) {
      assert Accounted(app, st, pr, found, nodes, s);
      if CanFathom(st, pr, app.value(s)) {
        MonotoneIsLasting(st);
        FathomStable(st, pr, pr', app.value(s));
      }
    }
  }

  /** `p` may make way for `next` when they take over what still matters in it. */
  ghost predicate TakenOver<A(!new), S(!new)>(app: App<A, S>, st: Settings, pr: Progress, found: set<S>, p: Sub<A>,
                                            next: seq<Sub<A>>) {
    && (forall n | n in next :: Sound(app, st, n) && Noted(app, st, pr, found, n))
    && (forall s | app.feasible(s) && Open(app, p, s) :: Accounted(app, st, pr, found, next, s))
  }

  lemma Replace<A(!new), S(!new)>(app: App<A, S>, st: Settings, pr: Progress, found: set<S>, pool: seq<Sub<A>>,
                                p: Sub<A>, next: seq<Sub<A>>)
    requires Complete(app, st, pr, found, pool + [p]) && TakenOver(app, st, pr, found, p, next)
    ensures Complete(app, st, pr, found, pool + next)
  {
    forall s | app.feasible(s) ensures Accounted(app, st, pr, found, pool + next, s) {
      assert Accounted(app, st, pr, found, pool + [p], s);
      if n :| n in pool + [p] && Open(app, n, s) {
        if n in pool {
          assert n in pool + next;
        } else {
          assert Accounted(app, st, pr, found, next, s);
          if m :| m in next && Open(app, m, s) {
            assert m in pool + next;
          }
        }
      }
    }
  }

  /** A fathomable subproblem may go. */
  lemma FathomedTakenOver<A(!new), S(!new)>(app: App<A, S>, st: Settings, pr: Progress, found: set<S>, p: Sub<A>)
    requires Usable(st) && Sound(app, st, p) && CanFathomSub(st, pr, p)
    ensures TakenOver(app, st, pr, found, p, [])
  {
    forall s | app.feasible(s) && Open(app, p, s) ensures Accounted(app, st, pr, found, [], s) {
      FathomUpward(st, pr, p.bound, app.value(s));
    }
  }

  /** A separated subproblem without children left may go. */
  lemma ExhaustedTakenOver<A(!new), S(!new)>(app: App<A, S>, st: Settings, pr: Progress, found: set<S>, p: Sub<A>)
    requires Sound(app, st, p) && p.state == separated && p.childrenLeft == 0
    ensures TakenOver(app, st, pr, found, p, [])
  {
  }
}
