/** The repository of solutions that enumeration keeps: what one offer does to the set that is held
    and to the record of the worst solution worth keeping. */
module Repository {
  import opened Fathoming
  import opened RealSums
  import opened Sums

  datatype SolutionId = SolutionId(value: real, serial: int)

  datatype Solution<S> = Solution(contents: S, id: SolutionId)

  /** `lastSolId` starts out worse than every solution. */
  datatype Repo<S(==)> = Repo(held: set<Solution<S>>, last: SolutionId)

  function Sgn(x: real): int { if x < 0.0 then -1 else if x > 0.0 then 1 else 0 }

  /** Negative when `a` is the better one; equal values are told apart by serial number. */
  function Compare(st: Settings, a: SolutionId, b: SolutionId): int {
    if a.value != b.value then Sgn(st.Signed(a.value) - st.Signed(b.value)) else Sgn((a.serial - b.serial) as real)
  }

  ghost predicate IsWorst<S(!new)>(st: Settings, held: set<Solution<S>>, w: Solution<S>) {
    w in held && forall x | x in held :: Compare(st, x.id, w.id) <= 0
  }

  ghost predicate Holds<S(!new)>(held: set<Solution<S>>, contents: S) {
    exists x :: x in held && x.contents == contents
  }

  ghost predicate Full<S(!new)>(st: Settings, held: set<Solution<S>>) {
    st.enumCount > 0 && |held| == st.enumCount
  }

  /** `sol` joins the solutions held; when they are full the worst one leaves. */
  ghost predicate Admitted<S(!new)>(st: Settings, held: set<Solution<S>>, sol: Solution<S>, held': set<Solution<S>>) {
    if Full(st, held) then exists w :: IsWorst(st, held, w) && held' == held - {w} + {sol}
    else held' == held + {sol}
  }

  ghost predicate LocalOffer<S(!new)>(st: Settings, pr: Progress, held: set<Solution<S>>, sol: Solution<S>,
                                      held': set<Solution<S>>, accepted: bool) {
    && accepted == (!CanFathom(st, pr, sol.id.value) && !Holds(held, sol.contents))
    && if accepted then Admitted(st, held, sol, held') else held' == held
  }

  /** Once the repository is full, its worst member becomes the new `lastSolId` if that is an improvement. */
  ghost predicate LastUpdated<S(!new)>(st: Settings, held: set<Solution<S>>, last: SolutionId, last': SolutionId) {
    if st.enumCount > 1 && Full(st, held) then
      exists w :: IsWorst(st, held, w) && last' == if Compare(st, last, w.id) > 0 then w.id else last
    else last' == last
  }

  /** The serial `offerToRepository`; `prune` tells whether pruning is asked for. */
  ghost predicate Offer<S(!new)>(st: Settings, inc: real, r: Repo<S>, sol: Solution<S>, r': Repo<S>, prune: bool) {
    var accepted := !CanFathom(st, Progress(inc, r.last.value), sol.id.value) && !Holds(r.held, sol.contents);
    && LocalOffer(st, Progress(inc, r.last.value), r.held, sol, r'.held, accepted)
    && (if accepted then LastUpdated(st, r'.held, r.last, r'.last) else r'.last == r.last)
    && prune == (r'.last.value != r.last.value)
  }

  /** The test `pruneRepository` applies to a solution held. */
  predicate CanFathomFromRepository(st: Settings, inc: real, last: SolutionId, x: SolutionId) {
    || (st.enumAbsTol >= 0.0 && st.Signed(inc) - st.Signed(x.value) < -st.enumAbsTol)
    || (st.enumRelTol >= 0.0 && BeyondRelative(st.enumRelTol, st.Signed(inc), st.Signed(x.value)))
    || (st.enumCount > 1 && Compare(st, last, x) < 0)
  }

  ghost predicate Pruned<S(!new)>(st: Settings, inc: real, r: Repo<S>, r': Repo<S>) {
    && r'.last == r.last
    && forall x :: x in r'.held <==> x in r.held && !CanFathomFromRepository(st, inc, r.last, x.id)
  }

  // ---------- The order of solutions ----------

  lemma CompareOrders(st: Settings, a: SolutionId, b: SolutionId, c: SolutionId)
    ensures Compare(st, a, a) == 0
    ensures Compare(st, a, b) < 0 <==> Compare(st, b, a) > 0
    ensures Compare(st, a, b) == 0 <==> a == b
    ensures Compare(st, a, b) <= 0 && Compare(st, b, c) <= 0 ==> Compare(st, a, c) <= 0
    ensures Compare(st, a, b) <= 0 ==> st.Signed(a.value) <= st.Signed(b.value)
  {
  }

  lemma {:induction false} SomeWorst<S(!new)>(st: Settings, held: set<Solution<S>>) returns (w: Solution<S>)
    requires held != {}
    ensures IsWorst(st, held, w)
    decreases |held|
  {
    var x :| x in held;
    if held == {x} {
      w := x;
      CompareOrders(st, x.id, x.id, x.id);
    } else {
      assert held == (held - {x}) + {x};
      var y := SomeWorst(st, held - {x});
      w := if Compare(st, x.id, y.id) <= 0 then y else x;
      CompareOrders(st, x.id, y.id, y.id);
      CompareOrders(st, y.id, x.id, x.id);
      CompareOrders(st, x.id, x.id, x.id);
      forall z | z in held ensures Compare(st, z.id, w.id) <= 0 {
        CompareOrders(st, z.id, y.id, x.id);
      }
    }
  }

  // ---------- What a sequence of offers keeps ----------

  ghost predicate Proper<S(!new)>(st: Settings, x: Solution<S>) { Abs(x.id.value) < st.maxDouble }

  ghost predicate Good<S(!new)>(st: Settings, r: Repo<S>) {
    && (forall x, y | x in r.held && y in r.held :: x.contents == y.contents ==> x == y)
    && (forall x | x in r.held :: Proper(st, x))
    && (st.enumCount > 0 ==> |r.held| <= st.enumCount)
    && (st.enumCount > 1 && Full(st, r.held) ==>
          forall w | IsWorst(st, r.held, w) :: st.Signed(r.last.value) <= st.Signed(w.id.value))
  }

  /** Every solution ever offered is held, has its double held, or has become fathomable. */
  ghost predicate Kept<S(!new)>(st: Settings, inc: real, r: Repo<S>, x: Solution<S>) {
    Holds(r.held, x.contents) || CanFathom(st, Progress(inc, r.last.value), x.id.value)
  }

  lemma OfferSizes<S(!new)>(st: Settings, inc: real, r: Repo<S>, sol: Solution<S>, r': Repo<S>, prune: bool)
    requires Good(st, r) && Proper(st, sol) && Offer(st, inc, r, sol, r', prune)
    ensures |r.held| <= |r'.held|
    ensures st.enumCount > 0 ==> |r'.held| <= st.enumCount
    ensures Full(st, r.held) ==> Full(st, r'.held)
  {
    if r'.held != r.held {
      assert sol !in r.held;
      if Full(st, r.held) {
        var w :| IsWorst(st, r.held, w) && r'.held == r.held - {w} + {sol};
        assert |r.held - {w}| == |r.held| - 1;
      }
    }
  }

  /** An offer never moves `lastSolId` the wrong way. */
  lemma OfferImproves<S(!new)>(st: Settings, inc: real, r: Repo<S>, sol: Solution<S>, r': Repo<S>, prune: bool)
    requires Offer(st, inc, r, sol, r', prune)
    ensures st.Signed(r'.last.value) <= st.Signed(r.last.value) && Compare(st, r'.last, r.last) <= 0
  {
    CompareOrders(st, r.last, r'.last, r.last);
    CompareOrders(st, r'.last, r.last, r.last);
  }

  /** A solution that is admitted is at least as good as the one it pushes out. */
  lemma AdmittedBeatsEvicted<S(!new)>(st: Settings, inc: real, r: Repo<S>, sol: Solution<S>, w: Solution<S>)
    requires st.Ok() && Good(st, r) && Full(st, r.held) && st.enumCount > 1 && IsWorst(st, r.held, w)
    requires !CanFathom(st, Progress(inc, r.last.value), sol.id.value)
    ensures st.Signed(sol.id.value) <= st.Signed(w.id.value)
  {
    assert st.Signed(r.last.value) <= st.Signed(w.id.value);
  }

  /** Which one is pushed out: one of those with the worst value, and of these the one that was numbered last. */
  lemma LatestOfWorstGoes<S(!new)>(st: Settings, inc: real, r: Repo<S>, sol: Solution<S>, r': Repo<S>, prune: bool,
                                   w: Solution<S>)
    requires Offer(st, inc, r, sol, r', prune) && w in r.held && w !in r'.held
    ensures Full(st, r.held) && r'.held == r.held - {w} + {sol}
    ensures forall x | x in r.held && x != w ::
              || st.Signed(x.id.value) < st.Signed(w.id.value)
              || (x.id.value == w.id.value && x.id.serial <= w.id.serial)
  {
    var u :| IsWorst(st, r.held, u) && r'.held == r.held - {u} + {sol};
    assert u == w;
  }

  /** What `lastSolId` becomes when an admitted solution leaves the repository full: the worst one held, the latest of
      those of its value, or what it was if that comes earlier. */
  lemma LastAfterOffer<S(!new)>(st: Settings, inc: real, r: Repo<S>, sol: Solution<S>, r': Repo<S>, prune: bool)
    returns (w: Solution<S>)
    requires Offer(st, inc, r, sol, r', prune) && r'.held != r.held && st.enumCount > 1 && |r'.held| == st.enumCount
    ensures w in r'.held && forall x | x in r'.held ::
              || st.Signed(x.id.value) < st.Signed(w.id.value)
              || (x.id.value == w.id.value && x.id.serial <= w.id.serial)
    ensures r'.last == if || st.Signed(w.id.value) < st.Signed(r.last.value)
                          || (w.id.value == r.last.value && w.id.serial < r.last.serial) then w.id else r.last
  {
    w :| IsWorst(st, r'.held, w) && r'.last == if Compare(st, r.last, w.id) > 0 then w.id else r.last;
  }

  lemma LastBelowEvicted<S(!new)>(st: Settings, r: Repo<S>, sol: Solution<S>, r': Repo<S>, w: Solution<S>)
    requires IsWorst(st, r.held, w) && r'.held == r.held - {w} + {sol}
    requires st.enumCount > 1 && Full(st, r'.held) && LastUpdated(st, r'.held, r.last, r'.last)
    requires st.Signed(sol.id.value) <= st.Signed(w.id.value)
    ensures st.Signed(r'.last.value) <= st.Signed(w.id.value)
  {
    var w' :| IsWorst(st, r'.held, w') && r'.last == if Compare(st, r.last, w'.id) > 0 then w'.id else r.last;
    CompareOrders(st, w'.id, w.id, w.id);
    CompareOrders(st, r.last, w'.id, w'.id);
    assert w' == sol || w' in r.held;
  }

  /** The solution pushed out can be fathomed from then on. */
  lemma EvictedIsFathomable<S(!new)>(st: Settings, inc: real, r: Repo<S>, sol: Solution<S>, r': Repo<S>,
                                     prune: bool, w: Solution<S>)
    requires st.Ok() && Good(st, r) && Proper(st, sol) && Offer(st, inc, r, sol, r', prune)
    requires st.enumCount > 1 && Full(st, r.held) && IsWorst(st, r.held, w) && r'.held == r.held - {w} + {sol}
    requires !CanFathom(st, Progress(inc, r.last.value), sol.id.value) && !Holds(r.held, sol.contents)
    ensures CanFathom(st, Progress(inc, r'.last.value), w.id.value)
  {
    OfferSizes(st, inc, r, sol, r', prune);
    AdmittedBeatsEvicted(st, inc, r, sol, w);
    LastBelowEvicted(st, r, sol, r', w);
    NoWorseIsWithin(st, st.Signed(r'.last.value), st.Signed(w.id.value));
  }

  lemma NoWorseIsWithin(st: Settings, ref: real, b: real)
    requires st.Ok() && ref <= b && Abs(b) < st.maxDouble
    ensures WithinTolerance(st, ref, b)
  {
    if ref == b {
      Scale(st.relTolerance, 0.0, Denom(b, ref));
    }
  }

  lemma OfferKeepsLastLow<S(!new)>(st: Settings, inc: real, r: Repo<S>, sol: Solution<S>, r': Repo<S>, prune: bool,
                                   w: Solution<S>)
    requires Good(st, r) && Offer(st, inc, r, sol, r', prune)
    requires st.enumCount > 1 && Full(st, r'.held) && IsWorst(st, r'.held, w)
    ensures st.Signed(r'.last.value) <= st.Signed(w.id.value)
  {
    if r'.held != r.held {
      var w' :| IsWorst(st, r'.held, w') && r'.last == if Compare(st, r.last, w'.id) > 0 then w'.id else r.last;
      CompareOrders(st, w'.id, w.id, w.id);
      CompareOrders(st, r.last, w'.id, w.id);
    }
  }

  lemma OfferKeepsGood<S(!new)>(st: Settings, inc: real, r: Repo<S>, sol: Solution<S>, r': Repo<S>, prune: bool)
    requires Good(st, r) && Proper(st, sol) && Offer(st, inc, r, sol, r', prune)
    ensures Good(st, r')
  {
    OfferSizes(st, inc, r, sol, r', prune);
    forall w | st.enumCount > 1 && Full(st, r'.held) && IsWorst(st, r'.held, w)
      ensures st.Signed(r'.last.value) <= st.Signed(w.id.value)
    {
      OfferKeepsLastLow(st, inc, r, sol, r', prune, w);
    }
    assert forall x | x in r'.held :: x == sol || x in r.held;
  }

  /** No offer loses a solution that is still wanted, unless the count is limited to one. */
  lemma OfferKeepsWanted<S(!new)>(st: Settings, inc: real, r: Repo<S>, sol: Solution<S>, r': Repo<S>, prune: bool,
                                  x: Solution<S>)
    requires st.Ok() && Lasting(st) && st.Enumerating() && st.enumCount != 1 && Good(st, r) && Proper(st, sol)
    requires Offer(st, inc, r, sol, r', prune) && (x == sol || Kept(st, inc, r, x))
    requires forall y | y in r.held && y.contents == x.contents :: y.id.value == x.id.value
    ensures Kept(st, inc, r', x)
  {
    OfferImproves(st, inc, r, sol, r', prune);
    if CanFathom(st, Progress(inc, r.last.value), x.id.value) {
      FathomStable(st, Progress(inc, r.last.value), Progress(inc, r'.last.value), x.id.value);
    } else if r'.held != r.held && x != sol {
      var y :| y in r.held && y.contents == x.contents;
      if y !in r'.held {
        var w :| IsWorst(st, r.held, w) && r'.held == r.held - {w} + {sol};
        EvictedIsFathomable(st, inc, r, sol, r', prune, w);
      }
    }
  }

  ghost predicate NoOfferLoses<S(!new)>(st: Settings) {
    forall inc, r: Repo<S>, sol, r', prune, x ::
      (&& Good(st, r) && Proper(st, sol) && Proper(st, x) && Offer(st, inc, r, sol, r', prune)
       && (x == sol || Kept(st, inc, r, x)) && SameValue(r, x)) ==> Kept(st, inc, r', x)
  }

  ghost predicate SameValue<S(!new)>(r: Repo<S>, x: Solution<S>) {
    forall y | y in r.held && y.contents == x.contents :: y.id.value == x.id.value
  }

  /** The cutoff is so low that no solution at all is wanted. */
  predicate CutsAll(st: Settings) { st.usingEnumCutoff && st.Signed(st.enumCutoff) <= -st.maxDouble }

  /** With a count of one the solution admitted last replaces the one held, whatever their values. */
  lemma NewestReplaces<S(!new)>(st: Settings, inc: real, r: Repo<S>, sol: Solution<S>, r': Repo<S>, prune: bool)
    requires Good(st, r) && Offer(st, inc, r, sol, r', prune) && st.enumCount == 1
    ensures r'.held == (if CanFathom(st, Progress(inc, r.last.value), sol.id.value) || Holds(r.held, sol.contents)
                        then r.held else {sol})
    ensures r'.last == r.last
  {
    if |r.held| == 1 {
      var w :| w in r.held;
      SubsetSizes({w}, r.held);
    }
  }

  /** An incumbent that is lost: a second solution of the same value takes its place. */
  lemma OneIsNotEnough<S(!new)>(st: Settings, a: S, b: S, last: SolutionId)
    returns (v: real, x: Solution<S>, y: Solution<S>, run: seq<Repo<S>>)
    requires st.Ok() && st.Enumerating() && st.enumCount == 1 && !CutsAll(st) && a != b
    requires st.Signed(last.value) == st.maxDouble
    ensures IsRun(st, [v, v], [x, y], run) && Proper(st, x) && Proper(st, y) && x.id.value == v == y.id.value
    ensures Good(st, run[1]) && SameValue(run[1], x) && run[1].held == {x} && run[2].held == {y}
    ensures Kept(st, v, run[1], x) && !Kept(st, v, run[2], x)
  {
    var low := if st.usingEnumCutoff && st.Signed(st.enumCutoff) < st.maxDouble then st.Signed(st.enumCutoff)
               else st.maxDouble;
    v := st.Signed((low - st.maxDouble) / 2.0);
    Unsigned(st, (low - st.maxDouble) / 2.0);
    OnlyTheCount(st, v, last.value);
    x, y := Solution(a, SolutionId(v, 0)), Solution(b, SolutionId(v, 1));
    run := [Repo({}, last), Repo({x}, last), Repo({y}, last)];
    assert Offer(st, v, run[0], x, run[1], false);
    CompareOrders(st, x.id, x.id, x.id);
    assert IsWorst(st, {x}, x) && {x} - {x} + {y} == {y};
    assert Offer(st, v, run[1], y, run[2], false);
  }

  /** Every offer keeps every wanted solution if and only if the count is not one (or nothing is wanted). */
  lemma OfferKeepsWantedExactly<S(!new)>(st: Settings, a: S, b: S)
    requires st.Ok() && Lasting(st) && st.Enumerating() && a != b
    ensures NoOfferLoses<S>(st) <==> st.enumCount != 1 || CutsAll(st)
  {
    if st.enumCount != 1 || CutsAll(st) {
      forall inc, r: Repo<S>, sol, r', prune, x
        | Good(st, r) && Proper(st, sol) && Proper(st, x) && Offer(st, inc, r, sol, r', prune)
          && (x == sol || Kept(st, inc, r, x)) && SameValue(r, x)
        ensures Kept(st, inc, r', x)
      {
        if st.enumCount != 1 {
          OfferKeepsWanted(st, inc, r, sol, r', prune, x);
        }
      }
    } else {
      var v, x, y, run := OneIsNotEnough(st, a, b, SolutionId(st.Signed(st.maxDouble), 0));
      assert Offered(st, [v, v][1], run[1], [x, y][1], run[2]);
      var prune :| Offer(st, v, run[1], y, run[2], prune);
    }
  }

  /** Pruning only drops what has become fathomable. */
  lemma PrunedIsFathomable(st: Settings, inc: real, last: SolutionId, x: SolutionId)
    requires st.Ok() && st.Enumerating() && Abs(x.value) < st.maxDouble
    requires CanFathomFromRepository(st, inc, last, x)
    ensures CanFathom(st, Progress(inc, last.value), x.value)
  {
    if st.enumCount > 1 && Compare(st, last, x) < 0 {
      CompareOrders(st, last, x, x);
      NoWorseIsWithin(st, st.Signed(last.value), st.Signed(x.value));
    }
  }

  lemma PruneKeepsGood<S(!new)>(st: Settings, inc: real, r: Repo<S>, r': Repo<S>)
    requires st.Ok() && Good(st, r) && Pruned(st, inc, r, r')
    ensures Good(st, r') && r'.held <= r.held
  {
    SubsetSizes(r'.held, r.held);
    if Full(st, r'.held) {
      assert r' == r;
    }
  }

  lemma PruneKeepsWanted<S(!new)>(st: Settings, inc: real, r: Repo<S>, r': Repo<S>, x: Solution<S>)
    requires st.Ok() && st.Enumerating() && Good(st, r) && Pruned(st, inc, r, r') && Kept(st, inc, r, x)
    requires forall y | y in r.held && y.contents == x.contents :: y.id.value == x.id.value
    ensures Kept(st, inc, r', x)
  {
    if Holds(r.held, x.contents) {
      var y :| y in r.held && y.contents == x.contents;
      if y !in r'.held {
        PrunedIsFathomable(st, inc, r.last, y.id);
      }
    }
  }

  // ---------- The best k solutions ----------

  /** The number of solutions is the only criterion; `relTolerance` and `absTolerance` say how much a solution must
      gain to be worth keeping. */
  predicate CountOnly(st: Settings) {
    && st.Ok() && Monotone(st) && st.enumCount >= 2
    && !st.usingEnumCutoff && st.enumAbsTol < 0.0 && st.enumRelTol < 0.0
  }

  predicate NoTolerance(st: Settings) { st.relTolerance == 0.0 && st.absTolerance == 0.0 }

  /** `lastSolId` is either untouched or the worst solution of a full repository. */
  ghost predicate LastIsWorst<S(!new)>(st: Settings, r: Repo<S>) {
    if Full(st, r.held) then exists w :: IsWorst(st, r.held, w) && r.last == w.id
    else st.Signed(r.last.value) == st.maxDouble
  }

  lemma LastStaysWorst<S(!new)>(st: Settings, inc: real, r: Repo<S>, sol: Solution<S>, r': Repo<S>, prune: bool)
    requires CountOnly(st) && Good(st, r) && LastIsWorst(st, r) && Proper(st, sol)
    requires Offer(st, inc, r, sol, r', prune)
    ensures LastIsWorst(st, r')
  {
    OfferSizes(st, inc, r, sol, r', prune);
    if r'.held != r.held && Full(st, r'.held) {
      var w' :| IsWorst(st, r'.held, w') && r'.last == if Compare(st, r.last, w'.id) > 0 then w'.id else r.last;
      if Full(st, r.held) {
        var w :| IsWorst(st, r.held, w) && r'.held == r.held - {w} + {sol};
        LastAfterSwap(st, inc, r, sol, w, w');
      } else {
        assert w' == sol || w' in r.held;
        assert Proper(st, w');
      }
    }
  }

  lemma LastAfterSwap<S(!new)>(st: Settings, inc: real, r: Repo<S>, sol: Solution<S>, w: Solution<S>, w': Solution<S>)
    requires CountOnly(st) && Good(st, r) && LastIsWorst(st, r) && Proper(st, sol) && Full(st, r.held)
    requires !CanFathom(st, Progress(inc, r.last.value), sol.id.value)
    requires IsWorst(st, r.held, w) && w' in r.held - {w} + {sol}
    ensures Compare(st, r.last, w'.id) > 0 || w'.id == r.last
  {
    AdmittedIsStrictlyBetter(st, inc, r, sol);
    var v :| IsWorst(st, r.held, v) && r.last == v.id;
    if w' != sol {
      CompareOrders(st, w'.id, v.id, v.id);
      CompareOrders(st, v.id, w'.id, v.id);
    }
  }

  lemma AdmittedIsStrictlyBetter<S(!new)>(st: Settings, inc: real, r: Repo<S>, sol: Solution<S>)
    requires CountOnly(st) && Proper(st, sol) && Full(st, r.held) && LastIsWorst(st, r)
    requires forall x | x in r.held :: Proper(st, x)
    requires !CanFathom(st, Progress(inc, r.last.value), sol.id.value)
    ensures st.Signed(sol.id.value) < st.Signed(r.last.value)
  {
    if st.Signed(sol.id.value) >= st.Signed(r.last.value) {
      NoWorseIsWithin(st, st.Signed(r.last.value), st.Signed(sol.id.value));
    }
  }

  /** Being fathomed means gaining no more than the tolerances on the worst solution held. */
  lemma FathomedByCount(st: Settings, inc: real, last: SolutionId, v: real)
    requires CountOnly(st)
    ensures CanFathom(st, Progress(inc, last.value), v) <==> WithinTolerance(st, st.Signed(last.value), st.Signed(v))
  {
  }

  /** What gains too little on the worst solution held gains too little on every one. */
  lemma CloseToAll<S(!new)>(st: Settings, r: Repo<S>, v: real)
    requires CountOnly(st) && Good(st, r) && LastIsWorst(st, r)
    requires WithinTolerance(st, st.Signed(r.last.value), st.Signed(v)) && Abs(v) < st.maxDouble
    ensures |r.held| == st.enumCount || st.maxDouble - st.Signed(v) < st.absTolerance
    ensures forall x | x in r.held :: WithinTolerance(st, st.Signed(x.id.value), st.Signed(v))
  {
    forall x | x in r.held ensures WithinTolerance(st, st.Signed(x.id.value), st.Signed(v)) {
      if Full(st, r.held) {
        var w :| IsWorst(st, r.held, w) && r.last == w.id;
        CompareOrders(st, x.id, w.id, w.id);
      } else {
        assert Proper(st, x);
      }
      WithinToleranceStable(st, st.Signed(r.last.value), st.Signed(x.id.value), st.Signed(v));
    }
  }

  /** With zero tolerances that is not to gain at all. */
  lemma NoToleranceMeansNoGain(st: Settings, ref: real, b: real)
    requires NoTolerance(st)
    ensures WithinTolerance(st, ref, b) ==> ref <= b
  {
    assert Times(0.0, Denom(b, ref)) == 0.0;
  }

  ghost predicate Offered<S(!new)>(st: Settings, inc: real, r: Repo<S>, sol: Solution<S>, r': Repo<S>) {
    exists prune :: Offer(st, inc, r, sol, r', prune)
  }

  /** A run of offers, `offers[i]` leading from `run[i]` to `run[i + 1]`, starting from an empty repository. */
  ghost predicate IsRun<S(!new)>(st: Settings, incs: seq<real>, offers: seq<Solution<S>>, run: seq<Repo<S>>) {
    && |run| == |offers| + 1 && |incs| == |offers|
    && run[0].held == {} && st.Signed(run[0].last.value) == st.maxDouble
    && (forall i, j | 0 <= i && j == i + 1 && j < |run| ::
          Offered(st, incs[i], run[i], offers[i], run[j]))
  }

  /** The offered solutions are told apart by their contents, and these fix the value. */
  ghost predicate Consistent<S(!new)>(st: Settings, offers: seq<Solution<S>>) {
    && (forall i | 0 <= i < |offers| :: Proper(st, offers[i]))
    && (forall i, j | 0 <= i < |offers| && 0 <= j < |offers| ::
          offers[i].contents == offers[j].contents ==> offers[i].id.value == offers[j].id.value)
  }

  /** After any offers: no doubles; what was offered and is not held gains no more than the tolerances on anything
      that is; and unless `enumCount` solutions are held, every solution offered is (except where `absTolerance`
      reaches up to `maxDouble`). */
  ghost predicate BestOf<S(!new)>(st: Settings, offered: seq<Solution<S>>, r: Repo<S>) {
    && (forall x | x in r.held :: x in offered)
    && (forall x, y | x in r.held && y in r.held :: x.contents == y.contents ==> x == y)
    && |r.held| <= st.enumCount
    && (forall o | o in offered && !Holds(r.held, o.contents) :: Dispensable(st, r, o.id.value))
  }

  ghost predicate Dispensable<S(!new)>(st: Settings, r: Repo<S>, v: real) {
    && (|r.held| == st.enumCount || st.maxDouble - st.Signed(v) < st.absTolerance)
    && forall x | x in r.held :: WithinTolerance(st, st.Signed(x.id.value), st.Signed(v))
  }

  /** With zero tolerances what is not held beats nothing that is, and the repository is full. */
  lemma DispensableExactly<S(!new)>(st: Settings, r: Repo<S>, v: real)
    requires st.Ok() && NoTolerance(st) && Abs(v) < st.maxDouble && forall x | x in r.held :: Proper(st, x)
    ensures Dispensable(st, r, v) <==>
              |r.held| == st.enumCount && forall x | x in r.held :: st.Signed(x.id.value) <= st.Signed(v)
  {
    forall x | x in r.held
      ensures WithinTolerance(st, st.Signed(x.id.value), st.Signed(v)) <==> st.Signed(x.id.value) <= st.Signed(v)
    {
      NoToleranceMeansNoGain(st, st.Signed(x.id.value), st.Signed(v));
      if st.Signed(x.id.value) <= st.Signed(v) {
        NoWorseIsWithin(st, st.Signed(x.id.value), st.Signed(v));
      }
    }
  }

  ghost predicate RunInv<S(!new)>(st: Settings, offered: seq<Solution<S>>, r: Repo<S>) {
    && Good(st, r) && LastIsWorst(st, r) && (forall x | x in r.held :: x in offered)
    && (forall o | o in offered :: KeptOrClose(st, r, o))
  }

  ghost predicate KeptOrClose<S(!new)>(st: Settings, r: Repo<S>, o: Solution<S>) {
    Holds(r.held, o.contents) || WithinTolerance(st, st.Signed(r.last.value), st.Signed(o.id.value))
  }

  lemma OfferKeepsRunInv<S(!new)>(st: Settings, inc: real, offered: seq<Solution<S>>, r: Repo<S>, sol: Solution<S>,
                                  r': Repo<S>)
    requires CountOnly(st) && Consistent(st, offered + [sol]) && RunInv(st, offered, r)
    requires Offered(st, inc, r, sol, r')
    ensures RunInv(st, offered + [sol], r')
  {
    var prune :| Offer(st, inc, r, sol, r', prune);
    var all := offered + [sol];
    assert all[|offered|] == sol && Proper(st, sol);
    OfferKeepsGood(st, inc, r, sol, r', prune);
    LastStaysWorst(st, inc, r, sol, r', prune);
    forall o | o in all ensures KeptOrClose(st, r', o) {
      OfferKeepsOffered(st, inc, offered, r, sol, r', prune, o);
    }
    forall x | x in r'.held ensures x in all {
      assert x == sol || x in r.held;
    }
  }

  lemma OfferKeepsOffered<S(!new)>(st: Settings, inc: real, offered: seq<Solution<S>>, r: Repo<S>, sol: Solution<S>,
                                   r': Repo<S>, prune: bool, o: Solution<S>)
    requires CountOnly(st) && Consistent(st, offered + [sol]) && RunInv(st, offered, r) && o in offered + [sol]
    requires Offer(st, inc, r, sol, r', prune)
    ensures KeptOrClose(st, r', o)
  {
    var all := offered + [sol];
    assert all[|offered|] == sol && Proper(st, sol);
    forall x | x in all ensures Proper(st, x) {
      var i :| 0 <= i < |all| && all[i] == x;
    }
    FathomedByCount(st, inc, r.last, o.id.value);
    FathomedByCount(st, inc, r'.last, o.id.value);
    forall y | y in r.held && y.contents == o.contents ensures y.id.value == o.id.value {
      assert y in all;
      var i, j :| 0 <= i < |all| && all[i] == y && 0 <= j < |all| && all[j] == o;
    }
    OfferKeepsWanted(st, inc, r, sol, r', prune, o);
  }

  lemma OfferAt<S(!new)>(st: Settings, incs: seq<real>, offers: seq<Solution<S>>, run: seq<Repo<S>>, i: nat)
    requires IsRun(st, incs, offers, run) && 0 < i < |run|
    ensures Offered(st, incs[i - 1], run[i - 1], offers[i - 1], run[i])
  {
  }

  lemma EmptyIsInv<S(!new)>(st: Settings, r: Repo<S>)
    requires st.enumCount >= 2 && r.held == {} && st.Signed(r.last.value) == st.maxDouble
    ensures RunInv(st, [], r)
  {
  }

  lemma {:induction false} RunKeepsInv<S(!new)>(st: Settings, incs: seq<real>, offers: seq<Solution<S>>,
                                                run: seq<Repo<S>>, i: nat)
    requires CountOnly(st) && Consistent(st, offers) && IsRun(st, incs, offers, run) && i < |run|
    ensures RunInv(st, offers[..i], run[i])
  {
    if i == 0 {
      EmptyIsInv(st, run[0]);
    } else {
      RunKeepsInv(st, incs, offers, run, i - 1);
      var before := offers[..i - 1];
      assert before + [offers[i - 1]] == offers[..i];
      ConsistentPrefix(st, offers, i);
      OfferAt(st, incs, offers, run, i);
      OfferKeepsRunInv(st, incs[i - 1], before, run[i - 1], offers[i - 1], run[i]);
    }
  }

  lemma ConsistentPrefix<S(!new)>(st: Settings, offers: seq<Solution<S>>, i: nat)
    requires Consistent(st, offers) && i <= |offers|
    ensures Consistent(st, offers[..i])
  {
  }

  /** However the solutions arrive, the repository holds the best `enumCount` of them up to the tolerances, each
      once, and `lastSolId` has only improved. */
  lemma RepositoryHoldsBest<S(!new)>(st: Settings, incs: seq<real>, offers: seq<Solution<S>>, run: seq<Repo<S>>, i: nat)
    requires CountOnly(st) && Consistent(st, offers) && IsRun(st, incs, offers, run) && i < |run|
    ensures BestOf(st, offers[..i], run[i])
    ensures i > 0 ==> Compare(st, run[i].last, run[i - 1].last) <= 0
  {
    RunKeepsInv(st, incs, offers, run, i);
    var r := run[i];
    forall o | o in offers[..i] && !Holds(r.held, o.contents) ensures Dispensable(st, r, o.id.value) {
      var k :| 0 <= k < i && offers[k] == o;
      assert Proper(st, o);
      CloseToAll(st, r, o.id.value);
    }
    if i > 0 {
      assert Offered(st, incs[i - 1], run[i - 1], offers[i - 1], run[i]);
      var prune :| Offer(st, incs[i - 1], run[i - 1], offers[i - 1], run[i], prune);
      OfferImproves(st, incs[i - 1], run[i - 1], offers[i - 1], run[i], prune);
    }
  }

  /** With the count as the only criterion, pruning finds nothing to remove. */
  lemma NothingToPrune<S(!new)>(st: Settings, inc: real, r: Repo<S>, x: Solution<S>)
    requires CountOnly(st) && LastIsWorst(st, r) && x in r.held && Proper(st, x)
    ensures !CanFathomFromRepository(st, inc, r.last, x.id)
  {
    if Full(st, r.held) {
      var w :| IsWorst(st, r.held, w) && r.last == w.id;
      CompareOrders(st, x.id, w.id, w.id);
      CompareOrders(st, w.id, x.id, x.id);
    }
  }
}
