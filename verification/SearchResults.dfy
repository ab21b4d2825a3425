/** What a finished search has found, for every application that keeps its contract. */
module SearchResults {
  import opened Fathoming
  import opened Options
  import opened RealSums
  import opened Repository
  import opened Application
  import opened SearchEngine

  lemma AllFoundOrFathomed<A(!new), S(!new)>(app: App<A, S>, st: Settings, inc: real, incumbent: Option<S>, r: Repo<S>,
                                           found: set<S>, s: S)
    requires Settled(app, st, inc, incumbent, r, found) && app.feasible(s)
    ensures s in found || CanFathom(st, Progress(inc, r.last.value), app.value(s))
    ensures Abs(app.value(s)) < st.maxDouble
  {
    assert Accounted(app, st, Progress(inc, r.last.value), found, [], s);
  }

  /** Without enumeration every feasible solution can be fathomed against the final incumbent: none
      improves on it by more than the tolerances. */
  lemma NothingBeatsIncumbent<A(!new), S(!new)>(app: App<A, S>, st: Settings, inc: real, incumbent: Option<S>, r: Repo<S>,
                                              found: set<S>, s: S)
    requires Settled(app, st, inc, incumbent, r, found) && !st.Enumerating() && app.feasible(s)
    ensures CanFathom(st, Progress(inc, r.last.value), app.value(s))
    ensures var gap := st.Signed(inc) - st.Signed(app.value(s));
            gap < st.absTolerance || gap <= Times(st.relTolerance, Denom(app.value(s), inc))
    ensures incumbent.Some? ==> app.feasible(incumbent.value) && inc == app.value(incumbent.value)
  {
    AllFoundOrFathomed(app, st, inc, incumbent, r, found, s);
    if s in found {
      IncumbentFathomsItself(st, Progress(inc, r.last.value), app.value(s));
    }
    Scale(st.relTolerance, 0.0, Denom(app.value(s), inc));
  }

  /** With zero tolerances the incumbent is an optimal solution, and there is one if anything is feasible. */
  lemma IncumbentIsOptimal<A(!new), S(!new)>(app: App<A, S>, st: Settings, inc: real, incumbent: Option<S>, r: Repo<S>,
                                           found: set<S>, s: S)
    requires Settled(app, st, inc, incumbent, r, found) && !st.Enumerating() && app.feasible(s)
    requires st.relTolerance == 0.0 && st.absTolerance == 0.0
    ensures incumbent.Some? && app.feasible(incumbent.value)
    ensures NoBetter(st, app.value(s), app.value(incumbent.value))
  {
    NothingBeatsIncumbent(app, st, inc, incumbent, r, found, s);
    ZeroToleranceMeansOptimal(st, Progress(inc, r.last.value), app.value(s));
  }

  // ---------- What enumeration asks for ----------

  /** Strictly better than `enumCutoff`, if there is one. */
  predicate MeetsCutoff(st: Settings, v: real) {
    st.usingEnumCutoff ==> if st.sense.minimization? then v < st.enumCutoff else v > st.enumCutoff
  }

  /** How much worse than `best` a value is. */
  function Loss(st: Settings, v: real, best: real): real { if st.sense.minimization? then v - best else best - v }

  /** No further from `best` than the enumeration tolerances in use. */
  predicate MeetsTolerances(st: Settings, v: real, best: real) {
    && (st.enumAbsTol >= 0.0 ==> Loss(st, v, best) <= st.enumAbsTol)
    && (st.enumRelTol >= 0.0 ==> Loss(st, v, best) <= Times(st.enumRelTol, MaxReal(Abs(v), Abs(best))))
  }

  /** `v` gains no more on `last` than the tolerances. */
  predicate GainsLittle(st: Settings, v: real, last: real) {
    || Loss(st, last, v) < st.absTolerance
    || Loss(st, last, v) <= Times(st.relTolerance, MaxReal(Abs(v), Abs(last)))
  }

  lemma SignedSizes(st: Settings, x: real)
    ensures Abs(st.Signed(x)) == Abs(x)
  {
  }

  lemma BeyondMeans(st: Settings, v: real, best: real)
    ensures BeyondRelative(st.enumRelTol, st.Signed(best), st.Signed(v))
            <==> Loss(st, v, best) > Times(st.enumRelTol, MaxReal(Abs(v), Abs(best)))
  {
    SignedSizes(st, v);
    SignedSizes(st, best);
  }

  /** Without a count, what can be fathomed is what the criteria do not ask for. */
  lemma FathomedMeans(st: Settings, pr: Progress, v: real)
    requires st.Enumerating() && st.enumCount <= 1
    ensures CanFathom(st, pr, v) <==> !MeetsCutoff(st, v) || !MeetsTolerances(st, v, pr.incumbentValue)
  {
    BeyondMeans(st, v, pr.incumbentValue);
  }

  lemma WithinMeans(st: Settings, v: real, last: real)
    requires WithinTolerance(st, st.Signed(last), st.Signed(v))
    ensures GainsLittle(st, v, last)
  {
    SignedSizes(st, v);
    SignedSizes(st, last);
  }

  lemma FathomedWithCount(st: Settings, pr: Progress, v: real)
    requires st.Enumerating() && st.enumCount > 1 && CanFathom(st, pr, v)
    ensures !MeetsCutoff(st, v) || !MeetsTolerances(st, v, pr.incumbentValue) || GainsLittle(st, v, pr.lastSolValue)
  {
    if WithinTolerance(st, st.Signed(pr.lastSolValue), st.Signed(v)) {
      WithinMeans(st, v, pr.lastSolValue);
    } else {
      BeyondMeans(st, v, pr.incumbentValue);
    }
  }

  /** `v` gains too little on `ref`: less than `absTolerance`, or, where there are finite values to compare, no more
      than `relTolerance` allows. */
  predicate TooLittle(st: Settings, v: real, ref: real) {
    var gap, denom := Loss(st, ref, v), MaxReal(Abs(v), Abs(ref));
    gap < st.absTolerance || (gap < st.maxDouble && denom < st.maxDouble && gap <= Times(st.relTolerance, denom))
  }

  lemma TooLittleMeans(st: Settings, v: real, ref: real)
    ensures WithinTolerance(st, st.Signed(ref), st.Signed(v)) <==> TooLittle(st, v, ref)
  {
    SignedSizes(st, v);
    SignedSizes(st, ref);
  }

  /** Exactly what can be fathomed, in every mode. */
  lemma FathomedExactly(st: Settings, pr: Progress, v: real)
    ensures CanFathom(st, pr, v) <==>
            if st.Enumerating() then
              || !MeetsCutoff(st, v) || !MeetsTolerances(st, v, pr.incumbentValue)
              || (st.enumCount > 1 && TooLittle(st, v, pr.lastSolValue))
            else TooLittle(st, v, pr.incumbentValue) || (v == 0.0 && pr.incumbentValue == 0.0)
  {
    BeyondMeans(st, v, pr.incumbentValue);
    TooLittleMeans(st, v, pr.lastSolValue);
    TooLittleMeans(st, v, pr.incumbentValue);
  }

  /** Exactly which offers change the repository: those of a solution it does not hold that meets the criteria, and with
      a count above one gains enough on `lastSolId`. */
  lemma AdmittedExactly<S(!new)>(st: Settings, inc: real, r: Repo<S>, sol: Solution<S>, r': Repo<S>, prune: bool)
    requires Offer(st, inc, r, sol, r', prune) && st.Enumerating()
    ensures r'.held != r.held <==>
            && !Holds(r.held, sol.contents) && MeetsCutoff(st, sol.id.value) && MeetsTolerances(st, sol.id.value, inc)
            && (st.enumCount > 1 ==> !TooLittle(st, sol.id.value, r.last.value))
  {
    FathomedExactly(st, Progress(inc, r.last.value), sol.id.value);
    assert !Holds(r.held, sol.contents) ==> sol !in r.held;
    assert r'.held != r.held ==> sol in r'.held;
  }

  lemma NotNegative(x: real, y: real)
    requires x >= 0.0 && y >= 0.0
    ensures Times(x, y) >= 0.0
  {
  }

  lemma NotMeetingIsNoBetter(st: Settings, v: real, best: real)
    requires st.Ok() && !MeetsTolerances(st, v, best)
    ensures NoBetter(st, v, best) && st.Signed(v) != st.Signed(best)
  {
    if st.enumRelTol >= 0.0 {
      NotNegative(st.enumRelTol, MaxReal(Abs(v), Abs(best)));
    }
  }

  /** When enumerating without a count above one, the incumbent is the best feasible solution as soon as one that is
      strictly better than the cutoff is feasible. */
  lemma BestIsFound<A(!new), S(!new)>(app: App<A, S>, st: Settings, inc: real, incumbent: Option<S>, r: Repo<S>,
                                        found: set<S>, s: S)
    requires Settled(app, st, inc, incumbent, r, found) && st.Enumerating() && st.enumCount <= 1
    requires app.feasible(s) && MeetsCutoff(st, app.value(s))
    ensures incumbent.Some? && app.feasible(incumbent.value) && inc == app.value(incumbent.value)
    ensures NoBetter(st, app.value(s), app.value(incumbent.value))
  {
    AllFoundOrFathomed(app, st, inc, incumbent, r, found, s);
    FathomedMeans(st, Progress(inc, r.last.value), app.value(s));
    if s !in found {
      NotMeetingIsNoBetter(st, app.value(s), inc);
    }
  }

  /** When enumerating without a count, by any mix of the other criteria, the repository ends up with exactly the
      feasible solutions that meet them all, each once: those strictly better than the cutoff and within the tolerances
      of the incumbent. */
  lemma RepositoryIsComplete<A(!new), S(!new)>(app: App<A, S>, st: Settings, inc: real, incumbent: Option<S>, r: Repo<S>,
                                             found: set<S>, s: S)
    requires Settled(app, st, inc, incumbent, r, found) && st.Enumerating() && st.enumCount == 0
    ensures Holds(r.held, s) <==>
            app.feasible(s) && MeetsCutoff(st, app.value(s)) && MeetsTolerances(st, app.value(s), inc)
    ensures Holds(r.held, s) <==> app.feasible(s) && !CanFathom(st, Progress(inc, r.last.value), app.value(s))
    ensures Holds(r.held, s) ==> incumbent.Some? && app.feasible(incumbent.value) && inc == app.value(incumbent.value)
    ensures forall x, y | x in r.held && y in r.held :: x.contents == y.contents ==> x == y
  {
    FathomedMeans(st, Progress(inc, r.last.value), app.value(s));
    if app.feasible(s) {
      AllFoundOrFathomed(app, st, inc, incumbent, r, found, s);
      if MeetsCutoff(st, app.value(s)) {
        BestIsFound(app, st, inc, incumbent, r, found, s);
      }
    }
  }

  /** With the cutoff alone: exactly the feasible solutions strictly better than it. */
  lemma CutoffEnumeration<A(!new), S(!new)>(app: App<A, S>, st: Settings, inc: real, incumbent: Option<S>, r: Repo<S>,
                                          found: set<S>, s: S)
    requires Settled(app, st, inc, incumbent, r, found) && st.usingEnumCutoff && st.enumCount == 0
    requires st.enumAbsTol < 0.0 && st.enumRelTol < 0.0
    ensures Holds(r.held, s) <==> app.feasible(s) && st.Signed(app.value(s)) < st.Signed(st.enumCutoff)
    ensures forall x, y | x in r.held && y in r.held :: x.contents == y.contents ==> x == y
  {
    RepositoryIsComplete(app, st, inc, incumbent, r, found, s);
  }

  /** With the relative tolerance alone: exactly the feasible solutions within it of the optimum. */
  lemma RelativeEnumeration<A(!new), S(!new)>(app: App<A, S>, st: Settings, inc: real, incumbent: Option<S>, r: Repo<S>,
                                            found: set<S>, s: S)
    requires Settled(app, st, inc, incumbent, r, found) && !st.usingEnumCutoff && st.enumCount == 0
    requires st.enumAbsTol < 0.0 && st.enumRelTol >= 0.0
    ensures app.feasible(s) ==> incumbent.Some? && app.feasible(incumbent.value)
                                && NoBetter(st, app.value(s), app.value(incumbent.value))
    ensures Holds(r.held, s) <==>
            (&& incumbent.Some? && app.feasible(s)
             && var v, best := app.value(s), app.value(incumbent.value);
                st.Signed(v) - st.Signed(best) <= Times(st.enumRelTol, MaxReal(Abs(v), Abs(best))))
    ensures forall x, y | x in r.held && y in r.held :: x.contents == y.contents ==> x == y
  {
    RepositoryIsComplete(app, st, inc, incumbent, r, found, s);
    if app.feasible(s) {
      BestIsFound(app, st, inc, incumbent, r, found, s);
    }
  }

  /** With cutoff and absolute tolerance: exactly the feasible solutions that are strictly better than the one and
      within the other of the optimum. */
  lemma CutoffAndTolerance<A(!new), S(!new)>(app: App<A, S>, st: Settings, inc: real, incumbent: Option<S>, r: Repo<S>,
                                           found: set<S>, s: S)
    requires Settled(app, st, inc, incumbent, r, found) && st.usingEnumCutoff && st.enumCount == 0
    requires st.enumAbsTol >= 0.0 && st.enumRelTol < 0.0
    ensures app.feasible(s) && st.Signed(app.value(s)) < st.Signed(st.enumCutoff) ==>
              incumbent.Some? && app.feasible(incumbent.value)
              && NoBetter(st, app.value(s), app.value(incumbent.value))
    ensures Holds(r.held, s) <==>
            (&& incumbent.Some? && app.feasible(s) && st.Signed(app.value(s)) < st.Signed(st.enumCutoff)
             && st.Signed(app.value(s)) - st.Signed(app.value(incumbent.value)) <= st.enumAbsTol)
    ensures forall x, y | x in r.held && y in r.held :: x.contents == y.contents ==> x == y
  {
    RepositoryIsComplete(app, st, inc, incumbent, r, found, s);
    if app.feasible(s) && MeetsCutoff(st, app.value(s)) {
      BestIsFound(app, st, inc, incumbent, r, found, s);
    }
  }

  /** When enumerating with room for a single solution, the repository ends up with one feasible solution that
      cannot be fathomed, if there is any, and otherwise empty.  Which one is left to the order of discovery. */
  lemma OneSolutionHeld<A(!new), S(!new)>(app: App<A, S>, st: Settings, inc: real, incumbent: Option<S>, r: Repo<S>,
                                        found: set<S>, s: S)
    requires Settled(app, st, inc, incumbent, r, found) && Single(st)
    ensures |r.held| <= 1
    ensures forall h | h in r.held :: app.feasible(h.contents) && h.id.value == app.value(h.contents)
                                      && MeetsCutoff(st, h.id.value) && MeetsTolerances(st, h.id.value, inc)
    ensures app.feasible(s) && MeetsCutoff(st, app.value(s)) && MeetsTolerances(st, app.value(s), inc) ==> |r.held| == 1
    ensures app.feasible(s) && MeetsCutoff(st, app.value(s)) ==>
              incumbent.Some? && app.feasible(incumbent.value) && inc == app.value(incumbent.value)
              && NoBetter(st, app.value(s), inc)
  {
    forall h | h in r.held ensures MeetsCutoff(st, h.id.value) && MeetsTolerances(st, h.id.value, inc) {
      FathomedMeans(st, Progress(inc, r.last.value), h.id.value);
    }
    if app.feasible(s) && MeetsCutoff(st, app.value(s)) {
      BestIsFound(app, st, inc, incumbent, r, found, s);
      FathomedMeans(st, Progress(inc, r.last.value), app.value(s));
      AllFoundOrFathomed(app, st, inc, incumbent, r, found, s);
    }
  }

  /** The absolute enumeration tolerance is the only criterion. */
  predicate AbsTolOnly(st: Settings) {
    Usable(st) && !st.usingEnumCutoff && st.enumAbsTol >= 0.0 && st.enumRelTol < 0.0 && st.enumCount == 0
  }

  /** The incumbent is optimal, and the repository holds exactly the feasible solutions within
      `enumAbsTol` of it. */
  lemma EnumerationIsComplete<A(!new), S(!new)>(app: App<A, S>, st: Settings, inc: real, incumbent: Option<S>, r: Repo<S>,
                                              found: set<S>, s: S)
    requires Settled(app, st, inc, incumbent, r, found) && AbsTolOnly(st)
    ensures app.feasible(s) ==> incumbent.Some? && app.feasible(incumbent.value)
                                && NoBetter(st, app.value(s), app.value(incumbent.value))
    ensures Holds(r.held, s) <==>
            (&& incumbent.Some? && app.feasible(s)
             && st.Signed(app.value(s)) - st.Signed(app.value(incumbent.value)) <= st.enumAbsTol)
  {
    RepositoryIsComplete(app, st, inc, incumbent, r, found, s);
    if app.feasible(s) {
      AllFoundOrFathomed(app, st, inc, incumbent, r, found, s);
    }
  }

  /** When enumerating by any mix of criteria, but for a count of one, every feasible solution that is missing fails one
      of them: it is no better than the cutoff, further from the incumbent than a tolerance, or gains next to nothing
      on `lastSolId`. */
  lemma NothingWantedIsMissing<A(!new), S(!new)>(app: App<A, S>, st: Settings, inc: real, incumbent: Option<S>, r: Repo<S>,
                                               found: set<S>, s: S)
    requires Settled(app, st, inc, incumbent, r, found) && st.Enumerating() && st.enumCount != 1 && app.feasible(s)
    ensures Holds(r.held, s) || CanFathom(st, Progress(inc, r.last.value), app.value(s))
    ensures || Holds(r.held, s)
            || !MeetsCutoff(st, app.value(s)) || !MeetsTolerances(st, app.value(s), inc)
            || (st.enumCount > 1 && GainsLittle(st, app.value(s), r.last.value))
    ensures forall h | h in r.held :: app.feasible(h.contents) && h.id.value == app.value(h.contents)
    ensures forall x, y | x in r.held && y in r.held :: x.contents == y.contents ==> x == y
    ensures st.enumCount > 0 ==> |r.held| <= st.enumCount
  {
    AllFoundOrFathomed(app, st, inc, incumbent, r, found, s);
    assert s in found ==> Secured(app, st, Progress(inc, r.last.value), r.held, s);
    if CanFathom(st, Progress(inc, r.last.value), app.value(s)) {
      if st.enumCount > 1 {
        FathomedWithCount(st, Progress(inc, r.last.value), app.value(s));
      } else {
        FathomedMeans(st, Progress(inc, r.last.value), app.value(s));
      }
    }
  }

  /** With a count as the only criterion the repository ends up with the best `enumCount` solutions there are, up to
      the tolerances: what is missing gains no more than these on any of them, and nothing is missing unless the
      repository is full. */
  lemma BestSolutionsHeld<A(!new), S(!new)>(app: App<A, S>, st: Settings, inc: real, incumbent: Option<S>, r: Repo<S>,
                                          found: set<S>, s: S)
    requires Settled(app, st, inc, incumbent, r, found) && CountOnly(st)
    ensures forall h | h in r.held :: app.feasible(h.contents) && h.id.value == app.value(h.contents)
    ensures forall x, y | x in r.held && y in r.held :: x.contents == y.contents ==> x == y
    ensures |r.held| <= st.enumCount
    ensures app.feasible(s) && !Holds(r.held, s) ==>
              Dispensable(st, r, app.value(s)) && forall h | h in r.held :: GainsLittle(st, app.value(s), h.id.value)
    ensures app.feasible(s) && !Holds(r.held, s) && NoTolerance(st) ==>
              |r.held| == st.enumCount && forall h | h in r.held :: NoBetter(st, app.value(s), h.id.value)
  {
    if app.feasible(s) && !Holds(r.held, s) {
      NothingWantedIsMissing(app, st, inc, incumbent, r, found, s);
      assert Abs(app.value(s)) < st.maxDouble;
      FathomedByCount(st, inc, r.last, app.value(s));
      CloseToAll(st, r, app.value(s));
      forall h | h in r.held ensures GainsLittle(st, app.value(s), h.id.value) {
        WithinMeans(st, app.value(s), h.id.value);
      }
      if NoTolerance(st) {
        DispensableExactly(st, r, app.value(s));
      }
    }
  }
}
