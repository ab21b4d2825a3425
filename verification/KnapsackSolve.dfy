/** Solving a knapsack instance from start to end. */
module KnapsackSolve {
  import opened Fathoming
  import opened Options
  import opened RealSums
  import opened Repository
  import opened SolutionStore
  import opened Application
  import opened SearchEngine
  import opened SearchResults
  import opened Knapsack
  import opened KnapsackSearch

  predicate Integral(x: real) { x == x.Floor as real }

  lemma {:induction false} IntegralSum(n: nat, f: int -> real)
    requires forall i | 0 <= i < n :: Integral(f(i))
    ensures Integral(RSum(n, f))
  {
    if n > 0 {
      IntegralSum(n - 1, f);
      var a, b := RSum(n - 1, f), f(n - 1);
      assert a + b == (a.Floor + b.Floor) as real;
    }
  }

  /** All values are integers, as setup finds out when it reads them. */
  predicate AllInteger(inst: Instance) { forall i | 0 <= i < |inst.item| :: Integral(inst.item[i].value) }

  /** The tolerances for which an optimum is promised: none, or an absolute one of up to 1 when all
      values are integers, as setup then sets it. */
  predicate Exact(inst: Instance, st: Settings) {
    && !st.Enumerating() && st.relTolerance == 0.0
    && (st.absTolerance == 0.0 || (AllInteger(inst) && st.absTolerance <= 1.0))
  }

  ghost predicate Best(inst: Instance, s: seq<bool>) {
    Packs(inst, s) && forall s' | Packs(inst, s') :: ValueOf(inst, Sel(s')) <= ValueOf(inst, Sel(s))
  }

  lemma IntegralValue(inst: Instance, s: seq<bool>)
    requires AllInteger(inst)
    ensures Integral(ValueOf(inst, Sel(s)))
  {
    IntegralSum(|inst.item|, ValueTerm(inst, Sel(s)));
  }

  lemma EmptyPacks(inst: Instance)
    requires inst.Usable()
    ensures Packs(inst, seq(|inst.item|, i => false))
  {
    var s := seq(|inst.item|, i => false);
    EmptySelection(inst);
    SameSelection(inst, Sel(s), (j: int) => false);
  }

  /** The settings are exact, and leave room below "no value yet" for the absolute tolerance. */
  predicate ExactHere(inst: Instance, st: Settings) {
    Exact(inst, st) && (st.absTolerance == 0.0 || ValueOf(inst, AllItems()) < st.maxDouble - 1.0)
  }

  lemma GapBelowOne(inst: Instance, st: Settings, guess: Option<seq<bool>>,
                    heuristic: (nat, Sub<KSub>) -> seq<seq<bool>>, inc: real, incumbent: Option<seq<bool>>,
                    r: Repo<seq<bool>>, found: set<seq<bool>>, s: seq<bool>)
    requires Suits(inst, st, guess, heuristic) && Exact(inst, st) && Packs(inst, s)
    requires Settled(KnapsackApp(inst, st, guess, heuristic), st, inc, incumbent, r, found)
    ensures ValueOf(inst, Sel(s)) - inc < st.absTolerance || ValueOf(inst, Sel(s)) <= inc
    ensures incumbent.Some? ==> Packs(inst, incumbent.value) && inc == ValueOf(inst, Sel(incumbent.value))
    ensures incumbent.None? ==> inc == -st.maxDouble
  {
    var app := KnapsackApp(inst, st, guess, heuristic);
    NothingBeatsIncumbent(app, st, inc, incumbent, r, found, s);
    assert Times(0.0, Denom(app.value(s), inc)) == 0.0;
  }

  lemma SomeIncumbent(inst: Instance, st: Settings, guess: Option<seq<bool>>,
                      heuristic: (nat, Sub<KSub>) -> seq<seq<bool>>, inc: real, incumbent: Option<seq<bool>>,
                      r: Repo<seq<bool>>, found: set<seq<bool>>)
    requires Suits(inst, st, guess, heuristic) && ExactHere(inst, st)
    requires Settled(KnapsackApp(inst, st, guess, heuristic), st, inc, incumbent, r, found)
    ensures incumbent.Some?
  {
    var nothing := seq(|inst.item|, i => false);
    EmptyPacks(inst);
    KnapsackRootOk(inst, st, nothing);
    GapBelowOne(inst, st, guess, heuristic, inc, incumbent, r, found, nothing);
  }

  lemma NothingBetween(x: real, y: real)
    requires Integral(x) && Integral(y) && x - y < 1.0
    ensures x <= y
  {
    var m, n := x.Floor, y.Floor;
    assert x - y == (m - n) as real;
    assert m - n < 1;
  }

  lemma NoPackingBeats(inst: Instance, st: Settings, guess: Option<seq<bool>>,
                       heuristic: (nat, Sub<KSub>) -> seq<seq<bool>>, inc: real, incumbent: Option<seq<bool>>,
                       r: Repo<seq<bool>>, found: set<seq<bool>>, s: seq<bool>)
    requires Suits(inst, st, guess, heuristic) && ExactHere(inst, st) && Packs(inst, s) && incumbent.Some?
    requires Settled(KnapsackApp(inst, st, guess, heuristic), st, inc, incumbent, r, found)
    ensures Packs(inst, incumbent.value) && ValueOf(inst, Sel(s)) <= ValueOf(inst, Sel(incumbent.value))
  {
    GapBelowOne(inst, st, guess, heuristic, inc, incumbent, r, found, s);
    if ValueOf(inst, Sel(s)) - inc < st.absTolerance && st.absTolerance != 0.0 {
      IntegralValue(inst, s);
      IntegralValue(inst, incumbent.value);
      NothingBetween(ValueOf(inst, Sel(s)), inc);
    }
  }

  /** With exact tolerances the incumbent is the best packing. */
  lemma IncumbentIsBest(inst: Instance, st: Settings, guess: Option<seq<bool>>,
                        heuristic: (nat, Sub<KSub>) -> seq<seq<bool>>, inc: real, incumbent: Option<seq<bool>>,
                        r: Repo<seq<bool>>, found: set<seq<bool>>)
    requires Suits(inst, st, guess, heuristic) && ExactHere(inst, st)
    requires Settled(KnapsackApp(inst, st, guess, heuristic), st, inc, incumbent, r, found)
    ensures incumbent.Some? && Best(inst, incumbent.value)
  {
    SomeIncumbent(inst, st, guess, heuristic, inc, incumbent, r, found);
    EmptyPacks(inst);
    NoPackingBeats(inst, st, guess, heuristic, inc, incumbent, r, found, seq(|inst.item|, i => false));
    forall s | Packs(inst, s) ensures ValueOf(inst, Sel(s)) <= ValueOf(inst, Sel(incumbent.value)) {
      NoPackingBeats(inst, st, guess, heuristic, inc, incumbent, r, found, s);
    }
  }

  /** The tolerances for which a count is exact: none, or what setup leaves when all values are integers. */
  predicate CountExact(inst: Instance, st: Settings) {
    && CountOnly(st) && st.relTolerance == 0.0
    && (st.absTolerance == 0.0
        || (AllInteger(inst) && st.absTolerance <= 1.0 && ValueOf(inst, AllItems()) < st.maxDouble - 1.0))
  }

  /** `s` gains no more than the tolerances on a packing of value `v`. */
  predicate GainsTooLittle(inst: Instance, st: Settings, v: real, s: seq<bool>) {
    GainsLittle(st, ValueOf(inst, Sel(s)), v)
  }

  lemma ExactGain(inst: Instance, st: Settings, h: seq<bool>, s: seq<bool>)
    requires CountExact(inst, st) && st.sense == maximization && GainsTooLittle(inst, st, ValueOf(inst, Sel(h)), s)
    ensures ValueOf(inst, Sel(s)) <= ValueOf(inst, Sel(h))
  {
    var v, w := ValueOf(inst, Sel(h)), ValueOf(inst, Sel(s));
    assert Times(0.0, MaxReal(Abs(w), Abs(v))) == 0.0;
    if st.absTolerance != 0.0 {
      IntegralValue(inst, h);
      IntegralValue(inst, s);
      if w - v < 1.0 {
        NothingBetween(w, v);
      }
    }
  }

  /** What a search by count alone leaves: a packing that is missing gains too little on any that is held; and with
      exact tolerances it beats none, and the repository is full. */
  lemma CountedBest(inst: Instance, st: Settings, guess: Option<seq<bool>>,
                    heuristic: (nat, Sub<KSub>) -> seq<seq<bool>>, inc: real, best: Option<seq<bool>>,
                    r: Repo<seq<bool>>, found: set<seq<bool>>, s: seq<bool>)
    requires Suits(inst, st, guess, heuristic) && CountOnly(st)
    requires Settled(KnapsackApp(inst, st, guess, heuristic), st, inc, best, r, found)
    ensures |r.held| <= st.enumCount
    ensures forall h | h in r.held :: Packs(inst, h.contents) && h.id.value == ValueOf(inst, Sel(h.contents))
    ensures forall h, k | h in r.held && k in r.held :: h.contents == k.contents ==> h == k
    ensures Packs(inst, s) && !Holds(r.held, s) ==>
              forall h | h in r.held :: GainsTooLittle(inst, st, ValueOf(inst, Sel(h.contents)), s)
    ensures CountExact(inst, st) && Packs(inst, s) && !Holds(r.held, s) ==>
              |r.held| == st.enumCount
              && forall h | h in r.held :: ValueOf(inst, Sel(s)) <= ValueOf(inst, Sel(h.contents))
  {
    var app := KnapsackApp(inst, st, guess, heuristic);
    BestSolutionsHeld(app, st, inc, best, r, found, s);
    if CountExact(inst, st) && Packs(inst, s) && !Holds(r.held, s) {
      KnapsackRootOk(inst, st, s);
      forall h | h in r.held ensures ValueOf(inst, Sel(s)) <= ValueOf(inst, Sel(h.contents)) {
        ExactGain(inst, st, h.contents, s);
      }
    }
  }

  /** The members of the repository, in the order of its heap. */
  ghost predicate Lists(held: seq<Solution<seq<bool>>>, s: seq<bool>) { exists h :: h in held && h.contents == s }

  /** What enumeration asks for of a packing, against the best one. */
  predicate Asked(inst: Instance, st: Settings, best: seq<bool>, s: seq<bool>) {
    && Packs(inst, s) && MeetsCutoff(st, ValueOf(inst, Sel(s)))
    && MeetsTolerances(st, ValueOf(inst, Sel(s)), ValueOf(inst, Sel(best)))
  }

  /** Enumeration by the cutoff and the tolerances, in any mix. */
  lemma AskedAreHeld(inst: Instance, st: Settings, guess: Option<seq<bool>>,
                     heuristic: (nat, Sub<KSub>) -> seq<seq<bool>>, inc: real, best: Option<seq<bool>>,
                     r: Repo<seq<bool>>, found: set<seq<bool>>, s: seq<bool>)
    requires Suits(inst, st, guess, heuristic) && st.Enumerating() && st.enumCount == 0
    requires Settled(KnapsackApp(inst, st, guess, heuristic), st, inc, best, r, found)
    ensures Holds(r.held, s) <==> best.Some? && Asked(inst, st, best.value, s)
    ensures Packs(inst, s) && MeetsCutoff(st, ValueOf(inst, Sel(s))) ==> best.Some? && Best(inst, best.value)
  {
    var app := KnapsackApp(inst, st, guess, heuristic);
    RepositoryIsComplete(app, st, inc, best, r, found, s);
    if Packs(inst, s) && MeetsCutoff(st, ValueOf(inst, Sel(s))) {
      BestIsFound(app, st, inc, best, r, found, s);
      forall s' | Packs(inst, s') ensures ValueOf(inst, Sel(s')) <= ValueOf(inst, Sel(best.value)) {
        if MeetsCutoff(st, ValueOf(inst, Sel(s'))) {
          BestIsFound(app, st, inc, best, r, found, s');
        }
      }
    }
  }

  /** Searches with any handler.  With exact tolerances it returns a best packing; when enumerating without a count all
      packings that the cutoff and the tolerances ask for, each once; and when enumerating by count alone a best
      selection of that many, up to the tolerances. */
  method Solve(inst: Instance, st: Settings, guess: Option<seq<bool>>, heuristic: (nat, Sub<KSub>) -> seq<seq<bool>>,
               hash: seq<bool> -> nat, enumHashSize: nat, handler: Handler)
    returns (best: Option<seq<bool>>, held: seq<Solution<seq<bool>>>)
    requires Suits(inst, st, guess, heuristic) && Finds(inst, st) && enumHashSize > 0
    ensures ExactHere(inst, st) ==> best.Some? && Best(inst, best.value)
    ensures AbsTolOnly(st) ==>
              && best.Some? && Best(inst, best.value)
              && (forall s :: Lists(held, s) <==>
                    Packs(inst, s) && ValueOf(inst, Sel(s)) >= ValueOf(inst, Sel(best.value)) - st.enumAbsTol)
              && (forall h, k | h in held && k in held :: h.contents == k.contents ==> h == k)
    ensures st.Enumerating() && st.enumCount == 0 ==>
              && (forall s :: Lists(held, s) <==> best.Some? && Asked(inst, st, best.value, s))
              && (forall s | Packs(inst, s) && MeetsCutoff(st, ValueOf(inst, Sel(s))) ::
                    best.Some? && Best(inst, best.value))
              && (forall h, k | h in held && k in held :: h.contents == k.contents ==> h == k)
    ensures CountOnly(st) ==>
              && |held| <= st.enumCount && (forall h | h in held :: Packs(inst, h.contents))
              && (forall h, k | h in held && k in held :: h.contents == k.contents ==> h == k)
              && (forall h, s | Packs(inst, s) && !Lists(held, s) && h in held ::
                    GainsTooLittle(inst, st, ValueOf(inst, Sel(h.contents)), s))
    ensures CountExact(inst, st) ==>
              && (forall s | Packs(inst, s) && !Lists(held, s) :: |held| == st.enumCount)
              && (forall h, s | Packs(inst, s) && !Lists(held, s) && h in held ::
                    ValueOf(inst, Sel(s)) <= ValueOf(inst, Sel(h.contents)))
  {
    var app := KnapsackApp(inst, st, guess, heuristic);
    KnapsackKeepsContract(inst, st, guess, heuristic);
    var search := new Branching(app, st, hash, enumHashSize, 0);
    var ok := search.Search(handler);
    best, held := search.incumbent, search.repository.reposHeap.tree;
    ghost var r, inc, found := search.repository.View(), search.incumbentValue, search.found;
    SizeOfSet(held);
    forall s ensures Lists(held, s) <==> Holds(r.held, s) {
    }
    Conclude(inst, st, guess, heuristic, inc, best, r, found);
  }

  lemma Conclude(inst: Instance, st: Settings, guess: Option<seq<bool>>,
                 heuristic: (nat, Sub<KSub>) -> seq<seq<bool>>, inc: real, best: Option<seq<bool>>,
                 r: Repo<seq<bool>>, found: set<seq<bool>>)
    requires Suits(inst, st, guess, heuristic)
    requires Settled(KnapsackApp(inst, st, guess, heuristic), st, inc, best, r, found)
    ensures ExactHere(inst, st) ==> best.Some? && Best(inst, best.value)
    ensures AbsTolOnly(st) ==>
              && best.Some? && Best(inst, best.value)
              && (forall s :: Holds(r.held, s) <==>
                    Packs(inst, s) && ValueOf(inst, Sel(s)) >= ValueOf(inst, Sel(best.value)) - st.enumAbsTol)
              && (forall h, k | h in r.held && k in r.held :: h.contents == k.contents ==> h == k)
    ensures st.Enumerating() && st.enumCount == 0 ==>
              && (forall s :: Holds(r.held, s) <==> best.Some? && Asked(inst, st, best.value, s))
              && (forall s | Packs(inst, s) && MeetsCutoff(st, ValueOf(inst, Sel(s))) ::
                    best.Some? && Best(inst, best.value))
              && (forall h, k | h in r.held && k in r.held :: h.contents == k.contents ==> h == k)
    ensures CountOnly(st) ==>
              && |r.held| <= st.enumCount && (forall h | h in r.held :: Packs(inst, h.contents))
              && (forall h, k | h in r.held && k in r.held :: h.contents == k.contents ==> h == k)
              && (forall h, s | Packs(inst, s) && !Holds(r.held, s) && h in r.held ::
                    GainsTooLittle(inst, st, ValueOf(inst, Sel(h.contents)), s))
    ensures CountExact(inst, st) ==>
              && (forall s | Packs(inst, s) && !Holds(r.held, s) :: |r.held| == st.enumCount)
              && (forall h, s | Packs(inst, s) && !Holds(r.held, s) && h in r.held ::
                    ValueOf(inst, Sel(s)) <= ValueOf(inst, Sel(h.contents)))
  {
    var app := KnapsackApp(inst, st, guess, heuristic);
    if ExactHere(inst, st) {
      IncumbentIsBest(inst, st, guess, heuristic, inc, best, r, found);
    }
    if AbsTolOnly(st) {
      EmptyPacks(inst);
      EnumerationIsComplete(app, st, inc, best, r, found, seq(|inst.item|, i => false));
      forall s ensures Packs(inst, s) ==> ValueOf(inst, Sel(s)) <= ValueOf(inst, Sel(best.value))
        ensures Holds(r.held, s) <==>
                  Packs(inst, s) && ValueOf(inst, Sel(s)) >= ValueOf(inst, Sel(best.value)) - st.enumAbsTol
      {
        EnumerationIsComplete(app, st, inc, best, r, found, s);
      }
    }
    if st.Enumerating() && st.enumCount == 0 {
      RepositoryIsComplete(app, st, inc, best, r, found, []);
      forall s
        ensures Holds(r.held, s) <==> best.Some? && Asked(inst, st, best.value, s)
        ensures Packs(inst, s) && MeetsCutoff(st, ValueOf(inst, Sel(s))) ==> best.Some? && Best(inst, best.value)
      {
        AskedAreHeld(inst, st, guess, heuristic, inc, best, r, found, s);
      }
    }
    if CountOnly(st) {
      CountedBest(inst, st, guess, heuristic, inc, best, r, found, []);
      forall s | Packs(inst, s) && !Holds(r.held, s)
        ensures forall h | h in r.held :: GainsTooLittle(inst, st, ValueOf(inst, Sel(h.contents)), s)
        ensures CountExact(inst, st) ==>
                  |r.held| == st.enumCount
                  && forall h | h in r.held :: ValueOf(inst, Sel(s)) <= ValueOf(inst, Sel(h.contents))
      {
        CountedBest(inst, st, guess, heuristic, inc, best, r, found, s);
      }
    }
  }
}
