/** What an offer to a repository does to the best solutions that the processors hold between them. */
module ReposOffers {
  import opened Fathoming
  import opened RealSums
  import opened ReposAsync
  import opened ReposMerge

  /** The new solution pushes out a better one: the repository is full and all it holds is better than `x`, but what
      this processor knows of the others does not yet let it throw `x` away. */
  ghost predicate Careless(c: Setup, s: System, x: int, inc: real)
    requires Sized(c, s)
  {
    var held := s.proc[c.owner(x)].held;
    && Wanted(c, s, x, inc) && |held| == c.st.enumCount
    && exists w :: IsWorstHeld(c, held, w) && Before(c.st, w, IdOf(c, s, x))
  }

  /** What it pushes out is one of the best that any processor has admitted. */
  ghost predicate Loses(c: Setup, s: System, x: int, inc: real)
    requires Sized(c, s)
  {
    && Careless(c, s, x, inc)
    && exists w :: IsWorstHeld(c, s.proc[c.owner(x)].held, w) && AmongBest(c, s, w)
  }

  /** No `enumAbsTol` or `enumRelTol`: only the count prunes repositories. */
  predicate ByCount(st: Settings) { st.enumAbsTol < 0.0 && st.enumRelTol < 0.0 }

  // ---------- The best are held ----------

  ghost predicate TopHeld(c: Setup, s: System)
    requires Inv(c, s)
  {
    forall x | x in s.admitted && AmongBest(c, s, x) :: c.tree.Node(x.owner) && x in s.proc[x.owner].held
  }

  lemma BestShrinks(c: Setup, s: System, s': System, x: SolId)
    requires Grows(s, s') && AmongBest(c, s', x)
    ensures AmongBest(c, s, x)
  {
    if q :| Beaten(c, s, x, q) {
      assert Beaten(c, s', x, q);
    }
  }

  lemma {:induction false} ListOfSet(a: set<SolId>) returns (q: seq<SolId>)
    ensures |q| == |a| && (forall x :: x in q <==> x in a) && forall i, j | 0 <= i < j < |q| :: q[i] != q[j]
    decreases |a|
  {
    if a == {} {
      q := [];
    } else {
      var x :| x in a;
      var rest := ListOfSet(a - {x});
      q := rest + [x];
    }
  }

  /** A full repository of better solutions beats `x`. */
  lemma FullBeats(c: Setup, s: System, v: int, x: SolId)
    requires Inv(c, s) && c.tree.Node(v) && |s.proc[v].held| == c.st.enumCount
    requires forall h | h in s.proc[v].held :: Before(c.st, h, x)
    ensures !AmongBest(c, s, x)
  {
    ProcParts(c, s, v);
    var q := ListOfSet(s.proc[v].held);
    forall i | 0 <= i < |q| ensures q[i] in s.proc[v].held {
      assert q[i] in q;
    }
    assert Beaten(c, s, x, q);
  }

  /** Who is pushed out, and what is held then. */
  lemma WorstGoes(c: Setup, held: set<SolId>, id: SolId, held': set<SolId>, w: SolId)
    requires LetIn(c, held, id, held') && id !in held && w in held && w !in held'
    ensures |held| == c.st.enumCount == |held'| && IsWorstHeld(c, held, w) && held' == held - {w} + {id}
    ensures !Before(c.st, w, id) ==> forall h | h in held' :: Before(c.st, h, w)
  {
    assert |held| == c.st.enumCount;
    var u :| IsWorstHeld(c, held, u) && held' == held - {u} + {id};
    assert u == w && |held - {w}| == |held| - 1;
    forall h | h in held' && !Before(c.st, w, id) ensures Before(c.st, h, w) {
      BeforeOrders(c.st, h, w, w);
    }
  }

  lemma PushedOutIsBeaten(c: Setup, s: System, s': System, x: int, inc: real, w: SolId)
    requires Inv(c, s) && Inv(c, s') && Grows(s, s') && Offers(c, s, s', x, inc) && !Loses(c, s, x, inc)
    requires Wanted(c, s, x, inc) && w in s.proc[c.owner(x)].held && w !in s'.proc[c.owner(x)].held
    ensures !AmongBest(c, s', w)
  {
    var v, id := c.owner(x), IdOf(c, s, x);
    OfferChanges(c, s, s', x, inc);
    ProcParts(c, s, v);
    NewIdIsNew(c, s, x);
    WorstGoes(c, s.proc[v].held, id, s'.proc[v].held, w);
    if Before(c.st, w, id) {
      assert Careless(c, s, x, inc) && !AmongBest(c, s, w);
      if AmongBest(c, s', w) {
        BestShrinks(c, s, s', w);
      }
    } else {
      FullBeats(c, s', v, w);
    }
  }

  lemma OfferKeepsTop(c: Setup, s: System, s': System, x: int, inc: real)
    requires Inv(c, s) && TopHeld(c, s) && Offers(c, s, s', x, inc) && !Loses(c, s, x, inc) && Inv(c, s')
    requires Grows(s, s')
    ensures TopHeld(c, s')
  {
    OfferChanges(c, s, s', x, inc);
    forall y | y in s'.admitted && AmongBest(c, s', y) ensures c.tree.Node(y.owner) && y in s'.proc[y.owner].held {
      BestShrinks(c, s, s', y);
      AdmittedIsProper(c, s', y);
      if y in s.admitted && y.owner == c.owner(x) && Wanted(c, s, x, inc) && y !in s'.proc[y.owner].held {
        PushedOutIsBeaten(c, s, s', x, inc, y);
      }
    }
  }

  /** A worse identifier does not stand in the way. */
  lemma StillAmongBest(c: Setup, s: System, s': System, id: SolId, x: int, w: SolId)
    requires s'.admitted == s.admitted[id := x] && Before(c.st, w, id) && AmongBest(c, s, w)
    ensures AmongBest(c, s', w)
  {
    if q :| Beaten(c, s', w, q) {
      forall i | 0 <= i < |q| ensures q[i] in s.admitted && s.admitted[q[i]] == s'.admitted[q[i]] {
        BeforeOrders(c.st, w, id, w);
      }
      assert Beaten(c, s, w, q);
    }
  }

  lemma OneWorst(c: Setup, held: set<SolId>, id: SolId, held': set<SolId>, w: SolId, u: SolId)
    requires |held| == c.st.enumCount && LetIn(c, held, id, held') && id !in held
    requires IsWorstHeld(c, held, w) && IsWorstHeld(c, held, u)
    ensures w == u && w !in held'
  {
    var z :| IsWorstHeld(c, held, z) && held' == held - {z} + {id};
    BeforeOrders(c.st, w, u, w);
    BeforeOrders(c.st, w, z, w);
  }

  lemma LoserIsLost(c: Setup, s: System, s': System, x: int, inc: real)
    requires Inv(c, s) && Offers(c, s, s', x, inc) && Loses(c, s, x, inc) && Inv(c, s')
    ensures !TopHeld(c, s')
  {
    var v, id := c.owner(x), IdOf(c, s, x);
    OfferChanges(c, s, s', x, inc);
    ProcParts(c, s, v);
    NewIdIsNew(c, s, x);
    var w :| IsWorstHeld(c, s.proc[v].held, w) && AmongBest(c, s, w);
    var u :| IsWorstHeld(c, s.proc[v].held, u) && Before(c.st, u, id);
    OneWorst(c, s.proc[v].held, id, s'.proc[v].held, w, u);
    StillAmongBest(c, s, s', id, x, w);
    assert w in s'.admitted && w.owner == v;
  }

  /** Exactly when an offer leaves one of the best in no repository. */
  lemma OfferLosesExactly(c: Setup, s: System, s': System, x: int, inc: real)
    requires Inv(c, s) && TopHeld(c, s) && Offers(c, s, s', x, inc)
    ensures Inv(c, s') && (TopHeld(c, s') <==> !Loses(c, s, x, inc))
  {
    OffersKeepsInv(c, s, s', x, inc);
    if Loses(c, s, x, inc) {
      LoserIsLost(c, s, s', x, inc);
    } else {
      OfferKeepsTop(c, s, s', x, inc);
    }
  }

  /** What is held after the offer are the best of what was held and `x`. */
  ghost predicate KeepsBest(c: Setup, held: set<SolId>, id: SolId, held': set<SolId>) {
    forall y, z | y in held + {id} && y !in held' && z in held' :: !Before(c.st, y, z)
  }

  /** Exactly when the repository itself gets worse. */
  lemma CarelessExactly(c: Setup, s: System, s': System, x: int, inc: real)
    requires Inv(c, s) && Offers(c, s, s', x, inc) && Wanted(c, s, x, inc)
    ensures Sized(c, s') && c.tree.Node(c.owner(x))
    ensures KeepsBest(c, s.proc[c.owner(x)].held, IdOf(c, s, x), s'.proc[c.owner(x)].held)
            <==> !Careless(c, s, x, inc)
  {
    var v, id := c.owner(x), IdOf(c, s, x);
    OfferGrows(c, s, s', x, inc);
    OfferChanges(c, s, s', x, inc);
    ProcParts(c, s, v);
    NewIdIsNew(c, s, x);
    LetInKeepsBest(c, s.proc[v].held, id, s'.proc[v].held);
  }

  lemma LetInKeepsBest(c: Setup, held: set<SolId>, id: SolId, held': set<SolId>)
    requires LetIn(c, held, id, held') && id !in held
    ensures KeepsBest(c, held, id, held')
            <==> !(|held| == c.st.enumCount && exists w :: IsWorstHeld(c, held, w) && Before(c.st, w, id))
  {
    if |held| == c.st.enumCount {
      var u :| IsWorstHeld(c, held, u) && held' == held - {u} + {id};
      forall w | IsWorstHeld(c, held, w) ensures w == u {
        OneWorst(c, held, id, held', w, u);
      }
    }
  }

  lemma PruneKeepsTop(c: Setup, s: System, s': System, v: int, inc: real, held': set<SolId>)
    requires Inv(c, s) && TopHeld(c, s) && Prunes(c, s, s', v, inc, held') && ByCount(c.st)
    requires Inv(c, s') && Grows(s, s')
    ensures TopHeld(c, s')
  {
    ProcParts(c, s, v);
    forall y | y in s'.admitted && AmongBest(c, s', y) ensures c.tree.Node(y.owner) && y in s'.proc[y.owner].held {
      BestShrinks(c, s, s', y);
      AdmittedIsProper(c, s, y);
      SafeIsNotTooGood(c, s, s.proc[v].last, y);
      assert !Prunable(c.st, inc, s.proc[v].last, y);
      assert y in s.proc[y.owner].held;
    }
  }

  ghost predicate SameHeld(c: Setup, s: System, s': System)
    requires Sized(c, s) && Sized(c, s')
  {
    s'.admitted == s.admitted && forall v | c.tree.Node(v) :: s'.proc[v].held == s.proc[v].held
  }

  lemma OthersKeepTop(c: Setup, s: System, s': System)
    requires Inv(c, s) && TopHeld(c, s) && Inv(c, s') && SameHeld(c, s, s')
    ensures TopHeld(c, s')
  {
    forall y | y in s'.admitted && AmongBest(c, s', y) ensures c.tree.Node(y.owner) && y in s'.proc[y.owner].held {
      BestShrinks(c, s, s', y);
    }
  }

  /** With zero tolerances nothing is lost by refusing a solution for the sake of `lastSolId`: enough others are known
      that have no worse values. */
  lemma RefusedIsNoGain(c: Setup, s: System, x: int, inc: real) returns (q: seq<SolId>)
    requires Inv(c, s) && ByCount(c.st) && !c.st.usingEnumCutoff && c.st.relTolerance == c.st.absTolerance == 0.0
    requires CanFathom(c.st, Progress(inc, s.proc[c.owner(x)].last.value), c.value(x))
    ensures |q| == c.st.enumCount && Distinct(s, q)
    ensures forall i | 0 <= i < |q| :: c.st.Signed(q[i].value) <= c.st.Signed(c.value(x))
  {
    var last := s.proc[c.owner(x)].last;
    ProcParts(c, s, c.owner(x));
    NoTolerance(c.st, c.st.Signed(last.value), c.st.Signed(c.value(x)));
    assert last != c.Worst();
    q :| Vouch(c, s, last, q);
  }

  lemma NoTolerance(st: Settings, ref: real, bound: real)
    requires st.relTolerance == st.absTolerance == 0.0 && WithinTolerance(st, ref, bound)
    ensures bound >= ref
  {
    assert Times(0.0, Denom(bound, ref)) == 0.0;
  }
}
