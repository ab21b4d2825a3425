/** A run that loses the second best of three solutions: their owner finds them one after the other, best first, and
    does not know yet that two are enough. */
module ReposLoss {
  import opened Fathoming
  import opened ReposAsync
  import opened ReposMerge
  import opened ReposOffers
  import opened ReposQuiet
  import opened ReposSettles

  const ST := Settings(minimization, 1000.0, 0.0, 0.0, -1.0, -1.0, 0.0, false, 2)

  /** Two processors; the root owns all. */
  const TREE := Tree(2, 0, [[1], []], [0, 0], [0, 0], [{0, 1}, {1}], [0, 1])

  function ValueOf(x: int): real { if x == 1 then 1.0 else if x == 2 then 2.0 else 3.0 }

  function Root(x: int): int { 0 }

  const SETUP := Setup(ST, TREE, ValueOf, Root, 0)
  const FIRST := SolId(1.0, 1, 0)
  const SECOND := SolId(2.0, 2, 0)
  const THIRD := SolId(3.0, 3, 0)

  function Holds(held: set<SolId>, counter: int): Proc {
    Proc(held, counter, [], [[]], [], counter > 0, SETUP.Worst())
  }

  const LEAF := Proc({}, 0, [], [], [], false, SETUP.Worst())

  function At(root: Proc, admitted: map<SolId, int>): System {
    System([root, LEAF], [[], []], multiset{}, admitted)
  }

  const S0 := At(Holds({}, 0), map[])
  const S1 := At(Holds({FIRST}, 1), map[FIRST := 1])
  const S2 := At(Holds({FIRST, SECOND}, 2), map[FIRST := 1, SECOND := 2])
  const ALL := map[FIRST := 1, SECOND := 2, THIRD := 3]
  const S3 := At(Holds({FIRST, THIRD}, 3), ALL)
  const MERGED := Proc({FIRST, THIRD}, 3, [FIRST, THIRD], [[]], [FIRST, THIRD], false, THIRD)
  const S4 := System([MERGED, LEAF], [[], []], multiset{(1, THIRD)}, ALL)
  const S5 := System([MERGED, LEAF.(last := THIRD)], [[], []], multiset{}, ALL)

  lemma TreeIsOk()
    ensures SETUP.Ok() && TREE.Whole()
  {
    assert TREE.KidOk(0, 0);
    assert TREE.Splits(0, 1);
  }

  lemma Begins()
    ensures Init(SETUP, S0)
  {
    TreeIsOk();
    assert KidsBag([[]]) == multiset{} && KidsBag([]) == multiset{};
    assert Synced(SETUP, S0, 0) && Synced(SETUP, S0, 1);
  }

  lemma NothingFathoms(x: int)
    ensures !CanFathom(ST, Progress(1.0, SETUP.Worst().value), ValueOf(x))
  {
  }

  /** An offer that is let in. */
  lemma LetsIn(s: System, s': System, x: int, inc: real, held': set<SolId>)
    requires Sized(SETUP, s) && Wanted(SETUP, s, x, inc) && LetIn(SETUP, s.proc[0].held, IdOf(SETUP, s, x), held')
    requires var p := s.proc[0];
             s' == s.(proc := s.proc[0 := p.(held := held', counter := p.counter + 1, need := true)],
                      admitted := s.admitted[IdOf(SETUP, s, x) := x])
    ensures Offers(SETUP, s, s', x, inc)
  {
  }

  lemma Finds1()
    ensures Sized(SETUP, S0) && Offers(SETUP, S0, S1, 1, 1.0)
  {
    TreeIsOk();
    NothingFathoms(1);
    assert IdOf(SETUP, S0, 1) == FIRST && LetIn(SETUP, {}, FIRST, {FIRST});
    assert S1.proc == [Holds({FIRST}, 1), LEAF] && S1.admitted == S0.admitted[FIRST := 1];
    LetsIn(S0, S1, 1, 1.0, {FIRST});
  }

  lemma Finds2()
    ensures Sized(SETUP, S1) && Offers(SETUP, S1, S2, 2, 1.0)
  {
    TreeIsOk();
    NothingFathoms(2);
    assert IdOf(SETUP, S1, 2) == SECOND && {FIRST} + {SECOND} == {FIRST, SECOND};
    assert LetIn(SETUP, {FIRST}, SECOND, {FIRST, SECOND});
    assert S2.proc == [Holds({FIRST, SECOND}, 2), LEAF] && S2.admitted == S1.admitted[SECOND := 2];
    LetsIn(S1, S2, 2, 1.0, {FIRST, SECOND});
  }

  lemma Finds3()
    ensures Sized(SETUP, S2) && Offers(SETUP, S2, S3, 3, 1.0)
  {
    TreeIsOk();
    NothingFathoms(3);
    var held := {FIRST, SECOND};
    assert |held| == 2 && IsWorstHeld(SETUP, held, SECOND) && {FIRST, THIRD} == held - {SECOND} + {THIRD};
    assert IdOf(SETUP, S2, 3) == THIRD && LetIn(SETUP, held, THIRD, {FIRST, THIRD});
    assert S3.proc == [Holds({FIRST, THIRD}, 3), LEAF] && S3.admitted == S2.admitted[THIRD := 3];
    LetsIn(S2, S3, 3, 1.0, {FIRST, THIRD});
  }

  lemma Merges()
    ensures Sized(SETUP, S3) && RootMerges(SETUP, S3, S4, MERGED)
  {
    TreeIsOk();
    assert KidsBag([[]]) == multiset{};
    assert multiset([FIRST, THIRD]) == multiset({FIRST, THIRD});
    assert Relays(SETUP, 0, THIRD) == multiset{(1, THIRD)} by {
      assert RelayList(SETUP, 0, THIRD) == [(1, THIRD)];
    }
  }

  lemma Hears()
    ensures Sized(SETUP, S4) && TakesLast(SETUP, S4, S5, (1, THIRD))
  {
    TreeIsOk();
    assert RelayList(SETUP, 1, THIRD) == [];
  }

  lemma SecondIsBest()
    ensures AmongBest(SETUP, S5, SECOND)
  {
    if q :| Beaten(SETUP, S5, SECOND, q) {
      OnlyFirst(q[0]);
      OnlyFirst(q[1]);
      assert false;
    }
  }

  lemma OnlyFirst(id: SolId)
    requires id in ALL && Before(ST, id, SECOND)
    ensures id == FIRST
  {
  }

  lemma StartsRun(c: Setup, s: System)
    requires Init(c, s)
    ensures IsRun(c, [s])
  {
  }

  lemma AllSteps() returns (run: seq<System>)
    ensures IsRun(SETUP, run) && run[|run| - 1] == S5
  {
    Begins();
    StartsRun(SETUP, S0);
    Finds1();
    RunGrows(SETUP, [S0], S1);
    Finds2();
    RunGrows(SETUP, [S0] + [S1], S2);
    Finds3();
    RunGrows(SETUP, [S0] + [S1] + [S2], S3);
    run := [S0] + [S1] + [S2] + [S3];
    run := Finish(run);
  }

  lemma Finish(run: seq<System>) returns (longer: seq<System>)
    requires IsRun(SETUP, run) && run[|run| - 1] == S3
    ensures IsRun(SETUP, longer) && longer[|longer| - 1] == S5
  {
    Merges();
    RunGrows(SETUP, run, S4);
    Hears();
    RunGrows(SETUP, run + [S4], S5);
    longer := run + [S4] + [S5];
  }

  lemma Rests()
    ensures Sized(SETUP, S5) && Quiet(SETUP, S5)
  {
    TreeIsOk();
  }

  /** At the end all is quiet: two of the three are listed, and the one that is not is better than one that is. */
  lemma SecondIsLost() returns (run: seq<System>, second: SolId, third: SolId)
    ensures IsRun(SETUP, run) && SETUP.tree.Whole() && ByCount(SETUP.st)
    ensures var s := run[|run| - 1];
            && Sized(SETUP, s) && Quiet(SETUP, s) && second in s.admitted && AmongBest(SETUP, s, second)
            && SETUP.tree.Node(second.owner) && second !in s.proc[second.owner].held
            && third in s.proc[SETUP.tree.root].merged
            && Before(SETUP.st, second, third)
  {
    second, third := SECOND, THIRD;
    TreeIsOk();
    run := AllSteps();
    SecondIsBest();
    Rests();
  }
}
