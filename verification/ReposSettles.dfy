/** Without new offers the lists and `lastSolId` come to rest: only so many merges and messages are left, and as long as
    there are any, one of them can be next. */
module ReposSettles {
  import opened Fathoming
  import opened Pooling
  import opened ReposAsync
  import opened ReposMerge
  import opened ReposOffers
  import opened ReposQuiet
  import opened Sums

  // ---------- Sums over messages ----------

  type Message = (int, SolId)

  ghost predicate Some(d: multiset<Message>) { exists m :: m in d }

  ghost function Pick(d: multiset<Message>): (m: Message)
    requires Some(d)
    ensures m in d
  {
    var m :| m in d;
    m
  }

  ghost function Less(d: multiset<Message>, m: Message): (r: multiset<Message>)
    requires m in d
    ensures |r| == |d| - 1
  {
    d - multiset{m}
  }

  ghost function Total(w: Message -> nat, d: multiset<Message>): nat
    decreases |d|
  {
    if Some(d) then w(Pick(d)) + Total(w, Less(d, Pick(d))) else 0
  }

  lemma LessBoth(d: multiset<Message>, x: Message, y: Message)
    requires x in d && y in d && x != y
    ensures x in Less(d, y) && y in Less(d, x) && Less(Less(d, x), y) == Less(Less(d, y), x)
  {
  }

  lemma {:induction false} TotalTake(w: Message -> nat, d: multiset<Message>, x: Message)
    requires x in d
    ensures Total(w, d) == w(x) + Total(w, Less(d, x))
    decreases |d|
  {
    assert Some(d);
    var y := Pick(d);
    if x != y {
      LessBoth(d, x, y);
      TotalTake(w, Less(d, y), x);
      TotalTake(w, Less(d, x), y);
    }
  }

  ghost function SeqTotal(w: Message -> nat, q: seq<Message>): nat {
    if q == [] then 0 else SeqTotal(w, q[..|q| - 1]) + w(q[|q| - 1])
  }

  lemma LastPut(d: multiset<Message>, front: seq<Message>, m: Message)
    ensures m in d + multiset(front + [m]) && Less(d + multiset(front + [m]), m) == d + multiset(front)
  {
  }

  lemma {:induction false} TotalPut(w: Message -> nat, d: multiset<Message>, q: seq<Message>)
    ensures Total(w, d + multiset(q)) == Total(w, d) + SeqTotal(w, q)
  {
    if q == [] {
      assert d + multiset(q) == d;
    } else {
      var front, m := q[..|q| - 1], q[|q| - 1];
      assert q == front + [m];
      TotalPut(w, d, front);
      LastPut(d, front, m);
      TotalTake(w, d + multiset(q), m);
    }
  }

  // ---------- What is left to do ----------

  /** A `lastSolId` on its way to `v` is still to reach all below `v`. */
  ghost function Weight(tree: Tree): Message -> nat {
    (m: Message) => if 0 <= m.0 < |tree.under| then |tree.under[m.0]| else 0
  }

  ghost function Copies(n: nat, w: nat): nat { n * w }

  lemma OneCopyMore(n: nat, w: nat)
    ensures Copies(n + 1, w) == Copies(n, w) + w
  {
  }

  /** A list on its way from `v` may lead to a merge at every processor above, and at the root to a new `lastSolId`. */
  ghost function Far(tree: Tree, v: int): nat
    requires tree.Sized() && tree.Node(v)
  {
    tree.size + 2 * tree.rank[v]
  }

  ghost function WorkOf(tree: Tree, v: int, need: bool, n: nat): nat
    requires tree.Sized() && tree.Node(v)
  {
    (if need then Far(tree, v) + 1 else 0) + Copies(n, Far(tree, v))
  }

  ghost function WorkAt(tree: Tree, proc: seq<Proc>, up: seq<seq<seq<SolId>>>): int -> int
    requires tree.Sized() && |proc| == |up| == tree.size
  {
    v => if tree.Node(v) then WorkOf(tree, v, proc[v].need, |up[v]|) else 0
  }

  ghost function ListWork(tree: Tree, proc: seq<Proc>, up: seq<seq<seq<SolId>>>): nat
    requires tree.Sized() && |proc| == |up| == tree.size
  {
    SumZero(tree.size, WorkAt(tree, proc, up), 0);
    Sum(tree.size, WorkAt(tree, proc, up))
  }

  ghost function Work(c: Setup, s: System): nat
    requires Sized(c, s)
  {
    ListWork(c.tree, s.proc, s.up) + Total(Weight(c.tree), s.down)
  }

  lemma WorkChanges(tree: Tree, proc: seq<Proc>, up: seq<seq<seq<SolId>>>, v: int, p: Proc, u: seq<seq<SolId>>)
    requires tree.Sized() && |proc| == |up| == tree.size && tree.Node(v)
    ensures ListWork(tree, proc[v := p], up[v := u]) ==
            ListWork(tree, proc, up) - WorkOf(tree, v, proc[v].need, |up[v]|) + WorkOf(tree, v, p.need, |u|)
  {
    SumBump(tree.size, WorkAt(tree, proc, up), WorkAt(tree, proc[v := p], up[v := u]), v,
            WorkOf(tree, v, p.need, |u|) - WorkOf(tree, v, proc[v].need, |up[v]|));
  }

  lemma InSubtrees(c: Setup, v: int, i: nat) returns (u: set<int>)
    requires c.Ok() && c.tree.Node(v) && i <= |c.tree.kid[v]|
    ensures u <= c.tree.under[v] && v !in u
    ensures forall x | x in u :: exists j :: 0 <= j < i && c.tree.KidOk(v, j) && x in c.tree.under[c.tree.kid[v][j]]
    ensures forall id :: SeqTotal(Weight(c.tree), RelayList(c, v, id)[..i]) == |u|
  {
    if i == 0 {
      u := {};
    } else {
      var w := InSubtrees(c, v, i - 1);
      var k := c.tree.kid[v][i - 1];
      assert c.tree.KidOk(v, i - 1);
      forall x | x in w ensures x !in c.tree.under[k] {
        var j :| 0 <= j < i - 1 && c.tree.KidOk(v, j) && x in c.tree.under[c.tree.kid[v][j]];
        assert c.tree.under[c.tree.kid[v][j]] !! c.tree.under[k];
      }
      u := w + c.tree.under[k];
      assert w !! c.tree.under[k] && |u| == |w| + |c.tree.under[k]|;
      forall id ensures SeqTotal(Weight(c.tree), RelayList(c, v, id)[..i]) == |u| {
        var q := RelayList(c, v, id);
        assert q[..i] == q[..i - 1] + [(k, id)];
      }
    }
  }

  lemma RelaysTotal(c: Setup, v: int, id: SolId, d: multiset<Message>)
    requires c.Ok() && c.tree.Node(v)
    ensures Total(Weight(c.tree), d + Relays(c, v, id)) ==
            Total(Weight(c.tree), d) + SeqTotal(Weight(c.tree), RelayList(c, v, id))
  {
    TotalPut(Weight(c.tree), d, RelayList(c, v, id));
  }

  lemma OneLess(u: set<int>, all: set<int>, v: int)
    requires u <= all && v in all && v !in u
    ensures |u| < |all|
  {
    SubsetSizes(u + {v}, all);
  }

  lemma KidsWeighLess(c: Setup, v: int, id: SolId)
    requires c.Ok() && c.tree.Node(v)
    ensures SeqTotal(Weight(c.tree), RelayList(c, v, id)) < |c.tree.under[v]|
  {
    var u := InSubtrees(c, v, |c.tree.kid[v]|);
    assert RelayList(c, v, id)[..|c.tree.kid[v]|] == RelayList(c, v, id);
    OneLess(u, c.tree.under[v], v);
  }

  /** What is sent on weighs less than what has been received. */
  lemma RelaysWeighLess(c: Setup, v: int, id: SolId, d: multiset<Message>)
    requires c.Ok() && c.tree.Node(v)
    ensures Total(Weight(c.tree), d + Relays(c, v, id)) < Total(Weight(c.tree), d) + |c.tree.under[v]|
  {
    RelaysTotal(c, v, id, d);
    KidsWeighLess(c, v, id);
  }

  lemma UnderFits(c: Setup, v: int)
    requires c.Ok() && c.tree.Node(v)
    ensures |c.tree.under[v]| <= c.tree.size
  {
    SubsetSizes(c.tree.under[v], Below(c.tree.size));
  }

  // ---------- Every move leaves less to do ----------

  /** A merge or the receipt of a message. */
  ghost predicate Moves(c: Setup, s: System, s': System) {
    && Sized(c, s)
    && (|| (exists v, p' :: SendsUp(c, s, s', v, p'))
        || (exists p' :: RootMerges(c, s, s', p'))
        || (exists k :: TakesList(c, s, s', k))
        || (exists m :: TakesLast(c, s, s', m)))
  }

  lemma SendLeavesLess(c: Setup, s: System, s': System, v: int, p': Proc)
    requires Sized(c, s) && Sized(c, s') && SendsUp(c, s, s', v, p')
    ensures Work(c, s') < Work(c, s)
  {
    WorkChanges(c.tree, s.proc, s.up, v, p', s.up[v] + [p'.merged]);
    OneCopyMore(|s.up[v]|, Far(c.tree, v));
  }

  lemma RootLeavesLess(c: Setup, s: System, s': System, p': Proc)
    requires Sized(c, s) && Sized(c, s') && RootMerges(c, s, s', p')
    ensures Work(c, s') < Work(c, s)
  {
    var r := c.tree.root;
    assert s.up[r := s.up[r]] == s.up;
    WorkChanges(c.tree, s.proc, s.up, r, p', s.up[r]);
    UnderFits(c, r);
    if p'.last == s.proc[r].last {
      assert s'.down == s.down;
    } else {
      RelaysWeighLess(c, r, p'.last, s.down);
    }
  }

  lemma ListLeavesLess(c: Setup, s: System, s': System, k: int)
    requires Sized(c, s) && Sized(c, s') && TakesList(c, s, s', k)
    ensures Work(c, s') < Work(c, s)
  {
    var v := c.tree.parent[k];
    assert c.tree.KidOk(v, c.tree.number[k]) && c.tree.rank[v] < c.tree.rank[k] && v != k;
    var up := s.up[k := s.up[k][1..]];
    assert s.proc[k := s.proc[k]] == s.proc && up[v := up[v]] == up;
    WorkChanges(c.tree, s.proc, s.up, k, s.proc[k], up[k]);
    WorkChanges(c.tree, s.proc, up, v, s'.proc[v], up[v]);
    OneCopyMore(|up[k]|, Far(c.tree, k));
  }

  lemma LastLeavesLess(c: Setup, s: System, s': System, m: Message)
    requires Sized(c, s) && Sized(c, s') && TakesLast(c, s, s', m)
    ensures Work(c, s') < Work(c, s)
  {
    var v := m.0;
    assert s.up[v := s.up[v]] == s.up;
    WorkChanges(c.tree, s.proc, s.up, v, s'.proc[v], s.up[v]);
    TotalTake(Weight(c.tree), s.down, m);
    RelaysWeighLess(c, v, s'.proc[v].last, Less(s.down, m));
  }

  lemma MoveLeavesLess(c: Setup, s: System, s': System)
    requires Moves(c, s, s') && Sized(c, s')
    ensures Work(c, s') < Work(c, s)
  {
    if v, p' :| SendsUp(c, s, s', v, p') {
      SendLeavesLess(c, s, s', v, p');
    } else if p' :| RootMerges(c, s, s', p') {
      RootLeavesLess(c, s, s', p');
    } else if k :| TakesList(c, s, s', k) {
      ListLeavesLess(c, s, s', k);
    } else {
      var m :| TakesLast(c, s, s', m);
      LastLeavesLess(c, s, s', m);
    }
  }

  // ---------- As long as there is something to do, it can be done ----------

  lemma {:induction false} FirstOf(st: Settings, d: multiset<SolId>) returns (x: SolId)
    requires exists y :: y in d
    ensures x in d && forall y | y in d :: !Before(st, y, x)
    decreases |d|
  {
    x :| x in d;
    var rest := d - multiset{x};
    if y :| y in rest {
      var z := FirstOf(st, rest);
      FirstOfTwo(st, d, x, z);
      if Before(st, z, x) {
        x := z;
      }
    } else {
      forall y | y in d ensures !Before(st, y, x) {
        BeforeOrders(st, x, x, x);
        assert y == x || y in rest;
      }
    }
  }

  lemma FirstOfTwo(st: Settings, d: multiset<SolId>, x: SolId, z: SolId)
    requires x in d && z in d && forall y | y in d - multiset{x} :: !Before(st, y, z)
    ensures forall y | y in d :: !Before(st, y, if Before(st, z, x) then z else x)
  {
    forall y | y in d ensures !Before(st, y, if Before(st, z, x) then z else x) {
      BeforeOrders(st, x, x, x);
      BeforeOrders(st, z, x, z);
      BeforeOrders(st, x, z, y);
      assert y == x || y in d - multiset{x};
    }
  }

  /** The best `n`, in order. */
  lemma {:induction false} BestExists(st: Settings, all: multiset<SolId>, n: nat) returns (r: seq<SolId>)
    requires n <= |all|
    ensures SortedIds(st, r) && multiset(r) <= all && |r| == n
    ensures forall x, y | x in all - multiset(r) && y in r :: !Before(st, x, y)
  {
    if n == 0 {
      r := [];
    } else {
      var q := BestExists(st, all, n - 1);
      var rest := all - multiset(q);
      assert |rest| > 0;
      assert exists y :: y in rest;
      var x := FirstOf(st, rest);
      r := q + [x];
      assert multiset(r) == multiset(q) + multiset{x};
      assert all - multiset(r) == rest - multiset{x};
      assert x in rest;
    }
  }

  lemma MergeIsPossible(c: Setup, p: Proc) returns (p': Proc)
    requires c.Ok() && p.need
    ensures Merged(c, p, p') && p'.last == p.last
  {
    var own := BestExists(c.st, multiset(p.held), |multiset(p.held)|);
    SubsetSameSize(multiset(own), multiset(p.held));
    var all := multiset(own) + KidsBag(p.kids);
    var r := BestExists(c.st, all, ReposMerge.Cut(c.st.enumCount, |all|));
    p' := p.(localArray := own, merged := r, need := false);
  }

  lemma RootStep(c: Setup, s: System, p: Proc) returns (s': System)
    requires Sized(c, s) && Merged(c, s.proc[c.tree.root], p) && p.last == s.proc[c.tree.root].last
    ensures Moves(c, s, s')
  {
    var n := c.st.enumCount;
    var p' := p.(last := if |p.merged| == n then Better(c, p.merged[n - 1], p.last) else p.last);
    s' := s.(proc := s.proc[c.tree.root := p'],
             down := s.down + if p'.last != p.last then Relays(c, c.tree.root, p'.last) else multiset{});
    assert RootMerges(c, s, s', p');
  }

  lemma SendStep(c: Setup, s: System, v: int, p': Proc) returns (s': System)
    requires Sized(c, s) && c.tree.Node(v) && v != c.tree.root
    requires Merged(c, s.proc[v], p') && p'.last == s.proc[v].last
    ensures Moves(c, s, s')
  {
    s' := s.(proc := s.proc[v := p'], up := s.up[v := s.up[v] + [p'.merged]]);
    assert SendsUp(c, s, s', v, p');
  }

  lemma MergeStep(c: Setup, s: System, v: int) returns (s': System)
    requires Sized(c, s) && c.tree.Node(v) && s.proc[v].need
    ensures Moves(c, s, s')
  {
    var p' := MergeIsPossible(c, s.proc[v]);
    if v == c.tree.root {
      s' := RootStep(c, s, p');
    } else {
      s' := SendStep(c, s, v, p');
    }
  }

  lemma NeverStuck(c: Setup, s: System) returns (s': System)
    requires Inv(c, s) && !Quiet(c, s)
    ensures Moves(c, s, s')
  {
    if v :| c.tree.Node(v) && s.proc[v].need {
      s' := MergeStep(c, s, v);
    } else if k :| c.tree.Node(k) && k != c.tree.root && s.up[k] != [] {
      s' := ListStep(c, s, k);
    } else {
      assert s.down != multiset{};
      var m :| m in s.down;
      s' := LastStep(c, s, m);
    }
  }

  lemma ListStep(c: Setup, s: System, k: int) returns (s': System)
    requires Sized(c, s) && c.tree.Node(k) && k != c.tree.root && s.up[k] != []
    ensures Moves(c, s, s')
  {
    var v, i := c.tree.parent[k], c.tree.number[k];
    s' := s.(proc := s.proc[v := s.proc[v].(kids := s.proc[v].kids[i := s.up[k][0]], need := true)],
             up := s.up[k := s.up[k][1..]]);
    assert TakesList(c, s, s', k);
  }

  lemma LastStep(c: Setup, s: System, m: Message) returns (s': System)
    requires Sized(c, s) && m in s.down
    ensures Moves(c, s, s')
  {
    var v := m.0;
    var last := Better(c, m.1, s.proc[v].last);
    s' := s.(proc := s.proc[v := s.proc[v].(last := last)], down := s.down - multiset{m} + Relays(c, v, last));
    assert TakesLast(c, s, s', m);
  }

  // ---------- Whole runs ----------

  lemma MoveIsCareful(c: Setup, s: System, s': System)
    requires Moves(c, s, s')
    ensures CarefulNext(c, s, s') && Next(c, s, s')
  {
  }

  lemma StepInRun(c: Setup, run: seq<System>, i: int, j: int)
    requires IsRun(c, run) && 0 <= i && j == i + 1 && j < |run|
    ensures Next(c, run[i], run[j])
  {
  }

  lemma StepInLonger(c: Setup, run: seq<System>, s: System, i: int, j: int)
    requires IsRun(c, run) && Next(c, run[|run| - 1], s) && 0 <= i && j == i + 1 && j <= |run|
    ensures Next(c, (run + [s])[i], (run + [s])[j])
  {
    if j < |run| {
      StepInRun(c, run, i, j);
    }
  }

  lemma RunGrows(c: Setup, run: seq<System>, s: System)
    requires IsRun(c, run) && Next(c, run[|run| - 1], s)
    ensures IsRun(c, run + [s])
  {
    forall i, j | 0 <= i && j == i + 1 && j < |run + [s]| ensures Next(c, (run + [s])[i], (run + [s])[j]) {
      StepInLonger(c, run, s, i, j);
    }
  }

  lemma CarefulInLonger(c: Setup, run: seq<System>, s: System, i: int, j: int)
    requires IsCarefulRun(c, run) && CarefulNext(c, run[|run| - 1], s) && 0 <= i && j == i + 1 && j <= |run|
    ensures CarefulNext(c, (run + [s])[i], (run + [s])[j])
  {
    if j < |run| {
      assert CarefulNext(c, run[i], run[j]);
    }
  }

  lemma CarefulGrows(c: Setup, run: seq<System>, s: System)
    requires IsCarefulRun(c, run) && CarefulNext(c, run[|run| - 1], s)
    ensures IsCarefulRun(c, run + [s])
  {
    forall i, j | 0 <= i && j == i + 1 && j < |run + [s]| ensures CarefulNext(c, (run + [s])[i], (run + [s])[j]) {
      CarefulInLonger(c, run, s, i, j);
    }
  }

  ghost predicate OnlyMoves(c: Setup, run: seq<System>, from: nat) {
    forall i, j | from <= i && j == i + 1 && j < |run| :: Moves(c, run[i], run[j])
  }

  lemma MovesInvariant(c: Setup, s: System, s': System)
    requires Inv(c, s) && Moves(c, s, s')
    ensures Inv(c, s') && Work(c, s') < Work(c, s)
  {
    MoveIsCareful(c, s, s');
    NextKeepsInv(c, s, s');
    MoveLeavesLess(c, s, s');
  }

  /** However the moves are chosen, there are only so many. */
  lemma {:induction false} MovesAreBounded(c: Setup, run: seq<System>, i: nat)
    requires i < |run| && Inv(c, run[0]) && OnlyMoves(c, run, 0)
    ensures Inv(c, run[i]) && Work(c, run[i]) + i <= Work(c, run[0])
  {
    if i > 0 {
      var j := i - 1;
      MovesAreBounded(c, run, j);
      assert Moves(c, run[j], run[i]);
      MovesInvariant(c, run[j], run[i]);
    }
  }

  lemma RunMoves(c: Setup, run: seq<System>, s: System)
    requires IsRun(c, run) && Moves(c, run[|run| - 1], s)
    ensures IsRun(c, run + [s]) && (IsCarefulRun(c, run) ==> IsCarefulRun(c, run + [s]))
  {
    MoveIsCareful(c, run[|run| - 1], s);
    RunGrows(c, run, s);
    if IsCarefulRun(c, run) {
      CarefulGrows(c, run, s);
    }
  }

  /** `OnlyMoves`, the first of them put in front. */
  lemma MovesJoin(c: Setup, run: seq<System>, s: System, longer: seq<System>)
    requires |run| > 0 && Moves(c, run[|run| - 1], s) && run + [s] <= longer && OnlyMoves(c, longer, |run|)
    ensures run <= longer && OnlyMoves(c, longer, |run| - 1)
  {
    assert longer[|run|] == (run + [s])[|run|] && longer[|run| - 1] == (run + [s])[|run| - 1];
    forall i, j | |run| - 1 <= i && j == i + 1 && j < |longer| ensures Moves(c, longer[i], longer[j]) {
      assert i == |run| - 1 || i >= |run|;
    }
  }

  lemma OneMove(c: Setup, run: seq<System>) returns (s: System)
    requires IsRun(c, run) && Inv(c, run[|run| - 1]) && !Quiet(c, run[|run| - 1])
    ensures IsRun(c, run + [s]) && (IsCarefulRun(c, run) ==> IsCarefulRun(c, run + [s]))
    ensures Moves(c, run[|run| - 1], s) && Inv(c, s) && Work(c, s) < Work(c, run[|run| - 1])
  {
    s := NeverStuck(c, run[|run| - 1]);
    MovesInvariant(c, run[|run| - 1], s);
    RunMoves(c, run, s);
  }

  /** A run after which all is quiet. */
  ghost predicate Settled(c: Setup, run: seq<System>) {
    IsRun(c, run) && Sized(c, run[|run| - 1]) && Quiet(c, run[|run| - 1])
  }

  lemma {:induction false} SettlesFrom(c: Setup, run: seq<System>) returns (longer: seq<System>)
    requires IsRun(c, run) && Inv(c, run[|run| - 1])
    ensures Settled(c, longer) && run <= longer && OnlyMoves(c, longer, |run| - 1)
    ensures IsCarefulRun(c, run) ==> IsCarefulRun(c, longer)
    decreases Work(c, run[|run| - 1])
  {
    if Quiet(c, run[|run| - 1]) {
      longer := run;
    } else {
      var s := OneMove(c, run);
      longer := SettlesFrom(c, run + [s]);
      MovesJoin(c, run, s, longer);
    }
  }

  /** Every run can go on, by merges and messages alone, until all is quiet, and it stays careful if it was. */
  lemma EveryRunSettles(c: Setup, run: seq<System>) returns (longer: seq<System>)
    requires IsRun(c, run)
    ensures Settled(c, longer) && run <= longer && OnlyMoves(c, longer, |run| - 1)
    ensures IsCarefulRun(c, run) ==> IsCarefulRun(c, longer)
  {
    InvHolds(c, run, |run| - 1);
    longer := SettlesFrom(c, run);
  }
}
