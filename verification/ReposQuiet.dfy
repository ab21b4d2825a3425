/** What the repositories and `lastSolId` have come to when nothing is left to merge and nothing is on its way: exactly
    the best `enumCount` solutions ever admitted, unless an offer to a full repository has pushed out one of them. */
module ReposQuiet {
  import opened Fathoming
  import opened Pooling
  import opened ReposAsync
  import opened ReposFlow
  import opened ReposMerge
  import opened ReposOffers

  /** A step that loses none of the best. */
  ghost predicate CarefulNext(c: Setup, s: System, s': System) {
    && Sized(c, s)
    && (|| (exists x, inc :: Offers(c, s, s', x, inc) && !Loses(c, s, x, inc))
        || (exists v, inc, held' :: Prunes(c, s, s', v, inc, held'))
        || (exists v, p' :: SendsUp(c, s, s', v, p'))
        || (exists p' :: RootMerges(c, s, s', p'))
        || (exists k :: TakesList(c, s, s', k))
        || (exists m :: TakesLast(c, s, s', m)))
  }

  ghost predicate IsCarefulRun(c: Setup, run: seq<System>) {
    && |run| > 0 && Init(c, run[0])
    && forall i, j | 0 <= i && j == i + 1 && j < |run| :: CarefulNext(c, run[i], run[j])
  }

  // ---------- Whole runs ----------

  lemma CarefulIsNext(c: Setup, s: System, s': System)
    requires CarefulNext(c, s, s')
    ensures Next(c, s, s')
  {
  }

  /** A state in which nothing has been lost. */
  ghost predicate CarefulInv(c: Setup, s: System) { Inv(c, s) && Flow(c, s) && TopHeld(c, s) }

  lemma NextFlows(c: Setup, s: System, s': System)
    requires Inv(c, s) && Flow(c, s) && Next(c, s, s')
    ensures Inv(c, s') && Grows(s, s') && Flow(c, s')
  {
    NextKeepsInv(c, s, s');
    if x, inc :| Offers(c, s, s', x, inc) {
      OfferFlows(c, s, s', x, inc);
    } else if v, inc, held' :| Prunes(c, s, s', v, inc, held') {
      PruneFlows(c, s, s', v, inc, held');
    } else if v, p' :| SendsUp(c, s, s', v, p') {
      SendFlows(c, s, s', v, p');
    } else if p' :| RootMerges(c, s, s', p') {
      RootMergeFlows(c, s, s', p');
    } else if k :| TakesList(c, s, s', k) {
      TakeListFlows(c, s, s', k);
    } else {
      var m :| TakesLast(c, s, s', m);
      TakeLastFlows(c, s, s', m);
    }
  }

  lemma SendKeepsHeld(c: Setup, s: System, s': System, v: int, p': Proc)
    requires Sized(c, s) && Sized(c, s') && SendsUp(c, s, s', v, p')
    ensures SameHeld(c, s, s')
  {
    assert p'.held == s.proc[v].held;
  }

  lemma RootKeepsHeld(c: Setup, s: System, s': System, p': Proc)
    requires Sized(c, s) && Sized(c, s') && RootMerges(c, s, s', p')
    ensures SameHeld(c, s, s')
  {
    assert p'.held == s.proc[c.tree.root].held;
  }

  lemma ListKeepsHeld(c: Setup, s: System, s': System, k: int)
    requires Sized(c, s) && Sized(c, s') && TakesList(c, s, s', k)
    ensures SameHeld(c, s, s')
  {
    assert c.tree.KidOk(c.tree.parent[k], c.tree.number[k]);
  }

  lemma LastKeepsHeld(c: Setup, s: System, s': System, m: (int, SolId))
    requires Sized(c, s) && Sized(c, s') && TakesLast(c, s, s', m)
    ensures SameHeld(c, s, s')
  {
  }

  lemma MovesKeepHeld(c: Setup, s: System, s': System)
    requires Sized(c, s) && Sized(c, s')
    requires || (exists v, p' :: SendsUp(c, s, s', v, p')) || (exists p' :: RootMerges(c, s, s', p'))
             || (exists k :: TakesList(c, s, s', k)) || (exists m :: TakesLast(c, s, s', m))
    ensures SameHeld(c, s, s')
  {
    if v, p' :| SendsUp(c, s, s', v, p') {
      SendKeepsHeld(c, s, s', v, p');
    } else if p' :| RootMerges(c, s, s', p') {
      RootKeepsHeld(c, s, s', p');
    } else if k :| TakesList(c, s, s', k) {
      ListKeepsHeld(c, s, s', k);
    } else {
      var m :| TakesLast(c, s, s', m);
      LastKeepsHeld(c, s, s', m);
    }
  }

  lemma CarefulKeepsTop(c: Setup, s: System, s': System)
    requires ByCount(c.st) && Inv(c, s) && TopHeld(c, s) && CarefulNext(c, s, s') && Inv(c, s') && Grows(s, s')
    ensures TopHeld(c, s')
  {
    if x, inc :| Offers(c, s, s', x, inc) && !Loses(c, s, x, inc) {
      OfferKeepsTop(c, s, s', x, inc);
    } else if v, inc, held' :| Prunes(c, s, s', v, inc, held') {
      PruneKeepsTop(c, s, s', v, inc, held');
    } else {
      MovesKeepHeld(c, s, s');
      OthersKeepTop(c, s, s');
    }
  }

  lemma StartFlows(c: Setup, s: System)
    requires Init(c, s)
    ensures Flow(c, s)
  {
    forall v | c.tree.Node(v) ensures MergeOk(c, s.proc[v]) {
      StartMergeOk(c, s, v);
    }
    forall k | c.tree.Node(k) && k != c.tree.root ensures LinkOk(c, s, k) && LastOk(c, s, k) {
      StartLinkOk(c, s, k);
    }
    StartFacts(c, s, c.tree.root);
    BeforeOrders(c.st, s.proc[c.tree.root].last, s.proc[c.tree.root].last, s.proc[c.tree.root].last);
  }

  lemma StartMergeOk(c: Setup, s: System, v: int)
    requires Init(c, s) && c.tree.Node(v)
    ensures MergeOk(c, s.proc[v])
  {
    assert Synced(c, s, v);
    forall h | h in s.proc[v].held ensures h in s.proc[v].localArray {
      assert h in multiset(s.proc[v].held);
    }
  }

  lemma StartLinkOk(c: Setup, s: System, k: int)
    requires Init(c, s) && c.tree.Node(k) && k != c.tree.root
    ensures LinkOk(c, s, k) && LastOk(c, s, k)
  {
    var p := c.tree.parent[k];
    assert c.tree.kid[p][c.tree.number[k]] == k && Synced(c, s, p);
    StartFacts(c, s, k);
    StartFacts(c, s, p);
    StartFacts(c, s, c.tree.root);
    BeforeOrders(c.st, s.proc[k].last, s.proc[k].last, s.proc[k].last);
  }

  lemma {:induction false} FlowHolds(c: Setup, run: seq<System>, i: nat)
    requires IsRun(c, run) && i < |run|
    ensures Inv(c, run[i]) && Flow(c, run[i])
  {
    if i == 0 {
      InitHolds(c, run[0]);
      StartFlows(c, run[0]);
    } else {
      var j := i - 1;
      FlowHolds(c, run, j);
      assert Next(c, run[j], run[i]);
      NextFlows(c, run[j], run[i]);
    }
  }

  lemma CarefulIsRun(c: Setup, run: seq<System>)
    requires IsCarefulRun(c, run)
    ensures IsRun(c, run)
  {
    forall i, j | 0 <= i && j == i + 1 && j < |run| ensures Next(c, run[i], run[j]) {
      CarefulIsNext(c, run[i], run[j]);
    }
  }

  lemma {:induction false} TopStaysHeld(c: Setup, run: seq<System>, i: nat)
    requires ByCount(c.st) && IsCarefulRun(c, run) && i < |run|
    ensures Inv(c, run[i]) && TopHeld(c, run[i])
  {
    if i == 0 {
      InitHolds(c, run[0]);
    } else {
      var j := i - 1;
      TopStaysHeld(c, run, j);
      assert CarefulNext(c, run[j], run[i]);
      CarefulIsNext(c, run[j], run[i]);
      NextKeepsInv(c, run[j], run[i]);
      CarefulKeepsTop(c, run[j], run[i]);
    }
  }

  // ---------- Nothing left to do ----------

  /** No message on its way, the root having nobody to send lists to, and no merge due anywhere. */
  ghost predicate Quiet(c: Setup, s: System)
    requires Sized(c, s)
  {
    s.down == multiset{} && forall v | c.tree.Node(v) :: !s.proc[v].need && (v != c.tree.root ==> s.up[v] == [])
  }

  lemma {:induction false} InKidsBag(kids: seq<seq<SolId>>, i: nat, x: SolId)
    requires i < |kids| && x in kids[i]
    ensures x in KidsBag(kids)
  {
    if i < |kids| - 1 {
      InKidsBag(kids[..|kids| - 1], i, x);
    }
  }

  lemma SubsetSameSize(a: multiset<SolId>, b: multiset<SolId>)
    requires a <= b && |a| >= |b|
    ensures a == b
  {
    assert b == a + (b - a);
    assert |b - a| == 0;
  }

  /** One of the best is not left out of a merge. */
  lemma BestIsMerged(c: Setup, s: System, v: int, all: multiset<SolId>, x: SolId)
    requires Sized(c, s) && c.tree.Node(v) && ListOk(c, s, v, s.proc[v].merged)
    requires IsBest(c.st, all, s.proc[v].merged, c.st.enumCount)
    requires x in all && AmongBest(c, s, x)
    ensures x in s.proc[v].merged
  {
    var r := s.proc[v].merged;
    if x !in r {
      assert x in all - multiset(r);
      if |all| <= c.st.enumCount {
        SubsetSameSize(multiset(r), all);
        assert false;
      } else {
        forall i | 0 <= i < |r| ensures Before(c.st, r[i], x) {
          BeforeOrders(c.st, r[i], x, x);
        }
        assert Beaten(c, s, x, r);
      }
    }
  }

  lemma QuietLink(c: Setup, s: System, v: int, i: nat)
    requires Flow(c, s) && Quiet(c, s) && c.tree.Node(v) && i < |c.tree.kid[v]| && c.tree.KidOk(v, i)
    ensures s.proc[v].kids[i] == s.proc[c.tree.kid[v][i]].merged
  {
    assert LinkOk(c, s, c.tree.kid[v][i]);
  }

  lemma OwnBestIsListed(c: Setup, s: System, x: SolId)
    requires CarefulInv(c, s) && Quiet(c, s) && x in s.admitted && AmongBest(c, s, x)
    ensures c.tree.Node(x.owner) && x in s.proc[x.owner].localArray
  {
    AdmittedIsProper(c, s, x);
    assert MergeOk(c, s.proc[x.owner]) && x in s.proc[x.owner].held;
  }

  lemma PartIsMerged(c: Setup, s: System, v: int, x: SolId)
    requires CarefulInv(c, s) && Quiet(c, s) && c.tree.Node(v) && AmongBest(c, s, x)
    requires x in multiset(s.proc[v].localArray) + KidsBag(s.proc[v].kids)
    ensures x in s.proc[v].merged
  {
    var p := s.proc[v];
    assert ProcOk(c, s, v) && MergeOk(c, p);
    BestIsMerged(c, s, v, multiset(p.localArray) + KidsBag(p.kids), x);
  }

  lemma OwnBestIsMerged(c: Setup, s: System, x: SolId)
    requires CarefulInv(c, s) && Quiet(c, s) && x in s.admitted && AmongBest(c, s, x)
    ensures c.tree.Node(x.owner) && x in s.proc[x.owner].merged
  {
    OwnBestIsListed(c, s, x);
    PartIsMerged(c, s, x.owner, x);
  }

  lemma KidsBestIsMerged(c: Setup, s: System, v: int, i: nat, x: SolId)
    requires CarefulInv(c, s) && Quiet(c, s) && c.tree.Node(v) && i < |c.tree.kid[v]| && c.tree.KidOk(v, i)
    requires x in s.proc[c.tree.kid[v][i]].merged && AmongBest(c, s, x)
    ensures x in s.proc[v].merged
  {
    QuietLink(c, s, v, i);
    InKidsBag(s.proc[v].kids, i, x);
    PartIsMerged(c, s, v, x);
  }

  /** The best climb to the root. */
  lemma {:induction false} BestClimbs(c: Setup, s: System, v: int, x: SolId)
    requires CarefulInv(c, s) && Quiet(c, s) && c.tree.Whole() && c.tree.Node(v) && x.owner in c.tree.under[v]
    requires x in s.admitted && AmongBest(c, s, x)
    ensures x in s.proc[v].merged
    decreases c.tree.size - c.tree.rank[v]
  {
    if x.owner == v {
      OwnBestIsMerged(c, s, x);
    } else {
      var i := KidAbove(c, v, x.owner);
      BestClimbs(c, s, c.tree.kid[v][i], x);
      KidsBestIsMerged(c, s, v, i, x);
    }
  }

  lemma KidAbove(c: Setup, v: int, o: int) returns (i: nat)
    requires c.Ok() && c.tree.Whole() && c.tree.Node(v) && o in c.tree.under[v] && o != v
    ensures i < |c.tree.kid[v]| && c.tree.KidOk(v, i) && o in c.tree.under[c.tree.kid[v][i]]
    ensures c.tree.rank[v] < c.tree.rank[c.tree.kid[v][i]] <= c.tree.size
  {
    assert c.tree.Splits(v, o);
    i :| 0 <= i < |c.tree.kid[v]| && c.tree.KidOk(v, i) && o in c.tree.under[c.tree.kid[v][i]];
  }

  ghost function Ahead(c: Setup, s: System, z: SolId): set<SolId> { set y | y in s.admitted && Before(c.st, y, z) }

  /** What is not among the best is beaten by the best themselves. */
  lemma {:induction false} BeatenByBest(c: Setup, s: System, z: SolId) returns (q: seq<SolId>)
    requires z in s.admitted && !AmongBest(c, s, z)
    ensures Beaten(c, s, z, q) && forall i | 0 <= i < |q| :: AmongBest(c, s, q[i])
    decreases |Ahead(c, s, z)|
  {
    q :| Beaten(c, s, z, q);
    if i :| 0 <= i < |q| && !AmongBest(c, s, q[i]) {
      AheadShrinks(c, s, q[i], z);
      var y := q[i];
      q := BeatenByBest(c, s, y);
      forall j | 0 <= j < |q| ensures Before(c.st, q[j], z) {
        BeforeOrders(c.st, q[j], y, z);
        BeforeOrders(c.st, z, q[j], y);
      }
    }
  }

  lemma AheadShrinks(c: Setup, s: System, y: SolId, z: SolId)
    requires y in s.admitted && Before(c.st, y, z)
    ensures |Ahead(c, s, y)| < |Ahead(c, s, z)|
  {
    var a, b := Ahead(c, s, y), Ahead(c, s, z);
    BeforeOrders(c.st, y, y, y);
    forall x | x in a ensures x in b {
      BeforeOrders(c.st, x, y, z);
      BeforeOrders(c.st, z, x, y);
    }
    assert y in b && y !in a;
    assert b == a + (b - a) && y in b - a;
  }

  lemma {:induction false} DistinctSize(s: System, q: seq<SolId>)
    requires Distinct(s, q)
    ensures |set x | x in q| == |q|
  {
    if q != [] {
      var k := |q| - 1;
      DistinctSize(s, q[..k]);
      assert (set x | x in q) == (set x | x in q[..k]) + {q[k]};
      assert forall j | 0 <= j < k :: q[j] != q[k];
    }
  }

  /** Different solutions of a list fit in it. */
  lemma SublistIsShorter(s: System, q: seq<SolId>, r: seq<SolId>)
    requires Distinct(s, q) && Distinct(s, r) && forall x | x in q :: x in r
    ensures |q| <= |r|
    ensures |q| == |r| ==> forall x | x in r :: x in q
  {
    var a, b := (set x | x in q), (set x | x in r);
    DistinctSize(s, q);
    DistinctSize(s, r);
    assert b == a + (b - a) && |b| == |a| + |b - a|;
    if |q| == |r| {
      forall x | x in r ensures x in q {
        assert x in b && b - a == {};
        assert x in a;
      }
    }
  }

  // ---------- Exactness ----------

  lemma MergedIsDistinct(c: Setup, s: System, v: int)
    requires CarefulInv(c, s) && Quiet(c, s) && c.tree.Node(v)
    ensures Distinct(s, s.proc[v].merged) && |s.proc[v].merged| <= c.st.enumCount && SortedIds(c.st, s.proc[v].merged)
  {
    ProcParts(c, s, v);
    assert MergeOk(c, s.proc[v]);
  }

  lemma BestAtRoot(c: Setup, s: System, x: SolId)
    requires CarefulInv(c, s) && Quiet(c, s) && c.tree.Whole() && x in s.admitted && AmongBest(c, s, x)
    ensures x in s.proc[c.tree.root].merged
  {
    AdmittedIsProper(c, s, x);
    BestClimbs(c, s, c.tree.root, x);
  }

  /** The best that beat `x` are all there is in the list of the root. */
  lemma RootBeats(c: Setup, s: System, x: SolId) returns (q: seq<SolId>)
    requires CarefulInv(c, s) && Quiet(c, s) && c.tree.Whole() && x in s.admitted && !AmongBest(c, s, x)
    ensures Beaten(c, s, x, q) && |s.proc[c.tree.root].merged| == c.st.enumCount
    ensures forall y | y in s.proc[c.tree.root].merged :: y in q && Before(c.st, y, x)
  {
    q := BeatenByBest(c, s, x);
    forall y | y in q ensures y in s.proc[c.tree.root].merged {
      BestAtRoot(c, s, y);
    }
    MergedIsDistinct(c, s, c.tree.root);
    SublistIsShorter(s, q, s.proc[c.tree.root].merged);
  }

  lemma RootIsExact(c: Setup, s: System, x: SolId)
    requires CarefulInv(c, s) && Quiet(c, s) && c.tree.Whole()
    ensures x in s.proc[c.tree.root].merged <==> x in s.admitted && AmongBest(c, s, x)
  {
    MergedIsDistinct(c, s, c.tree.root);
    if x in s.admitted && AmongBest(c, s, x) {
      BestAtRoot(c, s, x);
    } else if x in s.proc[c.tree.root].merged {
      var q := RootBeats(c, s, x);
      BeforeOrders(c.st, x, x, x);
    }
  }

  lemma NobodyVouches(c: Setup, s: System, q: seq<SolId>)
    requires CarefulInv(c, s) && Quiet(c, s) && c.tree.Whole() && Distinct(s, q) && |q| == c.st.enumCount
    ensures |s.proc[c.tree.root].merged| == c.st.enumCount
  {
    MergedIsDistinct(c, s, c.tree.root);
    if y :| y in q && !AmongBest(c, s, y) {
      var r := RootBeats(c, s, y);
    } else {
      forall y | y in q ensures y in s.proc[c.tree.root].merged {
        BestAtRoot(c, s, y);
      }
      SublistIsShorter(s, q, s.proc[c.tree.root].merged);
    }
  }

  /** The `lastSolId` that fits the list of the root. */
  function LastOf(c: Setup, merged: seq<SolId>): SolId {
    if |merged| == c.st.enumCount && merged != [] then merged[|merged| - 1] else c.Worst()
  }

  lemma RootFacts(c: Setup, s: System)
    requires CarefulInv(c, s)
    ensures c.Ok() && SafeLast(c, s, s.proc[c.tree.root].last) && RootOk(c, s.proc[c.tree.root])
  {
    ProcParts(c, s, c.tree.root);
  }

  lemma LastSettled(c: Setup, s: System, last: SolId, z: SolId)
    requires SafeLast(c, s, last) && Abs(z.value) < c.st.maxDouble && AmongBest(c, s, z) && !Before(c.st, z, last)
    ensures last == z
  {
    SafeIsNotTooGood(c, s, last, z);
    BeforeOrders(c.st, z, last, z);
  }

  lemma MemberIsBest(c: Setup, s: System, z: SolId)
    requires CarefulInv(c, s) && Quiet(c, s) && c.tree.Whole() && z in s.proc[c.tree.root].merged
    ensures AmongBest(c, s, z) && Abs(z.value) < c.st.maxDouble
  {
    RootIsExact(c, s, z);
    AdmittedIsProper(c, s, z);
  }

  lemma RootIsNotAhead(c: Setup, p: Proc) returns (z: SolId)
    requires c.Ok() && RootOk(c, p) && |p.merged| == c.st.enumCount
    ensures z in p.merged && z == LastOf(c, p.merged) && !Before(c.st, z, p.last)
  {
    z := p.merged[c.st.enumCount - 1];
  }

  lemma FullRootLast(c: Setup, s: System)
    requires CarefulInv(c, s) && Quiet(c, s) && c.tree.Whole()
    ensures var p := s.proc[c.tree.root]; |p.merged| == c.st.enumCount ==> p.last == LastOf(c, p.merged)
  {
    RootFacts(c, s);
    if |s.proc[c.tree.root].merged| == c.st.enumCount {
      var z := RootIsNotAhead(c, s.proc[c.tree.root]);
      MemberIsBest(c, s, z);
      LastSettled(c, s, s.proc[c.tree.root].last, z);
    }
  }

  lemma WorstUnlessFull(c: Setup, s: System, last: SolId)
    requires CarefulInv(c, s) && Quiet(c, s) && c.tree.Whole() && SafeLast(c, s, last)
    ensures last == c.Worst() || |s.proc[c.tree.root].merged| == c.st.enumCount
  {
    if last != c.Worst() {
      var q :| Vouch(c, s, last, q);
      NobodyVouches(c, s, q);
    }
  }

  lemma RootLastIsExact(c: Setup, s: System)
    requires CarefulInv(c, s) && Quiet(c, s) && c.tree.Whole()
    ensures s.proc[c.tree.root].last == LastOf(c, s.proc[c.tree.root].merged)
  {
    RootFacts(c, s);
    WorstUnlessFull(c, s, s.proc[c.tree.root].last);
    FullRootLast(c, s);
  }

  lemma ParentsLast(c: Setup, s: System, v: int)
    requires CarefulInv(c, s) && Quiet(c, s) && c.tree.Node(v) && v != c.tree.root
    ensures var p := c.tree.parent[v];
            && c.tree.Node(p) && c.tree.rank[p] < c.tree.rank[v] && !Before(c.st, s.proc[p].last, s.proc[v].last)
            && !Before(c.st, s.proc[v].last, s.proc[c.tree.root].last)
  {
    assert c.tree.KidOk(c.tree.parent[v], c.tree.number[v]) && LastOk(c, s, v);
  }

  lemma {:induction false} LastsAgree(c: Setup, s: System, v: int)
    requires CarefulInv(c, s) && Quiet(c, s) && c.tree.Node(v)
    ensures s.proc[v].last == s.proc[c.tree.root].last
    decreases c.tree.rank[v]
  {
    if v != c.tree.root {
      ParentsLast(c, s, v);
      LastsAgree(c, s, c.tree.parent[v]);
      BeforeOrders(c.st, s.proc[v].last, s.proc[c.tree.root].last, s.proc[v].last);
    }
  }

  lemma PrunableIsExact(c: Setup, s: System, v: int, inc: real, x: SolId)
    requires ByCount(c.st) && CarefulInv(c, s) && Quiet(c, s) && c.tree.Whole() && c.tree.Node(v) && x in s.admitted
    ensures Prunable(c.st, inc, s.proc[v].last, x) <==> !AmongBest(c, s, x)
  {
    LastsAgree(c, s, v);
    RootLastIsExact(c, s);
    ProcParts(c, s, v);
    AdmittedIsProper(c, s, x);
    if AmongBest(c, s, x) {
      SafeIsNotTooGood(c, s, s.proc[v].last, x);
    } else {
      var q := RootBeats(c, s, x);
      assert LastOf(c, s.proc[c.tree.root].merged) in s.proc[c.tree.root].merged;
    }
  }

  /** The root lists exactly the best `enumCount` of all that was ever admitted, in order, `lastSolId` is the last of
      them at every processor, and each is in the repository of its owner. */
  ghost predicate Exact(c: Setup, s: System)
    requires Sized(c, s)
  {
    var merged := s.proc[c.tree.root].merged;
    && SortedIds(c.st, merged) && Distinct(s, merged)
    && (forall x :: x in merged <==> x in s.admitted && AmongBest(c, s, x))
    && (forall v | c.tree.Node(v) :: s.proc[v].last == LastOf(c, merged))
    && forall x | x in merged :: c.tree.Node(x.owner) && x in s.proc[x.owner].held
  }

  lemma TopMakesExact(c: Setup, s: System)
    requires CarefulInv(c, s) && Quiet(c, s) && c.tree.Whole()
    ensures Exact(c, s)
  {
    var merged := s.proc[c.tree.root].merged;
    MergedIsDistinct(c, s, c.tree.root);
    forall x ensures x in merged <==> x in s.admitted && AmongBest(c, s, x) {
      RootIsExact(c, s, x);
    }
    forall v | c.tree.Node(v) ensures s.proc[v].last == LastOf(c, merged) {
      LastsAgree(c, s, v);
      RootLastIsExact(c, s);
    }
  }

  /** Once all has come to rest, list and `lastSolId` are exact if and only if every one of the best is still in the
      repository of its owner: the exchange itself loses nothing, whatever the criteria. */
  lemma QuietIsExactly(c: Setup, run: seq<System>)
    requires IsRun(c, run) && c.tree.Whole() && Sized(c, run[|run| - 1]) && Quiet(c, run[|run| - 1])
    ensures Inv(c, run[|run| - 1]) && (Exact(c, run[|run| - 1]) <==> TopHeld(c, run[|run| - 1]))
  {
    FlowHolds(c, run, |run| - 1);
    if TopHeld(c, run[|run| - 1]) {
      TopMakesExact(c, run[|run| - 1]);
    }
  }

  /** With the count as the only criterion, and no offer that loses one of the best: they are exact, and pruning takes
      what is not among the best and nothing else. */
  lemma QuietIsExact(c: Setup, run: seq<System>)
    requires ByCount(c.st) && IsCarefulRun(c, run) && c.tree.Whole()
    requires Sized(c, run[|run| - 1]) && Quiet(c, run[|run| - 1])
    ensures Exact(c, run[|run| - 1])
    ensures var s := run[|run| - 1];
            forall v, inc, x | c.tree.Node(v) && x in s.proc[v].held ::
              Prunable(c.st, inc, s.proc[v].last, x) <==> !AmongBest(c, s, x)
  {
    var s := run[|run| - 1];
    CarefulIsRun(c, run);
    FlowHolds(c, run, |run| - 1);
    TopStaysHeld(c, run, |run| - 1);
    TopMakesExact(c, s);
    forall v, inc, x | c.tree.Node(v) && x in s.proc[v].held
      ensures Prunable(c.st, inc, s.proc[v].last, x) <==> !AmongBest(c, s, x)
    {
      ProcParts(c, s, v);
      PrunableIsExact(c, s, v, inc, x);
    }
  }
}
