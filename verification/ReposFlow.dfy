/** How the merged lists go up the repository tree and `lastSolId` down: what is on its way accounts for every
    difference between neighbours. */
module ReposFlow {
  import opened Fathoming
  import opened Pooling
  import opened ReposAsync
  import opened ReposMerge

  // ---------- How lists and `lastSolId` flow ----------

  /** Without a merge due, the merged list is that of what is held, or was before pruning, and of the children's
      lists. */
  ghost predicate MergeOk(c: Setup, p: Proc) {
    !p.need ==>
      && (forall h | h in p.held :: h in p.localArray)
      && IsBest(c.st, multiset(p.localArray) + KidsBag(p.kids), p.merged, c.st.enumCount)
  }

  /** The last list that `k` has sent, whether it has arrived or not. */
  ghost predicate LinkOk(c: Setup, s: System, k: int)
    requires Sized(c, s) && c.tree.Node(k) && k != c.tree.root
  {
    s.proc[k].merged ==
      if s.up[k] == [] then s.proc[c.tree.parent[k]].kids[c.tree.number[k]] else s.up[k][|s.up[k]| - 1]
  }

  /** Nobody is ahead of the root, and whoever is behind the parent will hear of it. */
  ghost predicate LastOk(c: Setup, s: System, k: int)
    requires Sized(c, s) && c.tree.Node(k) && k != c.tree.root
  {
    var above := s.proc[c.tree.parent[k]].last;
    && !Before(c.st, s.proc[k].last, s.proc[c.tree.root].last)
    && (!Before(c.st, above, s.proc[k].last) || exists m :: m in s.down && m.0 == k && !Before(c.st, above, m.1))
  }

  ghost predicate RootOk(c: Setup, p: Proc) {
    |p.merged| == c.st.enumCount && c.st.enumCount > 0 ==> !Before(c.st, p.merged[c.st.enumCount - 1], p.last)
  }

  ghost predicate Flow(c: Setup, s: System) {
    && Sized(c, s) && RootOk(c, s.proc[c.tree.root])
    && (forall v | c.tree.Node(v) :: MergeOk(c, s.proc[v]))
    && (forall k | c.tree.Node(k) && k != c.tree.root :: LinkOk(c, s, k) && LastOk(c, s, k))
    && forall m | m in s.down :: m.0 != c.tree.root && !Before(c.st, m.1, s.proc[c.tree.root].last)
  }

  /** Nothing that concerns `lastSolId` changes. */
  ghost predicate SameLast(c: Setup, s: System, s': System)
    requires Sized(c, s) && Sized(c, s')
  {
    && s'.down == s.down && s'.proc[c.tree.root].merged == s.proc[c.tree.root].merged
    && forall v | c.tree.Node(v) :: s'.proc[v].last == s.proc[v].last
  }

  ghost predicate SameLists(c: Setup, s: System, s': System)
    requires Sized(c, s) && Sized(c, s')
  {
    s'.up == s.up && forall v | c.tree.Node(v) ::
      s'.proc[v].kids == s.proc[v].kids && (v != c.tree.root ==> s'.proc[v].merged == s.proc[v].merged)
  }

  lemma LastsStay(c: Setup, s: System, s': System, k: int)
    requires Flow(c, s) && Sized(c, s') && SameLast(c, s, s') && c.tree.Node(k) && k != c.tree.root
    ensures LastOk(c, s', k)
  {
    assert LastOk(c, s, k) && c.tree.Node(c.tree.parent[k]);
  }

  lemma ListsStayLinked(c: Setup, s: System, s': System, k: int)
    requires Flow(c, s) && Sized(c, s') && SameLists(c, s, s') && c.tree.Node(k) && k != c.tree.root
    ensures LinkOk(c, s', k)
  {
    assert LinkOk(c, s, k) && c.tree.Node(c.tree.parent[k]);
  }

  /** A step that moves no list and no `lastSolId`. */
  lemma QuietStep(c: Setup, s: System, s': System)
    requires Flow(c, s) && Sized(c, s') && SameLast(c, s, s') && SameLists(c, s, s')
    requires forall v | c.tree.Node(v) :: MergeOk(c, s'.proc[v])
    ensures Flow(c, s')
  {
    forall k | c.tree.Node(k) && k != c.tree.root ensures LinkOk(c, s', k) && LastOk(c, s', k) {
      LastsStay(c, s, s', k);
      ListsStayLinked(c, s, s', k);
    }
  }

  lemma OfferMoves(c: Setup, s: System, s': System, x: int, inc: real)
    requires Inv(c, s) && Offers(c, s, s', x, inc) && Sized(c, s')
    ensures SameLast(c, s, s') && SameLists(c, s, s')
  {
    OfferChanges(c, s, s', x, inc);
  }

  lemma OfferMerge(c: Setup, s: System, s': System, x: int, inc: real, v: int)
    requires Inv(c, s) && Offers(c, s, s', x, inc) && Sized(c, s') && c.tree.Node(v) && MergeOk(c, s.proc[v])
    ensures MergeOk(c, s'.proc[v])
  {
    OfferChanges(c, s, s', x, inc);
  }

  lemma OfferFlows(c: Setup, s: System, s': System, x: int, inc: real)
    requires Inv(c, s) && Flow(c, s) && Offers(c, s, s', x, inc) && Sized(c, s')
    ensures Flow(c, s')
  {
    OfferMoves(c, s, s', x, inc);
    forall v | c.tree.Node(v) ensures MergeOk(c, s'.proc[v]) {
      OfferMerge(c, s, s', x, inc, v);
    }
    QuietStep(c, s, s');
  }

  lemma PruneFlows(c: Setup, s: System, s': System, v: int, inc: real, held': set<SolId>)
    requires Flow(c, s) && Prunes(c, s, s', v, inc, held') && Sized(c, s')
    ensures Flow(c, s')
  {
    forall u | c.tree.Node(u) ensures MergeOk(c, s'.proc[u]) {
      assert MergeOk(c, s.proc[u]);
    }
    QuietStep(c, s, s');
  }

  lemma MergedIsOk(c: Setup, p: Proc, p': Proc)
    requires Merged(c, p, p')
    ensures MergeOk(c, p')
  {
    forall h | h in p'.held ensures h in p'.localArray {
      assert h in multiset(p'.held);
    }
  }

  lemma SendLinks(c: Setup, s: System, s': System, v: int, p': Proc, k: int)
    requires Sized(c, s) && SendsUp(c, s, s', v, p') && Sized(c, s') && c.tree.Node(k) && k != c.tree.root
    requires LinkOk(c, s, k)
    ensures LinkOk(c, s', k)
  {
    assert p'.kids == s.proc[v].kids && c.tree.Node(c.tree.parent[k]);
  }

  lemma SendKeepsLast(c: Setup, s: System, s': System, v: int, p': Proc)
    requires Sized(c, s) && SendsUp(c, s, s', v, p') && Sized(c, s')
    ensures SameLast(c, s, s')
  {
  }

  lemma SendFlows(c: Setup, s: System, s': System, v: int, p': Proc)
    requires Flow(c, s) && SendsUp(c, s, s', v, p') && Sized(c, s')
    ensures Flow(c, s')
  {
    MergedIsOk(c, s.proc[v], p');
    SendKeepsLast(c, s, s', v, p');
    forall u | c.tree.Node(u) ensures MergeOk(c, s'.proc[u]) {
      assert MergeOk(c, s.proc[u]);
    }
    forall k | c.tree.Node(k) && k != c.tree.root ensures LinkOk(c, s', k) && LastOk(c, s', k) {
      SendLinks(c, s, s', v, p', k);
      LastsStay(c, s, s', k);
    }
  }

  lemma OneKidThere(c: Setup, j: int, k: int)
    requires c.Ok() && c.tree.Node(j) && c.tree.Node(k) && j != c.tree.root && k != c.tree.root
    requires c.tree.parent[j] == c.tree.parent[k] && c.tree.number[j] == c.tree.number[k]
    ensures j == k
  {
    assert c.tree.kid[c.tree.parent[k]][c.tree.number[k]] == k;
  }

  lemma TakenLinks(c: Setup, s: System, s': System, k: int)
    requires Sized(c, s) && TakesList(c, s, s', k) && Sized(c, s') && LinkOk(c, s, k)
    ensures LinkOk(c, s', k)
  {
    assert c.tree.KidOk(c.tree.parent[k], c.tree.number[k]);
  }

  lemma TakeListLinks(c: Setup, s: System, s': System, k: int, j: int)
    requires Flow(c, s) && TakesList(c, s, s', k) && Sized(c, s') && c.tree.Node(j) && j != c.tree.root
    ensures LinkOk(c, s', j)
  {
    if j == k {
      TakenLinks(c, s, s', k);
    } else {
      OtherLinks(c, s, s', k, j);
    }
  }

  lemma OtherLinks(c: Setup, s: System, s': System, k: int, j: int)
    requires Sized(c, s) && TakesList(c, s, s', k) && Sized(c, s') && c.tree.Node(j) && j != c.tree.root && j != k
    requires LinkOk(c, s, j)
    ensures LinkOk(c, s', j)
  {
    if c.tree.parent[j] == c.tree.parent[k] && c.tree.number[j] == c.tree.number[k] {
      OneKidThere(c, j, k);
    }
  }

  lemma TakeListFlows(c: Setup, s: System, s': System, k: int)
    requires Flow(c, s) && TakesList(c, s, s', k) && Sized(c, s')
    ensures Flow(c, s')
  {
    forall u | c.tree.Node(u) ensures MergeOk(c, s'.proc[u]) {
      assert MergeOk(c, s.proc[u]);
    }
    forall j | c.tree.Node(j) && j != c.tree.root ensures LinkOk(c, s', j) && LastOk(c, s', j) {
      TakeListLinks(c, s, s', k, j);
      LastsStay(c, s, s', j);
    }
  }

  // ---------- `lastSolId` goes down the tree ----------

  lemma BetterIs(c: Setup, a: SolId, b: SolId)
    ensures !Before(c.st, a, Better(c, a, b)) && !Before(c.st, b, Better(c, a, b))
    ensures Better(c, a, b) == a || Better(c, a, b) == b
  {
    BeforeOrders(c.st, a, b, a);
  }

  lemma RelayReaches(c: Setup, v: int, id: SolId, k: int)
    requires c.Ok() && c.tree.Node(k) && k != c.tree.root && c.tree.parent[k] == v
    ensures (k, id) in Relays(c, v, id)
  {
    assert RelayList(c, v, id)[c.tree.number[k]] == (k, id);
  }

  lemma NoWorseOrder(c: Setup, x: SolId, y: SolId, z: SolId)
    requires !Before(c.st, y, x) && !Before(c.st, z, y)
    ensures !Before(c.st, z, x)
  {
    BeforeOrders(c.st, x, y, z);
  }

  /** The last of `k`, after the root got a better one. */
  lemma RootMergeLast(c: Setup, s: System, s': System, p': Proc, k: int)
    requires Flow(c, s) && RootMerges(c, s, s', p') && Sized(c, s') && c.tree.Node(k) && k != c.tree.root
    ensures LastOk(c, s', k)
  {
    var r := c.tree.root;
    var was, now := s.proc[r].last, p'.last;
    assert LastOk(c, s, k);
    RootGetsBetter(c, s, s', p');
    NoWorseOrder(c, now, was, s.proc[k].last);
    if c.tree.parent[k] == r && now != was {
      RelayReaches(c, r, now, k);
      BeforeOrders(c.st, now, now, now);
      assert (k, now) in s'.down;
    } else if Before(c.st, s.proc[c.tree.parent[k]].last, s.proc[k].last) {
      var m :| m in s.down && m.0 == k && !Before(c.st, s.proc[c.tree.parent[k]].last, m.1);
      assert m in s'.down;
    }
  }

  lemma RootGetsBetter(c: Setup, s: System, s': System, p': Proc)
    requires Sized(c, s) && RootMerges(c, s, s', p')
    ensures !Before(c.st, s.proc[c.tree.root].last, p'.last) && RootOk(c, p')
  {
    var n, last := c.st.enumCount, s.proc[c.tree.root].last;
    BeforeOrders(c.st, last, last, last);
    if |p'.merged| == n {
      BetterIs(c, p'.merged[n - 1], last);
    }
  }

  lemma RootMergeFlows(c: Setup, s: System, s': System, p': Proc)
    requires Flow(c, s) && RootMerges(c, s, s', p') && Sized(c, s')
    ensures Flow(c, s')
  {
    var r := c.tree.root;
    RootGetsBetter(c, s, s', p');
    MergedIsOk(c, s.proc[r], p');
    forall u | c.tree.Node(u) ensures MergeOk(c, s'.proc[u]) {
      assert MergeOk(c, s.proc[u]);
    }
    forall k | c.tree.Node(k) && k != r ensures LinkOk(c, s', k) && LastOk(c, s', k) {
      ListsStayLinked(c, s, s', k);
      RootMergeLast(c, s, s', p', k);
    }
    forall m | m in s'.down ensures m.0 != r && !Before(c.st, m.1, p'.last) {
      if m in s.down {
        NoWorseOrder(c, p'.last, s.proc[r].last, m.1);
      } else {
        RelaysAre(c, r, p'.last, m);
        BeforeOrders(c.st, m.1, m.1, m.1);
      }
    }
  }

  /** The receiver of a `lastSolId`, and its children, are up to date with what is on its way. */
  lemma TakeLastOk(c: Setup, s: System, s': System, m: (int, SolId), k: int)
    requires Flow(c, s) && TakesLast(c, s, s', m) && Sized(c, s') && c.tree.Node(k) && k != c.tree.root
    ensures LastOk(c, s', k)
  {
    var v, p := m.0, c.tree.parent[k];
    var now := s'.proc[v].last;
    assert LastOk(c, s, k) && c.tree.KidOk(p, c.tree.number[k]);
    BetterIs(c, m.1, s.proc[v].last);
    if p == v {
      RelayReaches(c, v, now, k);
      BeforeOrders(c.st, now, now, now);
      assert (k, now) in s'.down;
    } else if k == v {
      ReceiverIsOk(c, s, s', m);
    } else if Before(c.st, s.proc[p].last, s.proc[k].last) {
      var x :| x in s.down && x.0 == k && !Before(c.st, s.proc[p].last, x.1);
      assert x in s'.down;
    }
  }

  lemma ReceiverIsOk(c: Setup, s: System, s': System, m: (int, SolId))
    requires Flow(c, s) && TakesLast(c, s, s', m) && Sized(c, s') && c.tree.parent[m.0] != m.0
    ensures m.0 != c.tree.root && LastOk(c, s', m.0)
  {
    var v := m.0;
    var above, now := s.proc[c.tree.parent[v]].last, s'.proc[v].last;
    assert LastOk(c, s, v);
    BetterIs(c, m.1, s.proc[v].last);
    if !Before(c.st, above, s.proc[v].last) {
      NoWorseOrder(c, now, s.proc[v].last, above);
    } else {
      var x :| x in s.down && x.0 == v && !Before(c.st, above, x.1);
      if x == m {
        NoWorseOrder(c, now, m.1, above);
      } else {
        assert x in s'.down;
      }
    }
  }

  lemma TakeLastDown(c: Setup, s: System, s': System, m: (int, SolId), x: (int, SolId))
    requires Flow(c, s) && TakesLast(c, s, s', m) && x in s'.down
    ensures x.0 != c.tree.root && !Before(c.st, x.1, s.proc[c.tree.root].last)
  {
    var v := m.0;
    BetterIs(c, m.1, s.proc[v].last);
    if x !in s.down {
      RelaysAre(c, v, s'.proc[v].last, x);
      assert LastOk(c, s, v);
    }
  }

  lemma TakeLastMerges(c: Setup, s: System, s': System, m: (int, SolId))
    requires Flow(c, s) && TakesLast(c, s, s', m) && Sized(c, s')
    ensures forall u | c.tree.Node(u) :: MergeOk(c, s'.proc[u])
    ensures SameLists(c, s, s') && s'.proc[c.tree.root] == s.proc[c.tree.root]
  {
    forall u | c.tree.Node(u) ensures MergeOk(c, s'.proc[u]) {
      assert MergeOk(c, s.proc[u]);
    }
  }

  lemma TakeLastFlows(c: Setup, s: System, s': System, m: (int, SolId))
    requires Flow(c, s) && TakesLast(c, s, s', m) && Sized(c, s')
    ensures Flow(c, s')
  {
    TakeLastMerges(c, s, s', m);
    forall k | c.tree.Node(k) && k != c.tree.root ensures LinkOk(c, s', k) && LastOk(c, s', k) {
      ListsStayLinked(c, s, s', k);
      TakeLastOk(c, s, s', m, k);
    }
    forall x | x in s'.down ensures x.0 != c.tree.root && !Before(c.st, x.1, s'.proc[c.tree.root].last) {
      TakeLastDown(c, s, s', m, x);
    }
  }
}
