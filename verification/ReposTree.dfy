/** Synchronizing the repository lists up their tree, as `syncReposArrays` in `pbEnumerate.cpp` does. */
module ReposTree {
  import opened BinaryHeap
  import opened DonorNumbering
  import opened Fathoming
  import opened Pooling
  import opened ReposMerge
  import opened Sums
  import opened TreeTopology
  import opened TreeWave

  // ---------- Only one list is the best ----------

  lemma SubsetSameSize<T>(a: multiset<T>, b: multiset<T>)
    requires a <= b && |a| >= |b|
    ensures a == b
  {
    assert b == a + (b - a);
    assert |b - a| == 0;
  }

  lemma SwapPartner<T>(a: multiset<T>, b: multiset<T>) returns (x: T, y: T)
    requires |a| == |b| && a != b
    ensures a[x] > b[x] && b[y] > a[y]
  {
    if a <= b {
      SubsetSameSize(a, b);
    }
    if b <= a {
      SubsetSameSize(b, a);
    }
    x :| a[x] > b[x];
    y :| b[y] > a[y];
  }

  lemma SameMembers(st: Settings, all: multiset<SolId>, r: seq<SolId>, q: seq<SolId>, enumCount: int)
    requires IsBest(st, all, r, enumCount) && IsBest(st, all, q, enumCount)
    ensures multiset(r) == multiset(q)
  {
    if multiset(r) != multiset(q) {
      assert |multiset(r)| == |multiset(q)|;
      var x, y := SwapPartner(multiset(r), multiset(q));
      assert x in r && x in all - multiset(q) && y in q && y in all - multiset(r);
      BeforeOrders(st, x, y, x);
      assert false;
    }
  }

  lemma {:induction false} SortedIsUnique(st: Settings, r: seq<SolId>, q: seq<SolId>)
    requires SortedIds(st, r) && SortedIds(st, q) && multiset(r) == multiset(q)
    ensures r == q
  {
    if r == [] {
      assert |q| == |multiset(q)| == 0;
    } else {
      assert |q| == |multiset(q)| == |multiset(r)| == |r|;
      FirstIsSame(st, r, q);
      assert r == [r[0]] + r[1..] && q == [q[0]] + q[1..];
      assert multiset(r[1..]) == multiset(r) - multiset{r[0]} == multiset(q[1..]);
      SortedIsUnique(st, r[1..], q[1..]);
    }
  }

  lemma FirstIsSame(st: Settings, r: seq<SolId>, q: seq<SolId>)
    requires SortedIds(st, r) && SortedIds(st, q) && multiset(r) == multiset(q) && r != [] && q != []
    ensures r[0] == q[0]
  {
    assert r[0] in multiset(q) && q[0] in multiset(r);
    var i := SomeIndex(q, r[0]);
    var j := SomeIndex(r, q[0]);
    BeforeOrders(st, r[0], q[0], r[0]);
  }

  /** The merged list does not depend on how the merge is done. */
  lemma BestIsUnique(st: Settings, all: multiset<SolId>, r: seq<SolId>, q: seq<SolId>, enumCount: int)
    requires IsBest(st, all, r, enumCount) && IsBest(st, all, q, enumCount)
    ensures r == q
  {
    SameMembers(st, all, r, q, enumCount);
    SortedIsUnique(st, r, q);
  }

  // ---------- Cutting off early loses nothing ----------

  /** If something cut off below would be better than something kept above, all of `b` has been kept. */
  lemma KeptAll(st: Settings, a: multiset<SolId>, b: seq<SolId>, r: seq<SolId>, enumCount: int, x: SolId, y: SolId)
    requires IsBest(st, a + multiset(b), r, enumCount)
    requires forall z | z in b :: !Before(st, x, z)
    requires y in r && Before(st, x, y)
    ensures multiset(b) <= multiset(r)
  {
    forall z ensures multiset(b)[z] <= multiset(r)[z] {
      if multiset(b)[z] > multiset(r)[z] {
        assert z in b && z in a + multiset(b) - multiset(r);
        BeforeOrders(st, x, y, z);
        BeforeOrders(st, z, x, y);
        assert false;
      }
    }
  }

  lemma SubAssociates<T>(a: multiset<T>, bb: multiset<T>, b: multiset<T>, r: multiset<T>, x: T)
    requires b <= bb && r <= a + b && x in a + bb - r
    ensures x in a + b - r || x in bb - b
  {
    assert (a + bb - r)[x] == a[x] + bb[x] - r[x];
    assert (a + b - r)[x] == a[x] + b[x] - r[x];
  }

  /** Whatever was cut off below does not belong among the best. */
  lemma CutOffIsNoBetter(st: Settings, a: multiset<SolId>, bb: multiset<SolId>, b: seq<SolId>, r: seq<SolId>,
        enumCount: int, x: SolId, y: SolId)
    requires IsBest(st, bb, b, enumCount) && IsBest(st, a + multiset(b), r, enumCount)
    requires |r| == |b| && x in bb - multiset(b) && y in r
    ensures !Before(st, x, y)
  {
    assert y in multiset(r);
    if Before(st, x, y) {
      KeptAll(st, a, b, r, enumCount, x, y);
      assert |multiset(b)| == |b| && |multiset(r)| == |r|;
      SubsetSameSize(multiset(b), multiset(r));
      assert false;
    }
  }

  /** Merging with a list that was cut off gives the same as merging with everything. */
  lemma CutLosesNothing(st: Settings, a: multiset<SolId>, bb: multiset<SolId>, b: seq<SolId>, r: seq<SolId>, enumCount: int)
    requires IsBest(st, bb, b, enumCount) && IsBest(st, a + multiset(b), r, enumCount)
    ensures IsBest(st, a + bb, r, enumCount)
  {
    assert |multiset(b)| == |b| && |a + bb| == |a| + |bb| && |a + multiset(b)| == |a| + |b|;
    if |b| == |bb| {
      SubsetSameSize(multiset(b), bb);
    } else {
      assert multiset(r) <= a + bb;
      forall x, y | x in a + bb - multiset(r) && y in r ensures !Before(st, x, y) {
        SubAssociates(a, bb, multiset(b), multiset(r), x);
        if x in bb - multiset(b) {
          CutOffIsNoBetter(st, a, bb, b, r, enumCount, x, y);
        }
      }
    }
  }

  // ---------- The whole tree ----------

  /** What the first `i` children of `v` have sent. */
  ghost function SentByKids(t: Shape, res: seq<seq<SolId>>, v: int, i: nat): multiset<SolId>
    requires t.Ok() && t.Node(v) && |res| == t.size && i <= t.Degree(v)
  {
    if i == 0 then multiset{} else
      ChildOfParent(t, v, i - 1);
      SentByKids(t, res, v, i - 1) + multiset(res[t.ChildAt(v, i - 1)])
  }

  /** All identifiers in the repositories of `v` and of everything below it. */
  ghost function SubtreeIds(t: Shape, local: seq<seq<SolId>>, v: int): multiset<SolId>
    requires t.Ok() && t.Node(v) && |local| == t.size
    decreases t.size - t.Rel(v), 1, 0
  {
    multiset(local[v]) + KidIds(t, local, v, t.Degree(v))
  }

  ghost function KidIds(t: Shape, local: seq<seq<SolId>>, v: int, i: nat): multiset<SolId>
    requires t.Ok() && t.Node(v) && |local| == t.size && (i > 0 ==> i <= t.Degree(v))
    decreases t.size - t.Rel(v), 0, i
  {
    if i == 0 then multiset{} else
      KidIsFurther(t, v, i - 1);
      KidIds(t, local, v, i - 1) + SubtreeIds(t, local, t.ChildAt(v, i - 1))
  }

  lemma KidIsFurther(t: Shape, v: int, i: int)
    requires t.Ok() && t.Node(v) && 0 <= i < t.Degree(v)
    ensures t.Node(t.ChildAt(v, i)) && t.Below(v, t.ChildAt(v, i))
    ensures t.Rel(v) < t.Rel(t.ChildAt(v, i)) < t.size
  {
    ChildOfParent(t, v, i);
    ParentIsCloser(t, t.ChildAt(v, i));
    RelIsPosition(t, t.ChildAt(v, i));
  }

  /** Every processor has merged its own list with what its children sent. */
  ghost predicate MergedAt(st: Settings, t: Shape, local: seq<seq<SolId>>, res: seq<seq<SolId>>, enumCount: int, v: int)
    requires t.Ok() && |local| == |res| == t.size && t.Node(v)
  {
    IsBest(st, multiset(local[v]) + SentByKids(t, res, v, t.Degree(v)), res[v], enumCount)
  }

  lemma SumTurned<T>(a: multiset<T>, b: multiset<T>, c: multiset<T>)
    ensures a + b + c == a + (c + b)
  {
  }

  ghost function Kid(t: Shape, v: int, i: nat): (c: int)
    requires t.Ok() && t.Node(v) && i < t.Degree(v)
    ensures t.Node(c) && t.Rel(v) < t.Rel(c) < t.size
  {
    KidIsFurther(t, v, i);
    t.ChildAt(v, i)
  }

  /** Under the property `best`, `a` may be exchanged for `b`. */
  ghost predicate Exchangeable(best: multiset<SolId> -> bool, a: multiset<SolId>, b: multiset<SolId>) {
    forall own :: best(own + a) ==> best(own + b)
  }

  lemma ExchangeLast(best: multiset<SolId> -> bool, own: multiset<SolId>, front: multiset<SolId>, a: multiset<SolId>,
        b: multiset<SolId>)
    requires Exchangeable(best, a, b) && best(own + (front + a))
    ensures best(own + b + front)
  {
    SumRegroup(own, front, a);
    assert best(own + front + b);
    SumSwap(own, front, b);
  }

  lemma {:induction false} ExchangeAll(best: multiset<SolId> -> bool, t: Shape, local: seq<seq<SolId>>,
        res: seq<seq<SolId>>, v: int, i: nat, own: multiset<SolId>)
    requires t.Ok() && |local| == |res| == t.size && t.Node(v) && i <= t.Degree(v)
    requires forall j: nat | j < i :: Exchangeable(best, multiset(res[Kid(t, v, j)]), SubtreeIds(t, local, Kid(t, v, j)))
    requires best(own + SentByKids(t, res, v, i))
    ensures best(own + KidIds(t, local, v, i))
  {
    if i > 0 {
      var c := Kid(t, v, i - 1);
      var ids := SubtreeIds(t, local, c);
      ExchangeLast(best, own, SentByKids(t, res, v, i - 1), multiset(res[c]), ids);
      ExchangeAll(best, t, local, res, v, i - 1, own + ids);
      SumTurned(own, ids, KidIds(t, local, v, i - 1));
    }
  }

  ghost function Best(st: Settings, r: seq<SolId>, enumCount: int): multiset<SolId> -> bool {
    (all: multiset<SolId>) => IsBest(st, all, r, enumCount)
  }

  /** One child's list may be replaced by all the identifiers below that child. */
  lemma ListForIds(st: Settings, r: seq<SolId>, enumCount: int, list: seq<SolId>, ids: multiset<SolId>)
    requires IsBest(st, ids, list, enumCount)
    ensures Exchangeable(Best(st, r, enumCount), multiset(list), ids)
  {
    forall own | IsBest(st, own + multiset(list), r, enumCount) ensures IsBest(st, own + ids, r, enumCount) {
      CutLosesNothing(st, own, ids, list, r, enumCount);
    }
  }

  /** Each processor ends up with the best of its whole subtree. */
  lemma {:induction false} SubtreeBest(st: Settings, t: Shape, local: seq<seq<SolId>>, res: seq<seq<SolId>>,
        enumCount: int, v: int)
    requires t.Ok() && |local| == |res| == t.size && t.Node(v)
    requires forall w | t.Node(w) && t.Rel(w) >= t.Rel(v) :: MergedAt(st, t, local, res, enumCount, w)
    ensures IsBest(st, SubtreeIds(t, local, v), res[v], enumCount)
    decreases t.size - t.Rel(v)
  {
    RelIsPosition(t, v);
    forall j: nat | j < t.Degree(v)
      ensures Exchangeable(Best(st, res[v], enumCount), multiset(res[Kid(t, v, j)]), SubtreeIds(t, local, Kid(t, v, j)))
    {
      var c := Kid(t, v, j);
      SubtreeBest(st, t, local, res, enumCount, c);
      ListForIds(st, res[v], enumCount, res[c], SubtreeIds(t, local, c));
    }
    assert MergedAt(st, t, local, res, enumCount, v);
    ExchangeAll(Best(st, res[v], enumCount), t, local, res, v, t.Degree(v), multiset(local[v]));
    assert Best(st, res[v], enumCount)(SubtreeIds(t, local, v));
  }

  // ---------- The subtree of the root is everything ----------

  ghost function ListBag(): seq<SolId> -> multiset<SolId> { (s: seq<SolId>) => multiset(s) }

  /** All identifiers in all repositories. */
  ghost function AllIds(local: seq<seq<SolId>>): multiset<SolId> { Pooled(ListBag(), local) }

  /** How often each processor holds `x`. */
  ghost function CountsOf(local: seq<seq<SolId>>, x: SolId): (r: seq<int>)
    ensures |r| == |local| && forall v | 0 <= v < |local| :: r[v] == multiset(local[v])[x]
  {
    seq(|local|, v requires 0 <= v < |local| => multiset(local[v])[x])
  }

  ghost predicate CountedAt(t: Shape, local: seq<seq<SolId>>, x: SolId, count: seq<int>, w: int)
    requires t.Ok() && t.Node(w) && |local| == |count| == t.size
  {
    SubtreeIds(t, local, w)[x] == TreeWave.Under(t, count, w)
  }

  lemma {:induction false} KidsCounted(t: Shape, local: seq<seq<SolId>>, x: SolId, count: seq<int>, v: int, i: nat)
    requires t.Ok() && t.Node(v) && |local| == |count| == t.size && i <= t.Degree(v)
    requires forall j: nat | j < i :: CountedAt(t, local, x, count, Kid(t, v, j))
    ensures KidIds(t, local, v, i)[x] == Earlier(t, count, v, i)
  {
    if i > 0 {
      KidsCounted(t, local, x, count, v, i - 1);
      assert CountedAt(t, local, x, count, Kid(t, v, i - 1));
    }
  }

  lemma {:induction false} SubtreeCounted(t: Shape, local: seq<seq<SolId>>, x: SolId, v: int)
    requires t.Ok() && t.Node(v) && |local| == t.size
    ensures SubtreeIds(t, local, v)[x] == TreeWave.Under(t, CountsOf(local, x), v)
    decreases t.size - t.Rel(v)
  {
    RelIsPosition(t, v);
    forall j: nat | j < t.Degree(v) ensures CountedAt(t, local, x, CountsOf(local, x), Kid(t, v, j)) {
      SubtreeCounted(t, local, x, Kid(t, v, j));
    }
    KidsCounted(t, local, x, CountsOf(local, x), v, t.Degree(v));
    ChildrenMakeSubtree(t, CountsOf(local, x), v);
  }

  lemma {:induction false} AllCounted(local: seq<seq<SolId>>, x: SolId, n: nat)
    requires n <= |local|
    ensures AllIds(local[..n])[x] == Sum(n, InputAt(CountsOf(local, x)))
  {
    if n > 0 {
      AllCounted(local, x, n - 1);
      assert local[..n] == local[..n - 1] + [local[n - 1]];
      PooledPush(ListBag(), local[..n - 1], local[n - 1]);
    }
  }

  lemma RootHasAll(t: Shape, local: seq<seq<SolId>>)
    requires t.Ok() && |local| == t.size
    ensures SubtreeIds(t, local, t.root) == AllIds(local)
  {
    forall x ensures SubtreeIds(t, local, t.root)[x] == AllIds(local)[x] {
      SubtreeCounted(t, local, x, t.root);
      RootSum(t, CountsOf(local, x));
      AllCounted(local, x, t.size);
      assert local[..t.size] == local;
    }
  }

  /** Merging bottom-up with truncation leaves the root with exactly the best of all repositories. */
  lemma RootHoldsBest(st: Settings, t: Shape, local: seq<seq<SolId>>, res: seq<seq<SolId>>, enumCount: int)
    requires t.Ok() && |local| == |res| == t.size
    requires forall w | t.Node(w) :: MergedAt(st, t, local, res, enumCount, w)
    ensures IsBest(st, AllIds(local), res[t.root], enumCount)
  {
    SubtreeBest(st, t, local, res, enumCount, t.root);
    RootHasAll(t, local);
  }

  /** The shape and the root of the tree do not matter: any tree gives the same list at its root. */
  lemma TreeDoesNotMatter(st: Settings, t: Shape, u: Shape, local: seq<seq<SolId>>, res: seq<seq<SolId>>,
        res': seq<seq<SolId>>, enumCount: int)
    requires t.Ok() && u.Ok() && |local| == |res| == |res'| == t.size == u.size
    requires forall w | t.Node(w) :: MergedAt(st, t, local, res, enumCount, w)
    requires forall w | u.Node(w) :: MergedAt(st, u, local, res', enumCount, w)
    ensures res[t.root] == res'[u.root]
  {
    RootHoldsBest(st, t, local, res, enumCount);
    RootHoldsBest(st, u, local, res', enumCount);
    BestIsUnique(st, AllIds(local), res[t.root], res'[u.root], enumCount);
  }

  // ---------- The code ----------

  lemma OneMoreList(tree: seq<Cursor>, own: multiset<SolId>, sent: multiset<SolId>, list: seq<SolId>)
    requires ReposMerge.Remaining(tree) == own + sent
    ensures ReposMerge.Remaining(tree + [Cursor(list, 0)]) == own + (sent + multiset(list))
  {
    PooledPush(RestOf(), tree, Cursor(list, 0));
    WholeList(list);
    SumRegroup(own, sent, multiset(list));
  }

  /** The merge heap of a processor, with all cursors reset: its own list and one list for each child. */
  method FillMergeHeap(t: Shape, v: int, localReposArray: seq<SolId>, res: seq<seq<SolId>>, heap: Heap<Cursor>)
    requires t.Ok() && t.Node(v) && |res| == t.size && heap.Valid()
    modifies heap
    ensures forall c | c in heap.tree :: c.pos == 0 && (c.list == localReposArray || c.list in res)
    ensures ReposMerge.Remaining(heap.tree) == multiset(localReposArray) + SentByKids(t, res, v, t.Degree(v))
  {
    heap.tree := [Cursor(localReposArray, 0)];
    PooledPush(RestOf(), [], Cursor(localReposArray, 0));
    WholeList(localReposArray);
    var child := 0;
    while child < t.Degree(v)
      invariant 0 <= child <= t.Degree(v)
      invariant forall c | c in heap.tree :: c.pos == 0 && (c.list == localReposArray || c.list in res)
      invariant ReposMerge.Remaining(heap.tree) == multiset(localReposArray) + SentByKids(t, res, v, child)
    {
      KidIsFurther(t, v, child);
      var list := res[t.ChildAt(v, child)];
      OneMoreList(heap.tree, multiset(localReposArray), SentByKids(t, res, v, child), list);
      heap.tree := heap.tree + [Cursor(list, 0)];
      child := child + 1;
    }
  }

  lemma WholeList(list: seq<SolId>)
    ensures Rest(Cursor(list, 0)) == multiset(list)
  {
    assert list[0..] == list;
  }

  lemma SentUnchanged(t: Shape, res: seq<seq<SolId>>, v: int, w: int, list: seq<SolId>, i: nat)
    requires t.Ok() && t.Node(v) && t.Node(w) && |res| == t.size && i <= t.Degree(w) && t.Rel(v) <= t.Rel(w)
    ensures SentByKids(t, res[v := list], w, i) == SentByKids(t, res, w, i)
  {
    if i > 0 {
      KidIsFurther(t, w, i - 1);
      SentUnchanged(t, res, v, w, list, i - 1);
    }
  }

  lemma EarlierMergesStand(st: Settings, t: Shape, local: seq<seq<SolId>>, res: seq<seq<SolId>>, enumCount: int, v: int,
        list: seq<SolId>)
    requires t.Ok() && |local| == |res| == t.size && t.Node(v)
    requires forall w | t.Node(w) && t.Rel(w) > t.Rel(v) :: MergedAt(st, t, local, res, enumCount, w)
    requires IsBest(st, multiset(local[v]) + SentByKids(t, res, v, t.Degree(v)), list, enumCount)
    ensures forall w | t.Node(w) && t.Rel(w) >= t.Rel(v) :: MergedAt(st, t, local, res[v := list], enumCount, w)
  {
    forall w | t.Node(w) && t.Rel(w) >= t.Rel(v) ensures MergedAt(st, t, local, res[v := list], enumCount, w) {
      SentUnchanged(t, res, v, w, list, t.Degree(w));
      if t.Rel(w) == t.Rel(v) {
        SamePosition(t, v, w);
      }
    }
  }

  /** All calls of `syncReposArrays`: a processor merges once its children have sent their lists. */
  method SyncReposArrays(st: Settings, t: Shape, local: seq<seq<SolId>>, enumCount: int) returns (res: seq<seq<SolId>>)
    requires t.Ok() && |local| == t.size && forall s | s in local :: SortedIds(st, s)
    ensures |res| == t.size && IsBest(st, AllIds(local), res[t.root], enumCount)
    ensures forall v | t.Node(v) :: IsBest(st, SubtreeIds(t, local, v), res[v], enumCount)
  {
    res := seq(t.size, _ => []);
    var k := t.size;
    forall w | t.Node(w) ensures t.Rel(w) < t.size {
      RelIsPosition(t, w);
    }
    while k > 0
      invariant 0 <= k <= t.size && |res| == t.size
      invariant forall s | s in res :: SortedIds(st, s)
      invariant forall w | t.Node(w) && t.Rel(w) >= k :: MergedAt(st, t, local, res, enumCount, w)
    {
      k := k - 1;
      PositionIsRel(t, k);
      var v := TruncMod(k + t.root, t.size);
      HeapOrderIsWeakOrder(st);
      var heap := new Heap<Cursor>(HeapOrder(st));
      FillMergeHeap(t, v, local[v], res, heap);
      var list := ReposArrayMerge(st, heap, enumCount, ReposMerge.Remaining(heap.tree));
      EarlierMergesStand(st, t, local, res, enumCount, v, list);
      res := res[v := list];
    }
    RootHoldsBest(st, t, local, res, enumCount);
    forall v | t.Node(v) ensures IsBest(st, SubtreeIds(t, local, v), res[v], enumCount) {
      SubtreeBest(st, t, local, res, enumCount, v);
    }
  }
}
