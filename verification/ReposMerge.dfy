/** Merging sorted lists of solution identifiers up the repository tree, as in `pbEnumerate.cpp`. */
module ReposMerge {
  import opened BinaryHeap
  import opened Fathoming
  import opened Pooling

  datatype SolId = SolId(value: real, serial: int, owner: int)

  /** `solutionIdentifier::compare` with processors: `a` comes before `b`. */
  predicate Before(st: Settings, a: SolId, b: SolId) {
    if a.value != b.value then st.Signed(a.value) < st.Signed(b.value)
    else if a.serial != b.serial then a.serial < b.serial
    else a.owner < b.owner
  }

  lemma BeforeOrders(st: Settings, a: SolId, b: SolId, c: SolId)
    ensures !Before(st, a, a) && (Before(st, a, b) ==> !Before(st, b, a))
    ensures !Before(st, a, b) && !Before(st, b, a) ==> a == b
    ensures !Before(st, b, a) && !Before(st, c, b) ==> !Before(st, c, a)
  {
  }

  lemma NotBeforeMeans(st: Settings, a: SolId, b: SolId)
    requires !Before(st, a, b)
    ensures st.Signed(b.value) <= st.Signed(a.value)
  {
  }

  ghost predicate SortedIds(st: Settings, s: seq<SolId>) {
    forall i, j | 0 <= i < j < |s| :: !Before(st, s[j], s[i])
  }

  /** The lists are cut off at `enumCount` if that criterion is in use. */
  function Cut(enumCount: int, n: nat): nat { if enumCount > 1 && n > enumCount then enumCount else n }

  /** `r` is, in order, the best `enumCount` of `all`, or all of them if there are fewer. */
  ghost predicate IsBest(st: Settings, all: multiset<SolId>, r: seq<SolId>, enumCount: int) {
    && SortedIds(st, r) && multiset(r) <= all && |r| == Cut(enumCount, |all|)
    && forall x, y | x in all - multiset(r) && y in r :: !Before(st, x, y)
  }

  /** What that means: better values first, then lower serial numbers, then lower ranks; and nothing left out would have
      to come before anything listed. */
  lemma BestExactly(st: Settings, all: multiset<SolId>, r: seq<SolId>, enumCount: int)
    ensures IsBest(st, all, r, enumCount) <==>
            && multiset(r) <= all && |r| == (if enumCount > 1 && |all| > enumCount then enumCount else |all|)
            && (forall i, j | 0 <= i < j < |r| ::
                  || st.Signed(r[i].value) < st.Signed(r[j].value)
                  || (r[i].value == r[j].value
                      && (r[i].serial < r[j].serial || (r[i].serial == r[j].serial && r[i].owner <= r[j].owner))))
            && (forall x, y | x in all - multiset(r) && y in r ::
                  || st.Signed(y.value) < st.Signed(x.value)
                  || (y.value == x.value && (y.serial < x.serial || (y.serial == x.serial && y.owner <= x.owner))))
  {
  }

  // ---------- The merge of one node ----------

  /** A list with a cursor, as it sits in the merge heap. */
  datatype Cursor = Cursor(list: seq<SolId>, pos: nat) {
    predicate Done() { pos >= |list| }
  }

  /** Lists that are used up come last. */
  predicate Ahead(st: Settings, a: Cursor, b: Cursor) {
    if a.Done() || b.Done() then !a.Done() && b.Done() else Before(st, a.list[a.pos], b.list[b.pos])
  }

  function HeapOrder(st: Settings): (Cursor, Cursor) -> bool { (a: Cursor, b: Cursor) => Ahead(st, a, b) }

  lemma HeapOrderIsWeakOrder(st: Settings)
    ensures WeakOrder(HeapOrder(st))
  {
    var better := HeapOrder(st);
    forall x, y, z | !better(x, y) && !better(y, z) ensures !better(x, z) {
      if !x.Done() && !y.Done() && !z.Done() {
        BeforeOrders(st, z.list[z.pos], y.list[y.pos], x.list[x.pos]);
      }
    }
    forall x, y | better(x, y) ensures !better(y, x) {
      if !x.Done() && !y.Done() {
        BeforeOrders(st, x.list[x.pos], y.list[y.pos], x.list[x.pos]);
      }
    }
  }

  ghost function Rest(c: Cursor): multiset<SolId> { if c.Done() then multiset{} else multiset(c.list[c.pos..]) }

  ghost function RestOf(): Cursor -> multiset<SolId> { (c: Cursor) => Rest(c) }

  /** What the lists in the heap still hold. */
  ghost function Remaining(t: seq<Cursor>): multiset<SolId> { Pooled(RestOf(), t) }

  ghost predicate AllSorted(st: Settings, t: seq<Cursor>) {
    forall c | c in multiset(t) :: SortedIds(st, c.list)
  }

  /** The head of the top list is the best identifier that is left. */
  lemma TopHeadIsBest(st: Settings, t: seq<Cursor>, x: SolId)
    requires WeakOrder(HeapOrder(st)) && Ordered(HeapOrder(st), t, 1) && AllSorted(st, t) && x in Remaining(t)
    ensures t != [] && !Member(t, 1).Done() && !Before(st, x, Member(t, 1).list[Member(t, 1).pos])
  {
    var i := PooledFrom(RestOf(), t, x);
    var c := t[i];
    TopIsBest(HeapOrder(st), t, i + 1);
    assert Member(t, i + 1) == c && c in multiset(t);
    var j :| 0 <= j < |c.list[c.pos..]| && c.list[c.pos..][j] == x;
    assert x == c.list[c.pos + j];
    var head := Member(t, 1).list[Member(t, 1).pos];
    BeforeOrders(st, x, x, x);
    BeforeOrders(st, head, c.list[c.pos], x);
  }

  function Advance(c: Cursor): Cursor { c.(pos := c.pos + 1) }

  lemma AdvanceRest(c: Cursor)
    requires !c.Done()
    ensures Rest(c) == Rest(Advance(c)) + multiset{c.list[c.pos]}
  {
    assert c.list[c.pos..] == [c.list[c.pos]] + c.list[c.pos + 1..];
  }

  /** What has been put out is the best there was, in order. */
  ghost predicate MergedSoFar(st: Settings, all: multiset<SolId>, out: seq<SolId>, t: seq<Cursor>) {
    && SortedIds(st, out) && all == multiset(out) + Remaining(t)
    && forall x, y | x in Remaining(t) && y in out :: !Before(st, x, y)
  }

  lemma MoveOne<T>(a: multiset<T>, b: multiset<T>, c: multiset<T>)
    ensures a + (b + c) == a + b + c
  {
  }

  /** Replacing the top list by itself one further takes its head out of what remains. */
  lemma TopAdvanced(t: seq<Cursor>, u: seq<Cursor>)
    requires t != [] && !Member(t, 1).Done()
    requires multiset(u) == multiset(t) - multiset{Member(t, 1)} + multiset{Advance(Member(t, 1))}
    ensures Remaining(t) == Remaining(u) + multiset{Member(t, 1).list[Member(t, 1).pos]}
  {
    var top, rest := Member(t, 1), t[1..];
    assert t == [top] + rest && WithoutAt(t, 0) == rest;
    assert multiset(rest + [Advance(top)]) == multiset(u);
    PooledSame(RestOf(), u, rest + [Advance(top)]);
    PooledPush(RestOf(), rest, Advance(top));
    PooledWithout(RestOf(), t, 0);
    AdvanceRest(top);
    MoveOne(Remaining(rest), Rest(Advance(top)), multiset{top.list[top.pos]});
  }

  lemma OutputGrows(st: Settings, all: multiset<SolId>, out: seq<SolId>, t: seq<Cursor>, u: seq<Cursor>, head: SolId)
    requires MergedSoFar(st, all, out, t) && Remaining(t) == Remaining(u) + multiset{head}
    requires forall x | x in Remaining(t) :: !Before(st, x, head)
    ensures MergedSoFar(st, all, out + [head], u)
  {
    assert head in Remaining(t);
    assert forall x | x in Remaining(u) :: x in Remaining(t);
  }

  /** `reposArrayMerge`: pulls identifiers out of the heap of lists until `outputSize` are there. */
  method ReposArrayMerge(st: Settings, heap: Heap<Cursor>, enumCount: int, ghost all: multiset<SolId>)
    returns (treeReposArray: seq<SolId>)
    requires forall c | c in heap.tree :: c.pos == 0 && SortedIds(st, c.list)
    requires all == Remaining(heap.tree)
    modifies heap
    ensures IsBest(st, all, treeReposArray, enumCount)
  {
    var outputSize := TotalSize(heap.tree);
    if enumCount > 1 && outputSize > enumCount {
      outputSize := enumCount;
    }
    HeapOrderIsWeakOrder(st);
    ghost var before := heap.tree;
    heap.better := HeapOrder(st);
    heap.Reheapify();
    PooledSame(RestOf(), before, heap.tree);
    assert AllSorted(st, heap.tree) by {
      assert forall c | c in multiset(heap.tree) :: c in multiset(before) && c in before;
    }
    treeReposArray := [];
    var i := 0;
    while i < outputSize
      invariant 0 <= i <= outputSize && |treeReposArray| == i
      invariant heap.Valid() && heap.better == HeapOrder(st) && AllSorted(st, heap.tree)
      invariant MergedSoFar(st, all, treeReposArray, heap.tree)
    {
      var head := TakeHead(st, heap, all, treeReposArray);
      treeReposArray := treeReposArray + [head];
      i := i + 1;
    }
    assert all - multiset(treeReposArray) == Remaining(heap.tree);
  }

  /** Takes the head off the top list and lets the list sink to its place. */
  method TakeHead(st: Settings, heap: Heap<Cursor>, ghost all: multiset<SolId>, ghost out: seq<SolId>) returns (head: SolId)
    requires heap.Valid() && heap.better == HeapOrder(st) && AllSorted(st, heap.tree)
    requires MergedSoFar(st, all, out, heap.tree) && |out| < |all|
    modifies heap
    ensures heap.Valid() && heap.better == HeapOrder(st) && AllSorted(st, heap.tree)
    ensures MergedSoFar(st, all, out + [head], heap.tree)
  {
    ghost var before := heap.tree;
    assert |Remaining(before)| > 0;
    ghost var some :| some in Remaining(before);
    TopHeadIsBest(st, before, some);
    forall x | x in Remaining(before) ensures !Before(st, x, Member(before, 1).list[Member(before, 1).pos]) {
      TopHeadIsBest(st, before, x);
    }
    var top := Member(heap.tree, 1);
    head := top.list[top.pos];
    var _ := heap.SwapTop(Advance(top));
    TopAdvanced(before, heap.tree);
    OutputGrows(st, all, out, before, heap.tree, head);
    assert top in multiset(before);
  }

  method TotalSize(t: seq<Cursor>) returns (n: nat)
    requires forall c | c in t :: c.pos == 0
    ensures n == |Remaining(t)|
  {
    n := 0;
    var i := 0;
    while i < |t|
      invariant 0 <= i <= |t| && n == |Remaining(t[..i])|
    {
      assert t[i] in t && t[i].list[0..] == t[i].list;
      assert t[..i + 1][..i] == t[..i];
      n := n + |t[i].list|;
      i := i + 1;
    }
    assert t[..i] == t;
  }
}
