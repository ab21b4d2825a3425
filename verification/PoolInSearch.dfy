/** The pool of the search engine kept as the heap of `PoolPruning`: pruning the heap removes what the engine means. */
module PoolInSearch {
  import opened Application
  import opened BinaryHeap
  import opened Fathoming
  import opened PoolPruning
  import opened SearchEngine

  /** What the heap holds for the subproblems of the pool. */
  ghost function Infos<A(!new)>(info: Sub<A> -> SPInfo, pool: seq<Sub<A>>): (r: seq<SPInfo>)
    ensures |r| == |pool|
  {
    if pool == [] then [] else Infos(info, pool[..|pool| - 1]) + [info(pool[|pool| - 1])]
  }

  /** Every subproblem in the pool is alive, and the heap knows its bound. */
  ghost predicate Known<A(!new)>(info: Sub<A> -> SPInfo, pool: seq<Sub<A>>) {
    forall i | 0 <= i < |pool| :: pool[i].state != dead && info(pool[i]).bound == pool[i].bound
  }

  lemma {:induction false} UnfathomedInfos<A(!new)>(info: Sub<A> -> SPInfo, st: Settings, pr: Progress, pool: seq<Sub<A>>,
                                                  x: SPInfo)
    requires Known(info, pool)
    ensures multiset(Infos(info, Unfathomed(st, pr, pool)))[x]
            == if CanFathom(st, pr, x.bound) then 0 else multiset(Infos(info, pool))[x]
  {
    if pool != [] {
      var front, last := pool[..|pool| - 1], pool[|pool| - 1];
      var rest := Unfathomed(st, pr, front);
      UnfathomedInfos(info, st, pr, front, x);
      if !CanFathomSub(st, pr, last) {
        assert (rest + [last])[..|rest|] == rest;
        assert Infos(info, rest + [last]) == Infos(info, rest) + [info(last)];
      }
    }
  }

  /** `heapPool::prune` on the heap, and what is left is the heap of what the engine keeps. */
  method PruneSearchPool<A(!new)>(ghost info: Sub<A> -> SPInfo, ghost pool: seq<Sub<A>>, heap: Heap<SPInfo>, st: Settings,
                                pr: Progress, initialDive: bool, firstPrune: bool)
    returns (size: nat)
    requires st.Ok() && FathomsInOrder(st, pr) && Known(info, pool)
    requires multiset(heap.tree) == multiset(Infos(info, pool))
    requires !(initialDive && firstPrune) ==> heap.Valid() && heap.better == PoolOrder(st, false, false)
    modifies heap
    ensures heap.Valid() && heap.better == PoolOrder(st, false, false)
    ensures multiset(heap.tree) == multiset(Infos(info, Unfathomed(st, pr, pool)))
    ensures size == |Unfathomed(st, pr, pool)|
  {
    ghost var before := heap.tree;
    size := PrunePool(heap, st, pr, initialDive, firstPrune);
    ghost var kept := Infos(info, Unfathomed(st, pr, pool));
    forall x ensures multiset(heap.tree)[x] == multiset(kept)[x] {
      UnfathomedInfos(info, st, pr, pool, x);
    }
    assert multiset(heap.tree) == multiset(kept);
    assert |multiset(heap.tree)| == size && |multiset(kept)| == |kept|;
  }
}
