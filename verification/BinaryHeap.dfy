/** The binary heap of `AbstractHeap.h` and the pruning of the subproblem pool built on it. */
module BinaryHeap {

  /** Heap positions count from 1. */
  function Member<T>(t: seq<T>, i: int): T
    requires 1 <= i <= |t|
  {
    t[i - 1]
  }

  function Put<T>(t: seq<T>, i: int, x: T): (r: seq<T>)
    requires 1 <= i <= |t|
    ensures |r| == |t| && Member(r, i) == x
    ensures forall j | 1 <= j <= |t| && j != i :: Member(r, j) == Member(t, j)
  {
    t[i - 1 := x]
  }

  function Swap<T>(t: seq<T>, a: int, b: int): (r: seq<T>)
    requires 1 <= a <= |t| && 1 <= b <= |t|
    ensures |r| == |t| && Member(r, a) == Member(t, b) && Member(r, b) == Member(t, a)
    ensures forall j | 1 <= j <= |t| && j != a && j != b :: Member(r, j) == Member(t, j)
    ensures multiset(r) == multiset(t)
  {
    t[a - 1 := t[b - 1]][b - 1 := t[a - 1]]
  }

  /** `better` orders its items, up to ties. */
  ghost predicate WeakOrder<T(!new)>(better: (T, T) -> bool) {
    && (forall x, y :: better(x, y) ==> !better(y, x))
    && (forall x, y, z :: !better(x, y) && !better(y, z) ==> !better(x, z))
  }

  /** Whatever is no better than a fathomable item is fathomable. */
  ghost predicate UpwardClosed<T(!new)>(better: (T, T) -> bool, fathom: T -> bool) {
    forall x, y :: fathom(x) && !better(y, x) ==> fathom(y)
  }

  /** The item at `i` does not beat the one at `p`. */
  ghost predicate Under<T(!new)>(better: (T, T) -> bool, t: seq<T>, i: int, p: int) {
    1 <= i <= |t| && 1 <= p <= |t| ==> !better(Member(t, i), Member(t, p))
  }

  /** Heap order below the positions from `lo` on. */
  ghost predicate Ordered<T(!new)>(better: (T, T) -> bool, t: seq<T>, lo: int) {
    forall i | 2 <= i <= |t| && lo <= i / 2 :: Under(better, t, i, i / 2)
  }

  /** Heap order, except that the item at `e` may beat its parent. */
  ghost predicate MayRise<T(!new)>(better: (T, T) -> bool, t: seq<T>, e: int) {
    && (forall i | 2 <= i <= |t| && i != e :: Under(better, t, i, i / 2))
    && (forall i | 2 <= i <= |t| && i / 2 == e && 2 <= e :: Under(better, t, i, e / 2))
  }

  /** Heap order from `lo` on, except that the item at `e` may be beaten by its children. */
  ghost predicate MaySink<T(!new)>(better: (T, T) -> bool, t: seq<T>, lo: int, e: int) {
    && (forall i | 2 <= i <= |t| && lo <= i / 2 && i / 2 != e :: Under(better, t, i, i / 2))
    && (forall i | 2 <= i <= |t| && i / 2 == e && 2 <= e && lo <= e / 2 :: Under(better, t, i, e / 2))
  }

  lemma RiseStep<T(!new)>(better: (T, T) -> bool, t: seq<T>, e: int)
    requires WeakOrder(better) && 2 <= e <= |t| && MayRise(better, t, e)
    requires better(Member(t, e), Member(t, e / 2))
    ensures MayRise(better, Swap(t, e, e / 2), e / 2)
  {
    var r, p := Swap(t, e, e / 2), e / 2;
    forall i | 2 <= i <= |r| && i != p ensures Under(better, r, i, i / 2) {
      assert Under(better, t, i, i / 2) || i == e;
      if i / 2 == e {
        assert Under(better, t, i, p);
      }
      if i / 2 == p && i != e {
        assert Under(better, t, i, p);
      }
    }
    forall i | 2 <= i <= |r| && i / 2 == p && 2 <= p ensures Under(better, r, i, p / 2) {
      assert Under(better, t, p, p / 2);
      assert i != e ==> Under(better, t, i, p);
    }
  }

  lemma SinkStep<T(!new)>(better: (T, T) -> bool, t: seq<T>, lo: int, e: int, c: int)
    requires WeakOrder(better) && 1 <= lo <= e && 2 <= c <= |t| && c / 2 == e && MaySink(better, t, lo, e)
    requires !better(Member(t, e), Member(t, c))
    requires forall i | 2 <= i <= |t| && i / 2 == e :: Under(better, t, i, c)
    ensures MaySink(better, Swap(t, e, c), lo, c)
  {
    var r := Swap(t, e, c);
    forall i | 2 <= i <= |r| && lo <= i / 2 && i / 2 != c ensures Under(better, r, i, i / 2) {
      if i / 2 == e {
        assert Under(better, t, i, c);
      } else {
        assert Under(better, t, i, i / 2);
        if i == e {
          assert Under(better, t, c, e / 2);
        }
      }
    }
    forall i | 2 <= i <= |r| && i / 2 == c && lo <= c / 2 ensures Under(better, r, i, c / 2) {
      assert Under(better, t, i, i / 2);
    }
  }

  /** The top is at least as good as everything in the heap. */
  lemma {:induction false} TopIsBest<T(!new)>(better: (T, T) -> bool, t: seq<T>, i: int)
    requires WeakOrder(better) && Ordered(better, t, 1) && 1 <= i <= |t|
    ensures !better(Member(t, i), Member(t, 1))
  {
    if i > 1 {
      assert Under(better, t, i, i / 2);
      TopIsBest(better, t, i / 2);
    }
  }

  /** A fathomable item has a fathomable leaf below it. */
  lemma {:induction false} LeafBelow<T(!new)>(better: (T, T) -> bool, fathom: T -> bool, t: seq<T>, i: int)
    returns (j: int)
    requires WeakOrder(better) && UpwardClosed(better, fathom) && Ordered(better, t, 1)
    requires 1 <= i <= |t| && fathom(Member(t, i))
    ensures |t| / 2 < j <= |t| && fathom(Member(t, j))
    decreases |t| - i
  {
    if i <= |t| / 2 {
      assert Under(better, t, 2 * i, 2 * i / 2);
      j := LeafBelow(better, fathom, t, 2 * i);
    } else {
      j := i;
    }
  }

  /** Heap order, except that the item at `e` may be out of place either way. */
  ghost predicate MayMove<T(!new)>(better: (T, T) -> bool, t: seq<T>, e: int) {
    && (forall i | 2 <= i <= |t| && i != e && i / 2 != e :: Under(better, t, i, i / 2))
    && (forall i | 2 <= i <= |t| && i / 2 == e && 2 <= e :: Under(better, t, i, e / 2))
  }

  lemma HoleFilled<T(!new)>(better: (T, T) -> bool, t: seq<T>, e: int, u: seq<T>)
    requires WeakOrder(better) && Ordered(better, t, 1) && 1 <= e <= |u| && |u| == |t| - 1
    requires forall i | 1 <= i <= |u| && i != e :: Member(u, i) == Member(t, i)
    ensures MayMove(better, u, e)
  {
    forall i | 2 <= i <= |u| && i != e && i / 2 != e ensures Under(better, u, i, i / 2) {
      assert Under(better, t, i, i / 2);
    }
    forall i | 2 <= i <= |u| && i / 2 == e && 2 <= e ensures Under(better, u, i, e / 2) {
      assert Under(better, t, i, e) && Under(better, t, e, e / 2);
    }
  }

  lemma MoveUp<T(!new)>(better: (T, T) -> bool, t: seq<T>, e: int)
    requires WeakOrder(better) && MayMove(better, t, e) && 2 <= e <= |t| && better(Member(t, e), Member(t, e / 2))
    ensures MayRise(better, t, e)
  {
    forall i | 2 <= i <= |t| && i != e ensures Under(better, t, i, i / 2) {
      if i / 2 == e {
        assert Under(better, t, i, e / 2);
      }
    }
  }

  lemma MoveDown<T(!new)>(better: (T, T) -> bool, t: seq<T>, e: int)
    requires WeakOrder(better) && MayMove(better, t, e) && 1 <= e <= |t|
    requires e > 1 ==> !better(Member(t, e), Member(t, e / 2))
    ensures MaySink(better, t, 1, e)
  {
    forall i | 2 <= i <= |t| && i / 2 != e ensures Under(better, t, i, i / 2) {
      assert i != e ==> Under(better, t, i, i / 2);
    }
  }

  lemma DropLast<T>(t: seq<T>, u: seq<T>)
    requires |t| == |u| + 1 && u == t[..|u|]
    ensures multiset(t) == multiset(u) + multiset{t[|u|]}
  {
    assert t == u + [t[|u|]];
  }

  /** Moving the last item into the hole at `e` loses just the item that was there. */
  lemma FillHole<T>(t: seq<T>, e: int, u: seq<T>)
    requires 1 <= e < |t| && u == Put(t, e, Member(t, |t|))[..|t| - 1]
    ensures multiset(t) == multiset(u) + multiset{Member(t, e)}
    ensures forall i | 1 <= i <= |u| && i != e :: Member(u, i) == Member(t, i)
  {
    DropLast(Swap(t, e, |t|), u);
  }

  lemma ShorterStaysOrdered<T(!new)>(better: (T, T) -> bool, t: seq<T>, u: seq<T>)
    requires Ordered(better, t, 1) && u <= t
    ensures Ordered(better, u, 1)
  {
    forall i | 2 <= i <= |u| ensures Under(better, u, i, i / 2) {
      assert Under(better, t, i, i / 2);
    }
  }

  /** When no leaf can be fathomed, nothing in the heap can. */
  lemma NoneLeft<T(!new)>(better: (T, T) -> bool, fathom: T -> bool, t: seq<T>)
    requires WeakOrder(better) && UpwardClosed(better, fathom) && Ordered(better, t, 1)
    requires forall i | |t| / 2 < i <= |t| :: !fathom(Member(t, i))
    ensures forall x | x in multiset(t) :: !fathom(x)
  {
    forall x | x in multiset(t) ensures !fathom(x) {
      var k :| 0 <= k < |t| && t[k] == x;
      if fathom(Member(t, k + 1)) {
        var j := LeafBelow(better, fathom, t, k + 1);
      }
    }
  }

  class Heap<T(!new,==)> {
    var tree: seq<T>
    var better: (T, T) -> bool

    ghost predicate Valid()
      reads this
    {
      WeakOrder(better) && Ordered(better, tree, 1)
    }

    constructor (better: (T, T) -> bool)
      requires WeakOrder(better)
      ensures Valid() && tree == [] && this.better == better
    {
      this.better := better;
      tree := [];
    }

    method FloatUp(elem: int) returns (location: int)
      requires WeakOrder(better) && 1 <= elem <= |tree| && MayRise(better, tree, elem)
      modifies this`tree
      ensures Valid() && multiset(tree) == multiset(old(tree)) && |tree| == |old(tree)|
      ensures 1 <= location <= elem
      ensures forall i | elem < i <= |tree| :: Member(tree, i) == Member(old(tree), i)
      ensures location == elem ==> tree == old(tree)
    {
      location := elem;
      while location / 2 >= 1 && better(Member(tree, location), Member(tree, location / 2))
        invariant 1 <= location <= elem <= |tree| == |old(tree)|
        invariant MayRise(better, tree, location)
        invariant multiset(tree) == multiset(old(tree))
        invariant forall i | elem < i <= |tree| :: Member(tree, i) == Member(old(tree), i)
        invariant location == elem ==> tree == old(tree)
      {
        RiseStep(better, tree, location);
        tree := Swap(tree, location, location / 2);
        location := location / 2;
      }
      assert Under(better, tree, location, location / 2);
    }

    method SinkDown(elem: int, ghost lo: int)
      requires WeakOrder(better) && 1 <= lo <= elem <= |tree| && MaySink(better, tree, lo, elem)
      modifies this`tree
      ensures Ordered(better, tree, lo) && multiset(tree) == multiset(old(tree)) && |tree| == |old(tree)|
      ensures elem > |tree| / 2 ==> tree == old(tree)
    {
      var e := elem;
      while 2 * e <= |tree|
        invariant lo <= elem <= e <= |tree| == |old(tree)|
        invariant MaySink(better, tree, lo, e)
        invariant multiset(tree) == multiset(old(tree))
        invariant elem > |tree| / 2 ==> tree == old(tree)
        decreases |tree| - e
      {
        var child := 2 * e;
        if child < |tree| && better(Member(tree, child + 1), Member(tree, child)) {
          child := child + 1;
        }
        assert forall i | 2 <= i <= |tree| && i / 2 == e :: Under(better, tree, i, child) by {
          forall i | 2 <= i <= |tree| && i / 2 == e ensures Under(better, tree, i, child) {
            assert i == 2 * e || i == 2 * e + 1;
          }
        }
        if better(Member(tree, e), Member(tree, child)) {
          forall i | 2 <= i <= |tree| && i / 2 == e ensures Under(better, tree, i, e) {
            assert Under(better, tree, i, child);
          }
          return;
        }
        SinkStep(better, tree, lo, e, child);
        tree := Swap(tree, e, child);
        e := child;
      }
    }

    method Reheapify()
      requires WeakOrder(better)
      modifies this`tree
      ensures Valid() && multiset(tree) == multiset(old(tree)) && |tree| == |old(tree)|
    {
      var i := |tree| / 2;
      while i > 0
        invariant 0 <= i <= |tree| / 2 && |tree| == |old(tree)|
        invariant Ordered(better, tree, i + 1)
        invariant multiset(tree) == multiset(old(tree))
      {
        SinkDown(i, i);
        i := i - 1;
      }
    }

    method Insert(x: T)
      requires Valid()
      modifies this`tree
      ensures Valid() && multiset(tree) == multiset(old(tree)) + multiset{x} && |tree| == |old(tree)| + 1
    {
      ghost var before := tree;
      tree := tree + [x];
      DropLast(tree, before);
      forall i | 2 <= i <= |tree| && i != |tree| ensures Under(better, tree, i, i / 2) {
        assert Under(better, before, i, i / 2);
      }
      var _ := FloatUp(|tree|);
    }

    /** Takes out the item at `elem`; the last item fills the hole and finds its place. */
    method Extract(elem: int) returns (x: T)
      requires Valid() && 1 <= elem <= |tree|
      modifies this`tree
      ensures Valid() && x == Member(old(tree), elem) && |tree| == |old(tree)| - 1
      ensures multiset(old(tree)) == multiset(tree) + multiset{x}
      ensures elem > |old(tree)| / 2 ==> forall i | elem < i <= |tree| :: Member(tree, i) == Member(old(tree), i)
    {
      ghost var before := tree;
      x := Member(tree, elem);
      var used := |tree|;
      if elem < used {
        var last := Member(tree, used);
        tree := Put(tree, elem, last)[..used - 1];
        FillHole(before, elem, tree);
        HoleFilled(better, before, elem, tree);
        RefloatElement(elem);
      } else {
        tree := tree[..used - 1];
        DropLast(before, tree);
        ShorterStaysOrdered(better, before, tree);
      }
    }

    method RefloatElement(elem: int)
      requires WeakOrder(better) && 1 <= elem <= |tree| && MayMove(better, tree, elem)
      modifies this`tree
      ensures Valid() && multiset(tree) == multiset(old(tree)) && |tree| == |old(tree)|
      ensures elem > |tree| / 2 ==> forall i | elem < i <= |tree| :: Member(tree, i) == Member(old(tree), i)
    {
      var rises := elem > 1 && better(Member(tree, elem), Member(tree, elem / 2));
      ghost var before := tree;
      if rises {
        MoveUp(better, tree, elem);
        var _ := FloatUp(elem);
      } else {
        MoveDown(better, tree, elem);
        SinkDown(elem, 1);
      }
    }

    /** Replaces the top by `x` and returns the old top. */
    method SwapTop(x: T) returns (top: T)
      requires Valid() && tree != []
      modifies this`tree
      ensures Valid() && top == Member(old(tree), 1) && |tree| == |old(tree)|
      ensures multiset(tree) == multiset(old(tree)) - multiset{top} + multiset{x}
    {
      ghost var before := tree;
      top := Member(tree, 1);
      tree := Put(tree, 1, x);
      assert before == [top] + before[1..] && tree == [x] + before[1..];
      forall i | 2 <= i <= |tree| && i / 2 != 1 ensures Under(better, tree, i, i / 2) {
        assert Under(better, before, i, i / 2);
      }
      SinkDown(1, 1);
    }

    /** `heapPool::prune`: a backward scan of the last half of a shrinking array, after one reordering
        when the search leaves its initial dive.  It removes every fathomable item and no other. */
    method Prune(fathom: T -> bool, firstPrune: bool, after: (T, T) -> bool) returns (size: nat)
      requires if firstPrune then WeakOrder(after) else Valid() && after == better
      requires UpwardClosed(after, fathom)
      modifies this
      ensures Valid() && better == after && size == |tree|
      ensures forall x :: multiset(tree)[x] == if fathom(x) then 0 else multiset(old(tree))[x]
    {
      if firstPrune {
        better := after;
        Reheapify();
      }
      ghost var removed: multiset<T> := multiset{};
      var n := |tree|;
      while n > |tree| / 2
        invariant Valid() && better == after && 0 <= n <= |tree|
        invariant forall i | n < i <= |tree| :: !fathom(Member(tree, i))
        invariant multiset(old(tree)) == multiset(tree) + removed
        invariant forall x | x in removed :: fathom(x)
        decreases n + |tree|
      {
        if fathom(Member(tree, n)) {
          var x := Extract(n);
          removed := removed + multiset{x};
          if n > |tree| {
            n := |tree|;
          }
        } else {
          n := n - 1;
        }
      }
      NoneLeft(better, fathom, tree);
      size := |tree|;
    }
  }
}
