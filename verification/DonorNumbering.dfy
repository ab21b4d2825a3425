/** The counting wave of `loadBal.cpp`: it numbers the clusters that may give or take work. */
module DonorNumbering {
  import opened Sums
  import opened TreeTopology
  import opened TreeWave

  /** The counts of the first `i` children of `v`, as they are subtracted in turn. */
  ghost function Earlier(t: Shape, count: seq<int>, v: int, i: nat): int
    requires t.Ok() && t.Node(v) && |count| == t.size && i <= t.Degree(v)
  {
    if i == 0 then 0 else Earlier(t, count, v, i - 1) + Under(t, count, t.ChildAt(v, i - 1))
  }

  /** The number handed to `v`: the total at the root, and what the parent has left when it comes to `v`. */
  ghost function Given(t: Shape, count: seq<int>, v: int): int
    requires t.Ok() && t.Node(v) && |count| == t.size
    decreases t.Rel(v)
  {
    if v == t.root then Under(t, count, v)
    else
      ParentIsCloser(t, v);
      ParentOfChild(t, v);
      var p := t.Parent(v);
      Given(t, count, p) - count[p] - Earlier(t, count, p, t.WhichChild(v))
  }

  /** What `downRelayAction` and the relay loop send, given the counts the children reported. */
  method NumberChildren(subTreeCount0: int, own: int, childCount: seq<int>) returns (myID: int, childBuf: seq<int>)
    ensures myID == subTreeCount0 && |childBuf| == |childCount|
    ensures forall i | 0 <= i < |childCount| :: childBuf[i] == subTreeCount0 - own - Total(childCount[..i])
  {
    var subTreeCount := subTreeCount0;
    myID := subTreeCount;
    subTreeCount := subTreeCount - own;
    childBuf := [];
    var i := 0;
    while i < |childCount|
      invariant 0 <= i <= |childCount| == |childBuf| + |childCount| - i
      invariant subTreeCount == subTreeCount0 - own - Total(childCount[..i])
      invariant forall j | 0 <= j < i :: childBuf[j] == subTreeCount0 - own - Total(childCount[..j])
    {
      childBuf := childBuf + [subTreeCount];
      assert childCount[..i + 1][..i] == childCount[..i];
      subTreeCount := subTreeCount - childCount[i];
      i := i + 1;
    }
  }

  function Total(s: seq<int>): int { if s == [] then 0 else Total(s[..|s| - 1]) + s[|s| - 1] }

  /** With the reported counts these are the numbers of the children. */
  lemma {:induction false} ReportedTotal(t: Shape, count: seq<int>, v: int, childCount: seq<int>, i: nat)
    requires t.Ok() && t.Node(v) && |count| == t.size && |childCount| == t.Degree(v) && i <= |childCount|
    requires forall j | 0 <= j < |childCount| :: childCount[j] == Under(t, count, t.ChildAt(v, j))
    ensures Total(childCount[..i]) == Earlier(t, count, v, i)
    ensures i < t.Degree(v) ==>
              && t.Node(t.ChildAt(v, i))
              && Given(t, count, t.ChildAt(v, i)) == Given(t, count, v) - count[v] - Total(childCount[..i])
  {
    if i > 0 {
      ReportedTotal(t, count, v, childCount, i - 1);
      assert childCount[..i][..i - 1] == childCount[..i - 1];
    }
    if i < t.Degree(v) {
      ChildOfParent(t, v, i);
    }
  }

  ghost function FirstKids(t: Shape, v: int, i: nat): set<int>
    requires t.Ok()
  {
    if i == 0 then {} else FirstKids(t, v, i - 1) + {t.ChildAt(v, i - 1)}
  }

  lemma {:induction false} KidsInOrder(t: Shape, v: int, i: nat)
    requires t.Ok() && t.Node(v) && i <= t.Degree(v)
    ensures forall w | w in FirstKids(t, v, i) :: w in Children(t, v) && t.WhichChild(w) < i
    ensures forall w | w in Children(t, v) && t.WhichChild(w) < i :: w in FirstKids(t, v, i)
  {
    if i > 0 {
      KidsInOrder(t, v, i - 1);
      ChildOfParent(t, v, i - 1);
      forall w | w in Children(t, v) && t.WhichChild(w) == i - 1 ensures w == t.ChildAt(v, i - 1) {
        ParentOfChild(t, w);
      }
    } else {
      forall w | w in Children(t, v) ensures t.WhichChild(w) >= 0 {
        ParentOfChild(t, w);
      }
    }
  }

  lemma NextKidIsNew(t: Shape, v: int, i: nat)
    requires t.Ok() && t.Node(v) && 0 < i <= t.Degree(v)
    ensures FirstKids(t, v, i - 1) <= Children(t, v)
    ensures t.ChildAt(v, i - 1) in Children(t, v) && t.ChildAt(v, i - 1) !in FirstKids(t, v, i - 1)
  {
    KidsInOrder(t, v, i - 1);
    ChildOfParent(t, v, i - 1);
  }

  /** What `v` and its first `i` children have below them. */
  ghost function SoFar(t: Shape, count: seq<int>, v: int, i: nat): int
    requires t.Ok() && |count| == t.size
  {
    SumSoFar(t, count, v, FirstKids(t, v, i))
  }

  lemma SoFarStart(t: Shape, count: seq<int>, v: int)
    requires t.Ok() && t.Node(v) && |count| == t.size
    ensures SoFar(t, count, v, 0) == count[v]
  {
    SumAlone(t, count, v);
  }

  lemma SoFarStep(t: Shape, count: seq<int>, v: int, i: nat)
    requires t.Ok() && t.Node(v) && |count| == t.size && i < t.Degree(v)
    ensures SoFar(t, count, v, i + 1) == SoFar(t, count, v, i) + Under(t, count, t.ChildAt(v, i))
  {
    NextKidIsNew(t, v, i + 1);
    SumTakes(t, count, v, FirstKids(t, v, i), t.ChildAt(v, i));
  }

  lemma EarlierStep(t: Shape, count: seq<int>, v: int, i: nat)
    requires t.Ok() && t.Node(v) && |count| == t.size && i < t.Degree(v)
    requires count[v] + Earlier(t, count, v, i) == SoFar(t, count, v, i)
    ensures count[v] + Earlier(t, count, v, i + 1) == SoFar(t, count, v, i + 1)
  {
    SoFarStep(t, count, v, i);
  }

  lemma {:induction false} EarlierIsSoFar(t: Shape, count: seq<int>, v: int, i: nat)
    requires t.Ok() && t.Node(v) && |count| == t.size && i <= t.Degree(v)
    ensures count[v] + Earlier(t, count, v, i) == SoFar(t, count, v, i)
  {
    if i == 0 {
      SoFarStart(t, count, v);
    } else {
      EarlierIsSoFar(t, count, v, i - 1);
      EarlierStep(t, count, v, i - 1);
    }
  }

  /** The counts of all children and one's own make up the subtree. */
  lemma ChildrenMakeSubtree(t: Shape, count: seq<int>, v: int)
    requires t.Ok() && t.Node(v) && |count| == t.size
    ensures count[v] + Earlier(t, count, v, t.Degree(v)) == Under(t, count, v)
  {
    EarlierIsSoFar(t, count, v, t.Degree(v));
    KidsInOrder(t, v, t.Degree(v));
    forall w | w in Children(t, v) ensures t.WhichChild(w) < t.Degree(v) {
      ParentOfChild(t, w);
    }
    assert FirstKids(t, v, t.Degree(v)) == Children(t, v);
    SumComplete(t, count, v);
  }

  ghost predicate Counts(t: Shape, count: seq<int>) {
    t.Ok() && |count| == t.size && forall v | t.Node(v) :: 0 <= count[v] <= 1
  }

  lemma UnderNotNegative(t: Shape, count: seq<int>, v: int)
    requires Counts(t, count)
    ensures Under(t, count, v) >= 0
  {
    SumZero(t.size, UnderTerm(t, count, v), 0);
  }

  lemma {:induction false} EarlierGrows(t: Shape, count: seq<int>, v: int, i: nat, j: nat)
    requires Counts(t, count) && t.Node(v) && i <= j <= t.Degree(v)
    ensures Earlier(t, count, v, i) <= Earlier(t, count, v, j)
    ensures i < j ==> Earlier(t, count, v, i) + Under(t, count, t.ChildAt(v, i)) <= Earlier(t, count, v, j)
    decreases j
  {
    if i < j {
      EarlierGrows(t, count, v, i, j - 1);
      UnderNotNegative(t, count, t.ChildAt(v, j - 1));
    }
  }

  /** A child gets the next stretch of its parent's numbers, below those of its earlier siblings. */
  lemma ChildStretch(t: Shape, count: seq<int>, v: int, c: int)
    requires Counts(t, count) && t.Node(v) && t.Node(c) && t.Below(v, c)
    ensures Given(t, count, c) <= Given(t, count, v) - count[v]
    ensures Given(t, count, v) - Under(t, count, v) <= Given(t, count, c) - Under(t, count, c)
  {
    ParentOfChild(t, c);
    var i := t.WhichChild(c);
    EarlierGrows(t, count, v, 0, i);
    EarlierGrows(t, count, v, i, t.Degree(v));
    ChildrenMakeSubtree(t, count, v);
  }

  lemma SiblingStretches(t: Shape, count: seq<int>, v: int, c: int, d: int)
    requires Counts(t, count) && t.Node(v) && t.Node(c) && t.Node(d) && t.Below(v, c) && t.Below(v, d)
    requires t.WhichChild(c) < t.WhichChild(d)
    ensures Given(t, count, d) <= Given(t, count, c) - Under(t, count, c)
  {
    ParentOfChild(t, c);
    ParentOfChild(t, d);
    EarlierGrows(t, count, v, t.WhichChild(c), t.WhichChild(d));
  }

  /** Everything below `v` is numbered within the stretch of `v`. */
  lemma {:induction false} SubtreeStretch(t: Shape, count: seq<int>, v: int, w: int)
    requires Counts(t, count) && t.Node(v) && t.Node(w) && t.Above(v, w)
    ensures Given(t, count, v) - Under(t, count, v) <= Given(t, count, w) - Under(t, count, w)
    ensures Given(t, count, w) <= Given(t, count, v) - if v == w then 0 else count[v]
    decreases t.Rel(w)
  {
    if v != w {
      ParentIsCloser(t, w);
      var p := t.Parent(w);
      ChildStretch(t, count, p, w);
      SubtreeStretch(t, count, v, p);
    }
  }

  lemma UnderAtLeastOwn(t: Shape, count: seq<int>, v: int)
    requires Counts(t, count) && t.Node(v)
    ensures Under(t, count, v) >= count[v]
  {
    ChildrenMakeSubtree(t, count, v);
    EarlierGrows(t, count, v, 0, t.Degree(v));
  }

  /** Different clusters that count get different numbers. */
  lemma {:induction false} NumbersDiffer(t: Shape, count: seq<int>, v: int, u: int, w: int)
    requires Counts(t, count) && t.Node(v) && t.Node(u) && t.Node(w) && t.Above(v, u) && t.Above(v, w)
    requires u != w && count[u] == 1 && count[w] == 1
    ensures Given(t, count, u) != Given(t, count, w)
    decreases t.size - t.Rel(v)
  {
    if u == v {
      SubtreeStretch(t, count, v, w);
    } else if w == v {
      SubtreeStretch(t, count, v, u);
    } else {
      var c := AboveViaChild(t, v, u);
      var d := AboveViaChild(t, v, w);
      if c == d {
        RelIsPosition(t, c);
        ParentIsCloser(t, c);
        NumbersDiffer(t, count, c, u, w);
      } else {
        DifferentChildren(t, count, v, c, d, u, w);
      }
    }
  }

  lemma DifferentChildren(t: Shape, count: seq<int>, v: int, c: int, d: int, u: int, w: int)
    requires Counts(t, count) && t.Node(v) && t.Node(u) && t.Node(w) && t.Node(c) && t.Node(d)
    requires t.Below(v, c) && t.Below(v, d) && c != d && t.Above(c, u) && t.Above(d, w)
    requires count[u] == 1 && count[w] == 1
    ensures Given(t, count, u) != Given(t, count, w)
  {
    ParentOfChild(t, c);
    ParentOfChild(t, d);
    SubtreeStretch(t, count, c, u);
    SubtreeStretch(t, count, d, w);
    UnderAtLeastOwn(t, count, u);
    UnderAtLeastOwn(t, count, w);
    if t.WhichChild(c) < t.WhichChild(d) {
      SiblingStretches(t, count, v, c, d);
    } else {
      SiblingStretches(t, count, v, d, c);
    }
  }

  ghost function TotalCount(t: Shape, count: seq<int>): int
    requires t.Ok() && |count| == t.size
  {
    Sum(t.size, InputAt(count))
  }

  /** The numbers of the clusters that count are `1` to the total, each given once. */
  lemma NumbersAreOneToTotal(t: Shape, count: seq<int>, v: int)
    requires Counts(t, count) && t.Node(v) && count[v] == 1
    ensures 1 <= Given(t, count, v) <= TotalCount(t, count)
  {
    RootSum(t, count);
    RootAboveAll(t, v);
    SubtreeStretch(t, count, t.root, v);
    UnderAtLeastOwn(t, count, v);
  }

  lemma NumbersAreUnique(t: Shape, count: seq<int>, u: int, w: int)
    requires Counts(t, count) && t.Node(u) && t.Node(w) && count[u] == 1 && count[w] == 1 && u != w
    ensures Given(t, count, u) != Given(t, count, w)
  {
    RootAboveAll(t, u);
    RootAboveAll(t, w);
    NumbersDiffer(t, count, t.root, u, w);
  }

  // ---------- After the random rotation ----------

  /** `(myID + offset) % total`. */
  ghost function Rotated(t: Shape, count: seq<int>, offset: nat, v: int): int
    requires t.Ok() && t.Node(v) && |count| == t.size && TotalCount(t, count) > 0
  {
    (Given(t, count, v) + offset) % TotalCount(t, count)
  }

  lemma ModSeparates(a: int, b: int, m: int)
    requires m > 0 && a != b && -m < a - b < m
    ensures a % m != b % m
  {
    var q := a / m - b / m;
    assert a - b == m * q + (a % m - b % m);
    assert q >= 1 ==> m * q >= m;
    assert q <= -1 ==> m * q <= -m;
  }

  /** The rotated numbers are distinct and lie below the total. */
  lemma RotatedStaysUnique(t: Shape, count: seq<int>, offset: nat, u: int, w: int)
    requires Counts(t, count) && t.Node(u) && t.Node(w) && count[u] == 1 && count[w] == 1
    requires TotalCount(t, count) > 0
    ensures 0 <= Rotated(t, count, offset, u) < TotalCount(t, count)
    ensures u != w ==> Rotated(t, count, offset, u) != Rotated(t, count, offset, w)
  {
    NumbersAreOneToTotal(t, count, u);
    NumbersAreOneToTotal(t, count, w);
    if u != w {
      NumbersAreUnique(t, count, u, w);
      ModSeparates(Given(t, count, u) + offset, Given(t, count, w) + offset, TotalCount(t, count));
    }
  }

  lemma {:induction false} CountedPrefix(count: seq<int>, n: nat) returns (s: set<int>)
    requires n <= |count| && forall v | 0 <= v < |count| :: 0 <= count[v] <= 1
    ensures (forall v :: v in s <==> 0 <= v < n && count[v] == 1) && |s| == Sum(n, InputAt(count))
  {
    if n == 0 {
      s := {};
    } else {
      var rest := CountedPrefix(count, n - 1);
      s := if count[n - 1] == 1 then rest + {n - 1} else rest;
    }
  }

  ghost function RotatedAt(t: Shape, count: seq<int>, offset: nat): int -> int
    requires t.Ok() && |count| == t.size && TotalCount(t, count) > 0
  {
    v => if t.Node(v) then Rotated(t, count, offset, v) else -1
  }

  /** Every number below the total is taken by a cluster. */
  lemma EveryNumberTaken(t: Shape, count: seq<int>, offset: nat, k: int) returns (v: int)
    requires Counts(t, count) && 0 <= k < TotalCount(t, count)
    ensures t.Node(v) && count[v] == 1 && Rotated(t, count, offset, v) == k
  {
    var all := CountedPrefix(count, t.size);
    var f := RotatedAt(t, count, offset);
    forall u | u in all ensures 0 <= f(u) < TotalCount(t, count) {
      RotatedStaysUnique(t, count, offset, u, u);
    }
    forall u, w | u in all && w in all && u != w ensures f(u) != f(w) {
      RotatedStaysUnique(t, count, offset, u, w);
    }
    v := OneToOneIsOnto(all, f, TotalCount(t, count), k);
  }
}
