/** The repository as `branching.cpp` keeps it: a heap with the worst solution on top, and a hash table
    of lists in hash order to find doubles. */
module SolutionStore {
  import opened Fathoming
  import opened BinaryHeap
  import opened Repository

  /** The heap is kept in reverse order. */
  function ReverseOrder<S>(st: Settings): (Solution<S>, Solution<S>) -> bool {
    (a: Solution<S>, b: Solution<S>) => Compare(st, a.id, b.id) > 0
  }

  lemma ReverseIsWeakOrder<S(!new)>(st: Settings)
    ensures WeakOrder(ReverseOrder<S>(st))
  {
    var better := ReverseOrder<S>(st);
    forall x, y | better(x, y) ensures !better(y, x) {
      CompareOrders(st, x.id, y.id, x.id);
      CompareOrders(st, y.id, x.id, y.id);
    }
    forall x, y, z | !better(x, y) && !better(y, z) ensures !better(x, z) {
      CompareOrders(st, x.id, y.id, z.id);
    }
  }

  ghost function SetOf<T(!new)>(t: seq<T>): set<T> { set x | x in t }

  ghost predicate NoRepeats<T(!new)>(t: seq<T>) { forall x :: multiset(t)[x] <= 1 }

  lemma SizeOfSet<T(!new)>(t: seq<T>)
    requires NoRepeats(t)
    ensures |SetOf(t)| == |t|
  {
    forall x ensures multiset(SetOf(t))[x] == multiset(t)[x] {
      assert x in t <==> x in multiset(t);
    }
    assert multiset(SetOf(t)) == multiset(t);
  }

  /** One list of the table: all entries belong there, in hash order, none twice. */
  ghost predicate ListOk<S(!new)>(hash: S -> nat, size: nat, list: seq<Solution<S>>, w: nat)
    requires size > 0
  {
    && (forall i | 0 <= i < |list| :: hash(list[i].contents) % size == w)
    && (forall i, j | 0 <= i < j < |list| :: hash(list[i].contents) <= hash(list[j].contents) && list[i] != list[j])
  }

  ghost predicate TableOk<S(!new)>(hash: S -> nat, size: nat, table: seq<seq<Solution<S>>>, held: set<Solution<S>>) {
    && size > 0 && |table| == size
    && (forall w | 0 <= w < size :: ListOk(hash, size, table[w], w))
    && (forall x :: x in held <==> x in table[hash(x.contents) % size])
  }

  /** The list without `x`. */
  function Without<T(==)>(list: seq<T>, x: T): (r: seq<T>) {
    if list == [] then [] else if list[0] == x then list[1..] else [list[0]] + Without(list[1..], x)
  }

  /** Looks for a double of `sol` in its list, giving up once the hashes are too large; without one,
      `cursor` is where `sol` belongs. */
  method FindPlace<S(!new,==)>(hash: S -> nat, list: seq<Solution<S>>, contents: S) returns (cursor: nat, double: bool)
    requires forall i, j | 0 <= i < j < |list| :: hash(list[i].contents) <= hash(list[j].contents)
    ensures double <==> exists x :: x in list && x.contents == contents
    ensures cursor <= |list|
    ensures !double ==> (forall i | 0 <= i < cursor :: hash(list[i].contents) <= hash(contents))
                        && (forall i | cursor <= i < |list| :: hash(contents) < hash(list[i].contents))
  {
    cursor, double := 0, false;
    while cursor < |list|
      invariant cursor <= |list| && !double
      invariant forall i | 0 <= i < cursor :: hash(list[i].contents) <= hash(contents) && list[i].contents != contents
    {
      var cursorHash := hash(list[cursor].contents);
      if cursorHash > hash(contents) {
        break;
      } else if cursorHash == hash(contents) && list[cursor].contents == contents {
        assert list[cursor] in list;
        return cursor, true;
      }
      cursor := cursor + 1;
    }
  }

  lemma InsertKeepsList<S(!new)>(hash: S -> nat, size: nat, list: seq<Solution<S>>, w: nat, c: nat, sol: Solution<S>)
    requires size > 0 && ListOk(hash, size, list, w) && c <= |list| && sol !in list
    requires hash(sol.contents) % size == w
    requires forall i | 0 <= i < c :: hash(list[i].contents) <= hash(sol.contents)
    requires forall i | c <= i < |list| :: hash(sol.contents) < hash(list[i].contents)
    ensures ListOk(hash, size, list[..c] + [sol] + list[c..], w)
    ensures forall x :: x in list[..c] + [sol] + list[c..] <==> x == sol || x in list
  {
    InsertMembers(list, c, sol);
    var r := list[..c] + [sol] + list[c..];
    assert forall i | 0 <= i < |r| :: r[i] == if i < c then list[i] else if i == c then sol else list[i - 1];
  }

  lemma InsertMembers<T>(list: seq<T>, c: nat, x: T)
    requires c <= |list|
    ensures forall y :: y in list[..c] + [x] + list[c..] <==> y == x || y in list
  {
    assert list == list[..c] + list[c..];
  }

  lemma {:induction false} WithoutKeepsList<S(!new)>(hash: S -> nat, size: nat, list: seq<Solution<S>>, w: nat,
                                                     x: Solution<S>)
    requires size > 0 && ListOk(hash, size, list, w)
    ensures ListOk(hash, size, Without(list, x), w)
    ensures forall y :: y in Without(list, x) <==> y in list && y != x
  {
    if list != [] {
      var first, rest := list[0], list[1..];
      assert forall i | 0 <= i < |rest| :: rest[i] == list[i + 1];
      assert forall y :: y in list <==> y == first || y in rest;
      if first == x {
        assert x !in rest;
      } else {
        WithoutKeepsList(hash, size, rest, w, x);
        var r := Without(rest, x);
        assert forall i | 0 <= i < |r| :: r[i] in r;
        assert forall y | y in rest :: hash(first.contents) <= hash(y.contents) && first != y;
      }
    }
  }

  lemma InsertKeepsTable<S(!new)>(hash: S -> nat, size: nat, table: seq<seq<Solution<S>>>, held: set<Solution<S>>,
                                  c: nat, sol: Solution<S>)
    requires TableOk(hash, size, table, held) && sol !in held
    requires var list := table[hash(sol.contents) % size];
             && c <= |list|
             && (forall i | 0 <= i < c :: hash(list[i].contents) <= hash(sol.contents))
             && (forall i | c <= i < |list| :: hash(sol.contents) < hash(list[i].contents))
    ensures var w := hash(sol.contents) % size;
            TableOk(hash, size, table[w := table[w][..c] + [sol] + table[w][c..]], held + {sol})
  {
    var w := hash(sol.contents) % size;
    InsertKeepsList(hash, size, table[w], w, c, sol);
  }

  lemma RemoveKeepsTable<S(!new)>(hash: S -> nat, size: nat, table: seq<seq<Solution<S>>>, held: set<Solution<S>>,
                                  x: Solution<S>)
    requires TableOk(hash, size, table, held)
    ensures var w := hash(x.contents) % size; TableOk(hash, size, table[w := Without(table[w], x)], held - {x})
  {
    var w := hash(x.contents) % size;
    WithoutKeepsList(hash, size, table[w], w, x);
  }

  /** What pruning tests is upward closed in the order of the heap. */
  lemma ReposFathomUpward(st: Settings, inc: real, last: SolutionId, x: SolutionId, y: SolutionId)
    requires st.Ok() && !RelTrap(st) && Compare(st, x, y) <= 0 && CanFathomFromRepository(st, inc, last, x)
    ensures CanFathomFromRepository(st, inc, last, y) || Cut(st, y.value)
  {
    CompareOrders(st, x, y, y);
    if st.enumRelTol >= 0.0 && BeyondRelative(st.enumRelTol, st.Signed(inc), st.Signed(x.value)) {
      RelativeUpward(st, st.Signed(inc), st.Signed(x.value), st.Signed(y.value));
      Unsigned(st, y.value);
    }
    if Compare(st, last, x) < 0 {
      CompareOrders(st, last, x, y);
      CompareOrders(st, x, y, last);
      CompareOrders(st, y, last, x);
    }
  }

  lemma TopIsWorst<S(!new)>(st: Settings, t: seq<Solution<S>>)
    requires t != [] && Ordered(ReverseOrder(st), t, 1)
    ensures IsWorst(st, SetOf(t), Member(t, 1))
  {
    ReverseIsWeakOrder<S>(st);
    forall x | x in SetOf(t) ensures Compare(st, x.id, Member(t, 1).id) <= 0 {
      var k :| 0 <= k < |t| && t[k] == x;
      TopIsBest(ReverseOrder(st), t, k + 1);
      assert Member(t, k + 1) == x;
    }
  }

  lemma Added<T(!new)>(t: seq<T>, u: seq<T>, x: T)
    requires NoRepeats(t) && x !in t && multiset(u) == multiset(t) + multiset{x}
    ensures NoRepeats(u) && SetOf(u) == SetOf(t) + {x}
  {
    assert forall y :: y in u <==> y in multiset(u);
  }

  lemma Removed<T(!new)>(t: seq<T>, u: seq<T>, x: T)
    requires NoRepeats(t) && multiset(t) == multiset(u) + multiset{x}
    ensures NoRepeats(u) && SetOf(u) == SetOf(t) - {x} && x in t
  {
    assert forall y :: y in u <==> y in multiset(u);
    assert forall y :: y in t <==> y in multiset(t);
    assert multiset(t)[x] == 1;
    assert forall y :: multiset(u)[y] <= multiset(t)[y];
  }

  class Store<S(!new,==)> {
    const st: Settings
    const hash: S -> nat
    const enumHashSize: nat
    const reposHeap: Heap<Solution<S>>
    var reposTable: seq<seq<Solution<S>>>
    var lastSolId: SolutionId

    ghost function Held(): set<Solution<S>>
      reads this, reposHeap
    {
      SetOf(reposHeap.tree)
    }

    ghost function View(): Repo<S>
      reads this, reposHeap
    {
      Repo(Held(), lastSolId)
    }

    ghost predicate Valid()
      reads this, reposHeap
    {
      && reposHeap.Valid() && reposHeap.better == ReverseOrder(st) && NoRepeats(reposHeap.tree)
      && TableOk(hash, enumHashSize, reposTable, Held())
    }

    constructor (st: Settings, hash: S -> nat, enumHashSize: nat, maxInt: int)
      requires enumHashSize > 0
      ensures Valid() && fresh(reposHeap) && View() == Repo({}, SolutionId(st.Signed(st.maxDouble), maxInt))
      ensures this.st == st && this.hash == hash && this.enumHashSize == enumHashSize
    {
      this.st, this.hash, this.enumHashSize := st, hash, enumHashSize;
      ReverseIsWeakOrder<S>(st);
      reposHeap := new Heap(ReverseOrder(st));
      reposTable := seq(enumHashSize, i => []);
      lastSolId := SolutionId(st.Signed(st.maxDouble), maxInt);
    }

    method LocalReposOffer(sol: Solution<S>, inc: real) returns (accepted: bool)
      requires Valid()
      modifies this`reposTable, reposHeap
      ensures Valid()
      ensures LocalOffer(st, Progress(inc, lastSolId.value), old(Held()), sol, Held(), accepted)
    {
      if CanFathom(st, Progress(inc, lastSolId.value), sol.id.value) {
        return false;
      }
      var whichList := hash(sol.contents) % enumHashSize;
      var cursor, double := FindPlace(hash, reposTable[whichList], sol.contents);
      assert double <==> Holds(Held(), sol.contents);
      if double {
        return false;
      }
      InsertKeepsTable(hash, enumHashSize, reposTable, Held(), cursor, sol);
      reposTable := reposTable[whichList := reposTable[whichList][..cursor] + [sol] + reposTable[whichList][cursor..]];
      PutOnHeap(sol);
      accepted := true;
    }

    /** Puts `sol`, already in the table, on the heap; a full heap gives up its worst solution. */
    method PutOnHeap(sol: Solution<S>)
      requires reposHeap.Valid() && reposHeap.better == ReverseOrder(st) && NoRepeats(reposHeap.tree)
      requires sol !in Held() && TableOk(hash, enumHashSize, reposTable, Held() + {sol})
      modifies this`reposTable, reposHeap
      ensures Valid() && Admitted(st, old(Held()), sol, Held())
    {
      SizeOfSet(reposHeap.tree);
      if st.enumCount > 0 && |reposHeap.tree| == st.enumCount {
        SwapOutWorst(sol);
      } else {
        ghost var before := reposHeap.tree;
        reposHeap.Insert(sol);
        Added(before, reposHeap.tree, sol);
      }
    }

    /** Puts `sol`, already in the table, on the heap in place of the worst solution. */
    method SwapOutWorst(sol: Solution<S>)
      requires reposHeap.Valid() && reposHeap.better == ReverseOrder(st) && NoRepeats(reposHeap.tree)
      requires sol !in Held() && TableOk(hash, enumHashSize, reposTable, Held() + {sol}) && reposHeap.tree != []
      modifies this`reposTable, reposHeap
      ensures Valid()
      ensures exists w :: IsWorst(st, old(Held()), w) && Held() == old(Held()) - {w} + {sol}
    {
      ghost var before := reposHeap.tree;
      TopIsWorst(st, before);
      var oldTop := reposHeap.SwapTop(sol);
      ghost var between := before[1..];
      assert before == [oldTop] + between;
      Removed(before, between, oldTop);
      Added(between, reposHeap.tree, sol);
      RemoveKeepsTable(hash, enumHashSize, reposTable, SetOf(before) + {sol}, oldTop);
      var whichList := hash(oldTop.contents) % enumHashSize;
      reposTable := reposTable[whichList := Without(reposTable[whichList], oldTop)];
      assert SetOf(before) + {sol} - {oldTop} == SetOf(before) - {oldTop} + {sol};
    }

    method RemoveWorstInRepos() returns (w: Solution<S>)
      requires Valid() && reposHeap.tree != []
      modifies this`reposTable, reposHeap
      ensures Valid() && IsWorst(st, old(Held()), w) && Held() == old(Held()) - {w}
      ensures |reposHeap.tree| == |old(reposHeap.tree)| - 1
    {
      ghost var before := reposHeap.tree;
      TopIsWorst(st, before);
      w := reposHeap.Extract(1);
      Removed(before, reposHeap.tree, w);
      RemoveKeepsTable(hash, enumHashSize, reposTable, SetOf(before), w);
      var whichList := hash(w.contents) % enumHashSize;
      reposTable := reposTable[whichList := Without(reposTable[whichList], w)];
    }

    /** Offers a solution and tells whether pruning has become necessary. */
    method OfferToRepository(sol: Solution<S>, inc: real) returns (needPruning: bool)
      requires Valid()
      modifies this`reposTable, this`lastSolId, reposHeap
      ensures Valid() && Offer(st, inc, old(View()), sol, View(), needPruning)
    {
      needPruning := false;
      var accepted := LocalReposOffer(sol, inc);
      SizeOfSet(reposHeap.tree);
      ghost var held, last := Held(), lastSolId;
      if accepted && st.enumCount > 1 && |reposHeap.tree| == st.enumCount {
        var oldPruneValue := lastSolId.value;
        TopIsWorst(st, reposHeap.tree);
        var worst := Member(reposHeap.tree, 1);
        if Compare(st, lastSolId, worst.id) > 0 {
          lastSolId := worst.id;
        }
        if lastSolId.value != oldPruneValue {
          needPruning := true;
        }
      }
      assert accepted ==> LastUpdated(st, held, last, lastSolId);
    }

    method PruneRepository(inc: real)
      requires Valid() && st.Ok() && !RelTrap(st) && forall x | x in Held() :: !Cut(st, x.id.value)
      modifies this`reposTable, reposHeap
      ensures Valid() && Pruned(st, inc, old(View()), View())
    {
      while |reposHeap.tree| > 0 && CanFathomFromRepository(st, inc, lastSolId, Member(reposHeap.tree, 1).id)
        invariant Valid()
        invariant Held() <= old(Held())
        invariant forall x | x in old(Held()) && x !in Held() :: CanFathomFromRepository(st, inc, lastSolId, x.id)
        decreases |reposHeap.tree|
      {
        TopIsWorst(st, reposHeap.tree);
        ghost var top := Member(reposHeap.tree, 1);
        ghost var before := Held();
        var w := RemoveWorstInRepos();
        CompareOrders(st, top.id, w.id, w.id);
        ReposFathomUpward(st, inc, lastSolId, top.id, w.id);
      }
      if |reposHeap.tree| > 0 {
        TopIsWorst(st, reposHeap.tree);
        forall x | x in Held() ensures !CanFathomFromRepository(st, inc, lastSolId, x.id) {
          if CanFathomFromRepository(st, inc, lastSolId, x.id) {
            ReposFathomUpward(st, inc, lastSolId, x.id, Member(reposHeap.tree, 1).id);
          }
        }
      }
    }
  }
}
