/** How the processors find out, while the search goes on, which solutions are the best `enumCount` of all their
    repositories: lists of identifiers merged up the repository tree whenever a processor sees fit, and
    `lastSolId` sent down it.  Messages from one processor to another stay in order going up; nothing else is
    assumed about when anything happens. */
module ReposAsync {
  import opened BinaryHeap
  import opened Fathoming
  import opened Pooling
  import opened RealSums
  import opened ReposMerge

  /** The repository tree: the children of every processor, in order, its parent and its number among the parent's
      children, all that is below it (with itself), and how far it is from the root. */
  datatype Tree = Tree(size: nat, root: int, kid: seq<seq<int>>, parent: seq<int>, number: seq<int>,
                       under: seq<set<int>>, rank: seq<nat>)
  {
    predicate Node(v: int) { 0 <= v < size }

    predicate Sized() {
      Node(root) && |kid| == |parent| == |number| == |under| == |rank| == size
    }

    ghost predicate KidOk(v: int, i: int)
      requires Sized() && Node(v) && 0 <= i < |kid[v]|
    {
      var k := kid[v][i];
      && Node(k) && k != root && parent[k] == v && number[k] == i && rank[v] < rank[k] <= size
      && under[k] <= under[v] && v !in under[k]
    }

    ghost predicate Ok() {
      && Sized()
      && (forall v, i | Node(v) && 0 <= i < |kid[v]| :: KidOk(v, i))
      && (forall v, i, j | Node(v) && 0 <= i < j < |kid[v]| && KidOk(v, i) && KidOk(v, j) ::
            under[kid[v][i]] !! under[kid[v][j]])
      && (forall k | Node(k) && k != root ::
            Node(parent[k]) && 0 <= number[k] < |kid[parent[k]]| && kid[parent[k]][number[k]] == k)
      && (forall v | Node(v) :: v in under[v] && forall w | w in under[v] :: Node(w))
    }

    ghost predicate Splits(v: int, w: int)
      requires Sized() && Node(v)
    {
      w == v || exists i :: 0 <= i < |kid[v]| && KidOk(v, i) && w in under[kid[v][i]]
    }

    /** All are below the root, and what is below a processor is below one of its children. */
    ghost predicate Whole()
      requires Sized()
    {
      && (forall v | Node(v) :: v in under[root])
      && (forall v, w | Node(v) && w in under[v] :: Splits(v, w))
    }
  }

  ghost function ListBag(): seq<SolId> -> multiset<SolId> { (s: seq<SolId>) => multiset(s) }

  /** A number stands for each solution; its hash value says which processor owns it. */
  datatype Setup = Setup(st: Settings, tree: Tree, value: int -> real, owner: int -> int, maxInt: int)
  {
    ghost predicate Ok() {
      && st.Ok() && st.enumCount >= 2 && tree.Ok()
      && forall x :: tree.Node(owner(x)) && Abs(value(x)) < st.maxDouble
    }

    /** `setWorstPossible`. */
    function Worst(): SolId { SolId(st.Signed(st.maxDouble), maxInt, tree.size) }
  }

  /** One processor: the identifiers in its repository, `parallelSolCounter`, the lists it merges and the merged one,
      `needReposMerge` and `lastSolId`. */
  datatype Proc = Proc(held: set<SolId>, counter: int, localArray: seq<SolId>, kids: seq<seq<SolId>>,
                       merged: seq<SolId>, need: bool, last: SolId)

  /** `up[k]` are the lists on their way from `k` to its parent, oldest first, and `down` the `lastSolId` values on
      their way; `admitted` (history) says which solution each identifier ever given in a repository stands for. */
  datatype System = System(proc: seq<Proc>, up: seq<seq<seq<SolId>>>, down: multiset<(int, SolId)>,
                           admitted: map<SolId, int>)

  ghost predicate Sized(c: Setup, s: System) {
    && c.Ok() && |s.proc| == |s.up| == c.tree.size
    && (forall v | c.tree.Node(v) :: |s.proc[v].kids| == |c.tree.kid[v]|)
    && forall m | m in s.down :: c.tree.Node(m.0)
  }

  ghost function KidsBag(kids: seq<seq<SolId>>): multiset<SolId> { Pooled(ListBag(), kids) }

  // ---------- Steps ----------

  ghost predicate IsWorstHeld(c: Setup, held: set<SolId>, w: SolId) {
    w in held && forall h | h in held :: !Before(c.st, w, h)
  }

  /** `localReposOffer` lets `id` in: if there is no room, it takes the place of the worst identifier held. */
  ghost predicate LetIn(c: Setup, held: set<SolId>, id: SolId, held': set<SolId>) {
    if |held| == c.st.enumCount then exists w :: IsWorstHeld(c, held, w) && held' == held - {w} + {id}
    else held' == held + {id}
  }

  function IdOf(c: Setup, s: System, x: int): SolId
    requires c.tree.Node(c.owner(x)) && |s.proc| == c.tree.size
  {
    SolId(c.value(x), s.proc[c.owner(x)].counter + 1, c.owner(x))
  }

  ghost predicate Wanted(c: Setup, s: System, x: int, inc: real)
    requires Sized(c, s)
  {
    var p := s.proc[c.owner(x)];
    !CanFathom(c.st, Progress(inc, p.last.value), c.value(x))
    && forall h | h in p.held && h in s.admitted :: s.admitted[h] != x
  }

  /** `processOwnedSolution`, with any incumbent. */
  ghost predicate Offers(c: Setup, s: System, s': System, x: int, inc: real)
    requires Sized(c, s)
  {
    var v := c.owner(x);
    var p, id := s.proc[v], IdOf(c, s, x);
    if Wanted(c, s, x, inc) then
      exists held' :: LetIn(c, p.held, id, held')
        && s' == s.(proc := s.proc[v := p.(held := held', counter := p.counter + 1, need := true)],
                    admitted := s.admitted[id := x])
    else s' == s.(proc := s.proc[v := p.(counter := p.counter + 1)])
  }

  /** The test of `pruneRepository`. */
  predicate Prunable(st: Settings, inc: real, last: SolId, x: SolId) {
    || (st.enumAbsTol >= 0.0 && st.Signed(inc) - st.Signed(x.value) < -st.enumAbsTol)
    || (st.enumRelTol >= 0.0 && BeyondRelative(st.enumRelTol, st.Signed(inc), st.Signed(x.value)))
    || (st.enumCount > 1 && Before(st, last, x))
  }

  ghost predicate Prunes(c: Setup, s: System, s': System, v: int, inc: real, held': set<SolId>)
    requires Sized(c, s)
  {
    && c.tree.Node(v) && held' <= s.proc[v].held
    && (forall x | x in s.proc[v].held - held' :: Prunable(c.st, inc, s.proc[v].last, x))
    && s' == s.(proc := s.proc[v := s.proc[v].(held := held')])
  }

  /** `lastSolRelay`: `id` to every child of `v`. */
  function RelayList(c: Setup, v: int, id: SolId): (q: seq<(int, SolId)>)
    requires c.tree.Sized() && c.tree.Node(v)
    ensures |q| == |c.tree.kid[v]| && forall i | 0 <= i < |q| :: q[i] == (c.tree.kid[v][i], id)
  {
    seq(|c.tree.kid[v]|, i requires 0 <= i < |c.tree.kid[v]| => (c.tree.kid[v][i], id))
  }

  function Relays(c: Setup, v: int, id: SolId): multiset<(int, SolId)>
    requires c.tree.Sized() && c.tree.Node(v)
  {
    multiset(RelayList(c, v, id))
  }

  function Better(c: Setup, a: SolId, b: SolId): SolId { if Before(c.st, a, b) then a else b }

  /** `reposArrayMerge`: the own identifiers, sorted, and the lists of the children. */
  ghost predicate Merged(c: Setup, p: Proc, p': Proc) {
    && p.need && !p'.need && SortedIds(c.st, p'.localArray) && multiset(p'.localArray) == multiset(p.held)
    && IsBest(c.st, multiset(p'.localArray) + KidsBag(p.kids), p'.merged, c.st.enumCount)
    && p' == p.(localArray := p'.localArray, merged := p'.merged, need := false, last := p'.last)
  }

  /** `reposArraySend` away from the root. */
  ghost predicate SendsUp(c: Setup, s: System, s': System, v: int, p': Proc)
    requires Sized(c, s)
  {
    && c.tree.Node(v) && v != c.tree.root && Merged(c, s.proc[v], p') && p'.last == s.proc[v].last
    && s' == s.(proc := s.proc[v := p'], up := s.up[v := s.up[v] + [p'.merged]])
  }

  /** At the root: a full list gives a new `lastSolId`, if it is better, which is sent down. */
  ghost predicate RootMerges(c: Setup, s: System, s': System, p': Proc)
    requires Sized(c, s)
  {
    var r, n := c.tree.root, c.st.enumCount;
    var last := s.proc[r].last;
    && Merged(c, s.proc[r], p')
    && p'.last == (if |p'.merged| == n then Better(c, p'.merged[n - 1], last) else last)
    && s' == s.(proc := s.proc[r := p'],
                down := s.down + if p'.last != last then Relays(c, r, p'.last) else multiset{})
  }

  /** A list arrives at the parent of `k`. */
  ghost predicate TakesList(c: Setup, s: System, s': System, k: int)
    requires Sized(c, s)
  {
    && c.tree.Node(k) && k != c.tree.root && s.up[k] != []
    && var v, i := c.tree.parent[k], c.tree.number[k];
       s' == s.(proc := s.proc[v := s.proc[v].(kids := s.proc[v].kids[i := s.up[k][0]], need := true)],
                   up := s.up[k := s.up[k][1..]])
  }

  /** `incorporateLastSol`: whether or not it is an improvement, what is known then is passed on. */
  ghost predicate TakesLast(c: Setup, s: System, s': System, m: (int, SolId))
    requires Sized(c, s)
  {
    && m in s.down
    && var v := m.0;
       var last := Better(c, m.1, s.proc[v].last);
       s' == s.(proc := s.proc[v := s.proc[v].(last := last)], down := s.down - multiset{m} + Relays(c, v, last))
  }

  ghost predicate Next(c: Setup, s: System, s': System) {
    && Sized(c, s)
    && (|| (exists x, inc :: Offers(c, s, s', x, inc))
        || (exists v, inc, held' :: Prunes(c, s, s', v, inc, held'))
        || (exists v, p' :: SendsUp(c, s, s', v, p'))
        || (exists p' :: RootMerges(c, s, s', p'))
        || (exists k :: TakesList(c, s, s', k))
        || (exists m :: TakesLast(c, s, s', m)))
  }

  // ---------- Where it starts ----------

  /** Identifiers and the solutions they stand for agree, and no processor will give one again. */
  ghost predicate AdmittedOk(c: Setup, s: System)
    requires Sized(c, s)
  {
    forall id | id in s.admitted ::
      && id.owner == c.owner(s.admitted[id]) && id.value == c.value(s.admitted[id])
      && c.tree.Node(id.owner) && id.serial <= s.proc[id.owner].counter
  }

  /** A repository holds identifiers of its own, each solution once. */
  ghost predicate HeldOk(c: Setup, s: System, v: int)
    requires Sized(c, s) && c.tree.Node(v)
  {
    && |s.proc[v].held| <= c.st.enumCount
    && (forall h | h in s.proc[v].held :: h in s.admitted && h.owner == v)
    && forall g, h | g in s.proc[v].held && h in s.proc[v].held && s.admitted[g] == s.admitted[h] :: g == h
  }

  /** What `syncLastSol` leaves behind at the end of ramp-up, whatever has been found by then: the lists have been
      merged up the tree, and all have the same `lastSolId`. */
  ghost predicate Init(c: Setup, s: System) {
    && Sized(c, s) && AdmittedOk(c, s) && s.down == multiset{}
    && (forall v | c.tree.Node(v) :: HeldOk(c, s, v) && Synced(c, s, v) && LastSynced(c, s, v) && s.up[v] == [])
    && forall id | id in s.admitted :: c.tree.Node(id.owner) && id in s.proc[id.owner].held
  }

  ghost predicate Synced(c: Setup, s: System, v: int)
    requires Sized(c, s) && c.tree.Node(v)
  {
    var p := s.proc[v];
    && !p.need && SortedIds(c.st, p.localArray) && multiset(p.localArray) == multiset(p.held)
    && IsBest(c.st, multiset(p.localArray) + KidsBag(p.kids), p.merged, c.st.enumCount)
    && forall i | 0 <= i < |c.tree.kid[v]| :: c.tree.KidOk(v, i) && p.kids[i] == s.proc[c.tree.kid[v][i]].merged
  }

  ghost predicate LastSynced(c: Setup, s: System, v: int)
    requires Sized(c, s) && c.tree.Node(v)
  {
    var root, n := s.proc[c.tree.root].merged, c.st.enumCount;
    s.proc[v].last == if |root| == n then root[n - 1] else c.Worst()
  }

  ghost predicate IsRun(c: Setup, run: seq<System>) {
    && |run| > 0 && Init(c, run[0])
    && forall i, j | 0 <= i && j == i + 1 && j < |run| :: Next(c, run[i], run[j])
  }

  // ---------- What is never wrong ----------

  /** Identifiers of different solutions, all admitted. */
  ghost predicate Distinct(s: System, q: seq<SolId>) {
    && (forall i | 0 <= i < |q| :: q[i] in s.admitted)
    && forall i, j | 0 <= i < j < |q| :: s.admitted[q[i]] != s.admitted[q[j]]
  }

  /** A list from the subtree of `v`. */
  ghost predicate ListOk(c: Setup, s: System, v: int, q: seq<SolId>)
    requires Sized(c, s)
  {
    c.tree.Node(v) && Distinct(s, q) && forall i | 0 <= i < |q| :: q[i].owner in c.tree.under[v]
  }

  /** `q` are `enumCount` different solutions, none worse than `id`. */
  ghost predicate Vouch(c: Setup, s: System, id: SolId, q: seq<SolId>) {
    |q| == c.st.enumCount && Distinct(s, q) && forall i | 0 <= i < |q| :: !Before(c.st, id, q[i])
  }

  ghost predicate SafeLast(c: Setup, s: System, id: SolId) {
    id == c.Worst() || exists q :: Vouch(c, s, id, q)
  }

  ghost predicate ProcOk(c: Setup, s: System, v: int)
    requires Sized(c, s) && c.tree.Node(v)
  {
    var p := s.proc[v];
    && HeldOk(c, s, v) && ListOk(c, s, v, p.merged) && SafeLast(c, s, p.last)
    && (forall i: nat | i < |p.kids| :: ListOk(c, s, c.tree.kid[v][i], p.kids[i]))
    && forall j | 0 <= j < |s.up[v]| :: ListOk(c, s, v, s.up[v][j])
  }

  ghost predicate Inv(c: Setup, s: System) {
    && Sized(c, s) && AdmittedOk(c, s)
    && (forall v | c.tree.Node(v) :: ProcOk(c, s, v))
    && forall m | m in s.down :: SafeLast(c, s, m.1)
  }

  // ---------- A merged list names different solutions ----------

  lemma {:induction false} NotInKids(kids: seq<seq<SolId>>, x: SolId)
    requires forall q | q in kids :: x !in q
    ensures KidsBag(kids)[x] == 0
  {
    if kids != [] {
      assert kids[|kids| - 1] in kids;
      NotInKids(kids[..|kids| - 1], x);
    }
  }

  lemma {:induction false} OnlyInOneKid(kids: seq<seq<SolId>>, x: SolId, i: nat)
    requires i < |kids| && forall j | 0 <= j < |kids| && j != i :: x !in kids[j]
    ensures KidsBag(kids)[x] == multiset(kids[i])[x]
  {
    var front := kids[..|kids| - 1];
    if i == |kids| - 1 {
      NotInKids(front, x);
    } else {
      OnlyInOneKid(front, x, i);
    }
  }

  lemma {:induction false} DistinctCount(s: System, q: seq<SolId>, x: SolId)
    requires Distinct(s, q)
    ensures multiset(q)[x] <= 1
  {
    if q != [] {
      var k := |q| - 1;
      assert q == q[..k] + [q[k]];
      DistinctCount(s, q[..k], x);
      assert forall j | 0 <= j < k :: q[j] != q[k];
    }
  }

  ghost predicate OwnOk(s: System, v: int, own: seq<SolId>) {
    Distinct(s, own) && forall i | 0 <= i < |own| :: own[i].owner == v
  }

  ghost predicate KidsOk(c: Setup, s: System, v: int, kids: seq<seq<SolId>>)
    requires Sized(c, s)
  {
    && c.tree.Node(v) && |kids| == |c.tree.kid[v]|
    && forall i: nat | i < |kids| :: ListOk(c, s, c.tree.kid[v][i], kids[i])
  }

  /** A list from below the child `i` names nothing that `o` owns, unless `o` is below that child. */
  lemma NotFromThere(c: Setup, s: System, v: int, kids: seq<seq<SolId>>, i: nat, x: SolId)
    requires Sized(c, s) && KidsOk(c, s, v, kids) && i < |kids| && c.tree.KidOk(v, i)
    requires x.owner !in c.tree.under[c.tree.kid[v][i]]
    ensures x !in kids[i]
  {
    assert ListOk(c, s, c.tree.kid[v][i], kids[i]);
  }

  /** What `o` owns comes from one list only. */
  lemma OnePart(c: Setup, s: System, v: int, own: seq<SolId>, kids: seq<seq<SolId>>, o: int) returns (part: seq<SolId>)
    requires Sized(c, s) && KidsOk(c, s, v, kids) && OwnOk(s, v, own) && c.tree.Node(o)
    ensures Distinct(s, part)
    ensures forall x: SolId | x.owner == o :: (multiset(own) + KidsBag(kids))[x] == multiset(part)[x]
  {
    if i: nat :| i < |kids| && c.tree.KidOk(v, i) && o in c.tree.under[c.tree.kid[v][i]] {
      part := kids[i];
      assert ListOk(c, s, c.tree.kid[v][i], kids[i]);
      forall x: SolId | x.owner == o ensures (multiset(own) + KidsBag(kids))[x] == multiset(part)[x] {
        forall j: nat | j < |kids| && j != i ensures x !in kids[j] {
          OtherKidHasNot(c, s, v, kids, i, j, x);
        }
        OnlyInOneKid(kids, x, i);
      }
    } else {
      part := if o == v then own else [];
      forall x: SolId | x.owner == o ensures (multiset(own) + KidsBag(kids))[x] == multiset(part)[x] {
        forall j: nat | j < |kids| ensures x !in kids[j] {
          assert c.tree.KidOk(v, j);
          NotFromThere(c, s, v, kids, j, x);
        }
        NotInKids(kids, x);
      }
    }
  }

  lemma OtherKidHasNot(c: Setup, s: System, v: int, kids: seq<seq<SolId>>, i: nat, j: nat, x: SolId)
    requires Sized(c, s) && KidsOk(c, s, v, kids) && i < |kids| && j < |kids| && i != j
    requires c.tree.KidOk(v, i) && x.owner in c.tree.under[c.tree.kid[v][i]]
    ensures x !in kids[j]
  {
    assert c.tree.KidOk(v, j);
    assert c.tree.under[c.tree.kid[v][i]] !! c.tree.under[c.tree.kid[v][j]];
    NotFromThere(c, s, v, kids, j, x);
  }

  lemma MemberOk(c: Setup, s: System, v: int, own: seq<SolId>, kids: seq<seq<SolId>>, x: SolId)
    requires Sized(c, s) && KidsOk(c, s, v, kids) && OwnOk(s, v, own) && x in multiset(own) + KidsBag(kids)
    ensures x in s.admitted && x.owner in c.tree.under[v]
  {
    if x !in own {
      var i := PooledFrom(ListBag(), kids, x);
      assert c.tree.KidOk(v, i);
      assert ListOk(c, s, c.tree.kid[v][i], kids[i]);
    }
  }

  lemma TwiceThere(q: seq<SolId>, i: nat, j: nat)
    requires i < j < |q| && q[i] == q[j]
    ensures multiset(q)[q[i]] >= 2
  {
    assert q == q[..i] + [q[i]] + q[i + 1..j] + [q[j]] + q[j + 1..];
  }

  lemma SameContentsSamePlace(s: System, r: seq<SolId>, part: seq<SolId>, i: nat, j: nat)
    requires i < j < |r| && r[i] in s.admitted && r[j] in s.admitted && Distinct(s, part)
    requires multiset(r)[r[i]] <= multiset(part)[r[i]] && multiset(r)[r[j]] <= multiset(part)[r[j]]
    ensures s.admitted[r[i]] != s.admitted[r[j]]
  {
    DistinctCount(s, part, r[i]);
    if r[i] == r[j] {
      TwiceThere(r, i, j);
    }
    assert r[i] in multiset(r) && r[j] in multiset(r);
    var a :| 0 <= a < |part| && part[a] == r[i];
    var b :| 0 <= b < |part| && part[b] == r[j];
    assert s.admitted[part[a]] != s.admitted[part[b]];
  }

  lemma MergeListOk(c: Setup, s: System, v: int, own: seq<SolId>, kids: seq<seq<SolId>>, r: seq<SolId>)
    requires Sized(c, s) && AdmittedOk(c, s) && KidsOk(c, s, v, kids) && OwnOk(s, v, own)
    requires multiset(r) <= multiset(own) + KidsBag(kids)
    ensures ListOk(c, s, v, r)
  {
    forall i | 0 <= i < |r| ensures r[i] in s.admitted && r[i].owner in c.tree.under[v] {
      assert r[i] in multiset(r);
      MemberOk(c, s, v, own, kids, r[i]);
    }
    forall i, j | 0 <= i < j < |r| ensures s.admitted[r[i]] != s.admitted[r[j]] {
      if s.admitted[r[i]] == s.admitted[r[j]] {
        var part := OnePart(c, s, v, own, kids, r[i].owner);
        SameContentsSamePlace(s, r, part, i, j);
      }
    }
  }

  /** The sorted list of a repository. */
  lemma OwnListOk(c: Setup, s: System, v: int, own: seq<SolId>)
    requires Sized(c, s) && c.tree.Node(v) && HeldOk(c, s, v) && multiset(own) == multiset(s.proc[v].held)
    ensures OwnOk(s, v, own)
  {
    forall i | 0 <= i < |own| ensures own[i] in s.admitted && own[i].owner == v && own[i] in s.proc[v].held {
      assert own[i] in multiset(own);
    }
    forall i, j | 0 <= i < j < |own| ensures s.admitted[own[i]] != s.admitted[own[j]] {
      if own[i] == own[j] {
        TwiceThere(own, i, j);
      }
    }
  }

  // ---------- Nothing admitted is forgotten ----------

  ghost predicate Grows(s: System, s': System) {
    forall id | id in s.admitted :: id in s'.admitted && s'.admitted[id] == s.admitted[id]
  }

  lemma ListGrows(c: Setup, s: System, s': System, v: int, q: seq<SolId>)
    requires Sized(c, s) && Sized(c, s') && Grows(s, s') && ListOk(c, s, v, q)
    ensures ListOk(c, s', v, q)
  {
  }

  lemma SafeGrows(c: Setup, s: System, s': System, id: SolId)
    requires Grows(s, s') && SafeLast(c, s, id)
    ensures SafeLast(c, s', id)
  {
    if id != c.Worst() {
      var q :| Vouch(c, s, id, q);
      assert Vouch(c, s', id, q);
    }
  }

  /** Fewer of the same identifiers. */
  lemma HeldStays(c: Setup, s: System, s': System, v: int)
    requires Sized(c, s) && Sized(c, s') && c.tree.Node(v) && HeldOk(c, s, v) && Grows(s, s')
    requires s'.proc[v].held <= s.proc[v].held
    ensures HeldOk(c, s', v)
  {
    SubsetSize(s'.proc[v].held, s.proc[v].held);
  }

  lemma SubsetSize<T>(a: set<T>, b: set<T>)
    requires a <= b
    ensures |a| <= |b|
  {
    assert b == a + (b - a);
  }

  /** What has to be seen to at a processor that changes. */
  lemma ProcFrom(c: Setup, s: System, s': System, v: int)
    requires Sized(c, s) && Sized(c, s') && Grows(s, s') && c.tree.Node(v) && HeldOk(c, s', v)
    requires ListOk(c, s, v, s'.proc[v].merged) && KidsOk(c, s, v, s'.proc[v].kids)
    requires SafeLast(c, s, s'.proc[v].last) && forall j | 0 <= j < |s'.up[v]| :: ListOk(c, s, v, s'.up[v][j])
    ensures ProcOk(c, s', v)
  {
    ListGrows(c, s, s', v, s'.proc[v].merged);
    forall i: nat | i < |s'.proc[v].kids| ensures ListOk(c, s', c.tree.kid[v][i], s'.proc[v].kids[i]) {
      ListGrows(c, s, s', c.tree.kid[v][i], s'.proc[v].kids[i]);
    }
    forall j | 0 <= j < |s'.up[v]| ensures ListOk(c, s', v, s'.up[v][j]) {
      ListGrows(c, s, s', v, s'.up[v][j]);
    }
    SafeGrows(c, s, s', s'.proc[v].last);
  }

  lemma ProcParts(c: Setup, s: System, v: int)
    requires Inv(c, s) && c.tree.Node(v)
    ensures HeldOk(c, s, v) && ListOk(c, s, v, s.proc[v].merged) && KidsOk(c, s, v, s.proc[v].kids)
    ensures SafeLast(c, s, s.proc[v].last) && forall j | 0 <= j < |s.up[v]| :: ListOk(c, s, v, s.up[v][j])
  {
    assert ProcOk(c, s, v);
  }

  /** A processor that the step leaves alone. */
  lemma ProcStays(c: Setup, s: System, s': System, v: int)
    requires Inv(c, s) && Sized(c, s') && Grows(s, s') && c.tree.Node(v)
    requires s'.proc[v] == s.proc[v] && s'.up[v] == s.up[v]
    ensures ProcOk(c, s', v)
  {
    ProcParts(c, s, v);
    HeldStays(c, s, s', v);
    ProcFrom(c, s, s', v);
  }

  /** A step that concerns `v` and what `k` sends. */
  lemma InvFrom(c: Setup, s: System, s': System, v: int, k: int)
    requires Inv(c, s) && Sized(c, s') && Grows(s, s') && AdmittedOk(c, s') && c.tree.Node(v) && c.tree.Node(k)
    requires forall u | c.tree.Node(u) && u != v && u != k :: s'.proc[u] == s.proc[u] && s'.up[u] == s.up[u]
    requires ProcOk(c, s', v) && ProcOk(c, s', k)
    requires forall m | m in s'.down :: m in s.down || SafeLast(c, s, m.1)
    ensures Inv(c, s')
  {
    forall u | c.tree.Node(u) ensures ProcOk(c, s', u) {
      if u != v && u != k {
        ProcStays(c, s, s', u);
      }
    }
    forall m | m in s'.down ensures SafeLast(c, s', m.1) {
      SafeGrows(c, s, s', m.1);
    }
  }

  // ---------- Every step keeps it ----------

  lemma NewIdIsNew(c: Setup, s: System, x: int)
    requires Inv(c, s)
    ensures c.tree.Node(c.owner(x)) && IdOf(c, s, x) !in s.admitted
  {
  }

  lemma LetInSize(c: Setup, held: set<SolId>, id: SolId, held': set<SolId>)
    requires LetIn(c, held, id, held') && |held| <= c.st.enumCount && id !in held
    ensures |held'| <= c.st.enumCount && held' <= held + {id}
  {
    if |held| == c.st.enumCount {
      var w :| IsWorstHeld(c, held, w) && held' == held - {w} + {id};
      assert |held - {w}| == |held| - 1;
    }
  }

  lemma OneMoreHeld(c: Setup, s: System, s': System, v: int, id: SolId, x: int)
    requires Sized(c, s) && Sized(c, s') && c.tree.Node(v) && HeldOk(c, s, v) && id.owner == v
    requires s'.admitted == s.admitted[id := x] && id !in s.admitted
    requires |s'.proc[v].held| <= c.st.enumCount && s'.proc[v].held <= s.proc[v].held + {id}
    requires forall h | h in s.proc[v].held :: s.admitted[h] != x
    ensures HeldOk(c, s', v)
  {
  }

  lemma LetInKeepsHeld(c: Setup, s: System, s': System, x: int)
    requires Inv(c, s) && Sized(c, s') && LetIn(c, s.proc[c.owner(x)].held, IdOf(c, s, x), s'.proc[c.owner(x)].held)
    requires forall h | h in s.proc[c.owner(x)].held && h in s.admitted :: s.admitted[h] != x
    requires s'.admitted == s.admitted[IdOf(c, s, x) := x]
    ensures HeldOk(c, s', c.owner(x))
  {
    var v, id := c.owner(x), IdOf(c, s, x);
    ProcParts(c, s, v);
    NewIdIsNew(c, s, x);
    LetInSize(c, s.proc[v].held, id, s'.proc[v].held);
    OneMoreHeld(c, s, s', v, id, x);
  }

  /** Counters go up and identifiers are added. */
  lemma StaysAdmitted(c: Setup, s: System, s': System)
    requires Sized(c, s) && Sized(c, s') && AdmittedOk(c, s) && s'.admitted == s.admitted
    requires forall u | c.tree.Node(u) :: s.proc[u].counter <= s'.proc[u].counter
    ensures AdmittedOk(c, s')
  {
    forall id | id in s'.admitted ensures c.tree.Node(id.owner) && id.serial <= s'.proc[id.owner].counter {
      assert id in s.admitted && s.proc[id.owner].counter <= s'.proc[id.owner].counter;
    }
  }

  lemma OneMoreAdmitted(c: Setup, s: System, s': System, x: int)
    requires Inv(c, s) && Sized(c, s') && s'.admitted == s.admitted[IdOf(c, s, x) := x]
    requires forall u | c.tree.Node(u) :: s.proc[u].counter <= s'.proc[u].counter
    requires s'.proc[c.owner(x)].counter == s.proc[c.owner(x)].counter + 1
    ensures AdmittedOk(c, s') && Grows(s, s')
  {
    NewIdIsNew(c, s, x);
    forall id | id in s'.admitted
      ensures id.owner == c.owner(s'.admitted[id]) && id.value == c.value(s'.admitted[id])
      ensures c.tree.Node(id.owner) && id.serial <= s'.proc[id.owner].counter
    {
      if id in s.admitted {
        assert s.proc[id.owner].counter <= s'.proc[id.owner].counter;
      }
    }
  }

  /** Only `v` changes, and keeps room for its children's lists. */
  lemma StaysSized(c: Setup, s: System, s': System, v: int)
    requires Sized(c, s) && c.tree.Node(v) && s'.down == s.down && |s'.up| == |s.up| && |s'.proc| == |s.proc|
    requires s'.proc == s.proc[v := s'.proc[v]] && |s'.proc[v].kids| == |s.proc[v].kids|
    ensures Sized(c, s')
  {
  }

  /** What an offer changes. */
  lemma OfferChanges(c: Setup, s: System, s': System, x: int, inc: real)
    requires Sized(c, s) && Offers(c, s, s', x, inc)
    ensures var v := c.owner(x);
            && c.tree.Node(v) && |s'.proc| == |s.proc| && s'.proc == s.proc[v := s'.proc[v]]
            && s'.up == s.up && s'.down == s.down && s'.proc[v].counter == s.proc[v].counter + 1
            && s'.proc[v].kids == s.proc[v].kids && s'.proc[v].merged == s.proc[v].merged
            && s'.proc[v].last == s.proc[v].last && s'.proc[v].localArray == s.proc[v].localArray
            && (if Wanted(c, s, x, inc) then
                  && LetIn(c, s.proc[v].held, IdOf(c, s, x), s'.proc[v].held) && s'.proc[v].need
                  && s'.admitted == s.admitted[IdOf(c, s, x) := x]
                else
                  && s'.proc[v].held == s.proc[v].held && s'.proc[v].need == s.proc[v].need
                  && s'.admitted == s.admitted)
  {
    assert c.tree.Node(c.owner(x));
  }

  lemma OfferGrows(c: Setup, s: System, s': System, x: int, inc: real)
    requires Inv(c, s) && Offers(c, s, s', x, inc)
    ensures Sized(c, s') && Grows(s, s') && AdmittedOk(c, s')
  {
    OfferChanges(c, s, s', x, inc);
    StaysSized(c, s, s', c.owner(x));
    if Wanted(c, s, x, inc) {
      OneMoreAdmitted(c, s, s', x);
    } else {
      StaysAdmitted(c, s, s');
    }
  }

  lemma OffersKeepsInv(c: Setup, s: System, s': System, x: int, inc: real)
    requires Inv(c, s) && Offers(c, s, s', x, inc)
    ensures Inv(c, s') && Grows(s, s')
  {
    var v := c.owner(x);
    OfferGrows(c, s, s', x, inc);
    OfferChanges(c, s, s', x, inc);
    ProcParts(c, s, v);
    if Wanted(c, s, x, inc) {
      LetInKeepsHeld(c, s, s', x);
    } else {
      HeldStays(c, s, s', v);
    }
    ProcFrom(c, s, s', v);
    InvFrom(c, s, s', v, v);
  }

  lemma PrunesKeepsInv(c: Setup, s: System, s': System, v: int, inc: real, held': set<SolId>)
    requires Inv(c, s) && Prunes(c, s, s', v, inc, held')
    ensures Inv(c, s') && Grows(s, s')
  {
    ProcParts(c, s, v);
    HeldStays(c, s, s', v);
    ProcFrom(c, s, s', v);
    InvFrom(c, s, s', v, v);
  }

  lemma MergedListOk(c: Setup, s: System, v: int, p': Proc)
    requires Inv(c, s) && c.tree.Node(v) && Merged(c, s.proc[v], p')
    ensures ListOk(c, s, v, p'.merged) && p'.held == s.proc[v].held && p'.kids == s.proc[v].kids
    ensures p'.counter == s.proc[v].counter && SortedIds(c.st, p'.merged)
  {
    ProcParts(c, s, v);
    OwnListOk(c, s, v, p'.localArray);
    MergeListOk(c, s, v, p'.localArray, s.proc[v].kids, p'.merged);
  }

  lemma SentOk(c: Setup, s: System, s': System, v: int, p': Proc)
    requires Inv(c, s) && SendsUp(c, s, s', v, p')
    ensures Sized(c, s') && AdmittedOk(c, s') && Grows(s, s')
    ensures forall j | 0 <= j < |s'.up[v]| :: ListOk(c, s, v, s'.up[v][j])
  {
    MergedListOk(c, s, v, p');
    ProcParts(c, s, v);
    StaysSized(c, s, s', v);
    StaysAdmitted(c, s, s');
  }

  lemma SendsUpKeepsInv(c: Setup, s: System, s': System, v: int, p': Proc)
    requires Inv(c, s) && SendsUp(c, s, s', v, p')
    ensures Inv(c, s') && Grows(s, s')
  {
    SentOk(c, s, s', v, p');
    MergedListOk(c, s, v, p');
    ProcParts(c, s, v);
    HeldStays(c, s, s', v);
    ProcFrom(c, s, s', v);
    InvFrom(c, s, s', v, v);
  }

  lemma RelaysAre(c: Setup, v: int, id: SolId, m: (int, SolId))
    requires c.Ok() && c.tree.Node(v) && m in Relays(c, v, id)
    ensures c.tree.Node(m.0) && m.1 == id
  {
    var q := RelayList(c, v, id);
    var i :| 0 <= i < |q| && q[i] == m;
    assert c.tree.KidOk(v, i);
  }

  /** A full list vouches for its last member. */
  lemma FullListVouches(c: Setup, s: System, q: seq<SolId>)
    requires c.Ok() && |q| == c.st.enumCount && SortedIds(c.st, q) && Distinct(s, q)
    ensures SafeLast(c, s, q[|q| - 1])
  {
    forall i | 0 <= i < |q| ensures !Before(c.st, q[|q| - 1], q[i]) {
      BeforeOrders(c.st, q[i], q[i], q[i]);
    }
    assert Vouch(c, s, q[|q| - 1], q);
  }

  lemma BetterIsSafe(c: Setup, s: System, q: seq<SolId>, last: SolId)
    requires c.Ok() && SafeLast(c, s, last) && Distinct(s, q) && SortedIds(c.st, q)
    ensures SafeLast(c, s, if |q| == c.st.enumCount then Better(c, q[c.st.enumCount - 1], last) else last)
  {
    if |q| == c.st.enumCount {
      FullListVouches(c, s, q);
    }
  }

  lemma RootLastIsSafe(c: Setup, s: System, p': Proc)
    requires Inv(c, s) && Merged(c, s.proc[c.tree.root], p')
    requires var n, last := c.st.enumCount, s.proc[c.tree.root].last;
             p'.last == if |p'.merged| == n then Better(c, p'.merged[n - 1], last) else last
    ensures SafeLast(c, s, p'.last)
  {
    ProcParts(c, s, c.tree.root);
    MergedListOk(c, s, c.tree.root, p');
    BetterIsSafe(c, s, p'.merged, s.proc[c.tree.root].last);
  }

  lemma RelayedIsSafe(c: Setup, s: System, s': System, v: int, id: SolId, gone: multiset<(int, SolId)>)
    requires Inv(c, s) && c.tree.Node(v) && SafeLast(c, s, id)
    requires s'.down == s.down - gone + Relays(c, v, id) || s'.down == s.down
    ensures forall m | m in s'.down :: c.tree.Node(m.0) && (m in s.down || SafeLast(c, s, m.1))
  {
    forall m | m in s'.down && m !in s.down ensures c.tree.Node(m.0) && SafeLast(c, s, m.1) {
      RelaysAre(c, v, id, m);
    }
  }

  lemma RootMergeGrows(c: Setup, s: System, s': System, p': Proc)
    requires Inv(c, s) && s'.proc == s.proc[c.tree.root := p'] && s'.up == s.up && s'.admitted == s.admitted
    requires p'.kids == s.proc[c.tree.root].kids && p'.counter == s.proc[c.tree.root].counter
    requires forall m | m in s'.down :: c.tree.Node(m.0)
    ensures Sized(c, s') && AdmittedOk(c, s') && Grows(s, s')
  {
    StaysAdmitted(c, s, s');
  }

  lemma RootMergeOk(c: Setup, s: System, s': System, p': Proc)
    requires Inv(c, s) && RootMerges(c, s, s', p')
    ensures Sized(c, s') && AdmittedOk(c, s') && Grows(s, s')
    ensures forall m | m in s'.down :: m in s.down || SafeLast(c, s, m.1)
  {
    RootLastIsSafe(c, s, p');
    MergedListOk(c, s, c.tree.root, p');
    assert s.down - multiset{} == s.down && s.down + multiset{} == s.down;
    RelayedIsSafe(c, s, s', c.tree.root, p'.last, multiset{});
    RootMergeGrows(c, s, s', p');
  }

  lemma RootMergesKeepsInv(c: Setup, s: System, s': System, p': Proc)
    requires Inv(c, s) && RootMerges(c, s, s', p')
    ensures Inv(c, s') && Grows(s, s')
  {
    var r := c.tree.root;
    RootMergeOk(c, s, s', p');
    RootLastIsSafe(c, s, p');
    MergedListOk(c, s, r, p');
    ProcParts(c, s, r);
    HeldStays(c, s, s', r);
    ProcFrom(c, s, s', r);
    InvFrom(c, s, s', r, r);
  }

  lemma ListTaken(c: Setup, s: System, s': System, k: int)
    requires Inv(c, s) && TakesList(c, s, s', k)
    ensures var v := c.tree.parent[k]; c.tree.Node(v) && v != k && KidsOk(c, s, v, s'.proc[v].kids)
    ensures forall j | 0 <= j < |s'.up[k]| :: ListOk(c, s, k, s'.up[k][j])
  {
    var v := c.tree.parent[k];
    assert c.tree.KidOk(v, c.tree.number[k]);
    ProcParts(c, s, k);
    ProcParts(c, s, v);
    forall j | 0 <= j < |s'.up[k]| ensures ListOk(c, s, k, s'.up[k][j]) {
      assert s'.up[k][j] == s.up[k][j + 1];
    }
  }

  lemma ListTakenGrows(c: Setup, s: System, s': System, k: int)
    requires Inv(c, s) && TakesList(c, s, s', k)
    ensures Sized(c, s') && AdmittedOk(c, s') && Grows(s, s')
  {
    assert c.tree.KidOk(c.tree.parent[k], c.tree.number[k]);
    StaysAdmitted(c, s, s');
  }

  lemma TakesListKeepsInv(c: Setup, s: System, s': System, k: int)
    requires Inv(c, s) && TakesList(c, s, s', k)
    ensures Inv(c, s') && Grows(s, s')
  {
    var v := c.tree.parent[k];
    ListTakenGrows(c, s, s', k);
    ListTaken(c, s, s', k);
    ProcParts(c, s, v);
    ProcParts(c, s, k);
    HeldStays(c, s, s', v);
    HeldStays(c, s, s', k);
    ProcFrom(c, s, s', v);
    ProcFrom(c, s, s', k);
    InvFrom(c, s, s', v, k);
  }

  lemma LastTakenGrows(c: Setup, s: System, s': System, m: (int, SolId))
    requires Inv(c, s) && TakesLast(c, s, s', m)
    ensures Sized(c, s') && AdmittedOk(c, s') && Grows(s, s') && SafeLast(c, s, s'.proc[m.0].last)
    ensures forall x | x in s'.down :: x in s.down || SafeLast(c, s, x.1)
  {
    ProcParts(c, s, m.0);
    RelayedIsSafe(c, s, s', m.0, s'.proc[m.0].last, multiset{m});
    StaysAdmitted(c, s, s');
  }

  lemma TakesLastKeepsInv(c: Setup, s: System, s': System, m: (int, SolId))
    requires Inv(c, s) && TakesLast(c, s, s', m)
    ensures Inv(c, s') && Grows(s, s')
  {
    var v := m.0;
    LastTakenGrows(c, s, s', m);
    ProcParts(c, s, v);
    HeldStays(c, s, s', v);
    ProcFrom(c, s, s', v);
    InvFrom(c, s, s', v, v);
  }

  lemma NextKeepsInv(c: Setup, s: System, s': System)
    requires Inv(c, s) && Next(c, s, s')
    ensures Inv(c, s') && Grows(s, s')
  {
    if x, inc :| Offers(c, s, s', x, inc) {
      OffersKeepsInv(c, s, s', x, inc);
    } else if v, inc, held' :| Prunes(c, s, s', v, inc, held') {
      PrunesKeepsInv(c, s, s', v, inc, held');
    } else if v, p' :| SendsUp(c, s, s', v, p') {
      SendsUpKeepsInv(c, s, s', v, p');
    } else if p' :| RootMerges(c, s, s', p') {
      RootMergesKeepsInv(c, s, s', p');
    } else if k :| TakesList(c, s, s', k) {
      TakesListKeepsInv(c, s, s', k);
    } else {
      var m :| TakesLast(c, s, s', m);
      TakesLastKeepsInv(c, s, s', m);
    }
  }

  // ---------- The start ----------

  lemma {:induction false} StartListOk(c: Setup, s: System, v: int)
    requires Init(c, s) && c.tree.Node(v)
    ensures ListOk(c, s, v, s.proc[v].merged) && KidsOk(c, s, v, s.proc[v].kids)
    decreases c.tree.size - c.tree.rank[v]
  {
    var p := s.proc[v];
    assert Synced(c, s, v);
    forall i: nat | i < |p.kids| ensures ListOk(c, s, c.tree.kid[v][i], p.kids[i]) {
      assert c.tree.KidOk(v, i);
      StartListOk(c, s, c.tree.kid[v][i]);
    }
    OwnListOk(c, s, v, p.localArray);
    MergeListOk(c, s, v, p.localArray, p.kids, p.merged);
  }

  lemma StartRootSorted(c: Setup, s: System, v: int)
    requires Init(c, s) && c.tree.Node(v)
    ensures SortedIds(c.st, s.proc[v].merged)
  {
    assert Synced(c, s, v);
  }

  lemma StartFacts(c: Setup, s: System, v: int)
    requires Init(c, s) && c.tree.Node(v)
    ensures LastSynced(c, s, v) && HeldOk(c, s, v) && s.up[v] == []
  {
  }

  lemma SyncedLastIsSafe(c: Setup, s: System, v: int)
    requires Sized(c, s) && c.tree.Node(v) && LastSynced(c, s, v)
    requires var root := s.proc[c.tree.root].merged; Distinct(s, root) && SortedIds(c.st, root)
    ensures SafeLast(c, s, s.proc[v].last)
  {
    if |s.proc[c.tree.root].merged| == c.st.enumCount {
      FullListVouches(c, s, s.proc[c.tree.root].merged);
    }
  }

  lemma InitHolds(c: Setup, s: System)
    requires Init(c, s)
    ensures Inv(c, s)
  {
    StartListOk(c, s, c.tree.root);
    StartRootSorted(c, s, c.tree.root);
    forall v | c.tree.Node(v) ensures ProcOk(c, s, v) {
      StartFacts(c, s, v);
      SyncedLastIsSafe(c, s, v);
      StartListOk(c, s, v);
      ProcFrom(c, s, s, v);
    }
  }

  lemma {:induction false} InvHolds(c: Setup, run: seq<System>, i: nat)
    requires IsRun(c, run) && i < |run|
    ensures Inv(c, run[i])
  {
    if i == 0 {
      InitHolds(c, run[0]);
    } else {
      var j := i - 1;
      InvHolds(c, run, j);
      NextKeepsInv(c, run[j], run[i]);
    }
  }

  // ---------- What it means ----------

  /** `q` are `enumCount` different solutions that all beat `x`. */
  ghost predicate Beaten(c: Setup, s: System, x: SolId, q: seq<SolId>) {
    |q| == c.st.enumCount && Distinct(s, q) && forall i | 0 <= i < |q| :: Before(c.st, q[i], x)
  }

  /** Fewer than `enumCount` different solutions beat `x`. */
  ghost predicate AmongBest(c: Setup, s: System, x: SolId) { !exists q :: Beaten(c, s, x, q) }

  lemma VouchedBeat(c: Setup, s: System, id: SolId, x: SolId, q: seq<SolId>)
    requires Vouch(c, s, id, q) && Before(c.st, id, x)
    ensures Beaten(c, s, x, q)
  {
    forall i | 0 <= i < |q| ensures Before(c.st, q[i], x) {
      BeforeOrders(c.st, q[i], id, x);
      BeforeOrders(c.st, x, q[i], id);
    }
  }

  lemma WorstIsWorse(c: Setup, x: SolId)
    requires Abs(x.value) < c.st.maxDouble
    ensures !Before(c.st, c.Worst(), x)
  {
  }

  lemma SafeIsNotTooGood(c: Setup, s: System, last: SolId, x: SolId)
    requires SafeLast(c, s, last) && Abs(x.value) < c.st.maxDouble && AmongBest(c, s, x)
    ensures !Before(c.st, last, x)
  {
    if last == c.Worst() {
      WorstIsWorse(c, x);
    } else if Before(c.st, last, x) {
      var q :| Vouch(c, s, last, q);
      VouchedBeat(c, s, last, x, q);
    }
  }

  lemma AdmittedIsProper(c: Setup, s: System, x: SolId)
    requires Inv(c, s) && x in s.admitted
    ensures Abs(x.value) < c.st.maxDouble && c.tree.Node(x.owner)
  {
    var what := s.admitted[x];
    assert c.tree.Node(c.owner(what)) && Abs(c.value(what)) < c.st.maxDouble;
  }

  /** No processor's `lastSolId` is ever too good, under any schedule: nothing that any processor has admitted and that
      is among the best `enumCount` solutions admitted anywhere is ever strictly worse than it, here or elsewhere. */
  lemma LastIsNeverTooGood(c: Setup, run: seq<System>, i: nat, v: int, x: SolId)
    requires IsRun(c, run) && i < |run| && c.tree.Node(v) && x in run[i].admitted && AmongBest(c, run[i], x)
    ensures Sized(c, run[i]) && !Before(c.st, run[i].proc[v].last, x)
    ensures c.st.Signed(x.value) <= c.st.Signed(run[i].proc[v].last.value)
  {
    InvHolds(c, run, i);
    ProcParts(c, run[i], v);
    AdmittedIsProper(c, run[i], x);
    SafeIsNotTooGood(c, run[i], run[i].proc[v].last, x);
    NotBeforeMeans(c.st, run[i].proc[v].last, x);
  }
}
