/** The k-ary tree over the processors is a repository tree of the kind that the asynchronous merge needs. */
module ReposShape {
  import opened TreeTopology
  import ReposAsync

  function Kids(t: Shape, v: int): seq<int>
    requires t.Ok()
  {
    if t.Degree(v) <= 0 then [] else seq(t.Degree(v), i => t.ChildAt(v, i))
  }

  function Subtree(t: Shape, v: int): set<int>
    requires t.Ok()
  {
    set w | 0 <= w < t.size && t.Above(v, w)
  }

  function Position(t: Shape, v: int): (r: nat) { if t.Rel(v) < 0 then 0 else t.Rel(v) }

  function TreeOf(t: Shape): ReposAsync.Tree
    requires t.Ok()
  {
    ReposAsync.Tree(t.size, t.root, seq(t.size, v => Kids(t, v)), seq(t.size, v => t.Parent(v)),
                    seq(t.size, v => t.WhichChild(v)), seq(t.size, v => Subtree(t, v)),
                    seq(t.size, v => Position(t, v)))
  }

  lemma AtNode(t: Shape, v: int)
    requires t.Ok() && t.Node(v)
    ensures TreeOf(t).Sized() && TreeOf(t).kid[v] == Kids(t, v) && TreeOf(t).parent[v] == t.Parent(v)
    ensures TreeOf(t).number[v] == t.WhichChild(v) && TreeOf(t).under[v] == Subtree(t, v)
    ensures TreeOf(t).rank[v] == Position(t, v) == t.Rel(v) && t.Rel(v) < t.size
  {
  }

  lemma KidIs(t: Shape, v: int, i: int)
    requires t.Ok() && t.Node(v) && 0 <= i < |Kids(t, v)|
    ensures var k := Kids(t, v)[i];
            && t.Node(k) && k != t.root && t.Parent(k) == v && t.WhichChild(k) == i && t.Below(v, k)
            && t.Rel(v) < t.Rel(k) < t.size
  {
    ChildOfParent(t, v, i);
    ParentIsCloser(t, Kids(t, v)[i]);
    RelIsPosition(t, Kids(t, v)[i]);
  }

  lemma SubtreeOfKid(t: Shape, v: int, k: int)
    requires t.Ok() && t.Node(v) && t.Node(k) && t.Below(v, k) && t.Rel(v) < t.Rel(k)
    ensures Subtree(t, k) <= Subtree(t, v) && v !in Subtree(t, k)
  {
    forall w | w in Subtree(t, k) ensures w in Subtree(t, v) {
      AboveExtends(t, v, k, w);
    }
    if v in Subtree(t, k) {
      AboveIsCloser(t, k, v);
    }
  }

  lemma EveryKidOk(t: Shape, v: int, i: int)
    requires t.Ok() && t.Node(v) && 0 <= i < |Kids(t, v)|
    ensures TreeOf(t).Sized() && TreeOf(t).kid[v] == Kids(t, v) && TreeOf(t).KidOk(v, i)
  {
    KidIs(t, v, i);
    AtNode(t, v);
    AtNode(t, Kids(t, v)[i]);
    SubtreeOfKid(t, v, Kids(t, v)[i]);
  }

  lemma KidsApart(t: Shape, v: int, i: int, j: int)
    requires t.Ok() && t.Node(v) && 0 <= i < j < |Kids(t, v)|
    ensures Subtree(t, Kids(t, v)[i]) !! Subtree(t, Kids(t, v)[j])
  {
    KidIs(t, v, i);
    KidIs(t, v, j);
    if w :| w in Subtree(t, Kids(t, v)[i]) && w in Subtree(t, Kids(t, v)[j]) {
      OneChildAbove(t, v, Kids(t, v)[i], Kids(t, v)[j], w);
    }
  }

  lemma ParentHasIt(t: Shape, k: int)
    requires t.Ok() && t.Node(k) && k != t.root
    ensures var v, i := t.Parent(k), t.WhichChild(k); t.Node(v) && 0 <= i < |Kids(t, v)| && Kids(t, v)[i] == k
  {
    ParentOfChild(t, k);
  }

  lemma SubtreeSplits(t: Shape, v: int, w: int)
    requires t.Ok() && t.Node(v) && t.Node(w) && t.Above(v, w)
    ensures TreeOf(t).Sized() && TreeOf(t).Splits(v, w)
  {
    AtNode(t, v);
    if w != v {
      var k := AboveViaChild(t, v, w);
      var i := t.WhichChild(k);
      ParentHasIt(t, k);
      EveryKidOk(t, v, i);
      AtNode(t, k);
      assert w in TreeOf(t).under[TreeOf(t).kid[v][i]];
    }
  }

  lemma KidsOk(t: Shape, tree: ReposAsync.Tree, v: int, i: int)
    requires t.Ok() && tree == TreeOf(t) && tree.Node(v) && tree.Sized() && 0 <= i < |tree.kid[v]|
    ensures tree.KidOk(v, i)
    ensures forall j | i < j < |tree.kid[v]| && tree.KidOk(v, i) && tree.KidOk(v, j) ::
              tree.under[tree.kid[v][i]] !! tree.under[tree.kid[v][j]]
  {
    EveryKidOk(t, v, i);
    forall j | i < j < |tree.kid[v]| && tree.KidOk(v, i) && tree.KidOk(v, j)
      ensures tree.under[tree.kid[v][i]] !! tree.under[tree.kid[v][j]]
    {
      KidsApart(t, v, i, j);
    }
  }

  lemma ParentsOk(t: Shape, tree: ReposAsync.Tree, k: int)
    requires t.Ok() && tree == TreeOf(t) && tree.Sized() && tree.Node(k) && k != tree.root
    ensures tree.Node(tree.parent[k]) && 0 <= tree.number[k] < |tree.kid[tree.parent[k]]|
    ensures tree.kid[tree.parent[k]][tree.number[k]] == k
  {
    ParentHasIt(t, k);
    AtNode(t, k);
    AtNode(t, t.Parent(k));
  }

  lemma UnderOk(t: Shape, tree: ReposAsync.Tree, v: int)
    requires t.Ok() && tree == TreeOf(t) && tree.Sized() && tree.Node(v)
    ensures v in tree.under[v] && v in tree.under[tree.root]
    ensures forall w | w in tree.under[v] :: tree.Node(w) && tree.Splits(v, w)
  {
    AtNode(t, v);
    AtNode(t, t.root);
    RootAboveAll(t, v);
    forall w | w in tree.under[v] ensures tree.Node(w) && tree.Splits(v, w) {
      SubtreeSplits(t, v, w);
    }
  }

  lemma OkFrom(tree: ReposAsync.Tree)
    requires tree.Sized() && forall v, i | tree.Node(v) && 0 <= i < |tree.kid[v]| :: tree.KidOk(v, i)
    requires forall v, i, j | tree.Node(v) && 0 <= i < j < |tree.kid[v]| && tree.KidOk(v, i) && tree.KidOk(v, j) ::
               tree.under[tree.kid[v][i]] !! tree.under[tree.kid[v][j]]
    requires forall k | tree.Node(k) && k != tree.root :: tree.Node(tree.parent[k])
               && 0 <= tree.number[k] < |tree.kid[tree.parent[k]]| && tree.kid[tree.parent[k]][tree.number[k]] == k
    requires forall v | tree.Node(v) :: v in tree.under[v] && forall w | w in tree.under[v] :: tree.Node(w)
    ensures tree.Ok()
  {
  }

  /** Any radix, root and number of processors. */
  lemma TreesAreRepositoryTrees(t: Shape)
    requires t.Ok()
    ensures TreeOf(t).Ok() && TreeOf(t).Whole()
  {
    var tree := TreeOf(t);
    AtNode(t, t.root);
    forall v, i | tree.Node(v) && 0 <= i < |tree.kid[v]| ensures tree.KidOk(v, i) {
      KidsOk(t, tree, v, i);
    }
    forall v, i, j | tree.Node(v) && 0 <= i < j < |tree.kid[v]| && tree.KidOk(v, i) && tree.KidOk(v, j)
      ensures tree.under[tree.kid[v][i]] !! tree.under[tree.kid[v][j]]
    {
      KidsOk(t, tree, v, i);
    }
    forall k | tree.Node(k) && k != tree.root
      ensures tree.Node(tree.parent[k]) && 0 <= tree.number[k] < |tree.kid[tree.parent[k]]|
      ensures tree.kid[tree.parent[k]][tree.number[k]] == k
    {
      ParentsOk(t, tree, k);
    }
    forall v | tree.Node(v) ensures v in tree.under[v] && v in tree.under[tree.root] {
      UnderOk(t, tree, v);
    }
    forall v, w | tree.Node(v) && w in tree.under[v] ensures tree.Node(w) && tree.Splits(v, w) {
      UnderOk(t, tree, v);
    }
    OkFrom(tree);
  }
}
