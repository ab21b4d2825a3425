/** Adding up load records hub by hub, as the survey does, and what a passed survey says about
    each cluster. */
module TerminationLoads {
  import opened Sums
  import opened TerminationNet

  /** The sum of the records of cluster `h`, as `hubCalculateLoads` forms it. */
  function ClusterLoad(c: Config, v: seq<Load>, h: int, k: nat): Load
    requires c.Ok() && |v| == c.n && k <= c.n
  {
    if k == 0 then NO_LOAD
    else if c.hub[k - 1] == h then AddLoad(ClusterLoad(c, v, h, k - 1), v[k - 1])
    else ClusterLoad(c, v, h, k - 1)
  }

  /** The sum over all hubs, as the survey wave leaves it at the root. */
  function GlobalLoad(c: Config, v: seq<Load>, k: nat): Load
    requires c.Ok() && |v| == c.n && k <= c.n
  {
    if k == 0 then NO_LOAD
    else if c.IsHub(k - 1) then AddLoad(GlobalLoad(c, v, k - 1), ClusterLoad(c, v, k - 1, c.n))
    else GlobalLoad(c, v, k - 1)
  }

  lemma FieldsAdd(f: Field, a: Load, b: Load)
    ensures Get(f, AddLoad(a, b)) == Get(f, a) + Get(f, b)
    ensures Get(f, NO_LOAD) == 0
  {
  }

  lemma {:induction false} ClusterField(c: Config, v: seq<Load>, h: int, k: nat, f: Field)
    requires c.Ok() && |v| == c.n && k <= c.n
    ensures Get(f, ClusterLoad(c, v, h, k)) == Sum(k, In(c, h, Of(v, f)))
  {
    if k > 0 {
      ClusterField(c, v, h, k - 1, f);
      FieldsAdd(f, ClusterLoad(c, v, h, k - 1), v[k - 1]);
      InIs(c, h, Of(v, f), k - 1);
      OfIs(v, f, k - 1);
    }
  }

  /** The part of cluster `h` in a sum over all processors; nothing for processors that lead none. */
  ghost function PerHub(c: Config, f: int -> int): int -> int
    requires c.Ok()
  {
    h => if c.IsHub(h) then Sum(c.n, In(c, h, f)) else 0
  }

  lemma {:induction false} GlobalField(c: Config, v: seq<Load>, k: nat, f: Field)
    requires c.Ok() && |v| == c.n && k <= c.n
    ensures Get(f, GlobalLoad(c, v, k)) == Sum(k, PerHub(c, Of(v, f)))
  {
    if k > 0 {
      GlobalField(c, v, k - 1, f);
      FieldsAdd(f, GlobalLoad(c, v, k - 1), ClusterLoad(c, v, k - 1, c.n));
      ClusterField(c, v, k - 1, c.n, f);
    }
  }

  ghost function HubBelow(c: Config, f: int -> int, m: int): int -> int
    requires c.Ok()
  {
    i => if 0 <= i < c.n && c.hub[i] < m then f(i) else 0
  }

  lemma {:induction false} PartitionUpTo(c: Config, f: int -> int, m: nat)
    requires c.Ok() && m <= c.n
    ensures Sum(m, PerHub(c, f)) == Sum(c.n, HubBelow(c, f, m))
  {
    if m == 0 {
      SumZero(c.n, HubBelow(c, f, 0), 0);
    } else {
      PartitionUpTo(c, f, m - 1);
      var here := In(c, m - 1, f);
      forall i | 0 <= i < c.n
        ensures HubBelow(c, f, m)(i) == HubBelow(c, f, m - 1)(i) + here(i)
      {
        InIs(c, m - 1, f, i);
      }
      SumPlus(c.n, HubBelow(c, f, m - 1), here, HubBelow(c, f, m));
      if !c.IsHub(m - 1) {
        forall i | 0 <= i < c.n ensures here(i) == 0 {
          InIs(c, m - 1, f, i);
        }
        SumZero(c.n, here, 0);
      }
    }
  }

  /** Summing cluster by cluster counts every processor exactly once. */
  lemma Partition(c: Config, f: int -> int)
    requires c.Ok()
    ensures Sum(c.n, PerHub(c, f)) == Sum(c.n, f)
  {
    PartitionUpTo(c, f, c.n);
    SumSame(c.n, HubBelow(c, f, c.n), f);
  }

  lemma {:induction false} ClusterPending(c: Config, v: seq<Load>, h: int, k: nat, p: int)
    requires c.Ok() && |v| == c.n && k <= c.n && 0 <= p < k && c.hub[p] == h
    requires v[p].mergePending
    ensures ClusterLoad(c, v, h, k).mergePending
  {
    if p < k - 1 {
      ClusterPending(c, v, h, k - 1, p);
    }
  }

  lemma {:induction false} GlobalPending(c: Config, v: seq<Load>, h: int, k: nat)
    requires c.Ok() && |v| == c.n && k <= c.n && 0 <= h < k && c.IsHub(h)
    requires ClusterLoad(c, v, h, c.n).mergePending
    ensures GlobalLoad(c, v, k).mergePending
  {
    if h < k - 1 {
      GlobalPending(c, v, h, k - 1);
    }
  }

  ghost function Due(c: Config, v: seq<Load>, h: int, f: Field): int
    requires c.Ok()
  {
    Sum(c.n, In(c, h, Of(v, f)))
  }

  /** Nobody in the cluster has anything to do, and nothing that was dispatched is missing. */
  ghost predicate Still(c: Config, v: seq<Load>, h: int)
    requires c.Ok() && |v| == c.n
  {
    (forall p | c.In(p, h) :: v[p].Idle()) && Due(c, v, h, DispatchDue) == 0
  }

  /** Neither are any released tokens. */
  ghost predicate Quiet(c: Config, v: seq<Load>, h: int)
    requires c.Ok() && |v| == c.n
  {
    Still(c, v, h) && Due(c, v, h, LocalDue) == 0
  }

  lemma HubShareZero(c: Config, v: seq<Load>, h: int, f: Field)
    requires c.Ok() && |v| == c.n && c.IsHub(h)
    requires Get(f, GlobalLoad(c, v, c.n)) == 0
    requires forall g | c.IsHub(g) :: Due(c, v, g, f) >= 0
    ensures Due(c, v, h, f) == 0
  {
    GlobalField(c, v, c.n, f);
    forall g | 0 <= g < c.n ensures PerHub(c, Of(v, f))(g) >= 0 {
      assert c.IsHub(g) ==> PerHub(c, Of(v, f))(g) == Due(c, v, g, f);
    }
    SumZero(c.n, PerHub(c, Of(v, f)), h);
  }

  lemma CountsAreZero(c: Config, v: seq<Load>, h: int, p: int)
    requires c.Ok() && |v| == c.n && c.IsHub(h) && c.In(p, h)
    requires GlobalLoad(c, v, c.n).count == 0
    ensures v[p].count == 0
  {
    var f := In(c, h, Of(v, Count));
    forall g | c.IsHub(g) ensures Due(c, v, g, Count) >= 0 {
      forall i | 0 <= i < c.n ensures In(c, g, Of(v, Count))(i) >= 0 {
        InIs(c, g, Of(v, Count), i);
      }
      SumZero(c.n, In(c, g, Of(v, Count)), 0);
    }
    HubShareZero(c, v, h, Count);
    forall i | 0 <= i < c.n ensures f(i) >= 0 {
      InIs(c, h, Of(v, Count), i);
    }
    SumZero(c.n, f, p);
    InIs(c, h, Of(v, Count), p);
    OfIs(v, Count, p);
  }

  lemma NothingPending(c: Config, v: seq<Load>, h: int, p: int)
    requires c.Ok() && |v| == c.n && c.IsHub(h) && c.In(p, h)
    requires !GlobalLoad(c, v, c.n).mergePending
    ensures !v[p].mergePending
  {
    if v[p].mergePending {
      ClusterPending(c, v, h, c.n, p);
      GlobalPending(c, v, h, c.n);
    }
  }

  /** After a passed survey every cluster is still, because none can owe a negative number of dispatches. */
  lemma PassedMeansStill(c: Config, v: seq<Load>, h: int)
    requires c.Ok() && |v| == c.n && c.IsHub(h)
    requires GlobalLoad(c, v, c.n).SeemsReallyDone()
    requires forall g | c.IsHub(g) :: Due(c, v, g, DispatchDue) >= 0
    ensures Still(c, v, h)
  {
    assert Get(DispatchDue, GlobalLoad(c, v, c.n)) == 0;
    HubShareZero(c, v, h, DispatchDue);
    forall p | c.In(p, h) ensures v[p].Idle() {
      CountsAreZero(c, v, h, p);
      NothingPending(c, v, h, p);
    }
  }

  /** And quiet, if none owes a negative number of tokens either. */
  lemma PassedMeansQuiet(c: Config, v: seq<Load>, h: int)
    requires c.Ok() && |v| == c.n && c.IsHub(h)
    requires GlobalLoad(c, v, c.n).SeemsReallyDone()
    requires forall g | c.IsHub(g) :: Due(c, v, g, DispatchDue) >= 0
    requires forall g | c.IsHub(g) :: Due(c, v, g, LocalDue) >= 0
    ensures Quiet(c, v, h)
  {
    PassedMeansStill(c, v, h);
    assert Get(LocalDue, GlobalLoad(c, v, c.n)) == 0;
    HubShareZero(c, v, h, LocalDue);
  }

  // ---------- The hub's own additions ----------

  /** The flags of a cluster come together as "any". */
  lemma {:induction false} ClusterPendingExactly(c: Config, v: seq<Load>, h: int, k: nat)
    requires c.Ok() && |v| == c.n && k <= c.n
    ensures ClusterLoad(c, v, h, k).mergePending <==> exists p | 0 <= p < k :: c.hub[p] == h && v[p].mergePending
  {
    if k > 0 {
      ClusterPendingExactly(c, v, h, k - 1);
    }
  }

  /** `hubCalculateLoads`: the hub's own record plus the latest report of each worker.  Every count is the sum over
      the cluster, and a merge is pending if it is anywhere in the cluster. */
  method HubCalculateLoads(c: Config, v: seq<Load>, h: nat) returns (clusterLoad: Load)
    requires c.Ok() && |v| == c.n && c.IsHub(h)
    ensures forall f: Field :: Get(f, clusterLoad) == Sum(c.n, In(c, h, Of(v, f)))
    ensures clusterLoad.mergePending <==> exists p | c.In(p, h) :: v[p].mergePending
    ensures clusterLoad == ClusterLoad(c, v, h, c.n)
  {
    clusterLoad := NO_LOAD;
    var w := 0;
    while w < c.n
      invariant 0 <= w <= c.n
      invariant clusterLoad == ClusterLoad(c, v, h, w)
    {
      if c.hub[w] == h {
        clusterLoad := AddLoad(clusterLoad, v[w]);
      }
      w := w + 1;
    }
    forall f: Field ensures Get(f, clusterLoad) == Sum(c.n, In(c, h, Of(v, f))) {
      ClusterField(c, v, h, c.n, f);
    }
    ClusterPendingExactly(c, v, h, c.n);
  }
}
