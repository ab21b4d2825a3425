/** A whole load-balancing round: the numbers of the counting wave make a proper rendezvous. */
module LoadBalRound {
  import opened RealSums
  import opened Sums
  import opened TreeTopology
  import opened TreeWave
  import opened DonorNumbering
  import Rendezvous

  /** No cluster is eligible both to give and to take. */
  ghost predicate Eligible(t: Shape, donors: seq<int>, receivers: seq<int>) {
    && Counts(t, donors) && Counts(t, receivers)
    && forall v | t.Node(v) :: donors[v] + receivers[v] <= 1
  }

  /** What a hub knows when it decides whether to take part. */
  datatype Standing = Standing(clusterLoad: real, idealLoad: real, poolCount: nat)

  /** `decideLoadBalAvailability`: a donor needs enough subproblems in its pool besides a high load. */
  function Availability(st: Standing, donorFac: real, receiverFac: real, minSourceCount: int): (int, int) {
    if st.clusterLoad >= Times(st.idealLoad, donorFac) then (if st.poolCount >= minSourceCount then 1 else 0, 0)
    else if st.clusterLoad <= Times(st.idealLoad, receiverFac) then (0, 1)
    else (0, 0)
  }

  /** The load is high for the cluster's share, and the pool has enough to give from. */
  predicate HasToGive(st: Standing, donorFac: real, minSourceCount: int) {
    st.clusterLoad >= st.idealLoad * donorFac && st.poolCount >= minSourceCount
  }

  /** The load is not high, and is low; what is in the pool does not matter. */
  predicate LacksWork(st: Standing, donorFac: real, receiverFac: real) {
    st.clusterLoad < st.idealLoad * donorFac && st.clusterLoad <= st.idealLoad * receiverFac
  }

  /** Whatever the loads and factors, the hubs' decisions are eligibilities for a round: exactly those with high loads
      and enough in their pools give, and exactly those with low loads receive. */
  lemma DecisionsAreEligible(t: Shape, standing: seq<Standing>, donorFac: real, receiverFac: real, minSourceCount: int)
    returns (donors: seq<int>, receivers: seq<int>)
    requires t.Ok() && |standing| == t.size
    ensures Eligible(t, donors, receivers)
    ensures forall h | t.Node(h) ::
              && (donors[h], receivers[h]) == Availability(standing[h], donorFac, receiverFac, minSourceCount)
              && (donors[h] == 1 <==> HasToGive(standing[h], donorFac, minSourceCount))
              && (receivers[h] == 1 <==> LacksWork(standing[h], donorFac, receiverFac))
  {
    var decide := (st: Standing) => Availability(st, donorFac, receiverFac, minSourceCount);
    donors := seq(t.size, h requires 0 <= h < t.size => decide(standing[h]).0);
    receivers := seq(t.size, h requires 0 <= h < t.size => decide(standing[h]).1);
  }

  ghost function Givers(t: Shape, standing: seq<Standing>, donorFac: real, minSourceCount: int): set<int>
    requires |standing| == t.size
  {
    set h | 0 <= h < t.size && HasToGive(standing[h], donorFac, minSourceCount)
  }

  ghost function Takers(t: Shape, standing: seq<Standing>, donorFac: real, receiverFac: real): set<int>
    requires |standing| == t.size
  {
    set h | 0 <= h < t.size && LacksWork(standing[h], donorFac, receiverFac)
  }

  /** The total that the counting wave finds. */
  lemma TotalIsSize(t: Shape, count: seq<int>, who: set<int>)
    requires Counts(t, count) && forall v | v in who :: t.Node(v)
    requires forall v | t.Node(v) :: v in who <==> count[v] == 1
    ensures TotalCount(t, count) == |who|
  {
    var s := CountedPrefix(count, t.size);
    forall v ensures v in s <==> v in who {
      assert t.Node(v) <==> 0 <= v < t.size;
    }
    assert s == who;
  }

  /** `lbPairs`. */
  ghost function Pairs(t: Shape, donors: seq<int>, receivers: seq<int>): int
    requires Eligible(t, donors, receivers)
  {
    Min(TotalCount(t, donors), TotalCount(t, receivers))
  }

  /** The number of a cluster that takes part in the round, and `-1` for the others. */
  ghost function Part(t: Shape, count: seq<int>, offset: nat, pairs: int, h: int): int
    requires t.Ok() && t.Node(h) && |count| == t.size && TotalCount(t, count) > 0
  {
    if count[h] == 1 && Rotated(t, count, offset, h) < pairs then Rotated(t, count, offset, h) else -1
  }

  lemma {:induction false} Holders(t: Shape, count: seq<int>, offset: nat, n: nat) returns (who: seq<int>)
    requires Counts(t, count) && n <= TotalCount(t, count) && TotalCount(t, count) > 0
    ensures |who| == n
    ensures forall k | 0 <= k < n :: t.Node(who[k]) && count[who[k]] == 1 && Rotated(t, count, offset, who[k]) == k
  {
    if n == 0 {
      who := [];
    } else {
      var rest := Holders(t, count, offset, n - 1);
      var v := EveryNumberTaken(t, count, offset, n - 1);
      who := rest + [v];
    }
  }

  lemma {:induction false} AtMostOneEach(n: nat, f: int -> int)
    requires forall h | 0 <= h < n :: f(h) <= 1
    ensures Sum(n, f) <= n
  {
    if n > 0 {
      AtMostOneEach(n - 1, f);
    }
  }

  /** Whatever the eligibilities, the tree and the random offsets, as long as all hubs draw the same: the
      numbers match `min(donors, receivers)` donors with as many receivers, disjointly, and every hub's
      own idea of its part is its part in that matching. */
  lemma NumbersMakeRound(t: Shape, donors: seq<int>, receivers: seq<int>, offD: nat, offR: nat)
    returns (c: Rendezvous.Round)
    requires Eligible(t, donors, receivers) && Pairs(t, donors, receivers) > 0
    ensures c.Ok() && c.n == t.size && |c.donor| == Pairs(t, donors, receivers)
    ensures forall h | t.Node(h) ::
              && c.DonorID(h) == Part(t, donors, offD, |c.donor|, h)
              && c.ReceiverID(h) == Part(t, receivers, offR, |c.donor|, h)
  {
    var pairs := Pairs(t, donors, receivers);
    var ds := Holders(t, donors, offD, pairs);
    var rs := Holders(t, receivers, offR, pairs);
    c := Rendezvous.Round(t.size, ds, rs);
    AtMostOneEach(t.size, InputAt(donors));
    forall h | t.Node(h)
      ensures c.DonorID(h) == Part(t, donors, offD, pairs, h) && c.ReceiverID(h) == Part(t, receivers, offR, pairs, h)
    {
      PartIsIndex(t, donors, offD, ds, h);
      PartIsIndex(t, receivers, offR, rs, h);
    }
  }

  lemma PartIsIndex(t: Shape, count: seq<int>, offset: nat, who: seq<int>, h: int)
    requires Counts(t, count) && t.Node(h) && 0 < |who| <= TotalCount(t, count)
    requires forall k | 0 <= k < |who| :: t.Node(who[k]) && count[who[k]] == 1 && Rotated(t, count, offset, who[k]) == k
    ensures Rendezvous.IndexOf(who, h) == Part(t, count, offset, |who|, h)
  {
    var i := Rendezvous.IndexOf(who, h);
    if count[h] == 1 {
      RotatedStaysUnique(t, count, offset, h, h);
      var k := Rotated(t, count, offset, h);
      if k < |who| {
        RotatedStaysUnique(t, count, offset, h, who[k]);
        assert who[k] in who;
      }
    }
  }

  lemma OnlyCountedTakePart(t: Shape, count: seq<int>, who: seq<int>, offset: nat, h: int)
    requires t.Ok() && t.Node(h) && |count| == t.size && TotalCount(t, count) > 0 && h in who
    requires Rendezvous.IndexOf(who, h) == Part(t, count, offset, |who|, h)
    ensures count[h] == 1
  {
  }

  /** A round of counted clusters only. */
  lemma RoundOfCounted(t: Shape, donors: seq<int>, receivers: seq<int>, offD: nat, offR: nat)
    returns (c: Rendezvous.Round)
    requires Eligible(t, donors, receivers)
    ensures c.Ok() && c.n == t.size && |c.donor| == |c.receiver| == Pairs(t, donors, receivers)
    ensures forall k | 0 <= k < |c.donor| :: donors[c.donor[k]] == 1 && receivers[c.receiver[k]] == 1
  {
    if Pairs(t, donors, receivers) > 0 {
      c := NumbersMakeRound(t, donors, receivers, offD, offR);
      forall k | 0 <= k < |c.donor| ensures donors[c.donor[k]] == 1 && receivers[c.receiver[k]] == 1 {
        OnlyCountedTakePart(t, donors, c.donor, offD, c.donor[k]);
        OnlyCountedTakePart(t, receivers, c.receiver, offR, c.receiver[k]);
      }
    } else {
      SumZero(t.size, InputAt(donors), 0);
      SumZero(t.size, InputAt(receivers), 0);
      c := Rendezvous.Round(t.size, [], []);
    }
  }

  /** The round that follows from the hubs' decisions: exactly the hubs with high loads and enough in their pools are
      donors, exactly those with low loads are receivers, and the round pairs as many of them as there are of the
      fewer, nobody twice. */
  lemma DecisionsMakeRound(t: Shape, standing: seq<Standing>, donorFac: real, receiverFac: real, minSourceCount: int,
                           offD: nat, offR: nat)
    returns (donors: seq<int>, receivers: seq<int>, c: Rendezvous.Round)
    requires t.Ok() && |standing| == t.size
    ensures Eligible(t, donors, receivers)
    ensures forall h | t.Node(h) ::
              && (donors[h] == 1 <==> HasToGive(standing[h], donorFac, minSourceCount))
              && (receivers[h] == 1 <==> LacksWork(standing[h], donorFac, receiverFac))
    ensures c.Ok() && c.n == t.size && |c.donor| == |c.receiver| ==
              Min(|Givers(t, standing, donorFac, minSourceCount)|, |Takers(t, standing, donorFac, receiverFac)|)
    ensures forall k | 0 <= k < |c.donor| ::
              && HasToGive(standing[c.donor[k]], donorFac, minSourceCount)
              && LacksWork(standing[c.receiver[k]], donorFac, receiverFac)
  {
    donors, receivers := DecisionsAreEligible(t, standing, donorFac, receiverFac, minSourceCount);
    TotalIsSize(t, donors, Givers(t, standing, donorFac, minSourceCount));
    TotalIsSize(t, receivers, Takers(t, standing, donorFac, receiverFac));
    c := RoundOfCounted(t, donors, receivers, offD, offR);
  }

  // ---------- The ideal load ----------

  /** Sizes of the clusters, all alike except the last, and how much of a worker their hubs take up. */
  datatype Workers = Workers(hubs: nat, typicalSize: real, lastSize: real, typicalBusy: real, lastBusy: real)
  {
    /** `adjustedWorkersInCluster`. */
    function InCluster(h: int): real {
      if h + 1 == hubs then lastSize - lastBusy else typicalSize - typicalBusy
    }

    /** `adjustedWorkerCount`. */
    function Count(searchSize: real): real { searchSize - Times((hubs - 1) as real, typicalBusy) - lastBusy }

    function IdealLoad(searchSize: real, globalLoad: real, h: int): real
      requires Count(searchSize) != 0.0
    {
      Times(globalLoad, InCluster(h) / Count(searchSize))
    }
  }

  lemma OneTimeMore(n: nat, x: real)
    ensures Times((n + 1) as real, x) == Times(n as real, x) + x
  {
    assert (n + 1) as real == n as real + 1.0;
  }

  lemma {:induction false} SameForAll(n: nat, f: int -> real, x: real)
    requires forall h | 0 <= h < n :: f(h) == x
    ensures RSum(n, f) == Times(n as real, x)
  {
    if n > 0 {
      SameForAll(n - 1, f, x);
      OneTimeMore(n - 1, x);
    }
  }

  lemma WorkersAddUp(w: Workers, searchSize: real, f: int -> real)
    requires w.hubs > 0 && searchSize == Times((w.hubs - 1) as real, w.typicalSize) + w.lastSize
    requires forall h | 0 <= h < w.hubs :: f(h) == w.InCluster(h)
    ensures RSum(w.hubs, f) == w.Count(searchSize)
  {
    SameForAll(w.hubs - 1, f, w.typicalSize - w.typicalBusy);
    Spread((w.hubs - 1) as real, w.typicalSize, -w.typicalBusy);
    Spread((w.hubs - 1) as real, w.typicalBusy, -w.typicalBusy);
  }

  /** The clusters' ideal loads share out the load of the whole machine. */
  lemma IdealLoadsAddUp(w: Workers, searchSize: real, globalLoad: real, f: int -> real)
    requires w.hubs > 0 && searchSize == Times((w.hubs - 1) as real, w.typicalSize) + w.lastSize
    requires w.Count(searchSize) != 0.0
    requires forall h | 0 <= h < w.hubs :: f(h) == w.IdealLoad(searchSize, globalLoad, h)
    ensures RSum(w.hubs, f) == globalLoad
  {
    var share := (h: int) => w.InCluster(h);
    WorkersAddUp(w, searchSize, share);
    var total := w.Count(searchSize);
    forall h | 0 <= h < w.hubs ensures f(h) == Times(globalLoad / total, share(h)) {
    }
    RSumScaled(w.hubs, globalLoad / total, share, f);
  }
}
