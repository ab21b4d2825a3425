/** Processors in clusters of consecutive ranks, as in `clustering.h` and `clustering.cpp`. */
module Clustering {
  import opened TreeTopology

  function One(b: bool): int { if b then 1 else 0 }

  /** `ceil` of the quotient of two integers. */
  function CeilDiv(a: int, b: int): (q: int)
    requires b > 0
    ensures b * (q - 1) < a <= b * q
  {
    DivBounds(a + b - 1, b);
    (a + b - 1) / b
  }

  /** The fields that the index maps read. */
  datatype Layout = Layout(size: int, typicalSize: int, numClusters: int, typicallySeparated: bool, lastSeparated: bool)
  {
    function Start(c: int): int { c * typicalSize }

    function LastClusterSize(): int { size - (numClusters - 1) * typicalSize }

    /** What `reset` establishes. */
    ghost predicate Ok(forceSeparateSize: int) {
      && size >= 1 && typicalSize >= 1 && numClusters >= 1 && 1 <= LastClusterSize() <= typicalSize
      && typicallySeparated == (typicalSize >= forceSeparateSize)
      && lastSeparated == (LastClusterSize() >= forceSeparateSize)
    }

    function TypicalFollowers(): int { typicalSize - One(typicallySeparated) }

    function TotalNumFollowers(): int {
      size - ((numClusters - 1) * One(typicallySeparated) + One(lastSeparated))
    }

    function WhichCluster(n: int): int
      requires typicalSize >= 1
    {
      TruncDiv(n, typicalSize)
    }

    predicate HasPureLeader(c: int) { if c + 1 == numClusters then lastSeparated else typicallySeparated }

    predicate IsFollower(n: int)
      requires typicalSize >= 1
    {
      !IsLeader(n) || !(if WhichCluster(n) == numClusters - 1 then lastSeparated else typicallySeparated)
    }

    predicate IsLeader(n: int)
      requires typicalSize >= 1
    {
      TruncMod(n, typicalSize) == 0
    }

    function GlobalFollower(n: int): int
      requires TypicalFollowers() >= 1
    {
      var targetCluster := TruncDiv(n, TypicalFollowers());
      var targetPos := n - targetCluster * TypicalFollowers();
      targetCluster * typicalSize + One(HasPureLeader(targetCluster)) + targetPos
    }

    function FollowerRank(globalRank: int): int
      requires typicalSize >= 1
    {
      var targetCluster := WhichCluster(globalRank);
      var relPos := globalRank - targetCluster * typicalSize;
      targetCluster * TypicalFollowers() + relPos - One(HasPureLeader(targetCluster))
    }

    /** The members of a cluster, and those that are not a pure leader. */
    function Members(c: int): int { if c + 1 == numClusters then LastClusterSize() else typicalSize }

    function Followers(c: int): int { Members(c) - One(HasPureLeader(c)) }
  }

  lemma MulMono(a: int, b: int, k: int)
    requires a <= b && k >= 0
    ensures a * k <= b * k
  {
  }

  lemma NextMultiple(c: int, k: int)
    ensures (c + 1) * k == c * k + k
  {
  }

  lemma QuotientBelow(n: int, k: int, q: int)
    requires k >= 1 && 0 <= n < q * k
    ensures 0 <= n / k < q && 0 <= n - n / k * k < k
  {
    DivBounds(n, k);
    var c := n / k;
    assert k * c == c * k;
    if c >= q {
      MulMono(q, c, k);
      assert false;
    }
    if c < 0 {
      MulMono(c, -1, k);
      assert false;
    }
  }

  /** A rank is in the cluster in which its position fits. */
  lemma InCluster(l: Layout, c: int, pos: int)
    requires l.typicalSize >= 1 && c >= 0 && 0 <= pos < l.typicalSize
    ensures l.WhichCluster(l.Start(c) + pos) == c && TruncMod(l.Start(c) + pos, l.typicalSize) == pos
  {
    MulMono(0, c, l.typicalSize);
    assert l.typicalSize * c == l.Start(c);
    DivUnique(l.Start(c) + pos, l.typicalSize, c);
  }

  /** The ranks split into the clusters. */
  lemma ClusterOf(l: Layout, force: int, n: int) returns (c: int, pos: int)
    requires l.Ok(force) && 0 <= n < l.size
    ensures 0 <= c < l.numClusters && 0 <= pos < l.Members(c) && n == l.Start(c) + pos && c == l.WhichCluster(n)
  {
    NextMultiple(l.numClusters - 1, l.typicalSize);
    QuotientBelow(n, l.typicalSize, l.numClusters);
    c := n / l.typicalSize;
    pos := n - l.Start(c);
  }

  lemma StartFits(l: Layout, force: int, c: int, pos: int)
    requires l.Ok(force) && 0 <= c < l.numClusters && 0 <= pos < l.Members(c)
    ensures 0 <= l.Start(c) + pos < l.size
  {
    MulMono(0, c, l.typicalSize);
    if c + 1 < l.numClusters {
      MulMono(c + 1, l.numClusters - 1, l.typicalSize);
      NextMultiple(c, l.typicalSize);
    }
  }

  lemma LessOnePerCluster(k: int, size: int, separated: bool)
    ensures k * (size - One(separated)) == k * size - k * One(separated)
  {
  }

  /** The follower ranks of a cluster come right after those of the clusters before it. */
  lemma FirstRank(l: Layout, force: int, c: int)
    requires l.Ok(force) && 0 <= c < l.numClusters
    ensures 0 <= l.Followers(c) <= l.TypicalFollowers()
    ensures c + 1 < l.numClusters ==> l.Followers(c) == l.TypicalFollowers()
    ensures (l.numClusters - 1) * l.TypicalFollowers() + l.Followers(l.numClusters - 1) == l.TotalNumFollowers()
  {
    LessOnePerCluster(l.numClusters - 1, l.typicalSize, l.typicallySeparated);
  }

  lemma RankFits(l: Layout, force: int, c: int, i: int)
    requires l.Ok(force) && 0 <= c < l.numClusters && 0 <= i < l.Followers(c)
    ensures 0 <= c * l.TypicalFollowers() + i < l.TotalNumFollowers()
  {
    FirstRank(l, force, c);
    MulMono(0, c, l.TypicalFollowers());
    if c + 1 < l.numClusters {
      MulMono(c + 1, l.numClusters - 1, l.TypicalFollowers());
      NextMultiple(c, l.TypicalFollowers());
      FirstRank(l, force, l.numClusters - 1);
    }
  }

  lemma ClusterOfRank(l: Layout, force: int, n: int) returns (c: int, i: int)
    requires l.Ok(force) && 0 <= n < l.TotalNumFollowers() && l.TypicalFollowers() >= 1
    ensures 0 <= c < l.numClusters && 0 <= i < l.Followers(c) && n == c * l.TypicalFollowers() + i
    ensures c == TruncDiv(n, l.TypicalFollowers())
  {
    FirstRank(l, force, l.numClusters - 1);
    NextMultiple(l.numClusters - 1, l.TypicalFollowers());
    QuotientBelow(n, l.TypicalFollowers(), l.numClusters);
    c := n / l.TypicalFollowers();
    i := n - c * l.TypicalFollowers();
    FirstRank(l, force, c);
  }

  /** `isFollower`, in terms of the position in the cluster. */
  lemma FollowerByPosition(l: Layout, force: int, c: int, pos: int)
    requires l.Ok(force) && 0 <= c < l.numClusters && 0 <= pos < l.Members(c)
    ensures l.IsFollower(l.Start(c) + pos) <==> pos >= One(l.HasPureLeader(c))
  {
    InCluster(l, c, pos);
  }

  /** From follower rank to processor and back. */
  lemma FollowerRoundTrip(l: Layout, force: int, n: int)
    requires l.Ok(force) && 0 <= n < l.TotalNumFollowers() && l.TypicalFollowers() >= 1
    ensures 0 <= l.GlobalFollower(n) < l.size && l.IsFollower(l.GlobalFollower(n))
    ensures l.FollowerRank(l.GlobalFollower(n)) == n
  {
    var c, i := ClusterOfRank(l, force, n);
    var pos := One(l.HasPureLeader(c)) + i;
    assert l.GlobalFollower(n) == l.Start(c) + pos;
    StartFits(l, force, c, pos);
    FollowerByPosition(l, force, c, pos);
    InCluster(l, c, pos);
  }

  /** From a processor that follows to its rank and back. */
  lemma RankRoundTrip(l: Layout, force: int, g: int)
    requires l.Ok(force) && 0 <= g < l.size && l.IsFollower(g)
    ensures l.TypicalFollowers() >= 1 && 0 <= l.FollowerRank(g) < l.TotalNumFollowers()
    ensures l.GlobalFollower(l.FollowerRank(g)) == g
  {
    var c, pos := ClusterOf(l, force, g);
    FollowerByPosition(l, force, c, pos);
    var i := pos - One(l.HasPureLeader(c));
    FirstRank(l, force, c);
    RankFits(l, force, c, i);
    assert l.TypicalFollowers() * c == c * l.TypicalFollowers();
    DivUnique(c * l.TypicalFollowers() + i, l.TypicalFollowers(), c);
  }

  /** The maps are defined on every follower rank, and there are none exactly if all processors are pure leaders. */
  lemma MapsAreTotal(l: Layout, force: int)
    requires l.Ok(force)
    ensures l.TypicalFollowers() >= 1 <==> l.typicalSize > 1 || force > 1
    ensures l.TypicalFollowers() == 0 ==> l.TotalNumFollowers() == 0
    ensures l.TotalNumFollowers() == 0 <==> forall g | 0 <= g < l.size :: !l.IsFollower(g)
  {
    FirstRank(l, force, 0);
    FirstRank(l, force, l.numClusters - 1);
    if l.TypicalFollowers() == 0 {
      assert (l.numClusters - 1) * 0 == 0;
    } else if l.TotalNumFollowers() > 0 {
      FollowerRoundTrip(l, force, 0);
    }
    forall g | 0 <= g < l.size && l.IsFollower(g) ensures l.TotalNumFollowers() > 0 {
      RankRoundTrip(l, force, g);
    }
  }

  /** The number of clusters fits the size chosen for them. */
  lemma ClustersFit(size: int, typicalSize: int, force: int) returns (l: Layout)
    requires size >= 1 && typicalSize >= 1
    ensures l.size == size && l.typicalSize == typicalSize && l.numClusters == CeilDiv(size, typicalSize) && l.Ok(force)
    ensures l.numClusters <= size
  {
    var n := CeilDiv(size, typicalSize);
    assert typicalSize * (n - 1) == (n - 1) * typicalSize && typicalSize * n == n * typicalSize;
    NextMultiple(n - 1, typicalSize);
    if n <= 0 {
      MulMono(n, 0, typicalSize);
      assert false;
    }
    MulMono(1, typicalSize, n - 1);
    assert 1 * (n - 1) == n - 1 && typicalSize * (n - 1) < size;
    l := Layout(size, typicalSize, n, typicalSize >= force, size - (n - 1) * typicalSize >= force);
  }

  /** Asking for a number of clusters gives no more than that. */
  lemma NoMoreThanWanted(size: int, wanted: int)
    requires size >= 1 && wanted >= 1
    ensures 1 <= CeilDiv(size, wanted) && CeilDiv(size, CeilDiv(size, wanted)) <= wanted
  {
    var k := CeilDiv(size, wanted);
    if k <= 0 {
      MulMono(k, 0, wanted);
      assert false;
    }
    var n := CeilDiv(size, k);
    if n > wanted {
      MulMono(wanted, n - 1, k);
      assert false;
    }
  }

  /** So many clusters of size `k` hold all processors. */
  predicate Suffices(size: int, k: int, clusters: int) { size <= k * clusters }

  /** The quotient rounded up is the least size that suffices. */
  lemma CeilIsLeast(size: int, clusters: int)
    requires clusters >= 1
    ensures Suffices(size, CeilDiv(size, clusters), clusters)
    ensures forall k | k < CeilDiv(size, clusters) :: !Suffices(size, k, clusters)
  {
    var q := CeilDiv(size, clusters);
    forall k | k < q ensures !Suffices(size, k, clusters) {
      MulMono(k, q - 1, clusters);
    }
  }

  lemma HoldsAll(size: int, k: int)
    requires k >= 1
    ensures Suffices(size, k, CeilDiv(size, k)) && !Suffices(size, k, CeilDiv(size, k) - 1)
  {
  }

  /** What a processor computes about its own cluster agrees with the maps. */
  lemma OwnCluster(l: Layout, force: int, rank: int)
    requires l.Ok(force) && 0 <= rank < l.size
    ensures rank / l.typicalSize == l.WhichCluster(rank)
    ensures Min(l.typicalSize, l.size - l.Start(l.WhichCluster(rank))) == l.Members(l.WhichCluster(rank))
    ensures (l.Members(l.WhichCluster(rank)) >= force) == l.HasPureLeader(l.WhichCluster(rank))
    ensures 0 <= rank - l.Start(l.WhichCluster(rank)) < l.Members(l.WhichCluster(rank))
    ensures l.IsFollower(rank) <==>
              rank - l.Start(l.WhichCluster(rank)) != 0 || !l.HasPureLeader(l.WhichCluster(rank))
  {
    var c, pos := ClusterOf(l, force, rank);
    FollowerByPosition(l, force, c, pos);
    if c + 1 < l.numClusters {
      MulMono(c + 1, l.numClusters - 1, l.typicalSize);
      NextMultiple(c, l.typicalSize);
    }
  }

  class ClusterObj {
    var rank: int
    var size: int
    var separateFunctions: bool
    var iAmLeader: bool
    var iAmFollower: bool
    var clusterNumber: int
    var typicalSize: int
    var clusterSize: int
    var lastClusterSize: int
    var leader: int
    var numPureLeaders: int
    var numFollowers: int
    var positionInCluster: int
    var followerPosInCluster: int
    var numClusters: int
    var totalNumFollowers: int
    var typicallySeparated: bool
    var lastSeparated: bool
    var typicalFollowers: int
    var myGlobalFollowerRank: int

    function Maps(): Layout
      reads this
    {
      Layout(size, typicalSize, numClusters, typicallySeparated, lastSeparated)
    }

    /** Whatever is asked for, the clusters are well formed and what a processor knows about itself agrees
        with the maps that all processors use. */
    method Reset(rank_: int, size_: int, sizeWanted: int, clustersWanted: int, forceSeparateSize: int)
      requires 0 <= rank_ < size_
      modifies this
      ensures rank == rank_ && size == size_ && Maps().Ok(forceSeparateSize)
      ensures 1 <= typicalSize <= Max(sizeWanted, 1) && numClusters <= size
      ensures Suffices(size, typicalSize, Max(clustersWanted, 1)) || typicalSize == Max(sizeWanted, 1)
      ensures forall k | 1 <= k < typicalSize :: !Suffices(size, k, Max(clustersWanted, 1))
      ensures Suffices(size, typicalSize, numClusters) && !Suffices(size, typicalSize, numClusters - 1)
      ensures typicalSize < sizeWanted ==> numClusters <= Max(clustersWanted, 1)
      ensures clusterNumber == Maps().WhichCluster(rank) && leader == Maps().Start(clusterNumber)
      ensures positionInCluster == rank - leader && 0 <= positionInCluster < clusterSize
      ensures clusterSize == Maps().Members(clusterNumber) && lastClusterSize == Maps().LastClusterSize()
      ensures separateFunctions == Maps().HasPureLeader(clusterNumber) == (clusterSize >= forceSeparateSize)
      ensures numFollowers == Maps().Followers(clusterNumber) && numPureLeaders + totalNumFollowers == size
      ensures leader + One(separateFunctions) + followerPosInCluster == rank
      ensures iAmLeader == (positionInCluster == 0) && iAmFollower == Maps().IsFollower(rank)
      ensures typicalFollowers == Maps().TypicalFollowers() && totalNumFollowers == Maps().TotalNumFollowers()
      ensures myGlobalFollowerRank == Maps().FollowerRank(rank)
    {
      rank, size := rank_, size_;
      SetSizes(sizeWanted, clustersWanted, forceSeparateSize);
      SetOwnCluster(forceSeparateSize);
      SetFollowers();
    }

    method SetSizes(sizeWanted: int, clustersWanted: int, forceSeparateSize: int)
      requires size >= 1
      modifies `typicalSize, `numClusters, `lastClusterSize, `typicallySeparated, `lastSeparated
      ensures Maps().Ok(forceSeparateSize) && lastClusterSize == Maps().LastClusterSize()
      ensures 1 <= typicalSize <= Max(sizeWanted, 1) && numClusters <= size
      ensures Suffices(size, typicalSize, Max(clustersWanted, 1)) || typicalSize == Max(sizeWanted, 1)
      ensures forall k | 1 <= k < typicalSize :: !Suffices(size, k, Max(clustersWanted, 1))
      ensures Suffices(size, typicalSize, numClusters) && !Suffices(size, typicalSize, numClusters - 1)
      ensures typicalSize < sizeWanted ==> numClusters <= Max(clustersWanted, 1)
    {
      typicalSize := CeilDiv(size, Max(clustersWanted, 1));
      NoMoreThanWanted(size, Max(clustersWanted, 1));
      CeilIsLeast(size, Max(clustersWanted, 1));
      if typicalSize > sizeWanted {
        typicalSize := sizeWanted;
      }
      if typicalSize < 1 {
        typicalSize := 1;
      }
      numClusters := CeilDiv(size, typicalSize);
      HoldsAll(size, typicalSize);
      ghost var l := ClustersFit(size, typicalSize, forceSeparateSize);
      lastClusterSize := size - (numClusters - 1) * typicalSize;
      typicallySeparated := typicalSize >= forceSeparateSize;
      lastSeparated := lastClusterSize >= forceSeparateSize;
      assert Maps() == l;
    }

    method SetOwnCluster(forceSeparateSize: int)
      requires Maps().Ok(forceSeparateSize) && 0 <= rank < size
      modifies `clusterNumber, `leader, `clusterSize, `separateFunctions, `positionInCluster, `iAmLeader, `iAmFollower
      ensures clusterNumber == Maps().WhichCluster(rank) && leader == Maps().Start(clusterNumber)
      ensures clusterSize == Maps().Members(clusterNumber)
      ensures separateFunctions == Maps().HasPureLeader(clusterNumber) == (clusterSize >= forceSeparateSize)
      ensures positionInCluster == rank - leader && 0 <= positionInCluster < clusterSize
      ensures iAmLeader == (positionInCluster == 0) && iAmFollower == Maps().IsFollower(rank)
    {
      OwnCluster(Maps(), forceSeparateSize, rank);
      clusterNumber := rank / typicalSize;
      leader := clusterNumber * typicalSize;
      clusterSize := Min(typicalSize, size - leader);
      separateFunctions := clusterSize >= forceSeparateSize;
      positionInCluster := rank - leader;
      iAmLeader := positionInCluster == 0;
      iAmFollower := !iAmLeader || !separateFunctions;
    }

    method SetFollowers()
      requires typicalSize >= 1
      requires clusterNumber == Maps().WhichCluster(rank) && leader == Maps().Start(clusterNumber)
      requires clusterSize == Maps().Members(clusterNumber) && separateFunctions == Maps().HasPureLeader(clusterNumber)
      requires positionInCluster == rank - leader
      modifies `typicalFollowers, `numFollowers, `followerPosInCluster, `numPureLeaders, `totalNumFollowers,
               `myGlobalFollowerRank
      ensures typicalFollowers == Maps().TypicalFollowers() && totalNumFollowers == Maps().TotalNumFollowers()
      ensures numFollowers == Maps().Followers(clusterNumber) && myGlobalFollowerRank == Maps().FollowerRank(rank)
      ensures numPureLeaders + totalNumFollowers == size
      ensures leader + One(separateFunctions) + followerPosInCluster == rank
    {
      typicalFollowers := typicalSize - One(typicallySeparated);
      numFollowers := clusterSize - One(separateFunctions);
      followerPosInCluster := positionInCluster - One(separateFunctions);
      numPureLeaders := (numClusters - 1) * One(typicallySeparated) + One(lastSeparated);
      totalNumFollowers := size - numPureLeaders;
      myGlobalFollowerRank := clusterNumber * typicalFollowers + followerPosInCluster;
    }
  }
}
