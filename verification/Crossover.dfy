/** The end of ramp-up in `parBranching.cpp`: every processor goes through the same pool and keeps its share. */
module Crossover {
  import opened Clustering
  import opened Pooling
  import opened Sums
  import opened TreeTopology

  // ---------- Greatest common divisors ----------

  function GcdOf(a: nat, b: nat): nat
    decreases b
  {
    if b == 0 then a else GcdOf(b, a % b)
  }

  /** `utilib`'s Euclidean loop. */
  method Gcd(a0: nat, b0: nat) returns (a: nat)
    ensures a == GcdOf(a0, b0)
  {
    a := a0;
    var b: nat := b0;
    while b != 0
      invariant GcdOf(a, b) == GcdOf(a0, b0)
      decreases b
    {
      var temp: nat := b;
      b := a % b;
      a := temp;
    }
  }

  ghost predicate Divides(d: int, n: int) { exists k :: n == d * k }

  lemma DividesSum(d: int, m: int, n: int, q: int)
    requires Divides(d, m) && Divides(d, n)
    ensures Divides(d, n * q + m)
  {
    var i :| m == d * i;
    var j :| n == d * j;
    assert n * q + m == d * (j * q + i);
  }

  /** It divides both numbers, and every common divisor divides it. */
  lemma {:induction false} GcdIsGreatest(a: nat, b: nat, d: int)
    ensures Divides(GcdOf(a, b), a) && Divides(GcdOf(a, b), b)
    ensures Divides(d, a) && Divides(d, b) ==> Divides(d, GcdOf(a, b))
    decreases b
  {
    if b == 0 {
      assert a == a * 1 && 0 == a * 0;
    } else {
      GcdIsGreatest(b, a % b, d);
      var q := a / b;
      assert a == b * q + a % b;
      DividesSum(GcdOf(a, b), a % b, b, q);
      if Divides(d, a) && Divides(d, b) {
        DividesSum(d, a, b, -q);
        assert b * -q + a == a % b;
      }
    }
  }

  lemma BezoutStep(a: int, b: int, q: int, r: int, u: int, v: int)
    requires a == b * q + r
    ensures a * v + b * (u - q * v) == b * u + r * v
  {
    assert a * v == b * q * v + r * v;
    assert b * (u - q * v) == b * u - b * (q * v);
    assert b * q * v == b * (q * v);
  }

  lemma {:induction false} Bezout(a: nat, b: nat) returns (x: int, y: int)
    ensures a * x + b * y == GcdOf(a, b)
    decreases b
  {
    if b == 0 {
      x, y := 1, 0;
    } else {
      var u, v := Bezout(b, a % b);
      BezoutStep(a, b, a / b, a % b, u, v);
      x, y := v, u - a / b * v;
    }
  }

  ghost predicate Coprime(a: int, b: int) {
    forall d: nat | Divides(d, a) && Divides(d, b) :: d == 1
  }

  lemma OnlyOneDividesOne(d: nat)
    requires Divides(d, 1)
    ensures d == 1
  {
    var k :| 1 == d * k;
    assert d >= 2 && k >= 1 ==> d * k >= 2;
    assert k <= 0 ==> d * k <= 0;
  }

  /** The test of the code is the one that is meant. */
  lemma GcdOneIsCoprime(a: nat, b: nat)
    ensures GcdOf(a, b) == 1 <==> Coprime(a, b)
  {
    GcdIsGreatest(a, b, 1);
    if GcdOf(a, b) == 1 {
      forall d: nat | Divides(d, a) && Divides(d, b) ensures d == 1 {
        GcdIsGreatest(a, b, d);
        OnlyOneDividesOne(d);
      }
    }
  }

  // ---------- The skip factor ----------

  /** What each processor puts into the minimum: its own value if that is prime to the number of workers, else the
      least number above that of the workers, which always is. */
  method TrialSkip(workersPerCluster: nat, searchRank: nat, totalWorkers: nat) returns (trialSkip: nat)
    requires totalWorkers >= 1
    ensures Coprime(trialSkip, totalWorkers)
    ensures trialSkip == workersPerCluster + searchRank || trialSkip == totalWorkers + 1
    ensures Coprime(workersPerCluster + searchRank, totalWorkers) ==> trialSkip == workersPerCluster + searchRank
    ensures trialSkip == Trial(workersPerCluster, totalWorkers, searchRank)
  {
    trialSkip := workersPerCluster + searchRank;
    GcdOneIsCoprime(trialSkip, totalWorkers);
    var g := Gcd(trialSkip, totalWorkers);
    if g != 1 {
      trialSkip := totalWorkers + 1;
      OneMore(totalWorkers);
      GcdOneIsCoprime(trialSkip, totalWorkers);
    }
  }

  function Trial(workersPerCluster: nat, totalWorkers: nat, rank: nat): nat {
    if GcdOf(workersPerCluster + rank, totalWorkers) != 1 then totalWorkers + 1 else workersPerCluster + rank
  }

  /** The reduction over all processors. */
  function SkipFactor(workersPerCluster: nat, totalWorkers: nat, size: nat): nat
    requires size >= 1
  {
    var trial := Trial(workersPerCluster, totalWorkers, size - 1);
    if size == 1 then trial else
      var least := SkipFactor(workersPerCluster, totalWorkers, size - 1);
      if trial < least then trial else least
  }

  lemma OneMore(totalWorkers: nat)
    requires totalWorkers >= 1
    ensures GcdOf(totalWorkers + 1, totalWorkers) == 1
  {
    if totalWorkers == 1 {
      assert 2 % 1 == 0;
      assert GcdOf(2, 1) == GcdOf(1, 0);
    } else {
      DivUnique(totalWorkers + 1, totalWorkers, 1);
      assert GcdOf(totalWorkers, 1) == GcdOf(1, totalWorkers % 1);
    }
  }

  /** The skip factor is prime to the number of workers, and none of the values tried that are is smaller. */
  lemma {:induction false} SkipFactorIsCoprime(workersPerCluster: nat, totalWorkers: nat, size: nat)
    requires totalWorkers >= 1 && size >= 1
    ensures GcdOf(SkipFactor(workersPerCluster, totalWorkers, size), totalWorkers) == 1
    ensures Coprime(SkipFactor(workersPerCluster, totalWorkers, size), totalWorkers)
    ensures forall p: nat | p < size ::
              SkipFactor(workersPerCluster, totalWorkers, size) <= Trial(workersPerCluster, totalWorkers, p)
  {
    OneMore(totalWorkers);
    if size > 1 {
      SkipFactorIsCoprime(workersPerCluster, totalWorkers, size - 1);
    }
    GcdOneIsCoprime(SkipFactor(workersPerCluster, totalWorkers, size), totalWorkers);
  }

  // ---------- The sequence of workers ----------

  /** The follower rank of the processor that gets the `i`-th subproblem. */
  function WorkerRank(skip: nat, totalWorkers: nat, i: nat): (w: nat)
    requires totalWorkers >= 1
    ensures w < totalWorkers
  {
    if i == 0 then 0 else (WorkerRank(skip, totalWorkers, i - 1) + skip) % totalWorkers
  }

  lemma {:induction false} RankQuotient(skip: nat, total: nat, i: nat) returns (q: int)
    requires total >= 1
    ensures i * skip == total * q + WorkerRank(skip, total, i)
  {
    if i == 0 {
      q := 0;
    } else {
      q := RankQuotient(skip, total, i - 1);
      var n := WorkerRank(skip, total, i - 1) + skip;
      DivBounds(n, total);
      DivUnique(n, total, n / total);
      assert i * skip == (i - 1) * skip + skip;
      assert total * (q + n / total) == total * q + total * (n / total);
      q := q + n / total;
    }
  }

  lemma Cancel(skip: int, total: int, x: int, y: int, d: int, q: int)
    requires skip * x + total * y == 1 && d * skip == total * q
    ensures d == total * (q * x + d * y)
  {
    assert d * (skip * x + total * y) == d * skip * x + d * (total * y) by {
      assert d * (skip * x) == d * skip * x;
    }
    assert total * q * x == total * (q * x);
    assert d * (total * y) == total * (d * y);
  }

  lemma MultipleIsZero(total: int, d: int, m: int)
    requires total >= 1 && d == total * m && -total < d < total
    ensures d == 0
  {
    assert m >= 1 ==> total * m >= total;
    assert m <= -1 ==> total * m <= -total;
  }

  lemma Difference(skip: int, total: int, i: int, j: int, q: int, r: int, w: int)
    requires i * skip == total * q + w && j * skip == total * r + w
    ensures (i - j) * skip == total * (q - r)
  {
  }

  /** Within one cycle no worker is met twice. */
  lemma CycleHasNoRepeats(skip: nat, total: nat, i: nat, j: nat)
    requires total >= 1 && GcdOf(skip, total) == 1 && i < total && j < total
    requires WorkerRank(skip, total, i) == WorkerRank(skip, total, j)
    ensures i == j
  {
    var q := RankQuotient(skip, total, i);
    var r := RankQuotient(skip, total, j);
    var x, y := Bezout(skip, total);
    Difference(skip, total, i, j, q, r, WorkerRank(skip, total, i));
    Cancel(skip, total, x, y, i - j, q - r);
    MultipleIsZero(total, i - j, (q - r) * x + (i - j) * y);
  }

  lemma WholeCycle(skip: int, total: int, q: int, w: int)
    requires total * skip == total * q + w
    ensures w == total * (skip - q)
  {
  }

  lemma RankAfterCycle(skip: nat, total: nat)
    requires total >= 1
    ensures WorkerRank(skip, total, total) == 0
  {
    var q := RankQuotient(skip, total, total);
    var w := WorkerRank(skip, total, total);
    WholeCycle(skip, total, q, w);
    MultipleIsZero(total, w, skip - q);
  }

  lemma NextRank(skip: nat, total: nat, i: nat, j: nat)
    requires total >= 1 && WorkerRank(skip, total, i) == WorkerRank(skip, total, j)
    ensures WorkerRank(skip, total, i + 1) == WorkerRank(skip, total, j + 1)
  {
  }

  /** After one cycle everything repeats. */
  lemma {:induction false} CycleRepeats(skip: nat, total: nat, i: nat)
    requires total >= 1
    ensures WorkerRank(skip, total, i + total) == WorkerRank(skip, total, i)
  {
    if i == 0 {
      RankAfterCycle(skip, total);
    } else {
      CycleRepeats(skip, total, i - 1);
      NextRank(skip, total, i - 1 + total, i - 1);
    }
  }

  /** The place of a worker in the cycle. */
  lemma PlaceInCycle(skip: nat, total: nat, w: nat) returns (place: nat)
    requires total >= 1 && GcdOf(skip, total) == 1 && w < total
    ensures place < total && WorkerRank(skip, total, place) == w
  {
    var ranks := (i: int) => if i >= 0 then WorkerRank(skip, total, i) else 0;
    forall i, j | i in Below(total) && j in Below(total) && i != j ensures ranks(i) != ranks(j) {
      if ranks(i) == ranks(j) {
        CycleHasNoRepeats(skip, total, i, j);
      }
    }
    place := OneToOneIsOnto(Below(total), ranks, total, w);
  }

  lemma OneCycleLess(i: nat, total: nat)
    requires 1 <= total <= i
    ensures (i - total) % total == i % total
  {
    DivBounds(i, total);
    DivUnique(i, total, i / total);
    assert total * (i / total - 1) == total * (i / total) - total;
    DivUnique(i - total, total, i / total - 1);
  }

  lemma {:induction false} RankInCycle(skip: nat, total: nat, i: nat)
    requires total >= 1
    ensures WorkerRank(skip, total, i) == WorkerRank(skip, total, i % total)
    decreases i
  {
    if i >= total {
      CycleRepeats(skip, total, i - total);
      RankInCycle(skip, total, i - total);
      OneCycleLess(i, total);
    } else {
      DivUnique(i, total, 0);
    }
  }

  /** How many of the first `m` subproblems go to worker `w`. */
  ghost function Share(skip: nat, total: nat, w: nat, m: nat): nat
    requires total >= 1
  {
    if m == 0 then 0 else Share(skip, total, w, m - 1) + if WorkerRank(skip, total, m - 1) == w then 1 else 0
  }

  lemma NextQuotient(m: nat, total: nat)
    requires total >= 1
    ensures if m % total + 1 == total then (m + 1) / total == m / total + 1 && (m + 1) % total == 0
            else (m + 1) / total == m / total && (m + 1) % total == m % total + 1
  {
    DivBounds(m, total);
    var q := m / total;
    DivUnique(m, total, q);
    if m % total + 1 == total {
      assert total * (q + 1) == total * q + total;
      DivUnique(m + 1, total, q + 1);
    } else {
      DivUnique(m + 1, total, q);
    }
  }

  lemma {:induction false} ShareAtPlace(skip: nat, total: nat, w: nat, place: nat, m: nat)
    requires total >= 1 && GcdOf(skip, total) == 1 && place < total && WorkerRank(skip, total, place) == w
    ensures Share(skip, total, w, m) == m / total + if place < m % total then 1 else 0
  {
    if m == 0 {
      DivUnique(0, total, 0);
    } else {
      ShareAtPlace(skip, total, w, place, m - 1);
      NextQuotient(m - 1, total);
      RankInCycle(skip, total, m - 1);
      if WorkerRank(skip, total, m - 1) == w {
        CycleHasNoRepeats(skip, total, (m - 1) % total, place);
      }
    }
  }

  /** Every worker gets its even share. */
  lemma ShareIsEven(skip: nat, total: nat, w: nat, m: nat)
    requires total >= 1 && GcdOf(skip, total) == 1 && w < total
    ensures m / total <= Share(skip, total, w, m) <= m / total + 1
  {
    var place := PlaceInCycle(skip, total, w);
    ShareAtPlace(skip, total, w, place, m);
  }

  // ---------- Who keeps what ----------

  ghost predicate Team(l: Layout, force: int, skip: nat) {
    l.Ok(force) && l.TotalNumFollowers() >= 1 && l.TypicalFollowers() >= 1 && GcdOf(skip, l.TotalNumFollowers()) == 1
  }

  /** As soon as there is a worker at all, the reduction gives a skip factor with which the crossover works. */
  lemma SkipFactorMakesTeam(l: Layout, force: int)
    requires l.Ok(force) && l.TotalNumFollowers() >= 1
    ensures l.TypicalFollowers() >= 1
    ensures Team(l, force, SkipFactor(l.TypicalFollowers(), l.TotalNumFollowers(), l.size))
  {
    FirstRank(l, force, 0);
    MapsAreTotal(l, force);
    SkipFactorIsCoprime(l.TypicalFollowers(), l.TotalNumFollowers(), l.size);
  }

  /** The processor that gets the `i`-th subproblem. */
  ghost function Owner(l: Layout, skip: nat, i: nat): int
    requires l.TotalNumFollowers() >= 1 && l.TypicalFollowers() >= 1
  {
    l.GlobalFollower(WorkerRank(skip, l.TotalNumFollowers(), i))
  }

  /** It is a worker, and the one with that follower rank. */
  lemma OwnerWorks(l: Layout, force: int, skip: nat, i: nat)
    requires Team(l, force, skip)
    ensures 0 <= Owner(l, skip, i) < l.size && l.IsFollower(Owner(l, skip, i))
    ensures l.FollowerRank(Owner(l, skip, i)) == WorkerRank(skip, l.TotalNumFollowers(), i)
  {
    FollowerRoundTrip(l, force, WorkerRank(skip, l.TotalNumFollowers(), i));
  }

  ghost function Owners(l: Layout, skip: nat): nat -> int
    requires l.TotalNumFollowers() >= 1 && l.TypicalFollowers() >= 1
  {
    (i: nat) => Owner(l, skip, i)
  }

  /** What processor `p` keeps of the first `m` subproblems. */
  ghost function Kept<S>(owner: nat -> int, pool: seq<S>, p: int, m: nat): seq<S>
    requires m <= |pool|
  {
    if m == 0 then [] else Kept(owner, pool, p, m - 1) + if owner(m - 1) == p then [pool[m - 1]] else []
  }

  /** Pure hubs keep nothing. */
  lemma {:induction false} PureHubsKeepNothing<S>(l: Layout, force: int, skip: nat, pool: seq<S>, p: int, m: nat)
    requires Team(l, force, skip) && m <= |pool| && !l.IsFollower(p)
    ensures Kept(Owners(l, skip), pool, p, m) == []
  {
    if m > 0 {
      PureHubsKeepNothing(l, force, skip, pool, p, m - 1);
      OwnerWorks(l, force, skip, m - 1);
    }
  }

  /** A worker keeps its share. */
  lemma {:induction false} KeepsShare<S>(l: Layout, force: int, skip: nat, pool: seq<S>, p: int, m: nat)
    requires Team(l, force, skip) && m <= |pool| && 0 <= p < l.size && l.IsFollower(p)
    ensures 0 <= l.FollowerRank(p) < l.TotalNumFollowers()
    ensures |Kept(Owners(l, skip), pool, p, m)| == Share(skip, l.TotalNumFollowers(), l.FollowerRank(p), m)
  {
    RankRoundTrip(l, force, p);
    if m > 0 {
      KeepsShare(l, force, skip, pool, p, m - 1);
      OwnerWorks(l, force, skip, m - 1);
    }
  }

  /** The numbers of subproblems at any two workers differ by at most one. */
  lemma WorkIsEven<S>(l: Layout, force: int, skip: nat, pool: seq<S>, p: int, q: int)
    requires Team(l, force, skip) && 0 <= p < l.size && 0 <= q < l.size && l.IsFollower(p) && l.IsFollower(q)
    ensures |Kept(Owners(l, skip), pool, p, |pool|)| <= |Kept(Owners(l, skip), pool, q, |pool|)| + 1
    ensures |pool| / l.TotalNumFollowers() <= |Kept(Owners(l, skip), pool, p, |pool|)|
  {
    KeepsShare(l, force, skip, pool, p, |pool|);
    KeepsShare(l, force, skip, pool, q, |pool|);
    ShareIsEven(skip, l.TotalNumFollowers(), l.FollowerRank(p), |pool|);
    ShareIsEven(skip, l.TotalNumFollowers(), l.FollowerRank(q), |pool|);
  }

  ghost function Bag<S>(): seq<S> -> multiset<S> { (s: seq<S>) => multiset(s) }

  ghost function AllKept<S>(owner: nat -> int, pool: seq<S>, size: nat, m: nat): (r: seq<seq<S>>)
    requires m <= |pool|
    ensures |r| == size && forall p | 0 <= p < size :: r[p] == Kept(owner, pool, p, m)
  {
    seq(size, p requires 0 <= p < size => Kept(owner, pool, p, m))
  }

  lemma {:induction false} NothingYet<S>(t: seq<seq<S>>)
    requires forall p | 0 <= p < |t| :: t[p] == []
    ensures Pooled(Bag(), t) == multiset{}
  {
    if t != [] {
      NothingYet(t[..|t| - 1]);
    }
  }

  lemma OneMoreInBag<S>(t: seq<seq<S>>, p: nat, sp: S)
    requires p < |t|
    ensures Pooled(Bag(), t[p := t[p] + [sp]]) == Pooled(Bag(), t) + multiset{sp}
  {
    PooledMore(Bag(), t, p, t[p] + [sp], multiset{sp});
  }

  lemma OneMoreKept<S>(owner: nat -> int, pool: seq<S>, size: nat, m: nat)
    requires 0 < m <= |pool| && 0 <= owner(m - 1) < size
    ensures var before, p := AllKept(owner, pool, size, m - 1), owner(m - 1);
            AllKept(owner, pool, size, m) == before[p := before[p] + [pool[m - 1]]]
  {
    var before, after, p := AllKept(owner, pool, size, m - 1), AllKept(owner, pool, size, m), owner(m - 1);
    forall q | 0 <= q < size ensures after[q] == before[p := before[p] + [pool[m - 1]]][q] {
      assert after[q] == Kept(owner, pool, q, m) && before[q] == Kept(owner, pool, q, m - 1);
      assert before[q] + [] == before[q];
    }
  }

  lemma BagGrows<S>(owner: nat -> int, pool: seq<S>, size: nat, m: nat)
    requires 0 < m <= |pool| && 0 <= owner(m - 1) < size
    ensures Pooled(Bag(), AllKept(owner, pool, size, m))
         == Pooled(Bag(), AllKept(owner, pool, size, m - 1)) + multiset{pool[m - 1]}
  {
    OneMoreKept(owner, pool, size, m);
    OneMoreInBag(AllKept(owner, pool, size, m - 1), owner(m - 1), pool[m - 1]);
  }

  lemma PrefixGrows<S>(pool: seq<S>, m: nat)
    requires 0 < m <= |pool|
    ensures multiset(pool[..m]) == multiset(pool[..m - 1]) + multiset{pool[m - 1]}
  {
    assert pool[..m] == pool[..m - 1] + [pool[m - 1]];
  }

  lemma {:induction false} EachKeptOnce<S>(owner: nat -> int, pool: seq<S>, size: nat, m: nat)
    requires m <= |pool| && forall i: nat | i < m :: 0 <= owner(i) < size
    ensures Pooled(Bag(), AllKept(owner, pool, size, m)) == multiset(pool[..m])
  {
    if m == 0 {
      NothingYet(AllKept(owner, pool, size, 0));
    } else {
      EachKeptOnce(owner, pool, size, m - 1);
      BagGrows(owner, pool, size, m);
      PrefixGrows(pool, m);
    }
  }

  /** All processors together keep exactly the subproblems there are, each once. */
  lemma NothingIsLost<S>(l: Layout, force: int, skip: nat, pool: seq<S>)
    requires Team(l, force, skip)
    ensures Pooled(Bag(), AllKept(Owners(l, skip), pool, l.size, |pool|)) == multiset(pool)
  {
    forall i: nat | i < |pool| ensures 0 <= Owners(l, skip)(i) < l.size {
      OwnerWorks(l, force, skip, i);
    }
    EachKeptOnce(Owners(l, skip), pool, l.size, |pool|);
    assert pool[..|pool|] == pool;
  }

  // ---------- The code ----------

  /** The processor of the `w`-th worker of a cluster. */
  function Follower(l: Layout, cluster: int, w: int): int { l.Start(cluster) + w + One(l.HasPureLeader(cluster)) }

  lemma OwnerInCluster(l: Layout, force: int, skip: nat, i: nat, cluster: int)
    requires Team(l, force, skip) && l.WhichCluster(Owner(l, skip, i)) == cluster
    ensures 0 <= Owner(l, skip, i) - l.Start(cluster) - One(l.HasPureLeader(cluster)) < l.Followers(cluster)
  {
    OwnerWorks(l, force, skip, i);
    var c, pos := ClusterOf(l, force, Owner(l, skip, i));
    FollowerByPosition(l, force, c, pos);
  }

  lemma FollowerInCluster(l: Layout, force: int, cluster: int, w: int)
    requires l.Ok(force) && 0 <= cluster < l.numClusters && 0 <= w < l.Followers(cluster)
    ensures l.WhichCluster(Follower(l, cluster, w)) == cluster
  {
    InCluster(l, cluster, w + One(l.HasPureLeader(cluster)));
  }

  ghost predicate ReportsUpTo<S>(l: Layout, skip: nat, pool: seq<S>, cluster: int, report: seq<nat>, m: nat)
    requires l.TotalNumFollowers() >= 1 && l.TypicalFollowers() >= 1 && m <= |pool|
  {
    forall w | 0 <= w < |report| :: report[w] == |Kept(Owners(l, skip), pool, Follower(l, cluster, w), m)|
  }

  /** A hub counts a subproblem for the worker that keeps it, and for no other. */
  lemma ReportStep<S>(l: Layout, force: int, skip: nat, pool: seq<S>, cluster: int, report: seq<nat>, m: nat,
        report': seq<nat>)
    requires Team(l, force, skip) && m < |pool| && 0 <= cluster < l.numClusters && |report| == l.Followers(cluster)
    requires ReportsUpTo(l, skip, pool, cluster, report, m)
    requires var worker := Owner(l, skip, m) - l.Start(cluster) - One(l.HasPureLeader(cluster));
             if l.WhichCluster(Owner(l, skip, m)) == cluster
             then 0 <= worker < |report| && report' == report[worker := report[worker] + 1]
             else report' == report
    ensures ReportsUpTo(l, skip, pool, cluster, report', m + 1)
  {
    forall w | 0 <= w < |report'|
      ensures report'[w] == |Kept(Owners(l, skip), pool, Follower(l, cluster, w), m + 1)|
    {
      FollowerInCluster(l, force, cluster, w);
    }
  }

  /** The crossover loop of one processor.  `pool` lists the subproblems in the order in which the pools,
      identical on all processors, release them. */
  method PickMine<S>(pool: seq<S>, l: Layout, ghost force: int, searchRank: int, skipFactor: nat)
    returns (tempPool: seq<S>, workerLoadReport: seq<nat>)
    requires Team(l, force, skipFactor) && 0 <= searchRank < l.size
    ensures tempPool == Kept(Owners(l, skipFactor), pool, searchRank, |pool|)
    ensures l.IsLeader(searchRank) ==>
              && |workerLoadReport| == l.Followers(l.WhichCluster(searchRank))
              && ReportsUpTo(l, skipFactor, pool, l.WhichCluster(searchRank), workerLoadReport, |pool|)
  {
    var cluster := l.WhichCluster(searchRank);
    ghost var c, pos := ClusterOf(l, force, searchRank);
    FirstRank(l, force, cluster);
    var workerRank := 0;
    tempPool := [];
    workerLoadReport := seq(l.Followers(cluster), _ => 0);
    var i := 0;
    while i < |pool|
      invariant 0 <= i <= |pool| && workerRank == WorkerRank(skipFactor, l.TotalNumFollowers(), i)
      invariant tempPool == Kept(Owners(l, skipFactor), pool, searchRank, i)
      invariant |workerLoadReport| == l.Followers(cluster)
      invariant l.IsLeader(searchRank) ==> ReportsUpTo(l, skipFactor, pool, cluster, workerLoadReport, i)
    {
      var sp := pool[i];
      var procRank := l.GlobalFollower(workerRank);
      OwnerWorks(l, force, skipFactor, i);
      ghost var before := workerLoadReport;
      if l.WhichCluster(procRank) == cluster && l.IsLeader(searchRank) {
        OwnerInCluster(l, force, skipFactor, i, cluster);
        var workerClusterRank := procRank - l.Start(cluster) - One(l.HasPureLeader(cluster));
        workerLoadReport := workerLoadReport[workerClusterRank := workerLoadReport[workerClusterRank] + 1];
      }
      if l.IsLeader(searchRank) {
        ReportStep(l, force, skipFactor, pool, cluster, before, i, workerLoadReport);
      }
      if procRank == searchRank {
        tempPool := tempPool + [sp];
      }
      workerRank := (workerRank + skipFactor) % l.TotalNumFollowers();
      i := i + 1;
    }
  }
}
