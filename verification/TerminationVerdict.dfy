/** What the verdict of the termination check means exactly. */
module TerminationVerdict {
  import opened Sums
  import opened TerminationCheck
  import opened TerminationLoads
  import opened TerminationNet

  /** No hub has counted more than its cluster has sent by now, and a dead machine has not changed. */
  ghost predicate Extra(c: Config, s: Sys)
    requires Sized(c, s)
  {
    && (forall h | c.IsHub(h) && s.phase[h] == Reported2 :: s.count2[h] <= Due(c, s.net.load, h, Sent))
    && (s.combined && Dead(c, s.atT) ==> s.net.load == s.atT.load)
  }

  // ---------- Nothing sent is ever taken back ----------

  ghost predicate SentGrows(c: Config, v: seq<Load>, v': seq<Load>) {
    |v| == |v'| == c.n && forall p | 0 <= p < c.n :: Get(Sent, v[p]) <= Get(Sent, v'[p])
  }

  lemma SearchSends(c: Config, s: Sys, s': Sys)
    requires Sized(c, s) && Search(c, s, s')
    ensures SentGrows(c, s.net.load, s'.net.load)
  {
    var p :| SearchAt(c, s, s', p);
    if i, o, count, pending :| Acts(c, s, s', p, i, o, count, pending) {
      assert s'.net.load[p] == LoadAfter(c, s.net.load[p], i, o, count, pending);
    }
  }

  lemma NextSends(c: Config, s: Sys, s': Sys)
    requires Next(c, s, s')
    ensures SentGrows(c, s.net.load, s'.net.load)
  {
    if Search(c, s, s') {
      SearchSends(c, s, s');
    }
  }

  lemma DueGrows(c: Config, v: seq<Load>, v': seq<Load>, h: int)
    requires c.Ok() && SentGrows(c, v, v')
    ensures Due(c, v, h, Sent) <= Due(c, v', h, Sent)
  {
    var before, now := In(c, h, Of(v, Sent)), In(c, h, Of(v', Sent));
    forall p | 0 <= p < c.n ensures before(p) <= now(p) {
      InIs(c, h, Of(v, Sent), p);
      InIs(c, h, Of(v', Sent), p);
    }
    SumLe(c.n, before, now);
  }

  /** What a hub counts in wave two has really been sent. */
  lemma CountIsReal(c: Config, s: Sys, h: int)
    requires Inv(c, s) && c.IsHub(h)
    ensures Get(Sent, ClusterLoad(c, Views(c, s), h, c.n)) <= Due(c, s.net.load, h, Sent)
  {
    ClusterField(c, Views(c, s), h, c.n, Sent);
    forall p | c.In(p, h) ensures Evolves(Views(c, s)[p], s.net.load[p]) {
      if Worker(c, p) {
        assert WorkerOk(c, s, p);
      }
    }
    DueLe(c, Views(c, s), s.net.load, h);
  }

  // ---------- The invariant ----------

  ghost predicate HubStep(c: Config, s: Sys, s': Sys, g: int)
    requires Sized(c, s)
  {
    StartPoll(c, s, s', g) || Report1(c, s, s', g) || Report2(c, s, s', g)
  }

  /** Where a hub stood, and what it had counted, before another hub took a step. */
  lemma OthersStand(c: Config, s: Sys, s': Sys, g: int, h: int)
    requires Sized(c, s) && Sized(c, s') && c.IsHub(h) && s'.phase[h] == Reported2
    requires HubStep(c, s, s', g) && !Report2(c, s, s', h)
    ensures s.phase[h] == Reported2 && s'.count2[h] == s.count2[h]
  {
  }

  lemma AllStand(c: Config, s: Sys, s': Sys)
    requires Next(c, s, s')
    requires forall g :: !StartPoll(c, s, s', g)
    requires forall g :: !Report1(c, s, s', g)
    requires forall g :: !Report2(c, s, s', g)
    ensures s'.count2 == s.count2 && (s'.phase == s.phase || s'.phase == seq(c.n, _ => Resting))
  {
  }

  /** Only its own report changes what a hub has counted. */
  lemma CountStands(c: Config, s: Sys, s': Sys, h: int)
    requires Next(c, s, s') && Sized(c, s') && c.IsHub(h) && s'.phase[h] == Reported2 && !Report2(c, s, s', h)
    ensures s.phase[h] == Reported2 && s'.count2[h] == s.count2[h]
  {
    if g :| StartPoll(c, s, s', g) {
      OthersStand(c, s, s', g, h);
    } else if g :| Report1(c, s, s', g) {
      OthersStand(c, s, s', g, h);
    } else if g :| Report2(c, s, s', g) {
      OthersStand(c, s, s', g, h);
    } else {
      AllStand(c, s, s');
    }
  }

  lemma OneCountKept(c: Config, s: Sys, s': Sys, h: int)
    requires Inv(c, s) && Extra(c, s) && Next(c, s, s') && Sized(c, s') && c.IsHub(h) && s'.phase[h] == Reported2
    ensures s'.count2[h] <= Due(c, s'.net.load, h, Sent)
  {
    if Report2(c, s, s', h) {
      CountIsReal(c, s, h);
    } else {
      CountStands(c, s, s', h);
      NextSends(c, s, s');
      DueGrows(c, s.net.load, s'.net.load, h);
    }
  }

  lemma DeadIsKept(c: Config, s: Sys, s': Sys)
    requires Inv(c, s) && Extra(c, s) && Next(c, s, s') && Sized(c, s') && s'.combined && Dead(c, s'.atT)
    ensures s'.net.load == s'.atT.load
  {
    CombineStep(c, s, s');
    if s.combined {
      assert Dead(c, s.net);
      DeadLoadsStay(c, s, s');
    }
  }

  /** In a dead machine no step changes a load record. */
  lemma DeadLoadsStay(c: Config, s: Sys, s': Sys)
    requires Sized(c, s) && Dead(c, s.net) && Next(c, s, s')
    ensures s'.net.load == s.net.load
  {
    if Search(c, s, s') {
      DeadSearchChangesNothing(c, s, s');
    } else if w, k, count :| Take(c, s, s', w, k, count) {
      DeadTakeChangesNothing(c, s, s', w, k, count);
    }
  }

  lemma NextKeepsExtra(c: Config, s: Sys, s': Sys)
    requires Inv(c, s) && Inv(c, s') && Extra(c, s) && Next(c, s, s')
    ensures Extra(c, s')
  {
    forall h | c.IsHub(h) && s'.phase[h] == Reported2 ensures s'.count2[h] <= Due(c, s'.net.load, h, Sent) {
      OneCountKept(c, s, s', h);
    }
    if s'.combined && Dead(c, s'.atT) {
      DeadIsKept(c, s, s');
    }
  }

  lemma {:induction false} ExtraHolds(c: Config, run: seq<Sys>, i: nat)
    requires IsRun(c, run) && i < |run|
    ensures Inv(c, run[i]) && Extra(c, run[i])
  {
    InvHolds(c, run, i);
    if i == 0 {
      assert Init(c, run[0]);
    } else {
      ExtraHolds(c, run, i - 1);
      NextKeepsExtra(c, run[i - 1], run[i]);
    }
  }

  // ---------- The verdict ----------

  lemma CountsWithinSent(c: Config, s: Sys)
    requires Inv(c, s) && Extra(c, s) && AllHubs(c, s, Reported2)
    ensures Sum(c.n, HubCounts(c, s)) <= Sum(c.n, Of(s.net.load, Sent))
  {
    var f := Of(s.net.load, Sent);
    Partition(c, f);
    SumLe(c.n, HubCounts(c, s), PerHub(c, f));
  }

  ghost predicate NothingReceivedSince(c: Config, v: seq<Load>, net: Net)
    requires |v| == |net.load| == c.n
  {
    forall p | 0 <= p < c.n ::
      && v[p].general.received == net.load[p].general.received
      && v[p].nonLocal.received == net.load[p].nonLocal.received
  }

  lemma SameReceived(c: Config, v: seq<Load>, net: Net)
    requires |v| == |net.load| == c.n && NothingReceivedSince(c, v, net)
    ensures Sum(c.n, Of(v, Received)) == Sum(c.n, Of(net.load, Received))
  {
    forall p | 0 <= p < c.n ensures Of(v, Received)(p) == Of(net.load, Received)(p) {
      OfIs(v, Received, p);
      OfIs(net.load, Received, p);
    }
    SumSame(c.n, Of(v, Received), Of(net.load, Received));
  }

  lemma NothingInTransit(c: Config, net: Net)
    requires Ledgers(c, net) && Dead(c, net)
    ensures Sum(c.n, Of(net.load, Sent)) == Sum(c.n, Of(net.load, Received))
  {
    SentCoversReceived(c, net);
    SumZero(c.n, At(net.gen), 0);
    SumZero(c.n, At(net.nl), 0);
  }

  lemma DeadIsConfirmed(c: Config, s: Sys)
    requires Inv(c, s) && Extra(c, s) && s.combined && AllHubs(c, s, Reported2)
    requires Dead(c, s.atT) && NothingReceivedSince(c, s.sample, s.atT)
    ensures Sum(c.n, HubCounts(c, s)) == s.target
  {
    CountsCoverSent(c, s);
    CountsWithinSent(c, s);
    NothingInTransit(c, s.atT);
    SameReceived(c, s.sample, s.atT);
  }

  lemma ConfirmedMissedNothing(c: Config, s: Sys)
    requires Inv(c, s) && s.combined && AllHubs(c, s, Reported2) && Sum(c.n, HubCounts(c, s)) == s.target
    ensures NothingReceivedSince(c, s.sample, s.atT)
  {
    TotalsConfirm(c, s);
    HistorySamples(c, s);
    forall p | 0 <= p < c.n
      ensures s.sample[p].general.received == s.atT.load[p].general.received
      ensures s.sample[p].nonLocal.received == s.atT.load[p].nonLocal.received
    {
      ReceiptsAgree(c.n, s.sample, s.atT.load, p);
    }
  }

  /** The verdict is exact: in every run, when wave two is in, termination is declared if and only if the machine was
      dead when the root combined wave one and nobody had received anything since its report of wave one. */
  lemma VerdictIsExact(c: Config, run: seq<Sys>, i: nat)
    requires IsRun(c, run) && i + 1 < |run| && Sized(c, run[i]) && Decide(c, run[i], run[i + 1])
    ensures run[i + 1].terminated <==>
              Dead(c, run[i].atT) && NothingReceivedSince(c, run[i].sample, run[i].atT)
  {
    var s := run[i];
    ExtraHolds(c, run, i);
    if Sum(c.n, HubCounts(c, s)) == s.target {
      ConfirmedMeansDead(c, s);
      ConfirmedMissedNothing(c, s);
    } else if Dead(c, s.atT) && NothingReceivedSince(c, s.sample, s.atT) {
      DeadIsConfirmed(c, s);
    }
  }
}
