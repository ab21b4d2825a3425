/** The termination check does not get stuck: once the search is over, whatever the check was doing, it can go on to
    declare termination. */
module TerminationProgress {
  import opened Sums
  import opened TerminationCheck
  import opened TerminationInTurn
  import opened TerminationLoads
  import opened TerminationNet
  import opened TerminationVerdict

  ghost predicate Over(c: Config, s: Sys) { Inv(c, s) && Extra(c, s) && Dead(c, s.net) }

  // ---------- How much of the check is left ----------

  function Level(f: Phase): (l: nat)
    ensures l <= 4
  {
    match f
    case Resting => 0
    case Polling1 => 1
    case Reported1 => 2
    case Polling2 => 3
    case Reported2 => 4
  }

  ghost function Ahead(c: Config, s: Sys): int -> int
    requires Sized(c, s)
  {
    h => if c.IsHub(h) then 4 - Level(s.phase[h]) else 0
  }

  ghost function Asked(c: Config, s: Sys): int -> int
    requires Sized(c, s)
  {
    w => if Worker(c, w) && s.poll[w] == Signalled then 1 else 0
  }

  /** Not `reportablyDifferent`. */
  predicate Agree(a: Load, b: Load) {
    a.count == b.count && a.local == b.local && a.dispatch == b.dispatch && a.nonLocal == b.nonLocal
  }

  /** The last report a worker has sent. */
  function LastReport(s: Sys, w: int): Load
    requires 0 <= w < |s.held| == |s.net.chan|
  {
    if s.net.chan[w] == [] then s.held[w].load else s.net.chan[w][|s.net.chan[w]| - 1].load
  }

  /** What must still be sent and handled for the hub to know the worker's load. */
  ghost function Behind(c: Config, s: Sys): int -> int
    requires Sized(c, s)
  {
    w => if Worker(c, w) then (if Agree(LastReport(s, w), s.net.load[w]) then 0 else 2) + |s.net.chan[w]| else 0
  }

  ghost function Away(c: Config, s: Sys): int -> int
    requires Sized(c, s)
  {
    h => if !s.checking && c.IsHub(h) && !s.joined[h] then 1 else 0
  }

  /** Steps of the hubs and the root up to the verdict. */
  ghost function Stages(c: Config, s: Sys): nat
    requires Sized(c, s)
  {
    SumZero(c.n, Ahead(c, s), 0);
    SumZero(c.n, Away(c, s), 0);
    One(!s.checking) + One(!s.combined) + Sum(c.n, Ahead(c, s)) + Sum(c.n, Away(c, s))
  }

  /** Workers that have not answered yet. */
  ghost function Silent(c: Config, s: Sys): nat
    requires Sized(c, s)
  {
    SumZero(c.n, Asked(c, s), 0);
    Sum(c.n, Asked(c, s))
  }

  ghost function Waiting(c: Config, s: Sys): nat
    requires Sized(c, s)
  {
    SumZero(c.n, Behind(c, s), 0);
    Sum(c.n, Behind(c, s))
  }

  /** What the hubs have learnt in this survey and this check is how things are. */
  ghost predicate Fresh(c: Config, s: Sys)
    requires Sized(c, s)
  {
    && (forall w | Worker(c, w) && s.phase[c.hub[w]] == Polling1 :: FreshWorker(s, w))
    && (forall p | 0 <= p < c.n && HasReported(s.phase[c.hub[p]]) :: s.sample[p] == s.net.load[p])
    && (forall p | 0 <= p < c.n && s.joined[c.hub[p]] :: Agree(s.survey[p], s.net.load[p]))
    && (s.combined ==> Dead(c, s.atT))
  }

  ghost predicate FreshWorker(s: Sys, w: int)
    requires 0 <= w < |s.poll| == |s.held| == |s.net.load| == |s.net.chan|
  {
    && (s.poll[w] == Done ==> s.held[w].load == s.net.load[w])
    && (forall r | r in s.net.chan[w] && r.poll :: r.load == s.net.load[w])
  }

  ghost function Staleness(c: Config, s: Sys): nat
    requires Sized(c, s)
  {
    if Fresh(c, s) then 0 else 1
  }

  datatype Rank = Rank(stale: nat, stages: nat, silent: nat, waiting: nat)
  {
    predicate Below(r: Rank) {
      || stale < r.stale
      || (stale <= r.stale
          && (stages < r.stages
              || (stages == r.stages && (silent < r.silent || (silent == r.silent && waiting < r.waiting)))))
    }
  }

  ghost function RankOf(c: Config, s: Sys): Rank
    requires Sized(c, s)
  {
    Rank(Staleness(c, s), Stages(c, s), Silent(c, s), Waiting(c, s))
  }

  /** Less is left of the check, or it has started afresh. */
  ghost predicate Closer(c: Config, s: Sys, s': Sys)
    requires Sized(c, s) && Sized(c, s')
  {
    RankOf(c, s').Below(RankOf(c, s))
  }

  // ---------- Workers answer, hubs listen ----------

  lemma AnswerStaysDead(c: Config, net: Net, net': Net, w: int, epoch: nat)
    requires c.Ok() && net.Sized(c.n) && Dead(c, net) && 0 <= w < c.n && Reply(c, net, net', w, epoch)
    ensures Dead(c, net')
  {
    forall h | c.IsHub(h) ensures ClusterDead(c, net', h) {
      AppendKeepsClusterDead(c, net, net', w, epoch, h);
    }
  }

  lemma AnswerIsCloser(c: Config, s: Sys, s': Sys, w: int)
    requires Sized(c, s) && Sized(c, s') && Answer(c, s, s', w)
    ensures Stages(c, s') == Stages(c, s) && Silent(c, s') < Silent(c, s)
  {
    SumSame(c.n, Ahead(c, s), Ahead(c, s'));
    SumSame(c.n, Away(c, s), Away(c, s'));
    SumBump(c.n, Asked(c, s), Asked(c, s'), w, -1);
  }

  lemma AnswerStaysFresh(c: Config, s: Sys, s': Sys, w: int)
    requires Sized(c, s) && Sized(c, s') && Answer(c, s, s', w)
    ensures Fresh(c, s) ==> Fresh(c, s')
  {
    if Fresh(c, s) {
      forall v | Worker(c, v) && s'.phase[c.hub[v]] == Polling1 ensures FreshWorker(s', v) {
        assert FreshWorker(s, v);
      }
    }
  }

  lemma Answers(c: Config, s: Sys, w: int) returns (s': Sys)
    requires Sized(c, s) && Dead(c, s.net) && Worker(c, w) && s.poll[w] == Signalled
    ensures Answer(c, s, s', w) && Sized(c, s') && Dead(c, s'.net) && Closer(c, s, s')
  {
    var r := Report(0, s.net.load[w], s.epoch, true);
    var net := s.net.(chan := s.net.chan[w := s.net.chan[w] + [r]]);
    s' := s.(net := net, poll := s.poll[w := Replied]);
    AnswerStaysDead(c, s.net, net, w, s.epoch);
    AnswerIsCloser(c, s, s', w);
    AnswerStaysFresh(c, s, s', w);
  }

  lemma ReplyIsThere(c: Config, s: Sys, w: int)
    requires Inv(c, s) && Worker(c, w) && s.poll[w] == Replied
    ensures s.net.chan[w] != []
  {
    assert WorkerOk(c, s, w);
  }

  function TakenNet(c: Config, net: Net, w: int): Net
    requires c.Ok() && net.Sized(c.n) && 0 <= w < c.n && net.chan[w] != []
  {
    var t, h := net.chan[w][0].tokens, c.hub[w];
    net.(load := net.load[h := net.load[h].(local := Counter(net.load[h].local.sent, net.load[h].local.received + t))],
         chan := net.chan[w := Without(net.chan[w], 0)], handled := net.handled[w := net.handled[w] + t])
  }

  lemma TakeStaysDead(c: Config, net: Net, w: int)
    requires c.Ok() && net.Sized(c.n) && Dead(c, net) && Worker(c, w) && net.chan[w] != []
    ensures Handle(c, net, TakenNet(c, net, w), w, 0, net.load[c.hub[w]].count) && Dead(c, TakenNet(c, net, w))
    ensures TakenNet(c, net, w).Sized(c.n)
  {
    var net', count := TakenNet(c, net, w), net.load[c.hub[w]].count;
    assert Handle(c, net, net', w, 0, count);
    forall h | c.IsHub(h) ensures ClusterDead(c, net', h) {
      HandleKeepsClusterDead(c, net, net', w, 0, count, h);
    }
  }

  lemma TakeIsCloser(c: Config, s: Sys, s': Sys, w: int)
    requires Sized(c, s) && Sized(c, s') && Worker(c, w) && s.net.chan[w] != [] && s.poll[w] != Signalled
    requires var r := s.net.chan[w][0];
             s' == s.(net := s'.net, held := s.held[w := Held(r.load, r.epoch)],
                      poll := if r.poll then s.poll[w := Done] else s.poll)
    requires s'.net.chan == s.net.chan[w := s.net.chan[w][1..]] && s'.net.load == s.net.load
    ensures Stages(c, s') == Stages(c, s) && Silent(c, s') == Silent(c, s) && Waiting(c, s') < Waiting(c, s)
  {
    SumSame(c.n, Ahead(c, s), Ahead(c, s'));
    SumSame(c.n, Away(c, s), Away(c, s'));
    SumSame(c.n, Asked(c, s), Asked(c, s'));
    assert LastReport(s', w) == LastReport(s, w);
    SumBump(c.n, Behind(c, s), Behind(c, s'), w, -1);
  }

  /** A hub takes what a worker has sent, when it waits for the worker's reply or no check is under way. */
  lemma Takes(c: Config, s: Sys, w: int) returns (s': Sys)
    requires Sized(c, s) && Dead(c, s.net) && Worker(c, w) && s.net.chan[w] != []
    requires s.poll[w] == Replied || (s.poll[w] == Done && s.phase[c.hub[w]] == Resting)
    ensures Sized(c, s') && TakeFirst(c, s, s', w, s.net.load[c.hub[w]].count) && Dead(c, s'.net) && Closer(c, s, s')
  {
    var r, net := s.net.chan[w][0], TakenNet(c, s.net, w);
    s' := s.(net := net, held := s.held[w := Held(r.load, r.epoch)],
             poll := if r.poll then s.poll[w := Done] else s.poll);
    TakeStaysDead(c, s.net, w);
    DeadTakeChangesNothing(c, s, s', w, 0, s.net.load[c.hub[w]].count);
    TakeStaysFresh(c, s, s', w);
    TakeIsCloser(c, s, s', w);
  }

  lemma TakeStaysFresh(c: Config, s: Sys, s': Sys, w: int)
    requires Sized(c, s) && Sized(c, s') && Worker(c, w) && s.net.chan[w] != []
    requires s.poll[w] == Replied || s.phase[c.hub[w]] == Resting
    requires var r := s.net.chan[w][0];
             && s' == s.(net := s'.net, held := s.held[w := Held(r.load, r.epoch)],
                         poll := if r.poll then s.poll[w := Done] else s.poll)
             && s'.net.load == s.net.load && s'.net.chan == s.net.chan[w := s.net.chan[w][1..]]
    ensures Fresh(c, s) ==> Fresh(c, s')
  {
    if Fresh(c, s) {
      forall v | Worker(c, v) && s'.phase[c.hub[v]] == Polling1 ensures FreshWorker(s', v) {
        assert FreshWorker(s, v);
        assert s.net.chan[w][0] in s.net.chan[w];
      }
    }
  }

  // ---------- Hubs go on ----------

  ghost predicate AllDone(c: Config, s: Sys)
    requires Sized(c, s)
  {
    forall w | Worker(c, w) :: s.poll[w] == Done
  }

  /** No hub but `h` has moved, and it has moved on. */
  lemma HubMovesOn(c: Config, s: Sys, s': Sys, h: int)
    requires Sized(c, s) && Sized(c, s') && c.IsHub(h) && s'.checking == s.checking && s'.combined == s.combined
    requires s'.phase == s.phase[h := s'.phase[h]] && Level(s'.phase[h]) == Level(s.phase[h]) + 1
    requires s'.joined == s.joined
    ensures Stages(c, s') == Stages(c, s) - 1
  {
    SumSame(c.n, Away(c, s), Away(c, s'));
    SumBump(c.n, Ahead(c, s), Ahead(c, s'), h, -1);
  }

  lemma NoPollsLeft(c: Config, s: Sys, w: int, r: Report)
    requires Inv(c, s) && Worker(c, w) && s.poll[w] == Done && r in s.net.chan[w]
    ensures !r.poll
  {
    assert WorkerOk(c, s, w);
    var i :| 0 <= i < |s.net.chan[w]| && s.net.chan[w][i] == r;
    NoPollsMeansNone(s.net.chan[w], i);
  }

  lemma PollStaysFresh(c: Config, s: Sys, s': Sys, h: int)
    requires Inv(c, s) && c.IsHub(h) && AllDone(c, s) && Fresh(c, s) && Sized(c, s')
    requires s' == s.(phase := s.phase[h := s'.phase[h]], poll := Signal(c, s, h))
    requires HasReported(s'.phase[h]) ==> HasReported(s.phase[h])
    ensures Fresh(c, s')
  {
    forall w | Worker(c, w) && s'.phase[c.hub[w]] == Polling1 ensures FreshWorker(s', w) {
      if c.hub[w] == h {
        forall r | r in s.net.chan[w] ensures !r.poll {
          NoPollsLeft(c, s, w, r);
        }
      } else {
        assert FreshWorker(s, w);
      }
    }
  }

  lemma Polls(c: Config, s: Sys, h: int) returns (s': Sys)
    requires Over(c, s) && !s.terminated && c.IsHub(h) && AllDone(c, s)
    requires (s.checking && !s.combined && s.phase[h] == Resting) || (s.combined && s.phase[h] == Reported1)
    ensures StartPoll(c, s, s', h) && Sized(c, s') && s'.net == s.net && Closer(c, s, s')
  {
    s' := s.(phase := s.phase[h := if s.combined then Polling2 else Polling1], poll := Signal(c, s, h));
    HubMovesOn(c, s, s', h);
    if Fresh(c, s) {
      PollStaysFresh(c, s, s', h);
    }
  }

  lemma ReportsOne(c: Config, s: Sys, h: int) returns (s': Sys)
    requires Over(c, s) && c.IsHub(h) && AllDone(c, s) && s.phase[h] == Polling1
    ensures Report1(c, s, s', h) && Sized(c, s') && s'.net == s.net && Closer(c, s, s')
  {
    s' := s.(phase := s.phase[h := Reported1], sample := Sampled(c, s, h));
    HubMovesOn(c, s, s', h);
    if Fresh(c, s) {
      forall p | 0 <= p < c.n && HasReported(s'.phase[c.hub[p]]) ensures s'.sample[p] == s'.net.load[p] {
        if c.hub[p] == h && p != h {
          assert FreshWorker(s, p);
        }
      }
      forall w | Worker(c, w) && s'.phase[c.hub[w]] == Polling1 ensures FreshWorker(s', w) {
        assert FreshWorker(s, w);
      }
    }
  }

  lemma CountStaysFresh(c: Config, s: Sys, s': Sys, h: int)
    requires Sized(c, s) && c.IsHub(h) && s.phase[h] == Polling2 && Fresh(c, s)
    requires s' == s.(phase := s.phase[h := Reported2], count2 := s'.count2) && |s'.count2| == c.n
    ensures Fresh(c, s')
  {
    forall w | Worker(c, w) && s'.phase[c.hub[w]] == Polling1 ensures FreshWorker(s', w) {
      assert FreshWorker(s, w);
    }
  }

  lemma ReportsTwo(c: Config, s: Sys, h: int) returns (s': Sys)
    requires Sized(c, s) && c.IsHub(h) && AllDone(c, s) && s.phase[h] == Polling2
    ensures Report2(c, s, s', h) && Sized(c, s') && s'.net == s.net && Closer(c, s, s')
  {
    s' := s.(phase := s.phase[h := Reported2],
             count2 := s.count2[h := Get(Sent, ClusterLoad(c, Views(c, s), h, c.n))]);
    HubMovesOn(c, s, s', h);
    if Fresh(c, s) {
      CountStaysFresh(c, s, s', h);
    }
  }

  // ---------- The root goes on ----------

  lemma DeadIsIdle(c: Config, net: Net, p: int)
    requires c.Ok() && net.Sized(c.n) && Dead(c, net) && 0 <= p < c.n
    ensures net.load[p].Idle() && net.disp[p] == 0 && net.out[p] == 0 && Tokens(net.chan[p]) == 0
  {
    assert c.IsHub(c.hub[p]) && c.In(p, c.hub[p]) && ClusterDead(c, net, c.hub[p]);
  }

  lemma NothingOwedLocally(c: Config, s: Sys, h: int)
    requires Inv(c, s) && Dead(c, s.net) && c.IsHub(h)
    ensures Due(c, s.net.load, h, LocalDue) == 0
  {
    assert LocalLedger(c, s.net, h);
    var taken, due := In(c, h, At(s.net.handled)), In(c, h, Of(s.net.load, LocalDue));
    var got := (p: int) => if p == h then s.net.load[h].local.received else 0;
    var zero := (p: int) => 0;
    SumZero(c.n, zero, 0);
    SumBump(c.n, zero, got, h, s.net.load[h].local.received);
    forall p | 0 <= p < c.n ensures due(p) == taken(p) - got(p) {
      InIs(c, h, At(s.net.handled), p);
      InIs(c, h, Of(s.net.load, LocalDue), p);
      assert WorkerLedger(c, s.net, p);
      DeadIsIdle(c, s.net, p);
    }
    SumMinus(c.n, taken, got, due);
  }

  lemma NothingDispatched(c: Config, s: Sys, h: int)
    requires Inv(c, s) && Dead(c, s.net) && c.IsHub(h)
    ensures Due(c, s.net.load, h, DispatchDue) == 0
  {
    DispatchNow(c, s, h);
    forall p | 0 <= p < c.n ensures In(c, h, At(s.net.disp))(p) == 0 {
      InIs(c, h, At(s.net.disp), p);
      DeadIsIdle(c, s.net, p);
    }
    SumZero(c.n, In(c, h, At(s.net.disp)), 0);
  }

  lemma OwedAtHubs(c: Config, s: Sys, f: Field)
    requires Inv(c, s) && Dead(c, s.net) && (f == LocalDue || f == DispatchDue)
    ensures Get(f, GlobalLoad(c, s.net.load, c.n)) == 0
  {
    var perHub := PerHub(c, Of(s.net.load, f));
    GlobalField(c, s.net.load, c.n, f);
    forall h | 0 <= h < c.n ensures perHub(h) == 0 {
      if c.IsHub(h) {
        NothingOwedLocally(c, s, h);
        NothingDispatched(c, s, h);
      }
    }
    SumZero(c.n, perHub, 0);
  }

  lemma OwedAnywhere(c: Config, s: Sys, f: Field)
    requires Inv(c, s) && Dead(c, s.net) && (f == Count || f == GeneralDue || f == NonLocalDue)
    ensures Get(f, GlobalLoad(c, s.net.load, c.n)) == 0
  {
    GlobalField(c, s.net.load, c.n, f);
    Partition(c, Of(s.net.load, f));
    if f == Count {
      forall p | 0 <= p < c.n ensures Of(s.net.load, Count)(p) == 0 {
        DeadIsIdle(c, s.net, p);
        OfIs(s.net.load, Count, p);
      }
      SumZero(c.n, Of(s.net.load, Count), 0);
    } else {
      SumZero(c.n, At(s.net.gen), 0);
      SumZero(c.n, At(s.net.nl), 0);
    }
  }

  lemma {:induction false} NonePending(c: Config, v: seq<Load>, k: nat)
    requires c.Ok() && |v| == c.n && k <= c.n && forall p | 0 <= p < c.n :: !v[p].mergePending
    ensures !GlobalLoad(c, v, k).mergePending
  {
    if k > 0 {
      NonePending(c, v, k - 1);
      ClusterPendingExactly(c, v, k - 1, c.n);
    }
  }

  /** The survey of a dead machine passes. */
  lemma DeadSeemsDone(c: Config, s: Sys)
    requires Inv(c, s) && Dead(c, s.net)
    ensures GlobalLoad(c, s.net.load, c.n).SeemsReallyDone()
  {
    OwedAtHubs(c, s, LocalDue);
    OwedAtHubs(c, s, DispatchDue);
    OwedAnywhere(c, s, Count);
    OwedAnywhere(c, s, GeneralDue);
    OwedAnywhere(c, s, NonLocalDue);
    forall p | 0 <= p < c.n ensures !s.net.load[p].mergePending {
      DeadIsIdle(c, s.net, p);
    }
    NonePending(c, s.net.load, c.n);
  }

  // ---------- Before the check ----------

  lemma AllRest(c: Config, s: Sys)
    requires Inv(c, s) && !s.checking
    ensures AllHubs(c, s, Resting) && !s.combined && forall p | 0 <= p < c.n :: s.phase[c.hub[p]] == Resting
  {
    forall h | c.IsHub(h) ensures s.phase[h] == Resting {
      assert HubOk(c, s, h);
    }
    forall p | 0 <= p < c.n ensures s.phase[c.hub[p]] == Resting {
      assert c.IsHub(c.hub[p]);
    }
  }

  /** `w` reports its load because it is reportably different from what it last reported. */
  ghost predicate ReportDue(c: Config, s: Sys, s': Sys, w: int)
    requires Sized(c, s)
  {
    && 0 <= w < c.n && s' == s.(net := s'.net) && Communicate(c, s.net, s'.net, w, s.epoch)
    && !Agree(LastReport(s, w), s.net.load[w])
  }

  /** When a report is due: the worker can send one, and its count of subproblems or one of its three counters of work
      messages has changed since its last report; general messages and pending merges alone are not reported. */
  lemma DueExactly(c: Config, s: Sys, w: int)
    requires Sized(c, s) && Worker(c, w)
    ensures (exists s' :: ReportDue(c, s, s', w)) <==>
            var a, b := LastReport(s, w), s.net.load[w];
            || a.count != b.count
            || a.local.sent != b.local.sent || a.local.received != b.local.received
            || a.dispatch.sent != b.dispatch.sent || a.dispatch.received != b.dispatch.received
            || a.nonLocal.sent != b.nonLocal.sent || a.nonLocal.received != b.nonLocal.received
  {
    var net := s.net.(out := s.net.out[w := 0],
                      chan := s.net.chan[w := s.net.chan[w] + [Report(s.net.out[w], s.net.load[w], s.epoch, false)]]);
    var s' := s.(net := net);
    assert Communicate(c, s.net, s'.net, w, s.epoch);
    if !Agree(LastReport(s, w), s.net.load[w]) {
      assert ReportDue(c, s, s', w);
    }
  }

  lemma DueIsSearch(c: Config, s: Sys, s': Sys, w: int)
    requires Sized(c, s) && ReportDue(c, s, s', w)
    ensures Search(c, s, s')
  {
    assert SearchAt(c, s, s', w);
  }

  lemma ReportStaysDead(c: Config, net: Net, net': Net, w: int, epoch: nat)
    requires c.Ok() && net.Sized(c.n) && Dead(c, net) && 0 <= w < c.n && Communicate(c, net, net', w, epoch)
    ensures Dead(c, net')
  {
    forall h | c.IsHub(h) ensures ClusterDead(c, net', h) {
      AppendKeepsClusterDead(c, net, net', w, epoch, h);
    }
  }

  lemma ReportIsCloser(c: Config, s: Sys, s': Sys, w: int)
    requires Sized(c, s) && Sized(c, s') && ReportDue(c, s, s', w) && s.net.chan[w] == []
    ensures Stages(c, s') == Stages(c, s) && Silent(c, s') == Silent(c, s) && Waiting(c, s') < Waiting(c, s)
  {
    SumSame(c.n, Ahead(c, s), Ahead(c, s'));
    SumSame(c.n, Away(c, s), Away(c, s'));
    SumSame(c.n, Asked(c, s), Asked(c, s'));
    SumBump(c.n, Behind(c, s), Behind(c, s'), w, -1);
  }

  lemma Reports(c: Config, s: Sys, w: int) returns (s': Sys)
    requires Over(c, s) && !s.checking && Worker(c, w) && s.net.chan[w] == []
    requires !Agree(LastReport(s, w), s.net.load[w])
    ensures ReportDue(c, s, s', w) && Sized(c, s') && Dead(c, s'.net) && Closer(c, s, s')
  {
    var r := Report(s.net.out[w], s.net.load[w], s.epoch, false);
    var net := s.net.(out := s.net.out[w := 0], chan := s.net.chan[w := s.net.chan[w] + [r]]);
    s' := s.(net := net);
    ReportStaysDead(c, s.net, net, w, s.epoch);
    ReportIsCloser(c, s, s', w);
    AllRest(c, s);
  }

  /** The hubs know their workers' loads, as far as the survey needs them. */
  ghost predicate UpToDate(c: Config, s: Sys)
    requires Sized(c, s)
  {
    forall w | Worker(c, w) :: s.net.chan[w] == [] && Agree(s.held[w].load, s.net.load[w])
  }

  lemma SurveyStaysFresh(c: Config, s: Sys, s': Sys, h: int)
    requires Inv(c, s) && !s.checking && UpToDate(c, s) && Sized(c, s') && Joins(c, s, s', h)
    ensures Fresh(c, s) ==> Fresh(c, s')
  {
    AllRest(c, s);
    forall p | Fresh(c, s) && 0 <= p < c.n && s'.joined[c.hub[p]] ensures Agree(s'.survey[p], s'.net.load[p]) {
      assert c.hub[p] == h && p != h ==> Worker(c, p);
    }
  }

  lemma HubJoins(c: Config, s: Sys, h: int) returns (s': Sys)
    requires Over(c, s) && !s.terminated && !s.checking && UpToDate(c, s) && c.IsHub(h) && !s.joined[h]
    ensures Joins(c, s, s', h) && Sized(c, s') && s'.net == s.net && Closer(c, s, s')
  {
    AllRest(c, s);
    s' := s.(joined := s.joined[h := true], survey := Surveyed(c, s, h));
    SurveyStaysFresh(c, s, s', h);
    SumSame(c.n, Ahead(c, s), Ahead(c, s'));
    SumBump(c.n, Away(c, s), Away(c, s'), h, -1);
  }

  lemma SameTotals(c: Config, v: seq<Load>, v': seq<Load>, f: Field)
    requires c.Ok() && |v| == |v'| == c.n && forall p | 0 <= p < c.n :: Agree(v[p], v'[p])
    requires f == Count || f == LocalDue || f == DispatchDue || f == NonLocalDue
    ensures Get(f, GlobalLoad(c, v, c.n)) == Get(f, GlobalLoad(c, v', c.n))
  {
    GlobalField(c, v, c.n, f);
    GlobalField(c, v', c.n, f);
    Partition(c, Of(v, f));
    Partition(c, Of(v', f));
    forall p | 0 <= p < c.n ensures Of(v, f)(p) == Of(v', f)(p) {
      OfIs(v, f, p);
      OfIs(v', f, p);
    }
    SumSame(c.n, Of(v, f), Of(v', f));
  }

  /** A survey that is up to date finds a dead machine ready to poll. */
  lemma DeadIsReady(c: Config, s: Sys)
    requires Over(c, s) && AllJoined(c, s) && Fresh(c, s)
    ensures Ready(c, s)
  {
    DeadSeemsDone(c, s);
    forall p | 0 <= p < c.n ensures Agree(s.survey[p], s.net.load[p]) {
      assert c.IsHub(c.hub[p]);
    }
    SameTotals(c, s.survey, s.net.load, Count);
    SameTotals(c, s.survey, s.net.load, LocalDue);
    SameTotals(c, s.survey, s.net.load, DispatchDue);
    SameTotals(c, s.survey, s.net.load, NonLocalDue);
  }

  lemma BeginIsCloser(c: Config, s: Sys, s': Sys)
    requires Sized(c, s) && Begin(c, s, s')
    ensures Stages(c, s') == Stages(c, s) - 1
  {
    SumSame(c.n, Ahead(c, s), Ahead(c, s'));
    SumSame(c.n, Away(c, s), Away(c, s'));
  }

  lemma DeclinedWasStale(c: Config, s: Sys)
    requires Over(c, s) && AllJoined(c, s) && !Ready(c, s)
    ensures !Fresh(c, s)
  {
    if Fresh(c, s) {
      DeadIsReady(c, s);
    }
  }

  lemma NextSurveyIsFresh(c: Config, s: Sys, s': Sys)
    requires Sized(c, s) && !s.combined && s' == s.(joined := NoneJoined(c))
    requires forall p | 0 <= p < c.n :: s.phase[c.hub[p]] == Resting
    ensures Sized(c, s') && Fresh(c, s')
  {
  }

  lemma SurveyPasses(c: Config, s: Sys) returns (s': Sys)
    requires Over(c, s) && !s.terminated && !s.checking && AllJoined(c, s) && Ready(c, s)
    ensures Begin(c, s, s') && Sized(c, s') && s'.net == s.net && Closer(c, s, s')
  {
    AllRest(c, s);
    s' := s.(checking := true, joined := NoneJoined(c));
    BeginIsCloser(c, s, s');
  }

  lemma SurveyFails(c: Config, s: Sys) returns (s': Sys)
    requires Over(c, s) && !s.terminated && !s.checking && AllJoined(c, s) && !Ready(c, s)
    ensures Decline(c, s, s') && Sized(c, s') && s'.net == s.net && Closer(c, s, s')
  {
    AllRest(c, s);
    s' := s.(joined := NoneJoined(c));
    DeclinedWasStale(c, s);
    NextSurveyIsFresh(c, s, s');
  }

  lemma SurveyEnds(c: Config, s: Sys) returns (s': Sys)
    requires Over(c, s) && !s.terminated && !s.checking && AllJoined(c, s)
    ensures Apart(c, s, s') && Sized(c, s') && s'.net == s.net && Closer(c, s, s')
  {
    if Ready(c, s) {
      s' := SurveyPasses(c, s);
    } else {
      s' := SurveyFails(c, s);
    }
  }

  lemma RestartIsFresh(c: Config, s: Sys)
    requires Sized(c, s)
    ensures Sized(c, Restarted(c, s)) && Fresh(c, Restarted(c, s))
  {
  }

  lemma SampleIsLoad(c: Config, s: Sys)
    requires Sized(c, s) && Fresh(c, s) && (AllHubs(c, s, Reported1) || AllHubs(c, s, Reported2))
    ensures s.sample == s.net.load
  {
    forall p | 0 <= p < c.n ensures s.sample[p] == s.net.load[p] {
      assert c.IsHub(c.hub[p]);
    }
  }

  lemma PassesOn(c: Config, s: Sys, s': Sys)
    requires Sized(c, s) && s.checking && !s.combined && AllHubs(c, s, Reported1) && Dead(c, s.net)
    requires s' == s.(combined := true, epoch := s.epoch + 1, atT := s.net, target := s'.target)
    ensures Sized(c, s') && Closer(c, s, s')
  {
    SumSame(c.n, Ahead(c, s), Ahead(c, s'));
    SumSame(c.n, Away(c, s), Away(c, s'));
    forall w | Worker(c, w) ensures s.phase[c.hub[w]] == Reported1 {
      assert c.IsHub(c.hub[w]);
    }
  }

  lemma FreshPasses(c: Config, s: Sys)
    requires Over(c, s) && AllHubs(c, s, Reported1) && Fresh(c, s)
    ensures GlobalLoad(c, s.sample, c.n).SeemsReallyDone()
  {
    SampleIsLoad(c, s);
    DeadSeemsDone(c, s);
  }

  lemma Combines(c: Config, s: Sys) returns (s': Sys)
    requires Over(c, s) && s.checking && !s.combined && AllHubs(c, s, Reported1)
    ensures Combine(c, s, s') && Sized(c, s') && s'.net == s.net && Closer(c, s, s')
  {
    if GlobalLoad(c, s.sample, c.n).SeemsReallyDone() {
      s' := s.(combined := true, epoch := s.epoch + 1, atT := s.net,
               target := Get(Received, GlobalLoad(c, s.sample, c.n)));
      PassesOn(c, s, s');
    } else {
      s' := Restarted(c, s);
      RestartIsFresh(c, s);
      if Fresh(c, s) {
        FreshPasses(c, s);
      }
    }
  }

  lemma Decides(c: Config, s: Sys) returns (s': Sys)
    requires Over(c, s) && !s.terminated && s.combined && AllHubs(c, s, Reported2)
    ensures Decide(c, s, s') && Sized(c, s') && s'.net == s.net && (s'.terminated || Closer(c, s, s'))
  {
    if Fresh(c, s) {
      SampleIsLoad(c, s);
      assert s.net.load == s.atT.load;
      DeadIsConfirmed(c, s);
    }
    if Sum(c.n, HubCounts(c, s)) == s.target {
      s' := s.(terminated := true);
    } else {
      s' := Restarted(c, s);
      RestartIsFresh(c, s);
    }
  }

  // ---------- To the end ----------

  /** With all polls answered, a hub can go on or all of them stand where the root can. */
  lemma HubMoves(c: Config, s: Sys) returns (s': Sys)
    requires Over(c, s) && !s.terminated && AllDone(c, s) && s.checking
    requires exists h :: c.IsHub(h) && s.phase[h] != if s.combined then Reported2 else Reported1
    ensures Apart(c, s, s') && Sized(c, s') && s'.net == s.net && Closer(c, s, s')
  {
    var h :| c.IsHub(h) && s.phase[h] != if s.combined then Reported2 else Reported1;
    assert HubOk(c, s, h);
    if s.phase[h] == Polling1 {
      s' := ReportsOne(c, s, h);
    } else if s.phase[h] == Polling2 {
      s' := ReportsTwo(c, s, h);
    } else {
      s' := Polls(c, s, h);
    }
  }

  lemma RootMoves(c: Config, s: Sys) returns (s': Sys)
    requires Over(c, s) && !s.terminated && s.checking
    requires AllHubs(c, s, if s.combined then Reported2 else Reported1)
    ensures Apart(c, s, s') && Sized(c, s') && s'.net == s.net && (s'.terminated || Closer(c, s, s'))
  {
    if s.combined {
      s' := Decides(c, s);
    } else {
      s' := Combines(c, s);
    }
  }

  /** A step of the check with messages taken in turn, or a report that is due. */
  ghost predicate Prompt(c: Config, s: Sys, s': Sys) {
    Sized(c, s) && (InTurn(c, s, s') || exists w :: ReportDue(c, s, s', w))
  }

  /** Without a check under way, workers report, hubs listen and take part in the survey. */
  lemma SurveyMoves(c: Config, s: Sys) returns (s': Sys)
    requires Over(c, s) && !s.terminated && AllDone(c, s) && !s.checking
    ensures Prompt(c, s, s') && Sized(c, s') && Dead(c, s'.net) && Closer(c, s, s')
  {
    AllRest(c, s);
    if w :| Worker(c, w) && s.net.chan[w] != [] {
      s' := Takes(c, s, w);
    } else if w :| Worker(c, w) && !Agree(LastReport(s, w), s.net.load[w]) {
      s' := Reports(c, s, w);
    } else if h :| c.IsHub(h) && !s.joined[h] {
      s' := HubJoins(c, s, h);
    } else {
      s' := SurveyEnds(c, s);
    }
  }

  lemma MovesOn(c: Config, s: Sys) returns (s': Sys)
    requires Over(c, s) && !s.terminated && AllDone(c, s)
    ensures Prompt(c, s, s') && Sized(c, s') && Dead(c, s'.net) && (s'.terminated || Closer(c, s, s'))
  {
    if !s.checking {
      s' := SurveyMoves(c, s);
    } else if AllHubs(c, s, if s.combined then Reported2 else Reported1) {
      s' := RootMoves(c, s);
    } else {
      s' := HubMoves(c, s);
    }
  }

  lemma SomeStep(c: Config, s: Sys) returns (s': Sys)
    requires Over(c, s) && !s.terminated
    ensures Prompt(c, s, s') && Sized(c, s') && Dead(c, s'.net) && (s'.terminated || Closer(c, s, s'))
  {
    if w :| Worker(c, w) && s.poll[w] == Signalled {
      s' := Answers(c, s, w);
    } else if w :| Worker(c, w) && s.poll[w] == Replied {
      ReplyIsThere(c, s, w);
      s' := Takes(c, s, w);
    } else {
      s' := MovesOn(c, s);
    }
  }

  ghost predicate DeadEnd(c: Config, run: seq<Sys>, s: Sys) {
    IsRunInTurn(c, run) && run[|run| - 1] == s && Sized(c, s) && Dead(c, s.net)
  }

  lemma PromptIsNext(c: Config, s: Sys, s': Sys)
    requires Prompt(c, s, s')
    ensures NextInTurn(c, s, s')
  {
    if w :| ReportDue(c, s, s', w) {
      DueIsSearch(c, s, s', w);
    }
  }

  lemma ExtendRun(c: Config, run: seq<Sys>, s: Sys)
    requires IsRunInTurn(c, run) && NextInTurn(c, run[|run| - 1], s)
    ensures IsRunInTurn(c, run + [s])
  {
    var longer := run + [s];
    forall i, j | 0 <= i && j == i + 1 && j < |longer| ensures NextInTurn(c, longer[i], longer[j]) {
      if j < |run| {
        assert NextInTurn(c, run[i], run[j]);
      }
    }
  }

  lemma OneMore(c: Config, run: seq<Sys>, s: Sys) returns (s': Sys)
    requires DeadEnd(c, run, s) && !s.terminated
    ensures DeadEnd(c, run + [s'], s') && (s'.terminated || Closer(c, s, s')) && Prompt(c, s, s')
  {
    InTurnIsAllowed(c, run);
    ExtraHolds(c, run, |run| - 1);
    s' := SomeStep(c, s);
    PromptIsNext(c, s, s');
    ExtendRun(c, run, s');
  }

  /** `longer` is a run that goes on promptly from `run` to the verdict. */
  ghost predicate Ends(c: Config, run: seq<Sys>, longer: seq<Sys>) {
    && IsRunInTurn(c, longer) && run <= longer && longer[|longer| - 1].terminated
    && forall i, j | |run| <= j && i == j - 1 && 0 <= i && j < |longer| :: Prompt(c, longer[i], longer[j])
  }

  lemma EndsLater(c: Config, run: seq<Sys>, s: Sys, longer: seq<Sys>)
    requires run != [] && Prompt(c, run[|run| - 1], s) && Ends(c, run + [s], longer)
    ensures Ends(c, run, longer)
  {
    assert run <= run + [s];
    assert longer[|run|] == (run + [s])[|run|] && longer[|run| - 1] == run[|run| - 1];
  }

  lemma EndsNow(c: Config, run: seq<Sys>, s: Sys)
    requires DeadEnd(c, run, s) && s.terminated
    ensures Ends(c, run, run)
  {
  }

  lemma {:induction false} GoesOn(c: Config, run: seq<Sys>, s: Sys, r: Rank) returns (longer: seq<Sys>)
    requires DeadEnd(c, run, s) && r == RankOf(c, s)
    ensures Ends(c, run, longer)
    decreases r.stale, r.stages, r.silent, r.waiting
  {
    if s.terminated {
      EndsNow(c, run, s);
      return run;
    }
    var s' := OneMore(c, run, s);
    if s'.terminated {
      EndsNow(c, run + [s'], s');
      longer := run + [s'];
    } else {
      longer := GoesOn(c, run + [s'], s', RankOf(c, s'));
    }
    EndsLater(c, run, s', longer);
  }

  /** Whatever the machine, and whatever the survey or the check was doing when the search ended: every run, with each
      worker's messages taken in turn, that has reached a dead machine can go on to declare termination, by steps of
      the check and reports that are due. */
  lemma DeadRunTerminates(c: Config, run: seq<Sys>) returns (longer: seq<Sys>)
    requires IsRunInTurn(c, run) && Sized(c, run[|run| - 1]) && Dead(c, run[|run| - 1].net)
    ensures IsRunInTurn(c, longer) && run <= longer && longer[|longer| - 1].terminated
    ensures forall i, j | |run| <= j && i == j - 1 && j < |longer| :: Prompt(c, longer[i], longer[j])
  {
    longer := GoesOn(c, run, run[|run| - 1], RankOf(c, run[|run| - 1]));
  }
}
