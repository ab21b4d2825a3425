/** The two-wave termination check of the load balancer (`loadBal.cpp`), run over the traffic of
    `TerminationNet`.  Wave one polls every worker and surveys all loads; if the survey looks done,
    wave two polls again and compares what was sent with what wave one saw received. */
module TerminationCheck {
  import opened Sums
  import opened TerminationNet
  import opened TerminationLoads

  datatype Phase = Resting | Polling1 | Reported1 | Polling2 | Reported2

  /** Where a poll of a worker stands: signal sent, reply sent, or nothing outstanding. */
  datatype Poll = Signalled | Replied | Done

  datatype Held = Held(load: Load, epoch: nat)

  /** `held` is each hub's latest report of a worker.  `joined` and `survey` are the survey that precedes a check:
      which hubs have taken part, and the records they used.  `sample` keeps what every hub reported in wave
      one, `count2` its wave-two count; `combined` says that the root has combined wave one and found
      it done, and `atT` (history) is the traffic at that moment. */
  datatype Sys = Sys(net: Net, held: seq<Held>, poll: seq<Poll>, joined: seq<bool>, survey: seq<Load>,
                     phase: seq<Phase>, sample: seq<Load>, epoch: nat, checking: bool, combined: bool,
                     target: int, count2: seq<int>, terminated: bool, atT: Net)

  ghost predicate Sized(c: Config, s: Sys) {
    && c.Ok() && s.net.Sized(c.n) && s.atT.Sized(c.n)
    && |s.held| == |s.poll| == |s.joined| == |s.survey| == |s.phase| == |s.sample| == |s.count2| == c.n
  }

  predicate Worker(c: Config, w: int) requires c.Ok() { 0 <= w < c.n && !c.IsHub(w) }

  /** The record of `p` that its hub would use now. */
  function View(c: Config, s: Sys, p: int): Load
    requires c.Ok() && 0 <= p < c.n && |s.net.load| == |s.held| == c.n
  {
    if c.IsHub(p) then s.net.load[p] else s.held[p].load
  }

  ghost predicate AllHubs(c: Config, s: Sys, f: Phase)
    requires Sized(c, s)
  {
    forall h | c.IsHub(h) :: s.phase[h] == f
  }

  ghost predicate PollsDone(c: Config, s: Sys, h: int)
    requires Sized(c, s)
  {
    forall w | Worker(c, w) && c.In(w, h) :: s.poll[w] == Done
  }

  // ---------- Steps ----------

  /** Search activity: everything that is not part of the check. */
  ghost predicate Search(c: Config, s: Sys, s': Sys)
    requires Sized(c, s)
  {
    s' == s.(net := s'.net) && exists p :: SearchAt(c, s, s', p)
  }

  /** Load-balancing transfers are sent only outside the check. */
  ghost predicate Acts(c: Config, s: Sys, s': Sys, p: int, i: Input, o: Output, count: nat, pending: bool)
    requires Sized(c, s) && 0 <= p < c.n
  {
    Activity(c, s.net, s'.net, p, i, o, count, pending, !s.checking)
  }

  ghost predicate SearchAt(c: Config, s: Sys, s': Sys, p: int)
    requires Sized(c, s)
  {
    && 0 <= p < c.n
    && (|| (exists i, o, count, pending :: Acts(c, s, s', p, i, o, count, pending))
        || Redirect(c, s.net, s'.net, p)
        || Communicate(c, s.net, s'.net, p, s.epoch))
  }

  ghost predicate Answer(c: Config, s: Sys, s': Sys, w: int)
    requires Sized(c, s)
  {
    && Worker(c, w) && s.poll[w] == Signalled
    && Reply(c, s.net, s'.net, w, s.epoch)
    && s' == s.(net := s'.net, poll := s.poll[w := Replied])
  }

  /** Once a worker's reply of wave two is in, its hub goes on with nothing older until it has reported. */
  predicate InTime(c: Config, s: Sys, w: int, r: Report)
    requires c.Ok() && 0 <= w < c.n && |s.phase| == |s.poll| == c.n
  {
    s.phase[c.hub[w]] == Polling2 && s.poll[w] == Done ==> r.epoch == s.epoch
  }

  /** The hub takes message `k` of a worker, in whatever order otherwise. */
  ghost predicate Take(c: Config, s: Sys, s': Sys, w: int, k: nat, count: nat)
    requires Sized(c, s)
  {
    && Worker(c, w) && k < |s.net.chan[w]| && InTime(c, s, w, s.net.chan[w][k])
    && Handle(c, s.net, s'.net, w, k, count)
    && s' == s.(net := s'.net,
                held := s.held[w := Held(s.net.chan[w][k].load, s.net.chan[w][k].epoch)],
                poll := if s.net.chan[w][k].poll then s.poll[w := Done] else s.poll)
  }

  function Surveyed(c: Config, s: Sys, h: int): seq<Load>
    requires c.Ok() && |s.net.load| == |s.held| == |s.survey| == c.n
  {
    seq(c.n, p requires 0 <= p < c.n => if c.hub[p] == h then View(c, s, p) else s.survey[p])
  }

  /** A hub takes part in the survey with the records it has. */
  ghost predicate Joins(c: Config, s: Sys, s': Sys, h: int)
    requires Sized(c, s)
  {
    && !s.checking && !s.terminated && c.IsHub(h) && s.phase[h] == Resting && !s.joined[h]
    && s' == s.(joined := s.joined[h := true], survey := Surveyed(c, s, h))
  }

  ghost predicate AllJoined(c: Config, s: Sys)
    requires Sized(c, s)
  {
    forall h | c.IsHub(h) :: s.joined[h]
  }

  predicate Ready(c: Config, s: Sys)
    requires c.Ok() && |s.survey| == c.n
  {
    GlobalLoad(c, s.survey, c.n).ReadyToPoll()
  }

  function NoneJoined(c: Config): seq<bool> { seq(c.n, _ => false) }

  /** The survey found the machine ready to poll.  Every hub took part in it, so every load-balancing
      transfer has been received. */
  ghost predicate Begin(c: Config, s: Sys, s': Sys)
    requires Sized(c, s)
  {
    && !s.checking && !s.terminated && AllHubs(c, s, Resting) && AllJoined(c, s) && Ready(c, s) && Empty(s.net.lb)
    && s' == s.(checking := true, joined := NoneJoined(c))
  }

  /** It did not; the next survey starts over. */
  ghost predicate Decline(c: Config, s: Sys, s': Sys)
    requires Sized(c, s)
  {
    !s.checking && !s.terminated && AllJoined(c, s) && !Ready(c, s) && s' == s.(joined := NoneJoined(c))
  }

  function Signal(c: Config, s: Sys, h: int): seq<Poll>
    requires c.Ok() && |s.poll| == c.n
  {
    seq(c.n, p requires 0 <= p < c.n => if c.hub[p] == h && !c.IsHub(p) then Signalled else s.poll[p])
  }

  ghost predicate StartPoll(c: Config, s: Sys, s': Sys, h: int)
    requires Sized(c, s)
  {
    && c.IsHub(h) && !s.terminated
    && ((s.checking && !s.combined && s.phase[h] == Resting && s'.phase == s.phase[h := Polling1])
        || (s.combined && s.phase[h] == Reported1 && s'.phase == s.phase[h := Polling2]))
    && s' == s.(phase := s'.phase, poll := Signal(c, s, h))
  }

  function Sampled(c: Config, s: Sys, h: int): seq<Load>
    requires c.Ok() && |s.net.load| == |s.held| == |s.sample| == c.n
  {
    seq(c.n, p requires 0 <= p < c.n => if c.hub[p] == h then View(c, s, p) else s.sample[p])
  }

  ghost predicate Report1(c: Config, s: Sys, s': Sys, h: int)
    requires Sized(c, s)
  {
    && c.IsHub(h) && s.phase[h] == Polling1 && PollsDone(c, s, h)
    && s' == s.(phase := s.phase[h := Reported1], sample := Sampled(c, s, h))
  }

  /** The root has the load of every cluster: go on to wave two, or start over. */
  ghost predicate Combine(c: Config, s: Sys, s': Sys)
    requires Sized(c, s)
  {
    && s.checking && !s.combined && AllHubs(c, s, Reported1)
    && (if GlobalLoad(c, s.sample, c.n).SeemsReallyDone()
        then s' == s.(combined := true, epoch := s.epoch + 1, atT := s.net,
                      target := Get(Received, GlobalLoad(c, s.sample, c.n)))
        else s' == Restarted(c, s))
  }

  function Restarted(c: Config, s: Sys): Sys {
    s.(checking := false, combined := false, joined := NoneJoined(c), phase := seq(c.n, _ => Resting))
  }

  ghost predicate Report2(c: Config, s: Sys, s': Sys, h: int)
    requires Sized(c, s)
  {
    && c.IsHub(h) && s.phase[h] == Polling2 && PollsDone(c, s, h)
    && s' == s.(phase := s.phase[h := Reported2],
                count2 := s.count2[h := Get(Sent, ClusterLoad(c, Views(c, s), h, c.n))])
  }

  function Views(c: Config, s: Sys): seq<Load>
    requires c.Ok() && |s.net.load| == |s.held| == c.n
  {
    seq(c.n, p requires 0 <= p < c.n => View(c, s, p))
  }

  ghost function HubCounts(c: Config, s: Sys): int -> int
    requires Sized(c, s)
  {
    h => if c.IsHub(h) then s.count2[h] else 0
  }

  /** The sum of wave two is known: terminate if it is what wave one received. */
  ghost predicate Decide(c: Config, s: Sys, s': Sys)
    requires Sized(c, s)
  {
    && !s.terminated && s.combined && AllHubs(c, s, Reported2)
    && (if Sum(c.n, HubCounts(c, s)) == s.target
        then s' == s.(terminated := true)
        else s' == Restarted(c, s))
  }

  /** A step of the check apart from a hub's taking of messages. */
  ghost predicate Apart(c: Config, s: Sys, s': Sys)
    requires Sized(c, s)
  {
    || (exists w :: Answer(c, s, s', w))
    || (exists h :: Joins(c, s, s', h))
    || Decline(c, s, s')
    || Begin(c, s, s')
    || (exists h :: StartPoll(c, s, s', h))
    || (exists h :: Report1(c, s, s', h))
    || Combine(c, s, s')
    || (exists h :: Report2(c, s, s', h))
    || Decide(c, s, s')
  }

  /** A step of the check itself. */
  ghost predicate Checks(c: Config, s: Sys, s': Sys)
    requires Sized(c, s)
  {
    Apart(c, s, s') || exists w, k, count :: Take(c, s, s', w, k, count)
  }

  ghost predicate Next(c: Config, s: Sys, s': Sys) {
    Sized(c, s) && (Search(c, s, s') || Checks(c, s, s'))
  }

  /** After the crossover every hub knows its workers' loads, and nothing has been sent. */
  ghost predicate Init(c: Config, s: Sys) {
    && Sized(c, s)
    && (forall p | 0 <= p < c.n ::
          && s.net.load[p] == NO_LOAD.(count := s.net.load[p].count)
          && s.net.chan[p] == [] && s.held[p] == Held(s.net.load[p], 0) && s.poll[p] == Done
          && s.phase[p] == Resting && !s.joined[p])
    && Empty(s.net.gen) && Empty(s.net.nl) && Empty(s.net.disp) && Empty(s.net.lb)
    && Empty(s.net.out) && Empty(s.net.handled)
    && s.epoch == 0 && !s.checking && !s.combined && !s.terminated
  }

  ghost predicate IsRun(c: Config, run: seq<Sys>) {
    && |run| > 0 && Init(c, run[0])
    && forall i, j | 0 <= i && j == i + 1 && j < |run| :: Next(c, run[i], run[j])
  }

  // ---------- Worker channels ----------

  function PollsIn(q: seq<Report>): nat {
    if q == [] then 0 else (if q[0].poll then 1 else 0) + PollsIn(q[1..])
  }

  lemma {:induction false} PollsAppend(q: seq<Report>, r: Report)
    ensures PollsIn(q + [r]) == PollsIn(q) + if r.poll then 1 else 0
  {
    if q == [] {
      assert q + [r] == [r];
    } else {
      assert (q + [r])[1..] == q[1..] + [r];
      PollsAppend(q[1..], r);
    }
  }

  lemma {:induction false} PollsWithout(q: seq<Report>, k: nat)
    requires k < |q|
    ensures PollsIn(Without(q, k)) == PollsIn(q) - if q[k].poll then 1 else 0
  {
    if k > 0 {
      var rest := Without(q[1..], k - 1);
      PollsWithout(q[1..], k - 1);
      assert ([q[0]] + rest)[1..] == rest;
    }
  }

  lemma {:induction false} NoPollsMeansNone(q: seq<Report>, i: nat)
    requires PollsIn(q) == 0 && i < |q|
    ensures !q[i].poll
  {
    if i > 0 {
      NoPollsMeansNone(q[1..], i - 1);
    }
  }

  // ---------- The invariant ----------

  /** The records hubs hold of their workers, and those still on their way. */
  ghost predicate WorkerOk(c: Config, s: Sys, w: int)
    requires Sized(c, s) && Worker(c, w)
  {
    var q, now, held := s.net.chan[w], s.net.load[w], s.held[w];
    && Evolves(held.load, now) && held.epoch <= s.epoch
    && (forall r | r in q :: Evolves(r.load, now) && r.epoch <= s.epoch)
    && PollsIn(q) == (if s.poll[w] == Replied then 1 else 0)
  }

  /** Where the polls of worker `w` stand in each phase of its hub. */
  ghost predicate PollOk(c: Config, s: Sys, w: int)
    requires Sized(c, s) && Worker(c, w)
  {
    var f := s.phase[c.hub[w]];
    && (s.poll[w] != Done ==> f == Polling1 || f == Polling2)
    && (f == Polling2 && s.poll[w] == Done ==> s.held[w].epoch == s.epoch)
    && (f == Polling2 ==> forall r | r in s.net.chan[w] && r.poll :: r.epoch == s.epoch)
  }

  /** Records made since wave one was combined are later than that moment. */
  ghost predicate LateOk(c: Config, s: Sys, w: int)
    requires Sized(c, s) && Worker(c, w)
  {
    s.combined ==>
      && (s.held[w].epoch == s.epoch ==> Evolves(s.atT.load[w], s.held[w].load))
      && (forall r | r in s.net.chan[w] && r.epoch == s.epoch :: Evolves(s.atT.load[w], r.load))
  }

  ghost predicate NoReceiptsSince(c: Config, v: seq<Load>, net: Net, h: int)
    requires c.Ok() && |v| == c.n && net.Sized(c.n)
  {
    forall p | c.In(p, h) ::
      && v[p].general.received == net.load[p].general.received
      && v[p].nonLocal.received == net.load[p].nonLocal.received
  }

  /** The heart of the matter.  Once hub `h` has reported the records `v`: if they are still and its cluster has since
      received nothing from outside, then no token is counted twice, and if none is missing the cluster is dead. */
  ghost predicate SampleOk(c: Config, v: seq<Load>, net: Net, h: int)
    requires c.Ok() && |v| == c.n && net.Sized(c.n)
  {
    && (forall p | c.In(p, h) :: Evolves(v[p], net.load[p]))
    && Due(c, v, h, DispatchDue) >= 0
    && (Still(c, v, h) && NoReceiptsSince(c, v, net, h) ==>
          Due(c, v, h, LocalDue) >= 0 && (Due(c, v, h, LocalDue) == 0 ==> ClusterDead(c, net, h)))
  }

  predicate HasReported(f: Phase) { f == Reported1 || f == Polling2 || f == Reported2 }

  ghost predicate HubOk(c: Config, s: Sys, h: int)
    requires Sized(c, s) && c.IsHub(h)
  {
    && (s.phase[h] != Resting ==> s.checking)
    && (HasReported(s.phase[h]) ==> SampleOk(c, s.sample, s.net, h))
    && (s.phase[h] == Polling2 || s.phase[h] == Reported2 ==> s.combined)
    && (s.combined ==> HasReported(s.phase[h]))
    && (s.phase[h] == Reported2 ==> Due(c, s.atT.load, h, Sent) <= s.count2[h])
  }

  ghost predicate HistoryOk(c: Config, s: Sys)
    requires Sized(c, s)
  {
    && (s.checking ==> Empty(s.net.lb)) && (s.combined ==> s.checking)
    && (s.terminated ==> s.combined && Dead(c, s.atT))
    && (s.combined ==>
          && Ledgers(c, s.atT) && Empty(s.atT.lb)
          && (forall p | 0 <= p < c.n :: Evolves(s.atT.load[p], s.net.load[p]))
          && GlobalLoad(c, s.sample, c.n).SeemsReallyDone()
          && (forall h | c.IsHub(h) :: SampleOk(c, s.sample, s.atT, h))
          && s.target == Sum(c.n, Of(s.sample, Received))
          && (Dead(c, s.atT) ==> Dead(c, s.net)))
  }

  ghost predicate Inv(c: Config, s: Sys) {
    && Sized(c, s) && Ledgers(c, s.net) && HistoryOk(c, s)
    && (forall w | Worker(c, w) :: WorkerOk(c, s, w) && PollOk(c, s, w) && LateOk(c, s, w))
    && (forall h | c.IsHub(h) :: HubOk(c, s, h))
  }

  // ---------- Search activity keeps it ----------

  /** In a dead machine no processor has any reason to act. */
  lemma DeadDisables(c: Config, net: Net, p: int, input: Input)
    requires c.Ok() && net.Sized(c.n) && 0 <= p < c.n && Dead(c, net)
    ensures !Enabled(c, net, p, input) && net.disp[p] == 0
  {
    assert c.IsHub(c.hub[p]) && c.In(p, c.hub[p]);
    assert ClusterDead(c, net, c.hub[p]);
  }

  lemma SampleOkMoves(c: Config, v: seq<Load>, net: Net, net': Net, h: int)
    requires c.Ok() && |v| == c.n && net.Sized(c.n) && net'.Sized(c.n)
    requires SampleOk(c, v, net, h)
    requires forall p | 0 <= p < c.n :: Evolves(net.load[p], net'.load[p])
    requires ClusterDead(c, net, h) && NoNewReceipts(c, net, net', h) ==> ClusterDead(c, net', h)
    ensures SampleOk(c, v, net', h)
  {
    forall p | c.In(p, h) ensures Evolves(v[p], net'.load[p]) {
      EvolvesTransitive(v[p], net.load[p], net'.load[p]);
    }
    if Still(c, v, h) && NoReceiptsSince(c, v, net', h) {
      forall p | c.In(p, h)
        ensures v[p].general.received == net.load[p].general.received
        ensures v[p].nonLocal.received == net.load[p].nonLocal.received
      {
        assert Evolves(v[p], net.load[p]) && Evolves(net.load[p], net'.load[p]);
      }
      assert NoReceiptsSince(c, v, net, h);
    }
  }

  /** What a step of the traffic must guarantee, channels aside. */
  ghost predicate LoadsMove(c: Config, s: Sys, net': Net)
    requires Sized(c, s)
  {
    && Ledgers(c, net') && (s.checking ==> Empty(net'.lb))
    && (forall p | 0 <= p < c.n && (s.checking || !c.IsHub(p)) :: Evolves(s.net.load[p], net'.load[p]))
    && (s.checking ==> forall h | c.IsHub(h) ::
          ClusterDead(c, s.net, h) && NoNewReceipts(c, s.net, net', h) ==> ClusterDead(c, net', h))
    && (s.checking && Dead(c, s.net) ==> Dead(c, net'))
  }

  lemma HubsMove(c: Config, s: Sys, s': Sys, h: int)
    requires Inv(c, s) && LoadsMove(c, s, s'.net) && Sized(c, s') && c.IsHub(h)
    requires s'.sample == s.sample && s'.phase == s.phase && s'.count2 == s.count2 && s'.atT == s.atT
    requires s'.checking == s.checking && s'.combined == s.combined
    ensures HubOk(c, s', h)
  {
    assert HubOk(c, s, h);
    if HasReported(s.phase[h]) {
      SampleOkMoves(c, s.sample, s.net, s'.net, h);
    }
  }

  lemma HistoryMoves(c: Config, s: Sys, s': Sys)
    requires Inv(c, s) && LoadsMove(c, s, s'.net) && Sized(c, s')
    requires s'.sample == s.sample && s'.atT == s.atT && s'.target == s.target
    requires s'.checking == s.checking && s'.combined == s.combined && s'.terminated == s.terminated
    ensures HistoryOk(c, s')
  {
    if s.combined {
      forall p | 0 <= p < c.n ensures Evolves(s'.atT.load[p], s'.net.load[p]) {
        EvolvesTransitive(s.atT.load[p], s.net.load[p], s'.net.load[p]);
      }
    }
  }

  lemma WorkerMoves(c: Config, s: Sys, s': Sys, w: int)
    requires Inv(c, s) && Sized(c, s') && Worker(c, w)
    requires Evolves(s.net.load[w], s'.net.load[w])
    requires s' == s.(net := s'.net) && s'.net.chan == s.net.chan && s'.net.handled == s.net.handled
    ensures WorkerOk(c, s', w) && PollOk(c, s', w) && LateOk(c, s', w)
  {
    assert WorkerOk(c, s, w) && PollOk(c, s, w) && LateOk(c, s, w);
    EvolvesTransitive(s.held[w].load, s.net.load[w], s'.net.load[w]);
    forall r | r in s.net.chan[w] ensures Evolves(r.load, s'.net.load[w]) {
      EvolvesTransitive(r.load, s.net.load[w], s'.net.load[w]);
    }
  }

  lemma ActivityEvolvesAll(c: Config, s: Sys, s': Sys, p: int, i: Input, o: Output, count: nat, pending: bool)
    requires Inv(c, s) && 0 <= p < c.n
    requires Activity(c, s.net, s'.net, p, i, o, count, pending, !s.checking)
    ensures s'.net.Sized(c.n) && Ledgers(c, s'.net)
    ensures forall q | 0 <= q < c.n && (s.checking || !c.IsHub(q)) :: Evolves(s.net.load[q], s'.net.load[q])
  {
    ActivityKeepsLedgers(c, s.net, s'.net, p, i, o, count, pending, !s.checking);
    forall q | 0 <= q < c.n && (s.checking || !c.IsHub(q)) ensures Evolves(s.net.load[q], s'.net.load[q]) {
      ActivityEvolves(c, s.net, s'.net, p, i, o, count, pending, !s.checking, q);
    }
  }

  lemma ActivityMoves(c: Config, s: Sys, s': Sys, p: int, i: Input, o: Output, count: nat, pending: bool)
    requires Inv(c, s) && 0 <= p < c.n
    requires Activity(c, s.net, s'.net, p, i, o, count, pending, !s.checking)
    ensures s'.net.Sized(c.n) && LoadsMove(c, s, s'.net)
  {
    ActivityEvolvesAll(c, s, s', p, i, o, count, pending);
    if s.checking {
      forall h | c.IsHub(h) && ClusterDead(c, s.net, h) && NoNewReceipts(c, s.net, s'.net, h)
        ensures ClusterDead(c, s'.net, h)
      {
        ActivityKeepsClusterDead(c, s.net, s'.net, p, i, o, count, pending, h);
      }
      if Dead(c, s.net) {
        DeadDisables(c, s.net, p, i);
      }
    }
  }

  lemma RedirectMoves(c: Config, s: Sys, s': Sys, p: int)
    requires Inv(c, s) && 0 <= p < c.n && Redirect(c, s.net, s'.net, p)
    ensures s'.net.Sized(c.n) && LoadsMove(c, s, s'.net)
  {
    RedirectKeepsLedgers(c, s.net, s'.net, p);
    forall h | c.IsHub(h) && ClusterDead(c, s.net, h) ensures ClusterDead(c, s'.net, h) {
      RedirectKeepsClusterDead(c, s.net, s'.net, p, h);
    }
  }

  lemma QuietMove(c: Config, s: Sys, s': Sys)
    requires Inv(c, s) && Sized(c, s') && s' == s.(net := s'.net) && LoadsMove(c, s, s'.net)
    requires s'.net.chan == s.net.chan && s'.net.handled == s.net.handled
    ensures Inv(c, s')
  {
    HistoryMoves(c, s, s');
    forall h | c.IsHub(h) ensures HubOk(c, s', h) {
      HubsMove(c, s, s', h);
    }
    forall w | Worker(c, w) ensures WorkerOk(c, s', w) && PollOk(c, s', w) && LateOk(c, s', w) {
      WorkerMoves(c, s, s', w);
    }
  }

  // ---------- Messages from workers ----------

  /** `w` has put `r`, a record of its present load, on its channel. */
  ghost predicate Posted(c: Config, s: Sys, net': Net, w: int, r: Report)
    requires Sized(c, s)
  {
    && Worker(c, w) && net'.Sized(c.n) && r.load == s.net.load[w] && r.epoch == s.epoch
    && r.tokens <= s.net.out[w]
    && net'.load == s.net.load && net'.handled == s.net.handled
    && net'.chan == s.net.chan[w := s.net.chan[w] + [r]]
  }

  lemma PostMoves(c: Config, s: Sys, net': Net, w: int)
    requires Inv(c, s) && Worker(c, w)
    requires Communicate(c, s.net, net', w, s.epoch) || Reply(c, s.net, net', w, s.epoch)
    ensures net'.Sized(c.n) && LoadsMove(c, s, net')
  {
    if Communicate(c, s.net, net', w, s.epoch) {
      CommunicateKeepsLedgers(c, s.net, net', w, s.epoch);
    } else {
      ReplyKeepsLedgers(c, s.net, net', w, s.epoch);
    }
    forall h | c.IsHub(h) && ClusterDead(c, s.net, h) ensures ClusterDead(c, net', h) {
      AppendKeepsClusterDead(c, s.net, net', w, s.epoch, h);
    }
  }

  lemma PosterOk(c: Config, s: Sys, s': Sys, w: int, r: Report)
    requires Inv(c, s) && Sized(c, s') && Posted(c, s, s'.net, w, r)
    requires s' == s.(net := s'.net, poll := if r.poll then s.poll[w := Replied] else s.poll)
    requires r.poll ==> s.poll[w] == Signalled
    ensures WorkerOk(c, s', w)
  {
    assert WorkerOk(c, s, w);
    PollsAppend(s.net.chan[w], r);
  }

  lemma PosterPollOk(c: Config, s: Sys, s': Sys, w: int, r: Report)
    requires Inv(c, s) && Sized(c, s') && Posted(c, s, s'.net, w, r)
    requires s' == s.(net := s'.net, poll := if r.poll then s.poll[w := Replied] else s.poll)
    requires r.poll ==> s.poll[w] == Signalled
    ensures PollOk(c, s', w) && LateOk(c, s', w)
  {
    assert PollOk(c, s, w) && LateOk(c, s, w);
    forall x | x in s'.net.chan[w] ensures x in s.net.chan[w] || x == r {
    }
  }

  lemma Post(c: Config, s: Sys, s': Sys, w: int, r: Report)
    requires Inv(c, s) && Sized(c, s') && Posted(c, s, s'.net, w, r) && LoadsMove(c, s, s'.net)
    requires s' == s.(net := s'.net, poll := if r.poll then s.poll[w := Replied] else s.poll)
    requires r.poll ==> s.poll[w] == Signalled
    ensures Inv(c, s')
  {
    HistoryMoves(c, s, s');
    forall h | c.IsHub(h) ensures HubOk(c, s', h) {
      HubsMove(c, s, s', h);
    }
    forall x | Worker(c, x) ensures WorkerOk(c, s', x) && PollOk(c, s', x) && LateOk(c, s', x) {
      assert WorkerOk(c, s, x) && PollOk(c, s, x) && LateOk(c, s, x);
      if x == w {
        PosterOk(c, s, s', w, r);
        PosterPollOk(c, s, s', w, r);
      }
    }
  }

  lemma SearchKeepsInv(c: Config, s: Sys, s': Sys)
    requires Inv(c, s) && Search(c, s, s')
    ensures Inv(c, s')
  {
    var p :| SearchAt(c, s, s', p);
    if i, o, count, pending :| Acts(c, s, s', p, i, o, count, pending) {
      ActivityMoves(c, s, s', p, i, o, count, pending);
      QuietMove(c, s, s');
    } else if Redirect(c, s.net, s'.net, p) {
      RedirectMoves(c, s, s', p);
      QuietMove(c, s, s');
    } else {
      PostMoves(c, s, s'.net, p);
      Post(c, s, s', p, Report(s.net.out[p], s.net.load[p], s.epoch, false));
    }
  }

  lemma AnswerKeepsInv(c: Config, s: Sys, s': Sys, w: int)
    requires Inv(c, s) && Answer(c, s, s', w)
    ensures Inv(c, s')
  {
    PostMoves(c, s, s'.net, w);
    Post(c, s, s', w, Report(0, s.net.load[w], s.epoch, true));
  }

  // ---------- The hub takes a message ----------

  lemma TakeMoves(c: Config, s: Sys, net': Net, w: int, k: nat, count: nat)
    requires Inv(c, s) && Worker(c, w) && Handle(c, s.net, net', w, k, count)
    ensures net'.Sized(c.n) && LoadsMove(c, s, net')
  {
    HandleKeepsLedgers(c, s.net, net', w, k, count);
    forall h | c.IsHub(h) && ClusterDead(c, s.net, h) ensures ClusterDead(c, net', h) {
      HandleKeepsClusterDead(c, s.net, net', w, k, count, h);
    }
  }

  lemma TakenOk(c: Config, s: Sys, s': Sys, w: int, k: nat, count: nat)
    requires Inv(c, s) && Take(c, s, s', w, k, count) && Sized(c, s')
    ensures WorkerOk(c, s', w) && PollOk(c, s', w) && LateOk(c, s', w)
  {
    assert WorkerOk(c, s, w) && PollOk(c, s, w) && LateOk(c, s, w);
    var q := s.net.chan[w];
    assert q[k] in q;
    WithoutKeeps(q, k);
    PollsWithout(q, k);
    if q[k].poll {
      HasPoll(q, k);
    }
  }

  lemma {:induction false} HasPoll(q: seq<Report>, k: nat)
    requires k < |q| && q[k].poll
    ensures PollsIn(q) > 0
  {
    if k > 0 {
      HasPoll(q[1..], k - 1);
    }
  }

  lemma TakeKeepsInv(c: Config, s: Sys, s': Sys, w: int, k: nat, count: nat)
    requires Inv(c, s) && Take(c, s, s', w, k, count)
    ensures Inv(c, s')
  {
    TakeMoves(c, s, s'.net, w, k, count);
    HistoryMoves(c, s, s');
    forall h | c.IsHub(h) ensures HubOk(c, s', h) {
      HubsMove(c, s, s', h);
    }
    forall x | Worker(c, x) ensures WorkerOk(c, s', x) && PollOk(c, s', x) && LateOk(c, s', x) {
      assert WorkerOk(c, s, x) && PollOk(c, s, x) && LateOk(c, s, x);
      if x == w {
        TakenOk(c, s, s', w, k, count);
      }
    }
  }

  // ---------- Polls start ----------

  /** Nothing depends on the survey. */
  lemma SurveyKeepsInv(c: Config, s: Sys, s': Sys)
    requires Inv(c, s) && Sized(c, s') && s' == s.(joined := s'.joined, survey := s'.survey)
    ensures Inv(c, s')
  {
    forall h | c.IsHub(h) ensures HubOk(c, s', h) {
      assert HubOk(c, s, h);
    }
    forall w | Worker(c, w) ensures WorkerOk(c, s', w) && PollOk(c, s', w) && LateOk(c, s', w) {
      assert WorkerOk(c, s, w) && PollOk(c, s, w) && LateOk(c, s, w);
    }
  }

  lemma BeginKeepsInv(c: Config, s: Sys, s': Sys)
    requires Inv(c, s) && Begin(c, s, s')
    ensures Inv(c, s')
  {
    forall h | c.IsHub(h) ensures HubOk(c, s', h) {
      assert HubOk(c, s, h);
    }
    forall w | Worker(c, w) ensures WorkerOk(c, s', w) && PollOk(c, s', w) && LateOk(c, s', w) {
      assert WorkerOk(c, s, w) && PollOk(c, s, w) && LateOk(c, s, w);
    }
  }

  lemma StartPollKeepsInv(c: Config, s: Sys, s': Sys, h: int)
    requires Inv(c, s) && StartPoll(c, s, s', h)
    ensures Inv(c, s')
  {
    forall g | c.IsHub(g) ensures HubOk(c, s', g) {
      assert HubOk(c, s, g);
    }
    forall w | Worker(c, w) ensures WorkerOk(c, s', w) && PollOk(c, s', w) && LateOk(c, s', w) {
      assert WorkerOk(c, s, w) && PollOk(c, s, w) && LateOk(c, s, w);
      if c.hub[w] == h {
        assert PollsIn(s.net.chan[w]) == 0;
        forall i | 0 <= i < |s.net.chan[w]| ensures !s.net.chan[w][i].poll {
          NoPollsMeansNone(s.net.chan[w], i);
        }
      }
    }
  }

  // ---------- Wave one ----------

  lemma SampleOkFrame(c: Config, v: seq<Load>, v': seq<Load>, net: Net, h: int)
    requires c.Ok() && |v| == |v'| == c.n && net.Sized(c.n) && SampleOk(c, v, net, h)
    requires forall p | c.In(p, h) :: v'[p] == v[p]
    ensures SampleOk(c, v', net, h)
  {
    DueFrame(c, v, v', h, DispatchDue);
    DueFrame(c, v, v', h, LocalDue);
    assert Still(c, v', h) ==> Still(c, v, h);
    assert NoReceiptsSince(c, v', net, h) ==> NoReceiptsSince(c, v, net, h);
  }

  lemma DueFrame(c: Config, v: seq<Load>, v': seq<Load>, h: int, f: Field)
    requires c.Ok() && |v| == |v'| == c.n && forall p | c.In(p, h) :: v'[p] == v[p]
    ensures Due(c, v', h, f) == Due(c, v, h, f)
  {
    forall p | 0 <= p < c.n ensures In(c, h, Of(v, f))(p) == In(c, h, Of(v', f))(p) {
      InIs(c, h, Of(v, f), p);
      InIs(c, h, Of(v', f), p);
    }
    SumSame(c.n, In(c, h, Of(v, f)), In(c, h, Of(v', f)));
  }

  /** The hub's records never show fewer dispatches owed than are really on their way. */
  lemma DispatchOwed(c: Config, s: Sys, h: int)
    requires Inv(c, s) && c.IsHub(h)
    ensures Due(c, Views(c, s), h, DispatchDue) >= 0
    ensures Due(c, Views(c, s), h, DispatchDue) == 0 ==> forall p | c.In(p, h) ::
              s.net.disp[p] == 0 && View(c, s, p).dispatch.received == s.net.load[p].dispatch.received
  {
    var seen, now := In(c, h, Of(Views(c, s), DispatchDue)), In(c, h, Of(s.net.load, DispatchDue));
    var disp := In(c, h, At(s.net.disp));
    forall p | 0 <= p < c.n ensures now(p) <= seen(p) {
      ViewDispatch(c, s, h, p);
    }
    SumLe(c.n, now, seen);
    DispatchNow(c, s, h);
    forall p | 0 <= p < c.n ensures disp(p) >= 0 {
      InIs(c, h, At(s.net.disp), p);
    }
    SumZero(c.n, disp, 0);
    if Sum(c.n, seen) == 0 {
      forall p | c.In(p, h)
        ensures s.net.disp[p] == 0 && View(c, s, p).dispatch.received == s.net.load[p].dispatch.received
      {
        SumZero(c.n, disp, p);
        InIs(c, h, At(s.net.disp), p);
        SumLeTight(c.n, now, seen, p);
        ViewDispatch(c, s, h, p);
      }
    }
  }

  lemma ViewDispatch(c: Config, s: Sys, h: int, p: int)
    requires Inv(c, s) && c.IsHub(h) && 0 <= p < c.n
    ensures In(c, h, Of(s.net.load, DispatchDue))(p) <= In(c, h, Of(Views(c, s), DispatchDue))(p)
    ensures c.In(p, h) ==>
              In(c, h, Of(Views(c, s), DispatchDue))(p) - In(c, h, Of(s.net.load, DispatchDue))(p)
                == s.net.load[p].dispatch.received - View(c, s, p).dispatch.received
  {
    InIs(c, h, Of(s.net.load, DispatchDue), p);
    InIs(c, h, Of(Views(c, s), DispatchDue), p);
    if Worker(c, p) {
      assert WorkerOk(c, s, p) && WorkerLedger(c, s.net, p);
    }
  }

  lemma DispatchNow(c: Config, s: Sys, h: int)
    requires Inv(c, s) && c.IsHub(h)
    ensures Sum(c.n, In(c, h, Of(s.net.load, DispatchDue))) == Sum(c.n, In(c, h, At(s.net.disp)))
  {
    assert DispatchLedger(c, s.net, h);
    var got := In(c, h, Of(s.net.load, DispatchGot));
    var sent := (p: int) => if p == h then s.net.load[h].dispatch.sent else 0;
    var zero := (p: int) => 0;
    SumZero(c.n, zero, 0);
    SumBump(c.n, zero, sent, h, s.net.load[h].dispatch.sent);
    forall p | 0 <= p < c.n ensures In(c, h, Of(s.net.load, DispatchDue))(p) == sent(p) - got(p) {
      InIs(c, h, Of(s.net.load, DispatchDue), p);
      InIs(c, h, Of(s.net.load, DispatchGot), p);
      assert WorkerLedger(c, s.net, p);
    }
    SumMinus(c.n, sent, got, In(c, h, Of(s.net.load, DispatchDue)));
  }

  /** The records of a still cluster that has received nothing since are how things are. */
  lemma StillViewIsTrue(c: Config, s: Sys, h: int, p: int)
    requires Inv(c, s) && c.IsHub(h) && c.In(p, h)
    requires Still(c, Views(c, s), h) && NoReceiptsSince(c, Views(c, s), s.net, h)
    ensures Views(c, s)[p] == s.net.load[p] && s.net.load[p].Idle() && s.net.disp[p] == 0
  {
    DispatchOwed(c, s, h);
    assert WorkerLedger(c, s.net, p) && Views(c, s)[p] == View(c, s, p);
    if Worker(c, p) {
      assert WorkerOk(c, s, p);
      assert SameReceipts(s.held[p].load, s.net.load[p]);
    }
  }

  /** Tokens packed or on their way to the hub. */
  ghost function Released(net: Net): int -> int {
    p => if 0 <= p < |net.chan| && |net.out| == |net.chan| then Tokens(net.chan[p]) + net.out[p] else 0
  }

  /** What a cluster owes in tokens is what has been released and not taken. */
  lemma LocalOwed(c: Config, net: Net, h: int)
    requires Ledgers(c, net) && c.IsHub(h)
    ensures Due(c, net.load, h, LocalDue) == Sum(c.n, In(c, h, Released(net)))
  {
    assert LocalLedger(c, net, h);
    var due, owed, taken := In(c, h, Of(net.load, LocalDue)), In(c, h, Released(net)), In(c, h, At(net.handled));
    var got := (p: int) => if p == h then net.load[h].local.received else 0;
    var zero := (p: int) => 0;
    SumZero(c.n, zero, 0);
    SumBump(c.n, zero, got, h, net.load[h].local.received);
    var both := (p: int) => owed(p) + taken(p);
    SumPlus(c.n, owed, taken, both);
    forall p | 0 <= p < c.n ensures due(p) == both(p) - got(p) {
      OwedBy(c, net, h, p);
    }
    SumMinus(c.n, both, got, due);
  }

  lemma OwedBy(c: Config, net: Net, h: int, p: int)
    requires Ledgers(c, net) && c.IsHub(h) && 0 <= p < c.n
    ensures In(c, h, Of(net.load, LocalDue))(p)
            == In(c, h, Released(net))(p) + In(c, h, At(net.handled))(p)
               - if p == h then net.load[h].local.received else 0
  {
    InIs(c, h, Of(net.load, LocalDue), p);
    InIs(c, h, Released(net), p);
    InIs(c, h, At(net.handled), p);
    assert WorkerLedger(c, net, p);
  }

  lemma StillViewCounts(c: Config, s: Sys, h: int)
    requires Inv(c, s) && c.IsHub(h)
    requires Still(c, Views(c, s), h) && NoReceiptsSince(c, Views(c, s), s.net, h)
    ensures Due(c, Views(c, s), h, LocalDue) >= 0
    ensures Due(c, Views(c, s), h, LocalDue) == 0 ==> ClusterDead(c, s.net, h)
  {
    forall p | c.In(p, h) ensures s.net.load[p] == Views(c, s)[p] && s.net.load[p].Idle() && s.net.disp[p] == 0 {
      StillViewIsTrue(c, s, h, p);
    }
    DueFrame(c, Views(c, s), s.net.load, h, LocalDue);
    LocalOwed(c, s.net, h);
    var owed := In(c, h, Released(s.net));
    forall p | 0 <= p < c.n ensures owed(p) >= 0 {
      InIs(c, h, Released(s.net), p);
    }
    SumZero(c.n, owed, 0);
    if Sum(c.n, owed) == 0 {
      forall p | c.In(p, h) ensures s.net.out[p] == 0 && Tokens(s.net.chan[p]) == 0 {
        SumZero(c.n, owed, p);
        InIs(c, h, Released(s.net), p);
      }
    }
  }

  lemma FreshSampleOk(c: Config, s: Sys, h: int)
    requires Inv(c, s) && c.IsHub(h)
    ensures SampleOk(c, Views(c, s), s.net, h)
  {
    DispatchOwed(c, s, h);
    forall p | c.In(p, h) ensures Evolves(Views(c, s)[p], s.net.load[p]) {
      assert Worker(c, p) ==> WorkerOk(c, s, p);
    }
    if Still(c, Views(c, s), h) && NoReceiptsSince(c, Views(c, s), s.net, h) {
      StillViewCounts(c, s, h);
    }
  }

  lemma Report1KeepsHubs(c: Config, s: Sys, s': Sys, h: int)
    requires Inv(c, s) && Report1(c, s, s', h)
    ensures Sized(c, s') && forall g | c.IsHub(g) :: HubOk(c, s', g)
  {
    assert HubOk(c, s, h);
    FreshSampleOk(c, s, h);
    SampleOkFrame(c, Views(c, s), s'.sample, s.net, h);
    forall g | c.IsHub(g) ensures HubOk(c, s', g) {
      assert HubOk(c, s, g);
      if g != h && HasReported(s.phase[g]) {
        SampleOkFrame(c, s.sample, s'.sample, s.net, g);
      }
    }
  }

  lemma Report1KeepsWorker(c: Config, s: Sys, s': Sys, h: int, w: int)
    requires Inv(c, s) && Report1(c, s, s', h) && Sized(c, s') && Worker(c, w)
    ensures WorkerOk(c, s', w) && PollOk(c, s', w) && LateOk(c, s', w)
  {
    assert WorkerOk(c, s, w) && PollOk(c, s, w) && LateOk(c, s, w);
  }

  lemma Report1KeepsHistory(c: Config, s: Sys, s': Sys, h: int)
    requires Inv(c, s) && Report1(c, s, s', h) && Sized(c, s')
    ensures HistoryOk(c, s')
  {
    assert HubOk(c, s, h);
  }

  lemma Report1KeepsInv(c: Config, s: Sys, s': Sys, h: int)
    requires Inv(c, s) && Report1(c, s, s', h)
    ensures Inv(c, s')
  {
    Report1KeepsHubs(c, s, s', h);
    Report1KeepsHistory(c, s, s', h);
    forall w | Worker(c, w) ensures WorkerOk(c, s', w) && PollOk(c, s', w) && LateOk(c, s', w) {
      Report1KeepsWorker(c, s, s', h, w);
    }
  }

  // ---------- The root combines wave one ----------

  lemma RestartKeepsInv(c: Config, s: Sys, s': Sys)
    requires Inv(c, s) && s' == Restarted(c, s) && !s.terminated
    requires AllHubs(c, s, Reported1) || AllHubs(c, s, Reported2)
    ensures Inv(c, s')
  {
    forall w | Worker(c, w) ensures WorkerOk(c, s', w) && PollOk(c, s', w) && LateOk(c, s', w) {
      assert WorkerOk(c, s, w) && PollOk(c, s, w) && LateOk(c, s, w);
      assert c.IsHub(c.hub[w]);
    }
  }

  lemma TotalReceived(c: Config, v: seq<Load>)
    requires c.Ok() && |v| == c.n
    ensures Get(Received, GlobalLoad(c, v, c.n)) == Sum(c.n, Of(v, Received))
  {
    GlobalField(c, v, c.n, Received);
    Partition(c, Of(v, Received));
  }

  lemma CombinedHistoryOk(c: Config, s: Sys, s': Sys)
    requires Inv(c, s) && Combine(c, s, s') && GlobalLoad(c, s.sample, c.n).SeemsReallyDone()
    ensures HistoryOk(c, s')
  {
    TotalReceived(c, s.sample);
    forall h | c.IsHub(h) ensures SampleOk(c, s.sample, s.net, h) {
      assert HubOk(c, s, h);
    }
  }

  lemma CombineKeepsInv(c: Config, s: Sys, s': Sys)
    requires Inv(c, s) && Combine(c, s, s')
    ensures Inv(c, s')
  {
    if GlobalLoad(c, s.sample, c.n).SeemsReallyDone() {
      CombinedHistoryOk(c, s, s');
      forall h | c.IsHub(h) ensures HubOk(c, s', h) {
        assert HubOk(c, s, h);
      }
      forall w | Worker(c, w) ensures WorkerOk(c, s', w) && PollOk(c, s', w) && LateOk(c, s', w) {
        assert WorkerOk(c, s, w) && PollOk(c, s, w) && c.IsHub(c.hub[w]);
      }
    } else {
      RestartKeepsInv(c, s, s');
    }
  }

  // ---------- Wave two ----------

  lemma LateView(c: Config, s: Sys, h: int, p: int)
    requires Inv(c, s) && c.IsHub(h) && s.phase[h] == Polling2 && PollsDone(c, s, h) && c.In(p, h)
    ensures Evolves(s.atT.load[p], View(c, s, p))
  {
    assert HubOk(c, s, h);
    if Worker(c, p) {
      assert PollOk(c, s, p) && LateOk(c, s, p);
    }
  }

  /** What a hub counts in wave two is at least what its cluster had sent when wave one ended. */
  lemma LateCount(c: Config, s: Sys, h: int)
    requires Inv(c, s) && c.IsHub(h) && s.phase[h] == Polling2 && PollsDone(c, s, h)
    ensures Due(c, s.atT.load, h, Sent) <= Get(Sent, ClusterLoad(c, Views(c, s), h, c.n))
  {
    ClusterField(c, Views(c, s), h, c.n, Sent);
    forall p | c.In(p, h) ensures Evolves(s.atT.load[p], Views(c, s)[p]) {
      LateView(c, s, h, p);
    }
    DueLe(c, s.atT.load, Views(c, s), h);
  }

  lemma DueLe(c: Config, v: seq<Load>, v': seq<Load>, h: int)
    requires c.Ok() && |v| == |v'| == c.n && forall p | c.In(p, h) :: Evolves(v[p], v'[p])
    ensures Due(c, v, h, Sent) <= Due(c, v', h, Sent)
  {
    var before, now := In(c, h, Of(v, Sent)), In(c, h, Of(v', Sent));
    forall p | 0 <= p < c.n ensures before(p) <= now(p) {
      InIs(c, h, Of(v, Sent), p);
      InIs(c, h, Of(v', Sent), p);
    }
    SumLe(c.n, before, now);
  }

  lemma Report2KeepsHubs(c: Config, s: Sys, s': Sys, h: int)
    requires Inv(c, s) && Report2(c, s, s', h)
    ensures Sized(c, s') && forall g | c.IsHub(g) :: HubOk(c, s', g)
  {
    LateCount(c, s, h);
    forall g | c.IsHub(g) ensures HubOk(c, s', g) {
      assert HubOk(c, s, g);
    }
  }

  lemma Report2KeepsInv(c: Config, s: Sys, s': Sys, h: int)
    requires Inv(c, s) && Report2(c, s, s', h)
    ensures Inv(c, s')
  {
    Report2KeepsHubs(c, s, s', h);
    forall w | Worker(c, w) ensures WorkerOk(c, s', w) && PollOk(c, s', w) && LateOk(c, s', w) {
      assert WorkerOk(c, s, w) && PollOk(c, s, w) && LateOk(c, s, w);
    }
  }

  // ---------- The verdict ----------

  /** When wave one was combined, at least as much had been sent as received. */
  lemma SentCoversReceived(c: Config, net: Net)
    requires Ledgers(c, net)
    ensures Sum(c.n, Of(net.load, Sent)) == Sum(c.n, Of(net.load, Received)) + Total(net.gen) + Total(net.nl)
  {
    var g, n := Of(net.load, GeneralDue), Of(net.load, NonLocalDue);
    var due := (i: int) => g(i) + n(i);
    SumPlus(c.n, g, n, due);
    SumPlus(c.n, Of(net.load, Received), due, Of(net.load, Sent));
  }

  lemma CountsCoverSent(c: Config, s: Sys)
    requires Inv(c, s) && AllHubs(c, s, Reported2)
    ensures Sum(c.n, Of(s.atT.load, Sent)) <= Sum(c.n, HubCounts(c, s))
  {
    var f := Of(s.atT.load, Sent);
    Partition(c, f);
    forall h | 0 <= h < c.n ensures PerHub(c, f)(h) <= HubCounts(c, s)(h) {
      assert c.IsHub(h) ==> HubOk(c, s, h);
    }
    SumLe(c.n, PerHub(c, f), HubCounts(c, s));
  }

  lemma EmptyIfTotalZero(s: seq<nat>)
    requires Total(s) == 0
    ensures Empty(s)
  {
    forall i | 0 <= i < |s| ensures s[i] == 0 {
      SumZero(|s|, At(s), i);
    }
  }

  lemma SampleEvolves(c: Config, s: Sys, p: int)
    requires Sized(c, s) && s.combined && 0 <= p < c.n
    requires forall h | c.IsHub(h) :: SampleOk(c, s.sample, s.atT, h)
    ensures Evolves(s.sample[p], s.atT.load[p])
  {
    assert c.IsHub(c.hub[p]) && c.In(p, c.hub[p]);
    assert SampleOk(c, s.sample, s.atT, c.hub[p]);
  }

  /** If nothing counted in wave one was missed, no processor received anything since its report. */
  lemma ReceiptsAgree(n: nat, v: seq<Load>, v': seq<Load>, p: int)
    requires |v| == |v'| == n && 0 <= p < n
    requires forall i | 0 <= i < n :: Evolves(v[i], v'[i])
    requires Sum(n, Of(v, Received)) >= Sum(n, Of(v', Received))
    ensures v[p].general.received == v'[p].general.received
    ensures v[p].nonLocal.received == v'[p].nonLocal.received
  {
    forall i | 0 <= i < n ensures Of(v, Received)(i) <= Of(v', Received)(i) {
      OfIs(v, Received, i);
      OfIs(v', Received, i);
      assert Evolves(v[i], v'[i]);
    }
    SumLeTight(n, Of(v, Received), Of(v', Received), p);
    OfIs(v, Received, p);
    OfIs(v', Received, p);
    assert Evolves(v[p], v'[p]);
  }

  lemma ReceivedLe(n: nat, v: seq<Load>, v': seq<Load>)
    requires |v| == |v'| == n && forall i | 0 <= i < n :: Evolves(v[i], v'[i])
    ensures Sum(n, Of(v, Received)) <= Sum(n, Of(v', Received))
  {
    forall i | 0 <= i < n ensures Of(v, Received)(i) <= Of(v', Received)(i) {
      assert Evolves(v[i], v'[i]);
    }
    SumLe(n, Of(v, Received), Of(v', Received));
  }

  lemma HistorySamples(c: Config, s: Sys)
    requires Inv(c, s) && s.combined
    ensures forall h | c.IsHub(h) :: SampleOk(c, s.sample, s.atT, h)
    ensures GlobalLoad(c, s.sample, c.n).SeemsReallyDone()
    ensures forall p | 0 <= p < c.n :: Evolves(s.sample[p], s.atT.load[p])
  {
    forall p | 0 <= p < c.n ensures Evolves(s.sample[p], s.atT.load[p]) {
      SampleEvolves(c, s, p);
    }
  }

  lemma TotalsConfirm(c: Config, s: Sys)
    requires Inv(c, s) && s.combined && AllHubs(c, s, Reported2) && Sum(c.n, HubCounts(c, s)) == s.target
    ensures Empty(s.atT.gen) && Empty(s.atT.nl) && Empty(s.atT.lb)
    ensures Sum(c.n, Of(s.sample, Received)) >= Sum(c.n, Of(s.atT.load, Received))
  {
    CountsCoverSent(c, s);
    SentCoversReceived(c, s.atT);
    HistorySamples(c, s);
    ReceivedLe(c.n, s.sample, s.atT.load);
    EmptyIfTotalZero(s.atT.gen);
    EmptyIfTotalZero(s.atT.nl);
  }

  /** Wave two confirmed wave one: nothing was on its way and nobody had anything to do. */
  lemma ConfirmedMeansDead(c: Config, s: Sys)
    requires Inv(c, s) && s.combined && AllHubs(c, s, Reported2) && Sum(c.n, HubCounts(c, s)) == s.target
    ensures Dead(c, s.atT)
  {
    TotalsConfirm(c, s);
    HistorySamples(c, s);
    forall h | c.IsHub(h) ensures Still(c, s.sample, h) && NoReceiptsSince(c, s.sample, s.atT, h) {
      PassedMeansStill(c, s.sample, h);
      ConfirmedCluster(c, s.sample, s.atT, h);
    }
    forall h | c.IsHub(h) ensures ClusterDead(c, s.atT, h) {
      PassedMeansQuiet(c, s.sample, h);
    }
  }

  lemma ConfirmedCluster(c: Config, v: seq<Load>, net: Net, h: int)
    requires c.Ok() && |v| == c.n && net.Sized(c.n) && c.IsHub(h)
    requires forall p | 0 <= p < c.n :: Evolves(v[p], net.load[p])
    requires Sum(c.n, Of(v, Received)) >= Sum(c.n, Of(net.load, Received))
    ensures NoReceiptsSince(c, v, net, h)
  {
    forall p | c.In(p, h)
      ensures v[p].general.received == net.load[p].general.received
      ensures v[p].nonLocal.received == net.load[p].nonLocal.received
    {
      ReceiptsAgree(c.n, v, net.load, p);
    }
  }

  lemma DecideKeepsInv(c: Config, s: Sys, s': Sys)
    requires Inv(c, s) && Decide(c, s, s')
    ensures Inv(c, s')
  {
    if Sum(c.n, HubCounts(c, s)) == s.target {
      ConfirmedMeansDead(c, s);
      forall g | c.IsHub(g) ensures HubOk(c, s', g) {
        assert HubOk(c, s, g);
      }
      forall w | Worker(c, w) ensures WorkerOk(c, s', w) && PollOk(c, s', w) && LateOk(c, s', w) {
        assert WorkerOk(c, s, w) && PollOk(c, s, w) && LateOk(c, s, w);
      }
    } else {
      RestartKeepsInv(c, s, s');
    }
  }

  lemma NextKeepsInv(c: Config, s: Sys, s': Sys)
    requires Inv(c, s) && Next(c, s, s')
    ensures Inv(c, s')
  {
    if Search(c, s, s') {
      SearchKeepsInv(c, s, s');
    } else if w :| Answer(c, s, s', w) {
      AnswerKeepsInv(c, s, s', w);
    } else if w, k, count :| Take(c, s, s', w, k, count) {
      TakeKeepsInv(c, s, s', w, k, count);
    } else if (exists h :: Joins(c, s, s', h)) || Decline(c, s, s') {
      SurveyKeepsInv(c, s, s');
    } else if Begin(c, s, s') {
      BeginKeepsInv(c, s, s');
    } else if h :| StartPoll(c, s, s', h) {
      StartPollKeepsInv(c, s, s', h);
    } else if h :| Report1(c, s, s', h) {
      Report1KeepsInv(c, s, s', h);
    } else if Combine(c, s, s') {
      CombineKeepsInv(c, s, s');
    } else if h :| Report2(c, s, s', h) {
      Report2KeepsInv(c, s, s', h);
    } else {
      DecideKeepsInv(c, s, s');
    }
  }

  lemma InitialClusterLedgers(c: Config, s: Sys, h: int)
    requires Init(c, s) && c.IsHub(h)
    ensures DispatchLedger(c, s.net, h) && LocalLedger(c, s.net, h)
  {
    forall p | 0 <= p < c.n
      ensures In(c, h, Of(s.net.load, DispatchGot))(p) == 0
      ensures In(c, h, At(s.net.disp))(p) == 0 && In(c, h, At(s.net.handled))(p) == 0
    {
      InIs(c, h, Of(s.net.load, DispatchGot), p);
      InIs(c, h, At(s.net.disp), p);
      InIs(c, h, At(s.net.handled), p);
    }
    SumZero(c.n, In(c, h, Of(s.net.load, DispatchGot)), 0);
    SumZero(c.n, In(c, h, At(s.net.disp)), 0);
    SumZero(c.n, In(c, h, At(s.net.handled)), 0);
  }

  lemma InitialGlobalLedgers(c: Config, s: Sys)
    requires Init(c, s)
    ensures GlobalLedgers(c, s.net)
  {
    forall p | 0 <= p < c.n
      ensures Of(s.net.load, GeneralDue)(p) == 0 && Of(s.net.load, NonLocalDue)(p) == 0
    {
      OfIs(s.net.load, GeneralDue, p);
      OfIs(s.net.load, NonLocalDue, p);
    }
    SumZero(c.n, Of(s.net.load, GeneralDue), 0);
    SumZero(c.n, Of(s.net.load, NonLocalDue), 0);
    SumZero(c.n, At(s.net.gen), 0);
    SumZero(c.n, At(s.net.nl), 0);
  }

  lemma InitHolds(c: Config, s: Sys)
    requires Init(c, s)
    ensures Inv(c, s)
  {
    InitialGlobalLedgers(c, s);
    forall h | c.IsHub(h) ensures DispatchLedger(c, s.net, h) && LocalLedger(c, s.net, h) {
      InitialClusterLedgers(c, s, h);
    }
  }

  lemma {:induction false} InvHolds(c: Config, run: seq<Sys>, i: nat)
    requires IsRun(c, run) && i < |run|
    ensures Inv(c, run[i])
  {
    if i == 0 {
      InitHolds(c, run[0]);
    } else {
      InvHolds(c, run, i - 1);
      NextKeepsInv(c, run[i - 1], run[i]);
    }
  }

  lemma CombineStep(c: Config, s: Sys, s': Sys)
    requires Next(c, s, s') && s'.combined
    ensures s.combined ==> s'.atT == s.atT
    ensures !s.combined ==> Combine(c, s, s') && s'.atT == s.net
  {
  }

  /** `atT` really is the traffic at the moment the root combined the last passed survey. */
  lemma {:induction false} CombinedAt(c: Config, run: seq<Sys>, i: nat) returns (k: nat)
    requires IsRun(c, run) && i < |run| && run[i].combined
    ensures k < i && Combine(c, run[k], run[k + 1]) && run[k + 1].combined && run[k].net == run[i].atT
  {
    assert Init(c, run[0]);
    k := i - 1;
    CombineStep(c, run[k], run[k + 1]);
    if run[k].combined {
      k := CombinedAt(c, run, k);
    }
  }

  /** Termination is sound: if any run declares termination, then at the moment `k` at which the root
      combined the survey no processor held a subproblem or a pending merge, and no general,
      scatter, dispatch or load-balancing message was in transit, and so it is still. */
  lemma TerminationIsSound(c: Config, run: seq<Sys>, i: nat) returns (k: nat)
    requires IsRun(c, run) && i < |run| && run[i].terminated
    ensures k < i && Combine(c, run[k], run[k + 1])
    ensures Sized(c, run[k]) && Sized(c, run[i])
    ensures Dead(c, run[k].net) && Dead(c, run[i].net)
  {
    InvHolds(c, run, i);
    k := CombinedAt(c, run, i);
    InvHolds(c, run, k);
  }

  lemma DeadSearchChangesNothing(c: Config, s: Sys, s': Sys)
    requires Sized(c, s) && Dead(c, s.net) && Search(c, s, s')
    ensures s'.terminated == s.terminated && s'.net.load == s.net.load
  {
    var p :| SearchAt(c, s, s', p);
    forall i ensures !Enabled(c, s.net, p, i) {
      DeadDisables(c, s.net, p, i);
    }
    DeadDisables(c, s.net, p, Nothing);
  }

  lemma DeadTakeChangesNothing(c: Config, s: Sys, s': Sys, w: int, k: nat, count: nat)
    requires Sized(c, s) && Dead(c, s.net) && Take(c, s, s', w, k, count)
    ensures s'.terminated == s.terminated && s'.net.load == s.net.load
  {
    var h := c.hub[w];
    assert c.IsHub(h) && ClusterDead(c, s.net, h);
    assert c.In(w, h) && c.In(h, h);
    TokensWithout(s.net.chan[w], k);
  }

  lemma DeadStepChangesNothing(c: Config, s: Sys, s': Sys)
    requires Sized(c, s) && Dead(c, s.net) && s.terminated && s.combined && Next(c, s, s')
    ensures s'.terminated && s'.net.load == s.net.load
  {
    if Search(c, s, s') {
      DeadSearchChangesNothing(c, s, s');
    } else if w, k, count :| Take(c, s, s', w, k, count) {
      DeadTakeChangesNothing(c, s, s', w, k, count);
    }
  }

  lemma TerminatedIsDead(c: Config, s: Sys)
    requires Inv(c, s) && s.terminated
    ensures Sized(c, s) && s.combined && Dead(c, s.net) && Dead(c, s.atT)
  {
  }

  lemma TerminatedStep(c: Config, run: seq<Sys>, k: nat)
    requires IsRun(c, run) && k < |run| - 1 && run[k].terminated
    ensures run[k + 1].terminated && run[k + 1].net.load == run[k].net.load
  {
    InvHolds(c, run, k);
    TerminatedIsDead(c, run[k]);
    DeadStepChangesNothing(c, run[k], run[k + 1]);
  }

  /** After termination was declared nothing ever happens again: every load record stays as it is. */
  lemma {:induction false} NothingHappensAfterwards(c: Config, run: seq<Sys>, i: nat, j: nat)
    requires IsRun(c, run) && i <= j < |run| && run[i].terminated
    ensures run[j].terminated && run[j].net.load == run[i].net.load
    decreases j - i
  {
    if i < j {
      TerminatedStep(c, run, i);
      NothingHappensAfterwards(c, run, i + 1, j);
    }
  }
}
