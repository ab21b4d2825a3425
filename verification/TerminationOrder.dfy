/** Why a hub must not handle old reports after the reply of wave two: a run in which it does declares termination
    while a worker still has work.  Every report in it is one that the worker has reason to send. */
module TerminationOrder {
  import opened Sums
  import opened TerminationCheck
  import opened TerminationLoads
  import opened TerminationNet
  import TerminationProgress

  /** The hub takes the oldest load report, or the oldest poll reply, of a worker. */
  ghost predicate TakeByTag(c: Config, s: Sys, s': Sys, w: int, k: nat)
    requires Sized(c, s)
  {
    && Worker(c, w) && k < |s.net.chan[w]| && Handle(c, s.net, s'.net, w, k, s.net.load[c.hub[w]].count)
    && var q := s.net.chan[w];
       && (forall j | 0 <= j < k :: q[j].poll != q[k].poll)
       && s' == s.(net := s'.net, held := s.held[w := Held(q[k].load, q[k].epoch)],
                   poll := if q[k].poll then s.poll[w := Done] else s.poll)
  }

  /** Workers report only what is different from their last report. */
  ghost predicate SearchWhenDue(c: Config, s: Sys, s': Sys)
    requires Sized(c, s)
  {
    && Search(c, s, s')
    && forall w | 0 <= w < c.n && Communicate(c, s.net, s'.net, w, s.epoch) ::
         !TerminationProgress.Agree(TerminationProgress.LastReport(s, w), s.net.load[w])
  }

  ghost predicate NextByTag(c: Config, s: Sys, s': Sys) {
    Sized(c, s) && (SearchWhenDue(c, s, s') || Apart(c, s, s') || exists w, k :: TakeByTag(c, s, s', w, k))
  }

  ghost predicate IsRunByTag(c: Config, run: seq<Sys>) {
    && |run| > 0 && Init(c, run[0])
    && forall i, j | 0 <= i && j == i + 1 && j < |run| :: NextByTag(c, run[i], run[j])
  }

  // ---------- One hub and one worker ----------

  const MACHINE := Config(2, [0, 0])

  /** `count` subproblems, and general messages. */
  function Has(count: nat, sent: nat, received: nat): Load {
    NO_LOAD.(count := count, general := Counter(sent, received))
  }

  /** The loads of the hub and the worker, the general messages on their way to each, and the worker's messages. */
  function Traffic(hub: Load, worker: Load, toHub: nat, toWorker: nat, chan: seq<Report>): Net {
    Net([hub, worker], [toHub, toWorker], [0, 0], [0, 0], [0, 0], [0, 0], [[], chan], [0, 0])
  }

  function Says(l: Load): Report { Report(0, l, 0, false) }

  function Answers(l: Load, epoch: nat): Report { Report(0, l, epoch, true) }

  lemma MachineOk()
    ensures MACHINE.Ok() && MACHINE.IsHub(0) && Worker(MACHINE, 1)
    ensures forall h | MACHINE.IsHub(h) :: h == 0
    ensures forall w | Worker(MACHINE, w) :: w == 1
  {
  }

  // ---------- Search steps ----------

  function To(a: nat, b: nat): Output { Output([a, b], [0, 0], 0, [0, 0], [0, 0]) }

  lemma TotalOfTwo(a: nat, b: nat)
    ensures Total([a, b]) == a + b
  {
    var f := At([a, b]);
    assert Sum(0, f) == 0 && Sum(1, f) == f(0) && Sum(2, f) == f(0) + f(1);
  }

  lemma AfterSending(i: Input, a: nat, b: nat, was: nat, sent: nat, received: nat, count: nat)
    requires i == Nothing || i == General
    ensures LoadAfter(MACHINE, Has(was, sent, received), i, To(a, b), count, false)
            == Has(count, sent + a + b, received + One(i.General?))
  {
    TotalOfTwo(a, b);
    TotalOfTwo(0, 0);
  }

  lemma NothingMoves(p: int)
    requires 0 <= p < 2
    ensures Moved([0, 0], [0, 0], p, false, [0, 0])
  {
  }

  /** A step of the search that is no report. */
  lemma ActStep(s: Sys, s': Sys, p: int, i: Input, a: nat, b: nat, was: nat, sent: nat, received: nat, count: nat)
    requires Sized(MACHINE, s) && 0 <= p < 2 && !s.checking && (i == Nothing || i == General)
    requires Enabled(MACHINE, s.net, p, i) && s.net.load[p] == Has(was, sent, received)
    requires s.net.nl == s.net.disp == s.net.lb == s.net.out == [0, 0]
    requires Moved(s.net.gen, s'.net.gen, p, i.General?, [a, b])
    requires s' == s.(net := s.net.(gen := s'.net.gen,
                                    load := s.net.load[p := Has(count, sent + a + b, received + One(i.General?))]))
    ensures NextByTag(MACHINE, s, s')
  {
    AfterSending(i, a, b, was, sent, received, count);
    NothingMoves(p);
    ActsIsStep(s, s', p, i, To(a, b), count);
  }

  lemma ActsIsStep(s: Sys, s': Sys, p: int, i: Input, o: Output, count: nat)
    requires Sized(MACHINE, s) && 0 <= p < 2 && s' == s.(net := s'.net) && Acts(MACHINE, s, s', p, i, o, count, false)
    ensures NextByTag(MACHINE, s, s')
  {
    assert SearchAt(MACHINE, s, s', p);
    forall w | 0 <= w < 2 ensures !Communicate(MACHINE, s.net, s'.net, w, s.epoch) {
      var r := Report(s.net.out[w], s.net.load[w], s.epoch, false);
      assert s'.net.chan == s.net.chan && |s.net.chan[w] + [r]| > |s.net.chan[w]|;
    }
  }

  // ---------- The run, step by step ----------

  /** `run` has got to `s`. */
  ghost predicate Got(run: seq<Sys>, s: Sys) { IsRunByTag(MACHINE, run) && run[|run| - 1] == s && Sized(MACHINE, s) }

  lemma Goes(run: seq<Sys>, s: Sys, s': Sys) returns (longer: seq<Sys>)
    requires Got(run, s) && NextByTag(MACHINE, s, s') && Sized(MACHINE, s')
    ensures Got(longer, s')
  {
    longer := run + [s'];
    forall i, j | 0 <= i && j == i + 1 && j < |longer| ensures NextByTag(MACHINE, longer[i], longer[j]) {
      if j < |run| {
        assert NextByTag(MACHINE, run[i], run[j]);
      }
    }
  }

  /** Nothing has been polled or surveyed yet. */
  ghost predicate Searching(s: Sys, net: Net) {
    && s.net == net && !s.checking && !s.combined && !s.terminated && s.epoch == 0 && s.poll == [Done, Done]
    && s.phase == [Resting, Resting] && s.joined == [false, false] && |s.held| == |s.survey| == |s.sample| == 2
    && s.held[1].load == s.survey[1] == s.sample[1] == NO_LOAD && s.count2 == [0, 0]
  }

  lemma Starts(hub: Load) returns (run: seq<Sys>, s: Sys)
    requires hub == Has(1, 0, 0)
    ensures Got(run, s) && Searching(s, Traffic(hub, NO_LOAD, 0, 0, []))
  {
    var net := Traffic(hub, NO_LOAD, 0, 0, []);
    s := Sys(net, [Held(hub, 0), Held(NO_LOAD, 0)], [Done, Done], [false, false], [NO_LOAD, NO_LOAD],
             [Resting, Resting], [NO_LOAD, NO_LOAD], 0, false, false, 0, [0, 0], false, net);
    MachineOk();
    run := [s];
  }

  lemma TrafficChanges(h: Load, w: Load, a: nat, b: nat, chan: seq<Report>, p: int, l: Load, a': nat, b': nat)
    requires p == 0 || p == 1
    ensures Traffic(if p == 0 then l else h, if p == 1 then l else w, a', b', chan)
            == Traffic(h, w, a, b, chan).(gen := [a', b'], load := [h, w][p := l])
  {
  }

  lemma GeneralMoves(a: nat, b: nat, p: int, take: bool, x: nat, y: nat)
    requires p == 0 || p == 1
    requires take ==> (if p == 0 then a > 0 else b > 0)
    ensures Moved([a, b], [a + x - One(take && p == 0), b + y - One(take && p == 1)], p, take, [x, y])
  {
  }

  lemma {:induction false} HubActs(run: seq<Sys>, s: Sys, i: Input, was: nat, sent: nat, received: nat, w: Load,
                                   toHub: nat, toWorker: nat, chan: seq<Report>, x: nat, count: nat)
    returns (longer: seq<Sys>, s': Sys)
    requires Got(run, s) && Searching(s, Traffic(Has(was, sent, received), w, toHub, toWorker, chan))
    requires (i == Nothing && was > 0) || (i == General && toHub > 0)
    ensures Got(longer, s')
    ensures var k := One(i.General?);
            Searching(s', Traffic(Has(count, sent + x, received + k), w, toHub - k, toWorker + x, chan))
  {
    var k := One(i.General?);
    s' := s.(net := Traffic(Has(count, sent + x, received + k), w, toHub - k, toWorker + x, chan));
    TrafficChanges(Has(was, sent, received), w, toHub, toWorker, chan, 0, Has(count, sent + x, received + k),
                   toHub - k, toWorker + x);
    GeneralMoves(toHub, toWorker, 0, i.General?, 0, x);
    ActStep(s, s', 0, i, 0, x, was, sent, received, count);
    longer := Goes(run, s, s');
  }

  lemma {:induction false} WorkerActs(run: seq<Sys>, s: Sys, i: Input, h: Load, was: nat, sent: nat, received: nat,
                                      toHub: nat, toWorker: nat, chan: seq<Report>, x: nat, count: nat)
    returns (longer: seq<Sys>, s': Sys)
    requires Got(run, s) && Searching(s, Traffic(h, Has(was, sent, received), toHub, toWorker, chan))
    requires (i == Nothing && was > 0) || (i == General && toWorker > 0)
    ensures Got(longer, s')
    ensures var k := One(i.General?);
            Searching(s', Traffic(h, Has(count, sent + x, received + k), toHub + x, toWorker - k, chan))
  {
    var k := One(i.General?);
    s' := s.(net := Traffic(h, Has(count, sent + x, received + k), toHub + x, toWorker - k, chan));
    TrafficChanges(h, Has(was, sent, received), toHub, toWorker, chan, 1, Has(count, sent + x, received + k),
                   toHub + x, toWorker - k);
    GeneralMoves(toHub, toWorker, 1, i.General?, x, 0);
    ActStep(s, s', 1, i, x, 0, was, sent, received, count);
    longer := Goes(run, s, s');
  }

  /** The worker reports a count that differs from its last report. */
  lemma WorkerReports(run: seq<Sys>, s: Sys, h: Load, w: Load, toHub: nat, toWorker: nat, chan: seq<Report>, last: Load,
                      more: seq<Report>) returns (longer: seq<Sys>, s': Sys)
    requires Got(run, s) && Searching(s, Traffic(h, w, toHub, toWorker, chan)) && more == chan + [Says(w)]
    requires last == (if chan == [] then NO_LOAD else chan[|chan| - 1].load) && w.count != last.count
    ensures Got(longer, s') && Searching(s', Traffic(h, w, toHub, toWorker, more))
  {
    s' := s.(net := Traffic(h, w, toHub, toWorker, more));
    assert Communicate(MACHINE, s.net, s'.net, 1, s.epoch);
    assert SearchAt(MACHINE, s, s', 1);
    assert TerminationProgress.LastReport(s, 1) == last;
    forall v | 0 <= v < 2 && Communicate(MACHINE, s.net, s'.net, v, s.epoch) ensures v == 1 {
      MachineOk();
    }
    longer := Goes(run, s, s');
  }

  const FIRST := Says(Has(1, 0, 1))
  const SECOND := Says(Has(0, 0, 1))
  const THIRD := Says(Has(1, 0, 2))

  /** The worker gets work with a message from the hub, and finishes it, with a report each time. */
  lemma ToTwoReports() returns (run: seq<Sys>, s: Sys)
    ensures Got(run, s) && Searching(s, Traffic(Has(1, 1, 0), Has(0, 0, 1), 0, 0, [FIRST, SECOND]))
  {
    var none: seq<Report> := [];
    run, s := Starts(Has(1, 0, 0));
    run, s := HubActs(run, s, Nothing, 1, 0, 0, Has(0, 0, 0), 0, 0, none, 1, 1);
    run, s := WorkerActs(run, s, General, Has(1, 1, 0), 0, 0, 0, 0, 1, none, 0, 1);
    run, s := WorkerReports(run, s, Has(1, 1, 0), Has(1, 0, 1), 0, 0, none, NO_LOAD, [FIRST]);
    run, s := WorkerActs(run, s, Nothing, Has(1, 1, 0), 1, 0, 1, 0, 0, [FIRST], 0, 0);
    run, s := WorkerReports(run, s, Has(1, 1, 0), Has(0, 0, 1), 0, 0, [FIRST], Has(1, 0, 1), [FIRST, SECOND]);
  }

  /** It gets work again. */
  lemma ToThreeReports() returns (run: seq<Sys>, s: Sys)
    ensures Got(run, s) && Searching(s, Traffic(Has(1, 2, 0), Has(1, 0, 2), 0, 0, [FIRST, SECOND, THIRD]))
  {
    var two := [FIRST, SECOND];
    assert two + [THIRD] == [FIRST, SECOND, THIRD];
    run, s := ToTwoReports();
    run, s := HubActs(run, s, Nothing, 1, 1, 0, Has(0, 0, 1), 0, 0, two, 1, 1);
    run, s := WorkerActs(run, s, General, Has(1, 2, 0), 0, 0, 1, 0, 1, two, 0, 1);
    run, s := WorkerReports(run, s, Has(1, 2, 0), Has(1, 0, 2), 0, 0, two, Has(0, 0, 1), two + [THIRD]);
  }

  /** It answers the hub, which finishes. */
  lemma ToCheck() returns (run: seq<Sys>, s: Sys)
    ensures Got(run, s) && Searching(s, Traffic(Has(0, 2, 1), Has(1, 1, 2), 0, 0, [FIRST, SECOND, THIRD]))
  {
    var chan := [FIRST, SECOND, THIRD];
    run, s := ToThreeReports();
    run, s := WorkerActs(run, s, Nothing, Has(1, 2, 0), 1, 0, 2, 0, 0, chan, 1, 1);
    run, s := HubActs(run, s, General, 1, 2, 0, Has(1, 1, 2), 1, 0, chan, 0, 0);
  }

  // ---------- The survey and the check, with `l` the hub's load and `w` the worker's ----------

  lemma Loads(a: Load, b: Load)
    ensures GlobalLoad(MACHINE, [a, b], 2) == AddLoad(NO_LOAD, AddLoad(AddLoad(NO_LOAD, a), b))
    ensures ClusterLoad(MACHINE, [a, b], 0, 2) == AddLoad(AddLoad(NO_LOAD, a), b)
  {
    var v := [a, b];
    assert ClusterLoad(MACHINE, v, 0, 0) == NO_LOAD;
    assert ClusterLoad(MACHINE, v, 0, 1) == AddLoad(NO_LOAD, a);
    assert ClusterLoad(MACHINE, v, 0, 2) == AddLoad(AddLoad(NO_LOAD, a), b);
    assert GlobalLoad(MACHINE, v, 0) == NO_LOAD;
    assert GlobalLoad(MACHINE, v, 1) == AddLoad(NO_LOAD, ClusterLoad(MACHINE, v, 0, 2));
    assert GlobalLoad(MACHINE, v, 2) == GlobalLoad(MACHINE, v, 1);
  }

  lemma FieldsOfSums(f: Field, a: Load, b: Load)
    ensures Get(f, AddLoad(AddLoad(NO_LOAD, a), b)) == Get(f, a) + Get(f, b)
    ensures Get(f, AddLoad(NO_LOAD, AddLoad(AddLoad(NO_LOAD, a), b))) == Get(f, a) + Get(f, b)
  {
    FieldsAdd(f, NO_LOAD, a);
    FieldsAdd(f, AddLoad(NO_LOAD, a), b);
    FieldsAdd(f, NO_LOAD, AddLoad(AddLoad(NO_LOAD, a), b));
  }

  /** What the records of the hub and the worker add up to. */
  lemma Together(v: seq<Load>, f: Field)
    requires |v| == 2
    ensures Get(f, GlobalLoad(MACHINE, v, 2)) == Get(f, ClusterLoad(MACHINE, v, 0, 2)) == Get(f, v[0]) + Get(f, v[1])
  {
    assert v == [v[0], v[1]];
    Loads(v[0], v[1]);
    FieldsOfSums(f, v[0], v[1]);
  }

  lemma ReadyByFields(l: Load)
    requires Get(Count, l) == Get(NonLocalDue, l) == Get(LocalDue, l) == Get(DispatchDue, l) == 0
    ensures l.ReadyToPoll()
    ensures Get(GeneralDue, l) == 0 && !l.mergePending ==> l.SeemsReallyDone()
  {
  }

  lemma Idle(v: seq<Load>, s: nat, r: nat, s': nat, r': nat)
    requires v == [Has(0, s, r), Has(0, s', r')]
    ensures GlobalLoad(MACHINE, v, 2).ReadyToPoll()
    ensures s + s' == r + r' ==> GlobalLoad(MACHINE, v, 2).SeemsReallyDone()
    ensures Get(Received, GlobalLoad(MACHINE, v, 2)) == r + r'
  {
    forall f: Field ensures Get(f, GlobalLoad(MACHINE, v, 2)) == Get(f, v[0]) + Get(f, v[1]) {
      Together(v, f);
    }
    ReadyByFields(GlobalLoad(MACHINE, v, 2));
    TerminationProgress.NonePending(MACHINE, v, 2);
  }

  lemma Joined(run: seq<Sys>, s: Sys, h: Load, w: Load, chan: seq<Report>) returns (longer: seq<Sys>, s': Sys)
    requires Got(run, s) && Searching(s, Traffic(h, w, 0, 0, chan))
    ensures Got(longer, s') && s' == s.(joined := [true, false], survey := [h, NO_LOAD])
  {
    s' := s.(joined := [true, false], survey := [h, NO_LOAD]);
    assert Surveyed(MACHINE, s, 0) == [h, NO_LOAD];
    assert Joins(MACHINE, s, s', 0);
    longer := Goes(run, s, s');
  }

  /** The survey sees no work: the hub still has the worker's first record. */
  lemma Surveys(run: seq<Sys>, s: Sys, sent: nat, received: nat, w: Load, chan: seq<Report>)
    returns (longer: seq<Sys>, s': Sys)
    requires Got(run, s) && Searching(s, Traffic(Has(0, sent, received), w, 0, 0, chan))
    ensures Got(longer, s') && s' == s.(checking := true, survey := [Has(0, sent, received), NO_LOAD])
  {
    var joined: Sys;
    longer, joined := Joined(run, s, Has(0, sent, received), w, chan);
    s' := joined.(checking := true, joined := [false, false]);
    Idle(joined.survey, sent, received, 0, 0);
    assert NoneJoined(MACHINE) == [false, false];
    assert Begin(MACHINE, joined, s');
    longer := Goes(longer, joined, s');
  }

  lemma {:induction false} Handled(l: Load, w: Load, chan: seq<Report>, k: nat, rest: seq<Report>)
    requires k < |chan| && rest == Without(chan, k) && chan[k].tokens == 0
    ensures Handle(MACHINE, Traffic(l, w, 0, 0, chan), Traffic(l, w, 0, 0, rest), 1, k, l.count)
  {
    assert l.(count := l.count, local := Counter(l.local.sent, l.local.received + 0)) == l;
    var none: seq<Report> := [];
    assert [none, chan][1 := rest] == [none, rest] && [0, 0][1 := 0] == [0, 0];
  }

  /** The hub takes the oldest message of its kind. */
  lemma Takes(run: seq<Sys>, s: Sys, l: Load, w: Load, chan: seq<Report>, k: nat, rest: seq<Report>)
    returns (longer: seq<Sys>, s': Sys)
    requires Got(run, s) && s.net == Traffic(l, w, 0, 0, chan) && k < |chan| && rest == Without(chan, k)
    requires chan[k].tokens == 0 && (forall j | 0 <= j < k :: chan[j].poll != chan[k].poll)
    ensures Got(longer, s')
    ensures s' == s.(net := Traffic(l, w, 0, 0, rest), held := s.held[1 := Held(chan[k].load, chan[k].epoch)],
                     poll := if chan[k].poll then s.poll[1 := Done] else s.poll)
  {
    s' := s.(net := Traffic(l, w, 0, 0, rest), held := s.held[1 := Held(chan[k].load, chan[k].epoch)],
             poll := if chan[k].poll then s.poll[1 := Done] else s.poll);
    Handled(l, w, chan, k, rest);
    assert TakeByTag(MACHINE, s, s', 1, k);
    longer := Goes(run, s, s');
  }

  lemma {:induction false} WithoutLast(q: seq<Report>, r: Report)
    ensures Without(q + [r], |q|) == q
  {
    if q != [] {
      assert (q + [r])[1..] == q[1..] + [r];
      WithoutLast(q[1..], r);
    }
  }

  lemma Polls(run: seq<Sys>, s: Sys, f: Phase) returns (longer: seq<Sys>, s': Sys)
    requires Got(run, s) && s.checking && !s.terminated && s.poll == [Done, Done]
    requires if s.combined then s.phase == [Reported1, Resting] && f == Polling2
             else s.phase == [Resting, Resting] && f == Polling1
    ensures Got(longer, s') && s' == s.(phase := [f, Resting], poll := [Done, Signalled])
  {
    s' := s.(phase := [f, Resting], poll := [Done, Signalled]);
    assert Signal(MACHINE, s, 0) == [Done, Signalled];
    assert StartPoll(MACHINE, s, s', 0);
    longer := Goes(run, s, s');
  }

  /** A poll, which the worker answers, and whose reply the hub takes before the reports sent earlier. */
  lemma Wave(run: seq<Sys>, s: Sys, f: Phase, l: Load, w: Load, chan: seq<Report>) returns (longer: seq<Sys>, s': Sys)
    requires Got(run, s) && s.checking && !s.terminated && s.poll == [Done, Done]
    requires if s.combined then s.phase == [Reported1, Resting] && f == Polling2
             else s.phase == [Resting, Resting] && f == Polling1
    requires s.net == Traffic(l, w, 0, 0, chan) && forall j | 0 <= j < |chan| :: !chan[j].poll
    ensures Got(longer, s')
    ensures s' == s.(phase := [f, Resting], held := s.held[1 := Held(w, s.epoch)])
  {
    var r := Answers(w, s.epoch);
    longer, s' := Polls(run, s, f);
    var b := s'.(net := Traffic(l, w, 0, 0, chan + [r]), poll := [Done, Replied]);
    assert Answer(MACHINE, s', b, 1);
    longer := Goes(longer, s', b);
    WithoutLast(chan, r);
    longer, s' := Takes(longer, b, l, w, chan + [r], |chan|, chan);
    assert s'.poll == [Done, Done];
  }

  /** In wave one it takes the two oldest reports after the reply, and so has the record of the idle worker. */
  lemma Passes(run: seq<Sys>, s: Sys, w: Load, chan: seq<Report>) returns (longer: seq<Sys>, s': Sys)
    requires Got(run, s) && s.checking && !s.combined && !s.terminated && s.poll == [Done, Done] && s.epoch == 0
    requires s.phase == [Resting, Resting] && s.net == Traffic(Has(0, 2, 1), w, 0, 0, chan)
    requires |chan| == 3 && chan[1] == SECOND && forall j | 0 <= j < 3 :: !chan[j].poll && chan[j].tokens == 0
    ensures Got(longer, s') && s'.combined && !s'.terminated && s'.poll == [Done, Done] && s'.checking
    ensures s'.phase == [Reported1, Resting] && s'.target == 2 && s'.count2 == s.count2
    ensures s'.net == Traffic(Has(0, 2, 1), w, 0, 0, chan[2..])
  {
    longer, s' := Wave(run, s, Polling1, Has(0, 2, 1), w, chan);
    longer, s' := Takes(longer, s', Has(0, 2, 1), w, chan, 0, chan[1..]);
    assert chan[1..][1..] == chan[2..];
    longer, s' := Takes(longer, s', Has(0, 2, 1), w, chan[1..], 0, chan[2..]);
    longer, s' := Combined(longer, s', Has(0, 2, 1), Has(0, 0, 1));
  }

  lemma Combined(run: seq<Sys>, s: Sys, l: Load, old1: Load) returns (longer: seq<Sys>, s': Sys)
    requires Got(run, s) && s.checking && !s.combined && s.phase == [Polling1, Resting] && s.poll == [Done, Done]
    requires s.net.load[0] == l == Has(0, 2, 1) && s.held[1].load == old1 == Has(0, 0, 1)
    ensures Got(longer, s') && s'.combined && s'.phase == [Reported1, Resting] && s'.target == 2
    ensures s' == s.(combined := true, phase := s'.phase, target := 2, epoch := s'.epoch, atT := s'.atT,
                     sample := s'.sample)
  {
    var mid := s.(phase := [Reported1, Resting], sample := [l, old1]);
    assert Sampled(MACHINE, s, 0) == [l, old1];
    assert Report1(MACHINE, s, mid, 0);
    longer := Goes(run, s, mid);
    Idle(mid.sample, 2, 1, 0, 1);
    s' := mid.(combined := true, epoch := mid.epoch + 1, atT := mid.net, target := 2);
    assert Combine(MACHINE, mid, s');
    longer := Goes(longer, mid, s');
  }

  /** In wave two it takes the last report after the reply, which has not sent anything either. */
  lemma Confirms(run: seq<Sys>, s: Sys, w: Load, old2: Load) returns (longer: seq<Sys>, s': Sys)
    requires Got(run, s) && s.combined && s.checking && !s.terminated && s.poll == [Done, Done] && s.target == 2
    requires s.phase == [Reported1, Resting] && s.count2 == [0, 0] && Get(Sent, old2) == 0
    requires s.net == Traffic(Has(0, 2, 1), w, 0, 0, [Says(old2)])
    ensures Got(longer, s') && s'.terminated && s'.net.load == [Has(0, 2, 1), w]
  {
    var none: seq<Report> := [];
    longer, s' := Wave(run, s, Polling2, Has(0, 2, 1), w, [Says(old2)]);
    longer, s' := Takes(longer, s', Has(0, 2, 1), w, [Says(old2)], 0, none);
    longer, s' := Decided(longer, s', Has(0, 2, 1), old2);
  }

  lemma Decided(run: seq<Sys>, s: Sys, l: Load, old2: Load) returns (longer: seq<Sys>, s': Sys)
    requires Got(run, s) && s.combined && !s.terminated && s.phase == [Polling2, Resting] && s.poll == [Done, Done]
    requires s.net.load[0] == l && s.held[1].load == old2 && s.count2 == [0, 0]
    requires Get(Sent, l) + Get(Sent, old2) == s.target
    ensures Got(longer, s') && s'.terminated && s'.net == s.net
  {
    var mid := s.(phase := [Reported2, Resting], count2 := [s.target, 0]);
    assert Views(MACHINE, s) == [l, old2];
    Together(Views(MACHINE, s), Sent);
    assert Report2(MACHINE, s, mid, 0);
    longer := Goes(run, s, mid);
    var f := HubCounts(MACHINE, mid);
    assert Sum(0, f) == 0 && Sum(1, f) == f(0) && Sum(2, f) == f(0) + f(1);
    s' := mid.(terminated := true);
    assert Decide(MACHINE, mid, s');
    longer := Goes(longer, mid, s');
  }

  /** With reports and replies in order among themselves, but not between them, the verdict can be wrong: here the
      worker has work. */
  lemma OrderIsNeeded() returns (run: seq<Sys>)
    ensures IsRunByTag(MACHINE, run)
    ensures var s := run[|run| - 1];
            Sized(MACHINE, s) && s.terminated && s.net.load[1].count == 1 && !Dead(MACHINE, s.net)
  {
    var chan := [FIRST, SECOND, THIRD];
    var s: Sys;
    run, s := ToCheck();
    run, s := Surveys(run, s, 2, 1, Has(1, 1, 2), chan);
    run, s := Passes(run, s, Has(1, 1, 2), chan);
    assert chan[2..] == [THIRD];
    run, s := Confirms(run, s, Has(1, 1, 2), Has(1, 0, 2));
    if Dead(MACHINE, s.net) {
      DeadDisables(MACHINE, s.net, 1, Nothing);
    }
  }
}
