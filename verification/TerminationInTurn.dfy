/** Handling a worker's messages in the order in which they were sent is one way to meet what the check asks for. */
module TerminationInTurn {
  import opened TerminationCheck
  import opened TerminationNet

  /** The hub takes the oldest message of a worker. */
  ghost predicate TakeFirst(c: Config, s: Sys, s': Sys, w: int, count: nat)
    requires Sized(c, s)
  {
    && Worker(c, w) && s.net.chan[w] != [] && Handle(c, s.net, s'.net, w, 0, count)
    && s' == s.(net := s'.net,
                held := s.held[w := Held(s.net.chan[w][0].load, s.net.chan[w][0].epoch)],
                poll := if s.net.chan[w][0].poll then s.poll[w := Done] else s.poll)
  }

  ghost predicate InTurn(c: Config, s: Sys, s': Sys)
    requires Sized(c, s)
  {
    Apart(c, s, s') || exists w, count :: TakeFirst(c, s, s', w, count)
  }

  ghost predicate NextInTurn(c: Config, s: Sys, s': Sys) {
    Sized(c, s) && (Search(c, s, s') || InTurn(c, s, s'))
  }

  ghost predicate IsRunInTurn(c: Config, run: seq<Sys>) {
    && |run| > 0 && Init(c, run[0])
    && forall i, j | 0 <= i && j == i + 1 && j < |run| :: NextInTurn(c, run[i], run[j])
  }

  predicate Ascending(q: seq<Report>) { forall i, j | 0 <= i < j < |q| :: q[i].epoch <= q[j].epoch }

  /** The newest messages come last, and behind a reply of wave two all are new. */
  ghost predicate TurnOk(c: Config, s: Sys, w: int)
    requires Sized(c, s) && Worker(c, w)
  {
    && Ascending(s.net.chan[w])
    && (s.phase[c.hub[w]] == Polling2 && s.poll[w] == Done ==> forall r | r in s.net.chan[w] :: r.epoch == s.epoch)
  }

  lemma PostedStaysOk(c: Config, s: Sys, s': Sys, w: int, r: Report)
    requires Inv(c, s) && Worker(c, w) && TurnOk(c, s, w) && Sized(c, s') && r.epoch == s.epoch
    requires s'.net.chan[w] == s.net.chan[w] + [r] && s'.epoch == s.epoch && s'.phase == s.phase
    requires s'.poll[w] == Done ==> s.poll[w] == Done
    ensures TurnOk(c, s', w)
  {
    assert WorkerOk(c, s, w);
  }

  lemma FirstStaysOk(c: Config, s: Sys, s': Sys, w: int, count: nat)
    requires Inv(c, s) && TakeFirst(c, s, s', w, count) && TurnOk(c, s, w) && Sized(c, s')
    ensures TurnOk(c, s', w)
  {
    var q := s.net.chan[w];
    assert WorkerOk(c, s, w) && PollOk(c, s, w) && q[0] in q;
    assert forall r | r in q[1..] :: r in q;
    if s'.phase[c.hub[w]] == Polling2 && s'.poll[w] == Done {
      forall r | r in q[1..] ensures r.epoch == s.epoch {
        var i :| 0 <= i < |q[1..]| && q[1..][i] == r;
        assert q[i + 1] == r && q[0].epoch <= q[i + 1].epoch;
      }
    }
  }

  /** The first message may always be taken. */
  lemma FirstIsInTime(c: Config, s: Sys, s': Sys, w: int, count: nat)
    requires Sized(c, s) && TakeFirst(c, s, s', w, count) && TurnOk(c, s, w)
    ensures Take(c, s, s', w, 0, count)
  {
    assert s.net.chan[w][0] in s.net.chan[w];
  }

  lemma SearchStaysOk(c: Config, s: Sys, s': Sys, w: int)
    requires Inv(c, s) && Search(c, s, s') && Worker(c, w) && TurnOk(c, s, w) && Sized(c, s')
    ensures TurnOk(c, s', w)
  {
    var p :| SearchAt(c, s, s', p);
    if p == w && Communicate(c, s.net, s'.net, p, s.epoch) {
      PostedStaysOk(c, s, s', w, Report(s.net.out[w], s.net.load[w], s.epoch, false));
    }
  }

  /** Nothing new is on its way, and where wave two waits for no reply it did not before. */
  ghost predicate Kept(c: Config, s: Sys, s': Sys, w: int)
    requires Sized(c, s) && Sized(c, s') && Worker(c, w)
  {
    && s'.net == s.net
    && (s'.phase[c.hub[w]] == Polling2 && s'.poll[w] == Done ==>
          s.phase[c.hub[w]] == Polling2 && s.poll[w] == Done && s'.epoch == s.epoch)
  }

  lemma HubStepKeeps(c: Config, s: Sys, s': Sys, h: int, w: int)
    requires Sized(c, s) && Sized(c, s') && Worker(c, w)
    requires StartPoll(c, s, s', h) || Report1(c, s, s', h) || Report2(c, s, s', h)
    ensures Kept(c, s, s', w)
  {
  }

  lemma RootStepKeeps(c: Config, s: Sys, s': Sys, w: int)
    requires Sized(c, s) && Sized(c, s') && Worker(c, w) && (Combine(c, s, s') || Decide(c, s, s'))
    ensures Kept(c, s, s', w)
  {
    assert c.IsHub(c.hub[w]);
  }

  lemma SurveyStepKeeps(c: Config, s: Sys, s': Sys, w: int)
    requires Sized(c, s) && Sized(c, s') && Worker(c, w)
    requires (exists h :: Joins(c, s, s', h)) || Decline(c, s, s') || Begin(c, s, s')
    ensures Kept(c, s, s', w)
  {
  }

  lemma ApartStaysOk(c: Config, s: Sys, s': Sys, w: int)
    requires Inv(c, s) && Apart(c, s, s') && Worker(c, w) && TurnOk(c, s, w) && Sized(c, s')
    ensures TurnOk(c, s', w)
  {
    if v :| Answer(c, s, s', v) {
      if v == w {
        PostedStaysOk(c, s, s', w, Report(0, s.net.load[w], s.epoch, true));
      }
    } else {
      ApartKeeps(c, s, s', w);
    }
  }

  lemma ApartKeeps(c: Config, s: Sys, s': Sys, w: int)
    requires Sized(c, s) && Apart(c, s, s') && Worker(c, w) && Sized(c, s') && forall v :: !Answer(c, s, s', v)
    ensures Kept(c, s, s', w)
  {
    if h :| StartPoll(c, s, s', h) {
      HubStepKeeps(c, s, s', h, w);
    } else if h :| Report1(c, s, s', h) {
      HubStepKeeps(c, s, s', h, w);
    } else if h :| Report2(c, s, s', h) {
      HubStepKeeps(c, s, s', h, w);
    } else if Combine(c, s, s') || Decide(c, s, s') {
      RootStepKeeps(c, s, s', w);
    } else {
      SurveyStepKeeps(c, s, s', w);
    }
  }

  ghost predicate AllTurnsOk(c: Config, s: Sys) {
    Inv(c, s) && forall w | Worker(c, w) :: TurnOk(c, s, w)
  }

  lemma InTurnIsNext(c: Config, s: Sys, s': Sys)
    requires AllTurnsOk(c, s) && NextInTurn(c, s, s')
    ensures Next(c, s, s')
  {
    if w, count :| TakeFirst(c, s, s', w, count) {
      FirstIsInTime(c, s, s', w, count);
    }
  }

  lemma NextInTurnStaysOk(c: Config, s: Sys, s': Sys)
    requires AllTurnsOk(c, s) && NextInTurn(c, s, s')
    ensures Next(c, s, s') && AllTurnsOk(c, s')
  {
    InTurnIsNext(c, s, s');
    NextKeepsInv(c, s, s');
    forall w | Worker(c, w) ensures TurnOk(c, s', w) {
      assert TurnOk(c, s, w);
      if Search(c, s, s') {
        SearchStaysOk(c, s, s', w);
      } else if Apart(c, s, s') {
        ApartStaysOk(c, s, s', w);
      } else {
        var v, count :| TakeFirst(c, s, s', v, count);
        if v == w {
          FirstStaysOk(c, s, s', w, count);
        }
      }
    }
  }

  lemma {:induction false} TurnsOk(c: Config, run: seq<Sys>, i: nat)
    requires IsRunInTurn(c, run) && i < |run|
    ensures AllTurnsOk(c, run[i])
  {
    if i == 0 {
      InitHolds(c, run[0]);
    } else {
      TurnsOk(c, run, i - 1);
      var j := i - 1;
      assert NextInTurn(c, run[j], run[i]);
      NextInTurnStaysOk(c, run[j], run[i]);
    }
  }

  /** A run in which every hub takes each worker's messages in turn is a run of the check. */
  lemma InTurnIsAllowed(c: Config, run: seq<Sys>)
    requires IsRunInTurn(c, run)
    ensures IsRun(c, run)
  {
    forall i, j | 0 <= i && j == i + 1 && j < |run| ensures Next(c, run[i], run[j]) {
      TurnsOk(c, run, i);
      InTurnIsNext(c, run[i], run[j]);
    }
  }
}
