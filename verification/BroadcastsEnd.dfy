/** Broadcasts end: no processor is sent the same pair twice, so the pairs announced bound the messages delivered, and
    every run can go on to where all processors agree. */
module BroadcastsEnd {
  import opened IncumbentBroadcast
  import opened Sums
  import opened TreeTopology

  /** The message with `a` to `c` has come and gone: its sender has `a` and will not send it again. */
  ghost predicate Spent(m: Machine, s: System, a: Pair, c: int)
    requires m.Ok() && m.Rank(a.source)
  {
    Message(c, a) !in s.transit && (a, m.Tree(a.source).Parent(c)) in s.accepted
  }

  ghost predicate CanCome(m: Machine, s: System, x: Message)
    requires m.Ok()
  {
    && x.content in s.known && x.content != m.initial
    && m.Rank(x.content.source) && m.Rank(x.dst) && x.dst != x.content.source
    && !Spent(m, s, x.content, x.dst)
  }

  /** The messages that can still be delivered, of the pairs announced so far. */
  ghost function StillToCome(m: Machine, s: System): (r: set<Message>)
    requires m.Ok()
    ensures forall x :: x in r <==> CanCome(m, s, x)
  {
    set a, c | a in s.known && 0 <= c < m.size && CanCome(m, s, Message(c, a)) :: Message(c, a)
  }

  /** One announcement concerns every processor but the one that makes it. */
  ghost function Others(m: Machine, a: Pair, n: nat): (r: set<Message>)
    ensures forall x :: x in r <==> x.content == a && 0 <= x.dst < n && x.dst != a.source
    ensures |r| == n - if 0 <= a.source < n then 1 else 0
  {
    if n == 0 then {}
    else if n - 1 == a.source then Others(m, a, n - 1)
    else Others(m, a, n - 1) + {Message(n - 1, a)}
  }

  lemma AnnounceAdds(m: Machine, s: System, s': System, p: int, value: real)
    requires Inv(m, s) && Announce(m, s, s', p, value)
    ensures |StillToCome(m, s')| <= |StillToCome(m, s)| + m.size - 1
  {
    var a := Pair(value, p);
    forall x | CanCome(m, s', x) ensures CanCome(m, s, x) || x in Others(m, a, m.size) {
      if x.content != a && x in s'.transit {
        FanoutCovers(m, p, a, x);
      }
    }
    SubsetSizes(StillToCome(m, s'), StillToCome(m, s) + Others(m, a, m.size));
  }

  lemma DeliveredIsSpent(m: Machine, s: System, s': System, x: Message)
    requires Inv(m, s) && Deliver(m, s, s', x)
    ensures CanCome(m, s, x) && !CanCome(m, s', x)
  {
    assert SentOnce(m, s, x);
    FanoutCovers(m, x.dst, x.content, x);
    ParentIsCloser(m.Tree(x.content.source), x.dst);
  }

  lemma SpentStaysSpent(m: Machine, s: System, s': System, x: Message, y: Message)
    requires Inv(m, s) && Deliver(m, s, s', x) && CanCome(m, s', y)
    ensures CanCome(m, s, y)
  {
    assert SentOnce(m, s, x);
    FanoutCovers(m, x.dst, x.content, y);
  }

  lemma DeliverTakes(m: Machine, s: System, s': System, x: Message)
    requires Inv(m, s) && Deliver(m, s, s', x)
    ensures |StillToCome(m, s')| + 1 <= |StillToCome(m, s)|
  {
    DeliveredIsSpent(m, s, s', x);
    forall y | CanCome(m, s', y) ensures CanCome(m, s, y) {
      SpentStaysSpent(m, s, s', x, y);
    }
    SubsetSizes(StillToCome(m, s'), StillToCome(m, s) - {x});
  }

  // ---------- Whole runs ----------

  datatype Act = Announced(p: int, value: real) | Delivered(x: Message)

  ghost predicate Does(m: Machine, s: System, s': System, act: Act) {
    && WellFormed(m, s)
    && match act
       case Announced(p, value) => Announce(m, s, s', p, value)
       case Delivered(x) => Deliver(m, s, s', x)
  }

  /** `acts[i]` leads from `run[i]` to `run[i + 1]`. */
  ghost predicate Acted(m: Machine, run: seq<System>, acts: seq<Act>) {
    && |run| == |acts| + 1 && Init(m, run[0])
    && forall i, j | 0 <= i && j == i + 1 && j < |run| :: Does(m, run[i], run[j], acts[i])
  }

  function Deliveries(acts: seq<Act>): nat {
    if acts == [] then 0 else Deliveries(acts[..|acts| - 1]) + if acts[|acts| - 1].Delivered? then 1 else 0
  }

  lemma StartIsEmpty(m: Machine, s: System)
    requires Init(m, s)
    ensures Inv(m, s) && StillToCome(m, s) == {}
  {
    NoWorseIsTotalOrder(m.sense, m.initial, m.initial, m.initial);
  }

  ghost predicate Costs(m: Machine, s: System, s': System, act: Act)
    requires m.Ok()
  {
    |StillToCome(m, s')| + (if act.Delivered? then 1 else 0)
    <= |StillToCome(m, s)| + if act.Delivered? then 0 else m.size - 1
  }

  lemma OneMoreAct(m: Machine, s: System, s': System, act: Act)
    requires Inv(m, s) && Does(m, s, s', act)
    ensures Inv(m, s') && Costs(m, s, s', act)
  {
    match act {
      case Announced(p, value) =>
        AnnounceAdds(m, s, s', p, value);
        NextKeepsInv(m, s, s');
      case Delivered(x) =>
        DeliverTakes(m, s, s', x);
        NextKeepsInv(m, s, s');
    }
  }

  /** What has been delivered and can still come is paid for by the announcements made. */
  ghost predicate Paid(width: int, delivered: int, left: int, acts: int) {
    delivered + left <= width * (acts - delivered)
  }

  lemma PaidByOneMore(width: int, delivered: int, left: int, acts: int, left': int, delivery: bool)
    requires Paid(width, delivered, left, acts)
    requires left' + (if delivery then 1 else 0) <= left + if delivery then 0 else width
    ensures Paid(width, delivered + if delivery then 1 else 0, left', acts + 1)
  {
    assert width * (acts + 1 - delivered) == width * (acts - delivered) + width;
  }

  ghost predicate Bounded(m: Machine, s: System, acts: seq<Act>)
    requires m.Ok()
  {
    Paid(m.size - 1, Deliveries(acts), |StillToCome(m, s)|, |acts|)
  }

  lemma LastAct(m: Machine, run: seq<System>, acts: seq<Act>)
    requires Acted(m, run, acts) && acts != []
    ensures Acted(m, run[..|acts|], acts[..|acts| - 1])
    ensures Does(m, run[|acts| - 1], run[|acts|], acts[|acts| - 1])
  {
    var n := |acts| - 1;
    var i, j := n, n + 1;
    assert Does(m, run[i], run[j], acts[i]);
  }

  lemma OneMoreBounded(m: Machine, s: System, s': System, acts: seq<Act>)
    requires m.Ok() && acts != [] && Bounded(m, s, acts[..|acts| - 1]) && Costs(m, s, s', acts[|acts| - 1])
    ensures Bounded(m, s', acts)
  {
    PaidByOneMore(m.size - 1, Deliveries(acts[..|acts| - 1]), |StillToCome(m, s)|, |acts| - 1,
                  |StillToCome(m, s')|, acts[|acts| - 1].Delivered?);
  }

  lemma {:induction false} ActsBounded(m: Machine, run: seq<System>, acts: seq<Act>)
    requires Acted(m, run, acts)
    ensures Inv(m, run[|acts|]) && Bounded(m, run[|acts|], acts)
  {
    if acts == [] {
      StartIsEmpty(m, run[0]);
    } else {
      LastAct(m, run, acts);
      ActsBounded(m, run[..|acts|], acts[..|acts| - 1]);
      OneMoreAct(m, run[|acts| - 1], run[|acts|], acts[|acts| - 1]);
      OneMoreBounded(m, run[|acts| - 1], run[|acts|], acts);
    }
  }

  lemma AllPaid(m: Machine, s: System, acts: seq<Act>)
    requires m.Ok() && Bounded(m, s, acts)
    ensures Deliveries(acts) <= (m.size - 1) * (|acts| - Deliveries(acts))
  {
    var width, delivered, n := m.size - 1, Deliveries(acts), |acts|;
    assert Paid(width, delivered, |StillToCome(m, s)|, n);
  }

  /** In every run, whatever the order: at most one delivery for each announcement and each other processor. */
  lemma DeliveriesAreBounded(m: Machine, run: seq<System>, acts: seq<Act>)
    requires Acted(m, run, acts)
    ensures Deliveries(acts) <= (m.size - 1) * (|acts| - Deliveries(acts))
  {
    ActsBounded(m, run, acts);
    AllPaid(m, run[|acts|], acts);
  }

  // ---------- Agreement is reached ----------

  ghost predicate Reached(m: Machine, run: seq<System>, s: System) {
    IsRun(m, run) && run[|run| - 1] == s
  }

  lemma DeliverNext(m: Machine, run: seq<System>, s: System) returns (s': System)
    requires Reached(m, run, s) && s.transit != multiset{}
    ensures Reached(m, run + [s'], s') && |StillToCome(m, s')| < |StillToCome(m, s)| && s'.known == s.known
  {
    InvHolds(m, run, |run| - 1);
    var x :| x in s.transit;
    s' := System(s.held[x.dst := Received(m, s.held[x.dst], x.content)],
                 s.transit - multiset{x} + multiset(Replies(m, x.dst, s.held[x.dst], x.content)), s.known,
                 if Better(m.sense, x.content, s.held[x.dst]) then s.accepted + {(x.content, x.dst)} else s.accepted);
    assert Deliver(m, s, s', x);
    DeliverTakes(m, s, s', x);
    ExtendRun(m, run, s, s');
  }

  lemma ExtendRun(m: Machine, run: seq<System>, s: System, s': System)
    requires Reached(m, run, s) && Next(m, s, s')
    ensures Reached(m, run + [s'], s')
  {
    var longer := run + [s'];
    forall i, j | 0 <= i && j == i + 1 && j < |longer| ensures Next(m, longer[i], longer[j]) {
      if j < |run| {
        assert Next(m, run[i], run[j]);
      }
    }
  }

  ghost predicate Ends(m: Machine, run: seq<System>, longer: seq<System>, known: set<Pair>) {
    && IsRun(m, longer) && run <= longer
    && longer[|longer| - 1].transit == multiset{} && longer[|longer| - 1].known == known
  }

  lemma EndsLater(m: Machine, run: seq<System>, s: System, longer: seq<System>, known: set<Pair>)
    requires Ends(m, run + [s], longer, known)
    ensures Ends(m, run, longer, known)
  {
    assert run <= run + [s];
  }

  lemma {:induction false} GoesOn(m: Machine, run: seq<System>, s: System, left: nat) returns (longer: seq<System>)
    requires Reached(m, run, s) && left == |StillToCome(m, s)|
    ensures Ends(m, run, longer, s.known)
    decreases left
  {
    if s.transit == multiset{} {
      longer := run;
    } else {
      var s' := DeliverNext(m, run, s);
      longer := GoesOn(m, run + [s'], s', |StillToCome(m, s')|);
      EndsLater(m, run, s', longer, s.known);
    }
  }

  /** Every run can go on, by deliveries alone, to where all processors hold the best pair announced. */
  lemma AgreementIsReached(m: Machine, run: seq<System>) returns (longer: seq<System>)
    requires IsRun(m, run)
    ensures IsRun(m, longer) && run <= longer
    ensures var s := longer[|longer| - 1];
            && s.known == run[|run| - 1].known && |s.held| == m.size
            && (forall p, q | m.Rank(p) && m.Rank(q) :: s.held[p] == s.held[q])
            && (forall p | m.Rank(p) :: s.held[p] in s.known && BestOf(m.sense, s.held[p], s.known))
  {
    var last := run[|run| - 1];
    longer := GoesOn(m, run, last, |StillToCome(m, last)|);
    var s := longer[|longer| - 1];
    IncumbentAgreement(m, longer, |longer| - 1, 0, 0);
    forall p, q | m.Rank(p) && m.Rank(q) ensures s.held[p] == s.held[q] {
      IncumbentAgreement(m, longer, |longer| - 1, p, q);
    }
    forall p | m.Rank(p) ensures s.held[p] in s.known && BestOf(m.sense, s.held[p], s.known) {
      IncumbentAgreement(m, longer, |longer| - 1, p, p);
    }
  }
}
