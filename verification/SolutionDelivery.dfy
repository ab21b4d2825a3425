/** Solutions are delivered: without new offers only so many messages can be handled, and until they all have been,
    some message can be. */
module SolutionDelivery {
  import opened Hypercube
  import opened Options
  import opened SolutionRouting
  import opened Sums

  // ---------- Sums over the solutions known ----------

  ghost function Pick(keys: set<PSol>): (p: PSol)
    requires keys != {}
    ensures p in keys
  {
    var p :| p in keys;
    p
  }

  ghost function SetSum(keys: set<PSol>, f: PSol -> nat): nat {
    if keys == {} then 0 else f(Pick(keys)) + SetSum(keys - {Pick(keys)}, f)
  }

  lemma {:induction false} SetSumTake(keys: set<PSol>, f: PSol -> nat, p: PSol)
    requires p in keys
    ensures SetSum(keys, f) == f(p) + SetSum(keys - {p}, f)
    decreases |keys|
  {
    var q := Pick(keys);
    if p != q {
      SetSumTake(keys - {q}, f, p);
      SetSumTake(keys - {p}, f, q);
      assert keys - {q} - {p} == keys - {p} - {q};
    }
  }

  lemma {:induction false} SetSumLe(keys: set<PSol>, f: PSol -> nat, g: PSol -> nat)
    requires forall p | p in keys :: f(p) <= g(p)
    ensures SetSum(keys, f) <= SetSum(keys, g)
    decreases |keys|
  {
    if keys != {} {
      SetSumLe(keys - {Pick(keys)}, f, g);
    }
  }

  lemma SetSumDrop(keys: set<PSol>, f: PSol -> nat, g: PSol -> nat, p: PSol, d: nat)
    requires p in keys && f(p) + d <= g(p) && forall q | q in keys :: f(q) <= g(q)
    ensures SetSum(keys, f) + d <= SetSum(keys, g)
  {
    SetSumTake(keys, f, p);
    SetSumTake(keys, g, p);
    SetSumLe(keys - {p}, f, g);
  }

  // ---------- What is left to do ----------

  /** A solution still has to be received once, and acknowledged once, for every link to its owner. */
  ghost function Way(place: map<PSol, Place>): PSol -> nat {
    (p: PSol) => if p in place && place[p].On? && place[p].rank >= 0 then 2 * Distance(place[p].rank, p.owner) else 0
  }

  function AcksOf(links: seq<Link>): nat {
    if links == [] then 0 else AcksOf(links[..|links| - 1]) + links[|links| - 1].acks
  }

  lemma {:induction false} AcksUpdate(links: seq<Link>, b: nat, l: Link)
    requires b < |links|
    ensures AcksOf(links[b := l]) == AcksOf(links) - links[b].acks + l.acks
  {
    var n := |links| - 1;
    if b == n {
      assert links[b := l][..n] == links[..n];
    } else {
      AcksUpdate(links[..n], b, l);
      assert links[b := l][..n] == links[..n][b := l];
    }
  }

  ghost function AcksAt(nodes: seq<Node>): int -> int { r => if 0 <= r < |nodes| then AcksOf(nodes[r].links) else 0 }

  ghost function Acks(nodes: seq<Node>): nat {
    SumZero(|nodes|, AcksAt(nodes), 0);
    Sum(|nodes|, AcksAt(nodes))
  }

  lemma AcksChange(nodes: seq<Node>, r: nat, n: Node)
    requires r < |nodes|
    ensures Acks(nodes[r := n]) == Acks(nodes) - AcksOf(nodes[r].links) + AcksOf(n.links)
  {
    SumBump(|nodes|, AcksAt(nodes), AcksAt(nodes[r := n]), r, AcksOf(n.links) - AcksOf(nodes[r].links));
  }

  lemma LinkAcks(nodes: seq<Node>, r: nat, b: nat, l: Link)
    requires r < |nodes| && b < |nodes[r].links|
    ensures Acks(nodes[r := WithLink(nodes[r], b, l)]) == Acks(nodes) - nodes[r].links[b].acks + l.acks
  {
    AcksChange(nodes, r, WithLink(nodes[r], b, l));
    AcksUpdate(nodes[r].links, b, l);
  }

  /** Messages still to be handled, at most. */
  ghost function LeftToDo(s: Sys): nat { SetSum(s.place.Keys, Way(s.place)) + Acks(s.nodes) }

  // ---------- Every message handled leaves less ----------

  lemma DiscardShortens(place: map<PSol, Place>, gone: multiset<PSol>)
    ensures Discard(place, gone).Keys == place.Keys
    ensures SetSum(place.Keys, Way(Discard(place, gone))) <= SetSum(place.Keys, Way(place))
  {
    SetSumLe(place.Keys, Way(Discard(place, gone)), Way(place));
  }

  lemma AckLeavesLess(size: nat, s: Sys, s': Sys, r: nat, b: nat, gone: multiset<PSol>, fathom: PSol -> bool)
    requires Sized(size, s) && Acknowledged(size, s, s', r, b, gone, fathom)
    ensures LeftToDo(s') < LeftToDo(s)
  {
    LinkAcks(s.nodes, r, b, s'.nodes[r].links[b]);
    DiscardShortens(s.place, gone);
  }

  lemma PruningLeavesNoMore(size: nat, s: Sys, s': Sys, r: nat, b: nat, gone: multiset<PSol>, fathom: PSol -> bool)
    requires Sized(size, s) && Prunes(size, s, s', r, b, gone, fathom)
    ensures LeftToDo(s') <= LeftToDo(s)
  {
    LinkAcks(s.nodes, r, b, s'.nodes[r].links[b]);
    DiscardShortens(s.place, gone);
  }

  lemma RoutingAddsNoAcks(nodes: seq<Node>, at: nat, p: PSol, c: nat)
    requires at < |nodes| && c < |nodes[at].links|
    ensures Acks(nodes[at := RoutedOn(nodes[at], p, c)]) == Acks(nodes)
  {
    RoutedIsWithLink(nodes[at], p, c);
    LinkAcks(nodes, at, c, TakesIn(nodes[at].links[c], p));
  }

  /** The solution that arrives is known, and was one link further from its owner. */
  lemma OnItsWay(size: nat, s: Sys, r: nat, b: nat)
    requires Inv(size, s) && Cell(size, r, b) && s.nodes[r].links[b].chan != []
    ensures var p := s.nodes[r].links[b].chan[0];
            && IsOn(s.place, p, r, b) && Distance(Flip(r, b), p.owner) == Distance(r, p.owner) - 1
  {
    assert CellOk(size, s, r, b);
    var l := s.nodes[r].links[b];
    var p := l.chan[0];
    assert p in Held(l);
    assert Held(l)[p] == if IsOn(s.place, p, r, b) then 1 else 0;
    XorSelf(r, p.owner);
    FlipDistance(r, p.owner, b);
  }

  lemma WayShortens(place: map<PSol, Place>, p: PSol, r: nat, b: int, there: Place)
    requires IsOn(place, p, r, b)
    requires Distance(r, p.owner) >= 1
    requires there.On? && there.rank >= 0 ==> Distance(there.rank, p.owner) == Distance(r, p.owner) - 1
    ensures place[p := there].Keys == place.Keys
    ensures SetSum(place.Keys, Way(place[p := there])) + 2 <= SetSum(place.Keys, Way(place))
  {
    assert place[p := there].Keys == place.Keys;
    SetSumDrop(place.Keys, Way(place[p := there]), Way(place), p, 2);
  }

  lemma ArrivalLeavesLess(size: nat, s: Sys, s': Sys, r: nat, b: nat, c: nat)
    requires Inv(size, s) && Arrives(size, s, s', r, b, c)
    ensures LeftToDo(s') < LeftToDo(s)
  {
    OnItsWay(size, s, r, b);
    var l := s.nodes[r].links[b];
    var p, at := l.chan[0], Flip(r, b);
    var nodes := s.nodes[r := WithLink(s.nodes[r], b, l.(chan := l.chan[1..], acks := l.acks + 1))];
    LinkAcks(s.nodes, r, b, l.(chan := l.chan[1..], acks := l.acks + 1));
    if p.owner == at {
      WayShortens(s.place, p, r, b, AtOwner);
    } else {
      WayShortens(s.place, p, r, b, On(at, c));
      RoutingAddsNoAcks(nodes, at, p, c);
    }
  }

  lemma HandlingLeavesLess(size: nat, s: Sys, s': Sys, r: nat, b: nat, c: nat, e: Event)
    requires Inv(size, s) && Next(size, s, s', r, b, c, e) && !e.Offer?
    ensures LeftToDo(s') + (if e.Pruning? then 0 else 1) <= LeftToDo(s)
  {
    match e {
      case Arrival => ArrivalLeavesLess(size, s, s', r, b, c);
      case Ack(gone, fathom) => AckLeavesLess(size, s, s', r, b, gone, fathom);
      case Pruning(gone, fathom) => PruningLeavesNoMore(size, s, s', r, b, gone, fathom);
    }
  }

  // ---------- Runs without new offers ----------

  ghost predicate Step(size: nat, s: Sys, s': Sys, e: Event) {
    Sized(size, s) && !e.Offer? && exists r, b, c :: Next(size, s, s', r, b, c, e)
  }

  /** From `path[0]` on, `events[i]` leads from `path[i]` to `path[i + 1]`, and nothing new is offered. */
  ghost predicate Drains(size: nat, path: seq<Sys>, events: seq<Event>) {
    && |path| == |events| + 1
    && forall i, j | 0 <= i && j == i + 1 && j < |path| :: Step(size, path[i], path[j], events[i])
  }

  function Handled(events: seq<Event>): nat {
    if events == [] then 0 else Handled(events[..|events| - 1]) + if events[|events| - 1].Pruning? then 0 else 1
  }

  /** However the messages are interleaved with pruning, no more than that many are ever handled. */
  lemma {:induction false} DeliveryIsFinite(size: nat, path: seq<Sys>, events: seq<Event>)
    requires Drains(size, path, events) && Inv(size, path[0])
    ensures Handled(events) + LeftToDo(path[|events|]) <= LeftToDo(path[0]) && Inv(size, path[|events|])
  {
    if events != [] {
      var n := |events| - 1;
      assert Drains(size, path[..n + 1], events[..n]);
      DeliveryIsFinite(size, path[..n + 1], events[..n]);
      assert Step(size, path[n], path[n + 1], events[n]);
      var r, b, c :| Next(size, path[n], path[n + 1], r, b, c, events[n]);
      HandlingLeavesLess(size, path[n], path[n + 1], r, b, c, events[n]);
      NextKeepsInv(size, path[n], path[n + 1], r, b, c, events[n]);
    }
  }

  // ---------- Something can always be handled ----------

  ghost function NeverFathom(): PSol -> bool { (p: PSol) => false }

  lemma {:induction false} BestQueued(q: seq<PSol>) returns (i: nat)
    requires q != []
    ensures i < |q| && forall k | 0 <= k < |q| :: q[i].value <= q[k].value
  {
    i := 0;
    if |q| > 1 {
      var j := BestQueued(q[1..]);
      assert forall k | 1 <= k < |q| :: q[k] == q[1..][k - 1];
      i := if q[0].value <= q[j + 1].value then 0 else j + 1;
    }
  }

  lemma AckCanBeHandled(size: nat, s: Sys, r: nat, b: nat) returns (s': Sys)
    requires Sized(size, s) && Cell(size, r, b) && s.nodes[r].links[b].acks > 0
    ensures Acknowledged(size, s, s', r, b, multiset{}, NeverFathom())
  {
    var l := s.nodes[r].links[b];
    var l' := l.(acks := l.acks - 1, justSent := None);
    if l.queue != [] {
      var i := BestQueued(l.queue);
      var rest := l.queue[..i] + l.queue[i + 1..];
      l' := Send(l.(acks := l.acks - 1, queue := rest), l.queue[i]);
      assert l.queue == l.queue[..i] + [l.queue[i]] + l.queue[i + 1..];
      assert forall q | q in rest :: q in l.queue;
    }
    s' := Sys(s.nodes[r := WithLink(s.nodes[r], b, l')], Discard(s.place, multiset{}));
  }

  ghost predicate Reached(size: nat, run: seq<Sys>, s: Sys) {
    IsRun(size, run) && run[|run| - 1] == s
  }

  lemma ExtendRun(size: nat, run: seq<Sys>, s: Sys, s': Sys)
    requires Reached(size, run, s) && Moves(size, s, s') && Sized(size, s')
    ensures Reached(size, run + [s'], s')
  {
    var longer := run + [s'];
    forall i, j | 0 <= i && j == i + 1 && j < |longer| ensures Moves(size, longer[i], longer[j]) {
      if j < |run| {
        RunMoves(size, run, j);
      }
    }
  }

  /** Until nothing is in transit some message can be handled. */
  lemma SomethingArrives(size: nat, run: seq<Sys>, s: Sys) returns (s': Sys)
    requires Reached(size, run, s) && !Quiet(size, s)
    ensures Reached(size, run + [s'], s') && LeftToDo(s') < LeftToDo(s)
  {
    InvHolds(size, run, |run| - 1);
    var r, b :| Cell(size, r, b) && (s.nodes[r].links[b].chan != [] || s.nodes[r].links[b].acks != 0);
    if s.nodes[r].links[b].chan != [] {
      var c;
      s', c := NeverStranded(size, run, |run| - 1, r, b);
      assert Next(size, s, s', r, b, c, Arrival);
      ArrivalLeavesLess(size, s, s', r, b, c);
      NextKeepsInv(size, s, s', r, b, c, Arrival);
    } else {
      s' := AckCanBeHandled(size, s, r, b);
      assert Next(size, s, s', r, b, 0, Ack(multiset{}, NeverFathom()));
      AckLeavesLess(size, s, s', r, b, multiset{}, NeverFathom());
    }
    assert Moves(size, s, s');
    ExtendRun(size, run, s, s');
  }

  ghost predicate Ends(size: nat, run: seq<Sys>, longer: seq<Sys>) {
    IsRun(size, longer) && run <= longer && Quiet(size, longer[|longer| - 1])
  }

  lemma EndsLater(size: nat, run: seq<Sys>, s: Sys, longer: seq<Sys>)
    requires Ends(size, run + [s], longer)
    ensures Ends(size, run, longer)
  {
    assert run <= run + [s];
  }

  lemma {:induction false} GoesOn(size: nat, run: seq<Sys>, s: Sys, left: nat) returns (longer: seq<Sys>)
    requires Reached(size, run, s) && left == LeftToDo(s)
    ensures Ends(size, run, longer)
    decreases left
  {
    if Quiet(size, s) {
      longer := run;
    } else {
      var s' := SomethingArrives(size, run, s);
      longer := GoesOn(size, run + [s'], s', LeftToDo(s'));
      EndsLater(size, run, s', longer);
    }
  }

  /** Every run can go on, without new offers, to where every solution has reached its owner or has been fathomed. */
  lemma AllDelivered(size: nat, run: seq<Sys>) returns (longer: seq<Sys>)
    requires IsRun(size, run)
    ensures IsRun(size, longer) && run <= longer
    ensures var s := longer[|longer| - 1]; forall p | p in s.place :: s.place[p] == AtOwner || s.place[p] == Gone
  {
    longer := GoesOn(size, run, run[|run| - 1], LeftToDo(run[|run| - 1]));
    QuietMeansDelivered(size, longer, |longer| - 1);
  }
}
