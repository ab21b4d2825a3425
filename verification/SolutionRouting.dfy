/** Routing of solutions to their owners over hypercube links, with one solution under way per link, as in
    `pbEnumerate.cpp`. */
module SolutionRouting {
  import opened Options
  import opened Hypercube

  datatype PSol = PSol(owner: nat, value: real, id: int)

  /** One outgoing link of a processor: what waits, the solution not yet acknowledged, and what is in
      transit, solutions going out and acknowledgements coming back. */
  datatype Link = Link(queue: seq<PSol>, justSent: Option<PSol>, chan: seq<PSol>, acks: nat)

  datatype Node = Node(links: seq<Link>, queuedSolutions: int)

  const IDLE := Link([], None, [], 0)

  function Load(l: Link): nat { |l.queue| + if l.justSent.Some? then 1 else 0 }

  function Send(l: Link, p: PSol): Link { l.(justSent := Some(p), chan := l.chan + [p]) }

  /** The links on which `p` can get closer to its owner. */
  predicate Usable(size: nat, rank: nat, p: PSol, b: nat) {
    Bit(Xor(p.owner, rank), b) && Flip(rank, b) < size
  }

  predicate BestLink(size: nat, rank: nat, n: Node, p: PSol, b: nat) {
    && b < |n.links| && Usable(size, rank, p, b)
    && forall c: nat | c < |n.links| && Usable(size, rank, p, c) :: Load(n.links[b]) <= Load(n.links[c])
  }

  /** `p` is sent on link `b` if that is free, and queued otherwise. */
  function RoutedOn(n: Node, p: PSol, b: nat): Node
    requires b < |n.links|
  {
    if Load(n.links[b]) == 0 then n.(links := n.links[b := Send(n.links[b], p)])
    else Node(n.links[b := n.links[b].(queue := n.links[b].queue + [p])], n.queuedSolutions + 1)
  }

  ghost predicate Routed(size: nat, rank: nat, n: Node, p: PSol, n': Node) {
    exists b :: BestLink(size, rank, n, p, b) && n' == RoutedOn(n, p, b)
  }

  /** What an acknowledgement on a link leads to: `gone` could be fathomed; the next solution, if any, is on its way,
      and is the best one left that could not. */
  ghost predicate AckedLink(l: Link, l': Link, gone: multiset<PSol>, fathom: PSol -> bool) {
    && (forall p | p in gone :: fathom(p))
    && l'.acks == l.acks
    && if l'.justSent.None? then l'.queue == [] && l'.chan == l.chan && multiset(l.queue) == gone
       else !fathom(l'.justSent.value) && (forall q | q in l'.queue :: l'.justSent.value.value <= q.value)
            && l'.chan == l.chan + [l'.justSent.value]
            && multiset(l.queue) == multiset(l'.queue) + gone + multiset{l'.justSent.value}
  }

  /** Pruning the queue of a link. */
  ghost predicate PrunedLink(l: Link, l': Link, gone: multiset<PSol>, fathom: PSol -> bool) {
    && l' == l.(queue := l'.queue) && multiset(l.queue) == multiset(l'.queue) + gone
    && (forall p | p in gone :: fathom(p)) && (forall p | p in l'.queue :: !fathom(p))
  }

  // ---------- One processor ----------

  class Router {
    const size: nat
    const rank: nat
    var links: seq<Link>
    var queuedSolutions: int

    constructor (size: nat, rank: nat)
      requires rank < size
      ensures this.size == size && this.rank == rank
      ensures View() == Node(seq(BitWidth(size - 1), b => IDLE), 0)
    {
      this.size, this.rank, queuedSolutions := size, rank, 0;
      links := seq(BitWidth(size - 1), b => IDLE);
    }

    function View(): Node
      reads this
    {
      Node(links, queuedSolutions)
    }

    method SendPackedSolution(p: PSol, link: nat)
      requires link < |links|
      modifies this`links
      ensures links == old(links)[link := Send(old(links)[link], p)]
    {
      links := links[link := Send(links[link], p)];
    }

    /** Finds the least congested link toward the owner; there always is one. */
    method RoutePackedSolution(p: PSol)
      requires rank < size && p.owner < size && p.owner != rank && |links| == BitWidth(size - 1)
      modifies this
      ensures Routed(size, rank, old(View()), p, View())
    {
      var nProcessorBits := |links|;
      var bestLink: nat, bestLen: nat, b: nat, mask: nat := nProcessorBits, 0, 0, 1;
      while b < nProcessorBits
        invariant 0 <= b <= nProcessorBits && mask == Pow2(b)
        invariant bestLink < nProcessorBits ==> bestLink < b && Usable(size, rank, p, bestLink)
                                                && bestLen == Load(links[bestLink])
        invariant bestLink >= nProcessorBits ==> bestLink == nProcessorBits && forall c: nat | c < b :: !Usable(size, rank, p, c)
        invariant forall c: nat | c < b && Usable(size, rank, p, c) ::
                    bestLink < nProcessorBits && bestLen <= Load(links[c])
      {
        if Xor(rank, mask) < size && Bit(Xor(p.owner, rank), b) {
          var qlen := |links[b].queue|;
          if links[b].justSent.Some? {
            qlen := qlen + 1;
          }
          if bestLink == nProcessorBits || qlen < bestLen {
            bestLink, bestLen := b, qlen;
          }
        }
        mask := 2 * mask;
        b := b + 1;
      }
      SomeLink(size, rank, p);
      assert BestLink(size, rank, View(), p, bestLink);
      if bestLen == 0 {
        SendPackedSolution(p, bestLink);
      } else {
        links := links[bestLink := links[bestLink].(queue := links[bestLink].queue + [p])];
        queuedSolutions := queuedSolutions + 1;
      }
    }

    /** Takes the best queued solution off a link. */
    method PopQueue(link: nat) returns (p: PSol)
      requires link < |links| && links[link].queue != []
      modifies this
      ensures |links| == |old(links)| && links == old(links)[link := old(links)[link].(queue := links[link].queue)]
      ensures multiset(old(links)[link].queue) == multiset(links[link].queue) + multiset{p}
      ensures forall q | q in old(links)[link].queue :: p.value <= q.value
      ensures forall q | q in links[link].queue :: p.value <= q.value
      ensures |links[link].queue| == |old(links)[link].queue| - 1 && queuedSolutions == old(queuedSolutions) - 1
    {
      var queue := links[link].queue;
      var i, best := 1, 0;
      while i < |queue|
        invariant 1 <= i <= |queue| && 0 <= best < |queue|
        invariant forall k | 0 <= k < i :: queue[best].value <= queue[k].value
      {
        if queue[i].value < queue[best].value {
          best := i;
        }
        i := i + 1;
      }
      p := queue[best];
      assert queue == queue[..best] + [p] + queue[best + 1..];
      links := links[link := links[link].(queue := queue[..best] + queue[best + 1..])];
      queuedSolutions := queuedSolutions - 1;
    }

    /** Takes solutions off the queue until one turns up that cannot be fathomed. */
    method NextToSend(link: nat, fathom: PSol -> bool) returns (next: Option<PSol>, ghost gone: multiset<PSol>)
      requires link < |links|
      modifies this
      ensures |links| == |old(links)| && links == old(links)[link := old(links)[link].(queue := links[link].queue)]
      ensures forall p | p in gone :: fathom(p)
      ensures next.None? ==> links[link].queue == [] && multiset(old(links)[link].queue) == gone
      ensures next.Some? ==>
                && multiset(old(links)[link].queue) == multiset(links[link].queue) + gone + multiset{next.value}
                && !fathom(next.value) && forall q | q in links[link].queue :: next.value.value <= q.value
      ensures queuedSolutions == old(queuedSolutions) - |old(links)[link].queue| + |links[link].queue|
    {
      gone := multiset{};
      while links[link].queue != []
        invariant |links| == |old(links)| && links == old(links)[link := old(links)[link].(queue := links[link].queue)]
        invariant multiset(old(links)[link].queue) == multiset(links[link].queue) + gone
        invariant forall p | p in gone :: fathom(p)
        invariant queuedSolutions == old(queuedSolutions) - |old(links)[link].queue| + |links[link].queue|
        decreases |links[link].queue|
      {
        var psol := PopQueue(link);
        if !fathom(psol) {
          return Some(psol), gone;
        }
        gone := gone + multiset{psol};
      }
      next := None;
    }

    /** An acknowledgement from `sender` has come in. */
    method SolAckAction(sender: nat, fathom: PSol -> bool) returns (ghost gone: multiset<PSol>)
      requires exists b: nat :: b < |links| && sender == Flip(rank, b)
      modifies this
      ensures var b := BitWidth(Xor(sender, rank)) - 1;
              && 0 <= b < |links| == |old(links)| && sender == Flip(rank, b)
              && links == old(links)[b := links[b]] && AckedLink(old(links)[b], links[b], gone, fathom)
              && queuedSolutions == old(queuedSolutions) - |old(links)[b].queue| + |links[b].queue|
    {
      ghost var b: nat :| b < |links| && sender == Flip(rank, b);
      AckLink(rank, b);
      var link := BitWidth(Xor(sender, rank)) - 1;
      links := links[link := links[link].(justSent := None)];
      var next;
      next, gone := NextToSend(link, fathom);
      if next.Some? {
        SendPackedSolution(next.value, link);
      }
    }
  }

  lemma SomeLink(size: nat, rank: nat, p: PSol)
    requires rank < size && p.owner < size && p.owner != rank
    ensures exists b: nat :: b < BitWidth(size - 1) && Usable(size, rank, p, b)
  {
    var b := UsableLink(rank, p.owner, size);
    XorSelf(rank, p.owner);
    assert Usable(size, rank, p, b);
  }

  // ---------- All processors ----------

  /** Where a solution is; a history of the whole system. */
  datatype Place = AtOwner | Gone | On(rank: int, link: int)

  datatype Sys = Sys(nodes: seq<Node>, place: map<PSol, Place>)

  function Bits(size: nat): nat
    requires size > 0
  {
    BitWidth(size - 1)
  }

  ghost predicate Sized(size: nat, s: Sys) {
    && size > 0 && |s.nodes| == size
    && forall r | 0 <= r < size :: |s.nodes[r].links| == Bits(size)
  }

  ghost predicate Cell(size: nat, r: int, b: int)
    requires size > 0
  {
    0 <= r < size && 0 <= b < Bits(size)
  }

  function TotalQueue(links: seq<Link>): nat {
    if links == [] then 0 else TotalQueue(links[..|links| - 1]) + |links[|links| - 1].queue|
  }

  ghost function Held(l: Link): multiset<PSol> { multiset(l.queue) + multiset(l.chan) }

  /** One message at most is in transit on a link, and solutions wait only while there is one. */
  ghost predicate LinkOk(size: nat, r: nat, b: nat, l: Link) {
    && |l.chan| + l.acks <= 1
    && (l.justSent.Some? <==> |l.chan| + l.acks == 1)
    && (l.chan != [] ==> l.justSent == Some(l.chan[0]))
    && (l.queue != [] ==> l.justSent.Some?)
    && (forall p | p in Held(l) :: p.owner < size && Usable(size, r, p, b))
  }

  predicate IsOn(place: map<PSol, Place>, p: PSol, r: int, b: int) { p in place && place[p] == On(r, b) }

  /** The link holds exactly the solutions that are said to be there, each once. */
  ghost predicate PlaceOk(place: map<PSol, Place>, r: int, b: int, l: Link) {
    forall p :: Held(l)[p] == if IsOn(place, p, r, b) then 1 else 0
  }

  /** Nothing has moved to or from any other link. */
  ghost predicate SameElsewhere(place: map<PSol, Place>, place': map<PSol, Place>, r: int, b: int) {
    forall p, q, c | q != r || c != b :: IsOn(place', p, q, c) <==> IsOn(place, p, q, c)
  }

  ghost predicate CellOk(size: nat, s: Sys, r: int, b: int)
    requires Sized(size, s) && Cell(size, r, b)
  {
    var l := s.nodes[r].links[b];
    LinkOk(size, r, b, l) && PlaceOk(s.place, r, b, l)
  }

  ghost predicate Inv(size: nat, s: Sys) {
    && Sized(size, s)
    && (forall r, b | Cell(size, r, b) :: CellOk(size, s, r, b))
    && PlacesExist(size, s.place)
    && (forall r | 0 <= r < size :: s.nodes[r].queuedSolutions == TotalQueue(s.nodes[r].links))
  }

  ghost predicate Start(size: nat, s: Sys) {
    Sized(size, s) && s.place == map[] && forall r | 0 <= r < size :: s.nodes[r] == Node(seq(Bits(size), b => IDLE), 0)
  }

  function WithLink(n: Node, b: nat, l: Link): Node
    requires b < |n.links|
  {
    Node(n.links[b := l], n.queuedSolutions - |n.links[b].queue| + |l.queue|)
  }

  /** A new solution turns up at `r`. */
  ghost predicate Offers(size: nat, s: Sys, s': Sys, r: nat, p: PSol, b: nat)
    requires Sized(size, s)
  {
    && r < size && p.owner < size && p !in s.place
    && if p.owner == r then s' == Sys(s.nodes, s.place[p := AtOwner])
       else BestLink(size, r, s.nodes[r], p, b)
            && s' == Sys(s.nodes[r := RoutedOn(s.nodes[r], p, b)], s.place[p := On(r, b)])
  }

  /** The solution in transit on link `b` of `r` arrives and is acknowledged; unless it has reached its
      owner it is routed on. */
  ghost predicate Arrives(size: nat, s: Sys, s': Sys, r: nat, b: nat, c: nat)
    requires Sized(size, s)
  {
    && Cell(size, r, b) && s.nodes[r].links[b].chan != [] && Flip(r, b) < size
    && var l := s.nodes[r].links[b];
       var p, at := l.chan[0], Flip(r, b);
       var nodes := s.nodes[r := WithLink(s.nodes[r], b, l.(chan := l.chan[1..], acks := l.acks + 1))];
       if p.owner == at then s' == Sys(nodes, s.place[p := AtOwner])
       else BestLink(size, at, nodes[at], p, c)
            && s' == Sys(nodes[at := RoutedOn(nodes[at], p, c)], s.place[p := On(at, c)])
  }

  function Discard(place: map<PSol, Place>, gone: multiset<PSol>): map<PSol, Place> {
    map p | p in place :: if p in gone then Gone else place[p]
  }

  /** An acknowledgement reaches `r` on link `b`. */
  ghost predicate Acknowledged(size: nat, s: Sys, s': Sys, r: nat, b: nat, gone: multiset<PSol>, fathom: PSol -> bool)
    requires Sized(size, s)
  {
    && Cell(size, r, b) && s.nodes[r].links[b].acks > 0 && Sized(size, s')
    && var l, l' := s.nodes[r].links[b], s'.nodes[r].links[b];
       && AckedLink(l.(acks := l.acks - 1), l', gone, fathom)
       && s' == Sys(s.nodes[r := WithLink(s.nodes[r], b, l')], Discard(s.place, gone))
  }

  ghost predicate Prunes(size: nat, s: Sys, s': Sys, r: nat, b: nat, gone: multiset<PSol>, fathom: PSol -> bool)
    requires Sized(size, s)
  {
    && Cell(size, r, b) && Sized(size, s')
    && var l, l' := s.nodes[r].links[b], s'.nodes[r].links[b];
       && PrunedLink(l, l', gone, fathom)
       && s' == Sys(s.nodes[r := WithLink(s.nodes[r], b, l')], Discard(s.place, gone))
  }

  datatype Event = Offer(p: PSol) | Arrival | Ack(gone: multiset<PSol>, fathom: PSol -> bool)
                 | Pruning(gone: multiset<PSol>, fathom: PSol -> bool)

  ghost predicate Next(size: nat, s: Sys, s': Sys, r: nat, b: nat, c: nat, e: Event)
    requires Sized(size, s)
  {
    match e
    case Offer(p) => Offers(size, s, s', r, p, b)
    case Arrival => Arrives(size, s, s', r, b, c)
    case Ack(gone, fathom) => Acknowledged(size, s, s', r, b, gone, fathom)
    case Pruning(gone, fathom) => Prunes(size, s, s', r, b, gone, fathom)
  }

  // ---------- Queue lengths ----------

  lemma {:induction false} TotalQueueUpdate(links: seq<Link>, b: nat, l: Link)
    requires b < |links|
    ensures TotalQueue(links[b := l]) == TotalQueue(links) - |links[b].queue| + |l.queue|
  {
    var n := |links| - 1;
    if b == n {
      assert links[b := l][..n] == links[..n];
    } else {
      TotalQueueUpdate(links[..n], b, l);
      assert links[b := l][..n] == links[..n][b := l];
    }
  }

  lemma WithLinkCounts(n: Node, b: nat, l: Link)
    requires b < |n.links| && n.queuedSolutions == TotalQueue(n.links)
    ensures WithLink(n, b, l).queuedSolutions == TotalQueue(WithLink(n, b, l).links)
  {
    TotalQueueUpdate(n.links, b, l);
  }

  lemma {:induction false} EmptyQueues(n: nat)
    ensures TotalQueue(seq(n, b => IDLE)) == 0
  {
    if n > 0 {
      EmptyQueues(n - 1);
      assert seq(n, b => IDLE)[..n - 1] == seq(n - 1, b => IDLE);
    }
  }

  /** Routing is a change of one link, which takes in `p`. */
  function TakesIn(l: Link, p: PSol): Link {
    if Load(l) == 0 then Send(l, p) else l.(queue := l.queue + [p])
  }

  lemma RoutedIsWithLink(n: Node, p: PSol, b: nat)
    requires b < |n.links|
    ensures RoutedOn(n, p, b) == WithLink(n, b, TakesIn(n.links[b], p))
  {
  }

  // ---------- What every step keeps ----------

  lemma OtherCellKept(size: nat, s: Sys, s': Sys, r: nat, b: nat, l: Link, q: int, c: int)
    requires Sized(size, s) && Sized(size, s') && Cell(size, r, b) && Cell(size, q, c) && (q != r || c != b)
    requires s'.nodes == s.nodes[r := WithLink(s.nodes[r], b, l)] && SameElsewhere(s.place, s'.place, r, b)
    requires CellOk(size, s, q, c)
    ensures CellOk(size, s', q, c)
  {
    assert s'.nodes[q].links[c] == s.nodes[q].links[c];
    assert forall p :: IsOn(s'.place, p, q, c) <==> IsOn(s.place, p, q, c);
  }

  ghost predicate PlacesExist(size: nat, place: map<PSol, Place>)
    requires size > 0
  {
    forall p | p in place && place[p].On? :: Cell(size, place[p].rank, place[p].link)
  }

  /** A step that changes one link of `r` and moves solutions from or to that link only. */
  lemma OneLinkChanged(size: nat, s: Sys, s': Sys, r: nat, b: nat, l: Link)
    requires Inv(size, s) && Cell(size, r, b) && s'.nodes == s.nodes[r := WithLink(s.nodes[r], b, l)]
    requires LinkOk(size, r, b, l) && PlaceOk(s'.place, r, b, l)
    requires SameElsewhere(s.place, s'.place, r, b) && PlacesExist(size, s'.place)
    ensures Inv(size, s')
  {
    WithLinkCounts(s.nodes[r], b, l);
    forall q, c | Cell(size, q, c) ensures CellOk(size, s', q, c) {
      assert CellOk(size, s, q, c);
      if q != r || c != b {
        OtherCellKept(size, s, s', r, b, l, q, c);
      }
    }
  }

  lemma TakingInHolds(l: Link, p: PSol)
    requires l.justSent.None? && l.queue == [] ==> l.chan == []
    ensures Held(TakesIn(l, p)) == Held(l) + multiset{p}
  {
  }

  lemma TakingInKeepsLink(size: nat, r: nat, b: nat, l: Link, p: PSol)
    requires LinkOk(size, r, b, l) && p.owner < size && Usable(size, r, p, b)
    ensures LinkOk(size, r, b, TakesIn(l, p)) && Held(TakesIn(l, p)) == Held(l) + multiset{p}
  {
    TakingInHolds(l, p);
    var l' := TakesIn(l, p);
    forall q | q in Held(l') ensures q.owner < size && Usable(size, r, q, b) {
      assert q == p || q in Held(l);
    }
  }

  lemma PlacedOn(place: map<PSol, Place>, p: PSol, r: int, b: int, l: Link, l': Link)
    requires PlaceOk(place, r, b, l) && (p in place ==> !place[p].On?) && Held(l') == Held(l) + multiset{p}
    ensures PlaceOk(place[p := On(r, b)], r, b, l') && SameElsewhere(place, place[p := On(r, b)], r, b)
  {
    assert !IsOn(place, p, r, b);
    forall q ensures Held(l')[q] == if IsOn(place[p := On(r, b)], q, r, b) then 1 else 0 {
      assert Held(l)[q] == if IsOn(place, q, r, b) then 1 else 0;
    }
  }

  lemma RoutingKeepsInv(size: nat, s: Sys, s': Sys, r: nat, p: PSol, b: nat)
    requires Inv(size, s) && r < size && p.owner < size && BestLink(size, r, s.nodes[r], p, b)
    requires p in s.place ==> !s.place[p].On?
    requires s' == Sys(s.nodes[r := RoutedOn(s.nodes[r], p, b)], s.place[p := On(r, b)])
    ensures Inv(size, s')
  {
    assert Cell(size, r, b) && CellOk(size, s, r, b);
    var l := s.nodes[r].links[b];
    RoutedIsWithLink(s.nodes[r], p, b);
    TakingInKeepsLink(size, r, b, l, p);
    PlacedOn(s.place, p, r, b, l, TakesIn(l, p));
    OneLinkChanged(size, s, s', r, b, TakesIn(l, p));
  }

  lemma OfferKeepsInv(size: nat, s: Sys, s': Sys, r: nat, p: PSol, b: nat)
    requires Inv(size, s) && Offers(size, s, s', r, p, b)
    ensures Inv(size, s')
  {
    if p.owner == r {
      forall q, c | Cell(size, q, c) ensures CellOk(size, s', q, c) {
        assert CellOk(size, s, q, c);
      }
    } else {
      RoutingKeepsInv(size, s, s', r, p, b);
    }
  }

  lemma TakenOff(place: map<PSol, Place>, p: PSol, r: int, b: int, l: Link, l': Link)
    requires PlaceOk(place, r, b, l) && Held(l) == Held(l') + multiset{p}
    ensures PlaceOk(place[p := AtOwner], r, b, l') && SameElsewhere(place, place[p := AtOwner], r, b)
  {
    assert Held(l)[p] >= 1;
    assert IsOn(place, p, r, b);
    forall q ensures Held(l')[q] == if IsOn(place[p := AtOwner], q, r, b) then 1 else 0 {
      assert Held(l)[q] == if IsOn(place, q, r, b) then 1 else 0;
    }
  }

  /** Off the link, whether it has reached its owner or is yet to be routed on. */
  lemma LeavingKeepsInv(size: nat, s: Sys, s': Sys, r: nat, b: nat)
    requires Inv(size, s) && Cell(size, r, b) && s.nodes[r].links[b].chan != []
    requires var l := s.nodes[r].links[b];
             s' == Sys(s.nodes[r := WithLink(s.nodes[r], b, l.(chan := l.chan[1..], acks := l.acks + 1))],
                       s.place[l.chan[0] := AtOwner])
    ensures Inv(size, s')
  {
    assert CellOk(size, s, r, b);
    var l := s.nodes[r].links[b];
    var p, l' := l.chan[0], l.(chan := l.chan[1..], acks := l.acks + 1);
    assert l.chan == [p] && l'.chan == [];
    assert Held(l) == Held(l') + multiset{p};
    assert forall q | q in Held(l') :: q in Held(l);
    TakenOff(s.place, p, r, b, l, l');
    OneLinkChanged(size, s, s', r, b, l');
  }

  lemma PlacedTwice(place: map<PSol, Place>, p: PSol, a: Place, b: Place)
    ensures place[p := a][p := b] == place[p := b]
  {
  }

  lemma ArrivalKeepsInv(size: nat, s: Sys, s': Sys, r: nat, b: nat, c: nat)
    requires Inv(size, s) && Arrives(size, s, s', r, b, c)
    ensures Inv(size, s')
  {
    var l := s.nodes[r].links[b];
    var p, at := l.chan[0], Flip(r, b);
    var left := Sys(s.nodes[r := WithLink(s.nodes[r], b, l.(chan := l.chan[1..], acks := l.acks + 1))],
                    s.place[p := AtOwner]);
    LeavingKeepsInv(size, s, left, r, b);
    if p.owner != at {
      assert CellOk(size, s, r, b) && p in Held(l);
      PlacedTwice(s.place, p, AtOwner, On(at, c));
      RoutingKeepsInv(size, left, s', at, p, c);
    }
  }

  lemma DiscardPlaces(place: map<PSol, Place>, gone: multiset<PSol>, r: int, b: int, l: Link, l': Link)
    requires PlaceOk(place, r, b, l) && Held(l) == Held(l') + gone
    ensures PlaceOk(Discard(place, gone), r, b, l') && SameElsewhere(place, Discard(place, gone), r, b)
  {
    var place' := Discard(place, gone);
    forall p ensures Held(l')[p] == if IsOn(place', p, r, b) then 1 else 0 {
      assert Held(l)[p] == Held(l')[p] + gone[p] == if IsOn(place, p, r, b) then 1 else 0;
    }
    forall p, q, c | q != r || c != b ensures IsOn(place', p, q, c) <==> IsOn(place, p, q, c) {
      assert Held(l)[p] == Held(l')[p] + gone[p] == if IsOn(place, p, r, b) then 1 else 0;
    }
  }

  /** A link that gives up `gone` and keeps the rest. */
  lemma DiscardKeepsInv(size: nat, s: Sys, s': Sys, r: nat, b: nat, l': Link, gone: multiset<PSol>)
    requires Inv(size, s) && Cell(size, r, b) && LinkOk(size, r, b, l')
    requires Held(s.nodes[r].links[b]) == Held(l') + gone
    requires s' == Sys(s.nodes[r := WithLink(s.nodes[r], b, l')], Discard(s.place, gone))
    ensures Inv(size, s')
  {
    assert CellOk(size, s, r, b);
    DiscardPlaces(s.place, gone, r, b, s.nodes[r].links[b], l');
    OneLinkChanged(size, s, s', r, b, l');
  }

  lemma AckedHolds(l: Link, l': Link, gone: multiset<PSol>, fathom: PSol -> bool)
    requires AckedLink(l, l', gone, fathom) && l.chan == []
    ensures Held(l) == Held(l') + gone
  {
  }

  lemma AckKeepsLink(size: nat, r: nat, b: nat, l: Link, l': Link, gone: multiset<PSol>, fathom: PSol -> bool)
    requires LinkOk(size, r, b, l) && l.acks > 0 && AckedLink(l.(acks := l.acks - 1), l', gone, fathom)
    ensures LinkOk(size, r, b, l') && Held(l) == Held(l') + gone
  {
    assert l.chan == [];
    AckedHolds(l.(acks := l.acks - 1), l', gone, fathom);
    forall p | p in Held(l') ensures p.owner < size && Usable(size, r, p, b) {
      assert p in Held(l);
    }
  }

  lemma AckKeepsInv(size: nat, s: Sys, s': Sys, r: nat, b: nat, gone: multiset<PSol>, fathom: PSol -> bool)
    requires Inv(size, s) && Acknowledged(size, s, s', r, b, gone, fathom)
    ensures Inv(size, s')
  {
    assert CellOk(size, s, r, b);
    var l, l' := s.nodes[r].links[b], s'.nodes[r].links[b];
    AckKeepsLink(size, r, b, l, l', gone, fathom);
    DiscardKeepsInv(size, s, s', r, b, l', gone);
  }

  lemma PruneKeepsLink(size: nat, r: nat, b: nat, l: Link, l': Link, gone: multiset<PSol>, fathom: PSol -> bool)
    requires LinkOk(size, r, b, l) && PrunedLink(l, l', gone, fathom)
    ensures LinkOk(size, r, b, l') && Held(l) == Held(l') + gone
  {
    assert l'.queue != [] ==> l'.queue[0] in multiset(l.queue);
    forall p | p in Held(l') ensures p.owner < size && Usable(size, r, p, b) {
      assert p in Held(l);
    }
  }

  lemma PruneKeepsInv(size: nat, s: Sys, s': Sys, r: nat, b: nat, gone: multiset<PSol>, fathom: PSol -> bool)
    requires Inv(size, s) && Prunes(size, s, s', r, b, gone, fathom)
    ensures Inv(size, s')
  {
    assert CellOk(size, s, r, b);
    var l, l' := s.nodes[r].links[b], s'.nodes[r].links[b];
    PruneKeepsLink(size, r, b, l, l', gone, fathom);
    DiscardKeepsInv(size, s, s', r, b, l', gone);
  }

  lemma NextKeepsInv(size: nat, s: Sys, s': Sys, r: nat, b: nat, c: nat, e: Event)
    requires Inv(size, s) && Next(size, s, s', r, b, c, e)
    ensures Inv(size, s')
  {
    match e {
      case Offer(p) => OfferKeepsInv(size, s, s', r, p, b);
      case Arrival => ArrivalKeepsInv(size, s, s', r, b, c);
      case Ack(gone, fathom) => AckKeepsInv(size, s, s', r, b, gone, fathom);
      case Pruning(gone, fathom) => PruneKeepsInv(size, s, s', r, b, gone, fathom);
    }
  }

  ghost predicate Moves(size: nat, s: Sys, s': Sys) {
    Sized(size, s) && exists r, b, c, e :: Next(size, s, s', r, b, c, e)
  }

  ghost predicate IsRun(size: nat, run: seq<Sys>) {
    && |run| > 0 && Start(size, run[0]) && (forall i | 0 <= i < |run| :: Sized(size, run[i]))
    && forall i, j | 0 <= i && j == i + 1 && j < |run| :: Moves(size, run[i], run[j])
  }

  lemma StartHolds(size: nat, s: Sys)
    requires Start(size, s)
    ensures Inv(size, s)
  {
    EmptyQueues(Bits(size));
    forall r, b | Cell(size, r, b) ensures CellOk(size, s, r, b) {
      assert s.nodes[r].links[b] == IDLE;
    }
  }

  lemma MovesKeepsInv(size: nat, s: Sys, s': Sys)
    requires Inv(size, s) && Moves(size, s, s')
    ensures Inv(size, s')
  {
    var r, b, c, e :| Next(size, s, s', r, b, c, e);
    NextKeepsInv(size, s, s', r, b, c, e);
  }

  lemma RunMoves(size: nat, run: seq<Sys>, i: nat)
    requires IsRun(size, run) && 0 < i < |run|
    ensures Moves(size, run[i - 1], run[i])
  {
  }

  lemma {:induction false} InvHolds(size: nat, run: seq<Sys>, i: nat)
    requires IsRun(size, run) && i < |run|
    ensures Inv(size, run[i])
  {
    if i == 0 {
      StartHolds(size, run[0]);
    } else {
      InvHolds(size, run, i - 1);
      RunMoves(size, run, i);
      MovesKeepsInv(size, run[i - 1], run[i]);
    }
  }

  // ---------- What flow control guarantees ----------

  /** Neither a solution nor an acknowledgement is in transit. */
  ghost predicate Quiet(size: nat, s: Sys)
    requires Sized(size, s)
  {
    forall r, b | Cell(size, r, b) :: s.nodes[r].links[b].chan == [] && s.nodes[r].links[b].acks == 0
  }

  /** At any time: a solution waits on a link only while another one sent on it has not been acknowledged;
      at most one is in transit; and the count of queued solutions is right. */
  lemma WaitingBehindOne(size: nat, run: seq<Sys>, i: nat, r: nat, b: nat)
    requires IsRun(size, run) && i < |run| && Cell(size, r, b)
    ensures var l := run[i].nodes[r].links[b];
            && (l.queue != [] ==> l.justSent.Some?) && (l.justSent.Some? <==> |l.chan| + l.acks == 1)
            && |l.chan| + l.acks <= 1
    ensures run[i].nodes[r].queuedSolutions == TotalQueue(run[i].nodes[r].links)
  {
    InvHolds(size, run, i);
    assert CellOk(size, run[i], r, b);
  }

  /** Whenever no message is in transit, every solution ever offered has reached its owner or has been
      fathomed, and nothing waits anywhere. */
  lemma QuietMeansDelivered(size: nat, run: seq<Sys>, i: nat)
    requires IsRun(size, run) && i < |run| && Quiet(size, run[i])
    ensures forall p | p in run[i].place :: run[i].place[p] == AtOwner || run[i].place[p] == Gone
    ensures forall r, b | Cell(size, r, b) :: run[i].nodes[r].links[b] == IDLE
  {
    InvHolds(size, run, i);
    var s := run[i];
    forall r, b | Cell(size, r, b) ensures s.nodes[r].links[b] == IDLE {
      assert CellOk(size, s, r, b);
    }
    forall p | p in s.place ensures s.place[p] == AtOwner || s.place[p] == Gone {
      var r := if s.place[p].On? then s.place[p].rank else 0;
      var b := if s.place[p].On? then s.place[p].link else 0;
      if Cell(size, r, b) {
        assert CellOk(size, s, r, b) && Held(s.nodes[r].links[b])[p] == 0;
        assert !IsOn(s.place, p, r, b);
      }
    }
  }

  /** A solution under way is always one link closer at the next stop, which exists, and never with its owner. */
  lemma AlwaysCloser(size: nat, run: seq<Sys>, i: nat, p: PSol)
    requires IsRun(size, run) && i < |run| && p in run[i].place && run[i].place[p].On?
    ensures var r, b := run[i].place[p].rank, run[i].place[p].link;
            && Cell(size, r, b) && p.owner < size && Flip(r, b) < size && r != p.owner
            && Distance(Flip(r, b), p.owner) == Distance(r, p.owner) - 1
  {
    InvHolds(size, run, i);
    var s := run[i];
    var r, b := s.place[p].rank, s.place[p].link;
    assert CellOk(size, s, r, b) && IsOn(s.place, p, r, b);
    assert p in Held(s.nodes[r].links[b]);
    XorSelf(r, p.owner);
    FlipDistance(r, p.owner, b);
  }

  lemma {:induction false} LeastLoaded(size: nat, rank: nat, n: Node, p: PSol, k: nat) returns (b: nat)
    requires k <= |n.links| && exists c: nat :: c < k && Usable(size, rank, p, c)
    ensures b < k && Usable(size, rank, p, b)
    ensures forall c: nat | c < k && Usable(size, rank, p, c) :: Load(n.links[b]) <= Load(n.links[c])
  {
    if exists c: nat :: c < k - 1 && Usable(size, rank, p, c) {
      b := LeastLoaded(size, rank, n, p, k - 1);
      if Usable(size, rank, p, k - 1) && Load(n.links[k - 1]) < Load(n.links[b]) {
        b := k - 1;
      }
    } else {
      b := k - 1;
    }
  }

  /** Whatever is in transit can always be received, for any number of processors: routing never fails. */
  lemma NeverStranded(size: nat, run: seq<Sys>, i: nat, r: nat, b: nat) returns (s': Sys, c: nat)
    requires IsRun(size, run) && i < |run| && Cell(size, r, b) && run[i].nodes[r].links[b].chan != []
    ensures Arrives(size, run[i], s', r, b, c)
  {
    InvHolds(size, run, i);
    var s := run[i];
    assert CellOk(size, s, r, b);
    var l := s.nodes[r].links[b];
    var p, at := l.chan[0], Flip(r, b);
    assert p in Held(l);
    var nodes := s.nodes[r := WithLink(s.nodes[r], b, l.(chan := l.chan[1..], acks := l.acks + 1))];
    c := 0;
    if p.owner == at {
      s' := Sys(nodes, s.place[p := AtOwner]);
    } else {
      SomeLink(size, at, p);
      c := LeastLoaded(size, at, nodes[at], p, Bits(size));
      s' := Sys(nodes[at := RoutedOn(nodes[at], p, c)], s.place[p := On(at, c)]);
    }
  }

  // ---------- What becomes of a solution ----------

  /** In this step `p` is thrown away, because it can be fathomed then. */
  ghost predicate Fathomed(size: nat, s: Sys, s': Sys, p: PSol) {
    && Sized(size, s)
    && exists r, b, gone: multiset<PSol>, fathom: PSol -> bool ::
         p in gone && fathom(p) && Drops(size, s, s', r, b, gone, fathom)
  }

  ghost predicate Drops(size: nat, s: Sys, s': Sys, r: nat, b: nat, gone: multiset<PSol>, fathom: PSol -> bool)
    requires Sized(size, s)
  {
    Acknowledged(size, s, s', r, b, gone, fathom) || Prunes(size, s, s', r, b, gone, fathom)
  }

  lemma OnlyFathomedGo(size: nat, s: Sys, s': Sys, p: PSol)
    requires Moves(size, s, s') && p in s'.place && s'.place[p] == Gone && !(p in s.place && s.place[p] == Gone)
    ensures Fathomed(size, s, s', p)
  {
    var r, b, c, e :| Next(size, s, s', r, b, c, e);
    match e {
      case Offer(_) =>
      case Arrival =>
      case Ack(gone, fathom) => assert p in gone && fathom(p) && Drops(size, s, s', r, b, gone, fathom);
      case Pruning(gone, fathom) => assert p in gone && fathom(p) && Drops(size, s, s', r, b, gone, fathom);
    }
  }

  lemma StepOfRun(size: nat, run: seq<Sys>, i: nat) returns (s: Sys, s': Sys)
    requires IsRun(size, run) && i + 1 < |run|
    ensures s == run[i] && s' == run[i + 1] && Inv(size, s) && Moves(size, s, s')
  {
    s, s' := run[i], run[i + 1];
    InvHolds(size, run, i);
    RunMoves(size, run, i + 1);
  }

  ghost predicate GoneAt(run: seq<Sys>, i: nat, p: PSol) {
    i < |run| && p in run[i].place && run[i].place[p] == Gone
  }

  ghost predicate FathomedAt(size: nat, run: seq<Sys>, i: nat, p: PSol) {
    i + 1 < |run| && Fathomed(size, run[i], run[i + 1], p)
  }

  lemma GoneBefore(size: nat, run: seq<Sys>, i: nat, p: PSol)
    requires IsRun(size, run) && GoneAt(run, i + 1, p)
    ensures GoneAt(run, i, p) || FathomedAt(size, run, i, p)
  {
    var s, s' := StepOfRun(size, run, i);
    if !GoneAt(run, i, p) {
      OnlyFathomedGo(size, s, s', p);
    }
  }

  lemma NothingAtStart(size: nat, run: seq<Sys>, p: PSol)
    requires IsRun(size, run)
    ensures !GoneAt(run, 0, p) && !DeliveredAt(run, 0, p)
  {
  }

  /** In every run a solution that has not been kept was thrown away in some step in which it could be fathomed. */
  lemma {:induction false} GoneWasFathomed(size: nat, run: seq<Sys>, i: nat, p: PSol) returns (j: nat)
    requires IsRun(size, run) && GoneAt(run, i, p)
    ensures j < i && FathomedAt(size, run, j, p)
  {
    if i == 0 {
      NothingAtStart(size, run, p);
      assert false;
    } else {
      j := i - 1;
      GoneBefore(size, run, j, p);
      if GoneAt(run, j, p) {
        j := GoneWasFathomed(size, run, j, p);
      }
    }
  }

  /** A link holds nothing that has reached its owner. */
  lemma NotHeld(size: nat, s: Sys, r: nat, b: nat, p: PSol)
    requires Inv(size, s) && Cell(size, r, b) && p in s.place && s.place[p] == AtOwner
    ensures Held(s.nodes[r].links[b])[p] == 0
  {
    assert CellOk(size, s, r, b);
  }

  lemma DropsKeepDelivered(size: nat, s: Sys, s': Sys, r: nat, b: nat, gone: multiset<PSol>, fathom: PSol -> bool,
                           p: PSol)
    requires Inv(size, s) && Drops(size, s, s', r, b, gone, fathom) && p in s.place && s.place[p] == AtOwner
    ensures p in s'.place && s'.place[p] == AtOwner
  {
    NotHeld(size, s, r, b, p);
    var l := s.nodes[r].links[b];
    assert multiset(l.queue)[p] == 0;
    assert gone[p] <= multiset(l.queue)[p];
  }

  lemma ArrivalKeepsDelivered(size: nat, s: Sys, s': Sys, r: nat, b: nat, c: nat, p: PSol)
    requires Inv(size, s) && Arrives(size, s, s', r, b, c) && p in s.place && s.place[p] == AtOwner
    ensures p in s'.place && s'.place[p] == AtOwner
  {
    NotHeld(size, s, r, b, p);
    var l := s.nodes[r].links[b];
    assert l.chan[0] in multiset(l.chan);
  }

  lemma AtOwnerStays(size: nat, s: Sys, s': Sys, p: PSol)
    requires Inv(size, s) && Moves(size, s, s') && p in s.place && s.place[p] == AtOwner
    ensures p in s'.place && s'.place[p] == AtOwner
  {
    var r, b, c, e :| Next(size, s, s', r, b, c, e);
    match e {
      case Offer(_) =>
      case Arrival => ArrivalKeepsDelivered(size, s, s', r, b, c, p);
      case Ack(gone, fathom) => DropsKeepDelivered(size, s, s', r, b, gone, fathom, p);
      case Pruning(gone, fathom) => DropsKeepDelivered(size, s, s', r, b, gone, fathom, p);
    }
  }

  ghost predicate DeliveredAt(run: seq<Sys>, i: nat, p: PSol) {
    i < |run| && p in run[i].place && run[i].place[p] == AtOwner
  }

  lemma DeliveredAfter(size: nat, run: seq<Sys>, i: nat, p: PSol)
    requires IsRun(size, run) && i + 1 < |run| && DeliveredAt(run, i, p)
    ensures DeliveredAt(run, i + 1, p)
  {
    var s, s' := StepOfRun(size, run, i);
    AtOwnerStays(size, s, s', p);
  }

  /** And one that has reached its owner is never touched again. */
  lemma {:induction false} DeliveredStays(size: nat, run: seq<Sys>, i: nat, k: nat, p: PSol)
    requires IsRun(size, run) && i <= k < |run| && DeliveredAt(run, i, p)
    ensures DeliveredAt(run, k, p)
  {
    if i < k {
      DeliveredStays(size, run, i, k - 1, p);
      DeliveredAfter(size, run, k - 1, p);
    }
  }
}
