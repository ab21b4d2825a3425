/** The rendezvous of `loadBal.cpp`: donors and receivers of work meet at the hub that bears their number. */
module Rendezvous {
  import opened Sums

  const UNKNOWN := -1

  /** One round among hubs `0..n-1`: number `k` is held by the donor `donor[k]` and the receiver `receiver[k]`,
      and hub `k` is where they meet. */
  datatype Round = Round(n: nat, donor: seq<int>, receiver: seq<int>)
  {
    predicate Hub(h: int) { 0 <= h < n }

    predicate Pair(k: int) { 0 <= k < |donor| }

    /** The numbers are given once each, and no hub both gives and takes. */
    ghost predicate Ok() {
      && |donor| == |receiver| <= n
      && (forall k | Pair(k) :: Hub(donor[k]) && Hub(receiver[k]))
      && (forall k, l | Pair(k) && Pair(l) && k != l :: donor[k] != donor[l] && receiver[k] != receiver[l])
      && (forall k, l | Pair(k) && Pair(l) :: donor[k] != receiver[l])
    }

    /** `myID.donors` of a donor in this round, and `-1` for the others. */
    function DonorID(h: int): int { IndexOf(donor, h) }

    function ReceiverID(h: int): int { IndexOf(receiver, h) }
  }

  function IndexOf(s: seq<int>, x: int): (i: int)
    ensures -1 <= i < |s| && (i >= 0 ==> s[i] == x) && (i < 0 ==> x !in s)
  {
    if s == [] then -1 else if s[|s| - 1] == x then |s| - 1 else IndexOf(s[..|s| - 1], x)
  }

  datatype Stage = Counting | DonorWait | ReceiverWait | ReturnWait | WorkWait | Finished

  datatype Local = Local(stage: Stage, donorProc: int, receiverProc: int, myReceiver: int)

  datatype Msg = DonorRV(from: int, to: int) | ReceiverRV(from: int, to: int) | Return(to: int, who: int)
               | Work(from: int, to: int)

  datatype Arrival = NoMessage | Got(m: Msg)

  // ---------- What one hub does ----------

  function KnowDonor(c: Round, h: int, l: Local, sends: set<Msg>): (Local, set<Msg>) {
    if l.receiverProc != UNKNOWN then KnowReceiver(c, h, l, sends) else (l.(stage := ReceiverWait), sends)
  }

  function KnowReceiver(c: Round, h: int, l: Local, sends: set<Msg>): (Local, set<Msg>) {
    if l.donorProc == h then RendezvousDone(c, h, l.(myReceiver := l.receiverProc), sends)
    else RendezvousDone(c, h, l, sends + {Return(l.donorProc, l.receiverProc)})
  }

  function RendezvousDone(c: Round, h: int, l: Local, sends: set<Msg>): (Local, set<Msg>) {
    if c.DonorID(h) >= 0 then
      if l.myReceiver != UNKNOWN then DonorKnowsReceiver(h, l, sends) else (l.(stage := ReturnWait), sends)
    else if c.ReceiverID(h) >= 0 then (l.(stage := WorkWait), sends)
    else (l.(stage := Finished), sends)
  }

  function DonorKnowsReceiver(h: int, l: Local, sends: set<Msg>): (Local, set<Msg>) {
    (l.(stage := Finished), sends + {Work(h, l.myReceiver)})
  }

  function Meet(c: Round, h: int, l: Local, sends: set<Msg>): (Local, set<Msg>) {
    if !c.Pair(h) then RendezvousDone(c, h, l, sends)
    else if l.donorProc != UNKNOWN then KnowDonor(c, h, l, sends)
    else (l.(stage := DonorWait), sends)
  }

  function ToDonorPoint(c: Round, h: int): set<Msg> {
    if c.DonorID(h) >= 0 && c.DonorID(h) != h then {DonorRV(h, c.DonorID(h))} else {}
  }

  function ToReceiverPoint(c: Round, h: int): set<Msg> {
    if c.ReceiverID(h) >= 0 && c.ReceiverID(h) != h then {ReceiverRV(h, c.ReceiverID(h))} else {}
  }

  /** What a hub knows right after it has found out its numbers. */
  function Announced(c: Round, h: int): Local {
    Local(Counting, if c.DonorID(h) >= 0 && c.DonorID(h) == h then h else UNKNOWN,
          if c.ReceiverID(h) >= 0 && c.ReceiverID(h) == h then h else UNKNOWN, UNKNOWN)
  }

  /** One activation, with the message it waited for, up to the next wait. */
  function RunHub(c: Round, h: int, l: Local, a: Arrival): (Local, set<Msg>) {
    match l.stage
    case Counting => Meet(c, h, Announced(c, h), ToDonorPoint(c, h) + ToReceiverPoint(c, h))
    case DonorWait => if a.Got? && a.m.DonorRV? then KnowDonor(c, h, l.(donorProc := a.m.from), {}) else (l, {})
    case ReceiverWait => if a.Got? && a.m.ReceiverRV? then KnowReceiver(c, h, l.(receiverProc := a.m.from), {}) else (l, {})
    case ReturnWait => if a.Got? && a.m.Return? then DonorKnowsReceiver(h, l.(myReceiver := a.m.who), {}) else (l, {})
    case WorkWait => if a.Got? && a.m.Work? then (l.(stage := Finished), {}) else (l, {})
    case Finished => (l, {})
  }

  datatype LoadBalState = counting | receiverInfo | rendezvous | donorWait | knowDonor | receiverWait | knowReceiver
                        | rendezvousDone | returnWait | donorKnowsReceiver | workWait | start

  function Rank(s: LoadBalState): nat {
    match s
    case counting => 11
    case receiverInfo => 10
    case rendezvous => 9
    case donorWait => 8
    case knowDonor => 7
    case receiverWait => 6
    case knowReceiver => 5
    case rendezvousDone => 4
    case returnWait => 3
    case donorKnowsReceiver => 2
    case workWait => 1
    case start => 0
  }

  /** What running on from state `s` leads to; a wait state here is about to look at its message. */
  ghost function Onward(c: Round, h: int, s: LoadBalState, l: Local, a: Arrival, sends: set<Msg>): (Local, set<Msg>) {
    match s
    case counting => Meet(c, h, Announced(c, h), sends + ToDonorPoint(c, h) + ToReceiverPoint(c, h))
    case receiverInfo =>
      Meet(c, h, if c.ReceiverID(h) >= 0 && c.ReceiverID(h) == h then l.(receiverProc := h) else l, sends + ToReceiverPoint(c, h))
    case rendezvous => Meet(c, h, l, sends)
    case donorWait =>
      if a.Got? && a.m.DonorRV? then KnowDonor(c, h, l.(donorProc := a.m.from), sends) else (l.(stage := DonorWait), sends)
    case knowDonor => KnowDonor(c, h, l, sends)
    case receiverWait =>
      if a.Got? && a.m.ReceiverRV? then KnowReceiver(c, h, l.(receiverProc := a.m.from), sends)
      else (l.(stage := ReceiverWait), sends)
    case knowReceiver => KnowReceiver(c, h, l, sends)
    case rendezvousDone => RendezvousDone(c, h, l, sends)
    case returnWait =>
      if a.Got? && a.m.Return? then DonorKnowsReceiver(h, l.(myReceiver := a.m.who), sends)
      else (l.(stage := ReturnWait), sends)
    case donorKnowsReceiver => DonorKnowsReceiver(h, l, sends)
    case workWait => if a.Got? && a.m.Work? then (l.(stage := Finished), sends) else (l.(stage := WorkWait), sends)
    case start => (l.(stage := Finished), sends)
  }

  /** The part of the load balancer object of one hub that takes part in a round. */
  class LoadBalObj {
    const c: Round
    const myCluster: int
    var myState: LoadBalState
    var donorProc: int
    var receiverProc: int
    var myReceiver: int
    var sent: set<Msg>

    constructor (c: Round, myCluster: int)
      ensures this.c == c && this.myCluster == myCluster && sent == {}
      ensures AtRest() && View() == Local(Counting, UNKNOWN, UNKNOWN, UNKNOWN)
    {
      this.c, this.myCluster := c, myCluster;
      myState, donorProc, receiverProc, myReceiver, sent := counting, UNKNOWN, UNKNOWN, UNKNOWN, {};
    }

    /** The states in which the thread gives up control. */
    ghost predicate AtRest()
      reads this
    {
      myState in {counting, donorWait, receiverWait, returnWait, workWait, start}
    }

    ghost function View(): Local
      reads this
    {
      var stage := match myState
        case donorWait => DonorWait
        case receiverWait => ReceiverWait
        case returnWait => ReturnWait
        case workWait => WorkWait
        case start => Finished
        case _ => Counting;
      Local(stage, donorProc, receiverProc, myReceiver)
    }

    ghost function Ahead(a: Arrival): (Local, set<Msg>)
      reads this
    {
      Onward(c, myCluster, myState, Local(Counting, donorProc, receiverProc, myReceiver), a, sent)
    }

    /** One pass through the switch; tells whether to go on at once. */
    method Step(a: Arrival) returns (canContinue: bool)
      modifies this
      ensures canContinue ==> Rank(myState) < Rank(old(myState)) && Ahead(a) == old(Ahead(a))
      ensures !canContinue ==> AtRest() && (View(), sent) == old(Ahead(a))
    {
      canContinue := true;
      assert sent + {} == sent;
      match myState {
        case counting =>
          donorProc, receiverProc, myReceiver := UNKNOWN, UNKNOWN, UNKNOWN;
          if c.DonorID(myCluster) >= 0 {
            if c.DonorID(myCluster) == myCluster {
              donorProc := myCluster;
            } else {
              sent := sent + {DonorRV(myCluster, c.DonorID(myCluster))};
            }
          }
          myState := receiverInfo;
        case receiverInfo =>
          if c.ReceiverID(myCluster) >= 0 {
            if c.ReceiverID(myCluster) == myCluster {
              receiverProc := myCluster;
            } else {
              sent := sent + {ReceiverRV(myCluster, c.ReceiverID(myCluster))};
            }
          }
          myState := rendezvous;
        case rendezvous =>
          if !c.Pair(myCluster) {
            myState := rendezvousDone;
          } else if donorProc != UNKNOWN {
            myState := knowDonor;
          } else {
            myState, canContinue := donorWait, false;
          }
        case donorWait =>
          if a.Got? && a.m.DonorRV? {
            donorProc, myState := a.m.from, knowDonor;
          } else {
            canContinue := false;
          }
        case knowDonor =>
          if receiverProc != UNKNOWN {
            myState := knowReceiver;
          } else {
            myState, canContinue := receiverWait, false;
          }
        case receiverWait =>
          if a.Got? && a.m.ReceiverRV? {
            receiverProc, myState := a.m.from, knowReceiver;
          } else {
            canContinue := false;
          }
        case knowReceiver =>
          if donorProc == myCluster {
            myReceiver := receiverProc;
          } else {
            sent := sent + {Return(donorProc, receiverProc)};
          }
          myState := rendezvousDone;
        case rendezvousDone =>
          if c.DonorID(myCluster) >= 0 {
            if myReceiver != UNKNOWN {
              myState := donorKnowsReceiver;
            } else {
              myState, canContinue := returnWait, false;
            }
          } else if c.ReceiverID(myCluster) >= 0 {
            myState, canContinue := workWait, false;
          } else {
            myState, canContinue := start, false;
          }
        case returnWait =>
          if a.Got? && a.m.Return? {
            myReceiver, myState := a.m.who, donorKnowsReceiver;
          } else {
            canContinue := false;
          }
        case donorKnowsReceiver =>
          sent := sent + {Work(myCluster, myReceiver)};
          myState, canContinue := start, false;
        case workWait =>
          canContinue := false;
          if a.Got? && a.m.Work? {
            myState := start;
          }
        case start =>
          canContinue := false;
      }
    }

    /** Runs until the next receive or the end of the round. */
    method Run(a: Arrival)
      requires AtRest()
      modifies this
      ensures AtRest()
      ensures View() == RunHub(c, myCluster, old(View()), a).0
      ensures sent == old(sent) + RunHub(c, myCluster, old(View()), a).1
    {
      ghost var goal := Ahead(a);
      OnwardIsRun(c, myCluster, myState, View(), a, sent);
      var canContinue := true;
      while canContinue
        invariant canContinue ==> Ahead(a) == goal
        invariant !canContinue ==> AtRest() && (View(), sent) == goal
        decreases canContinue, Rank(myState)
      {
        canContinue := Step(a);
      }
    }
  }

  /** The sends of an activation only add to what was sent before. */
  lemma SendsAdd(c: Round, h: int, l: Local, sends: set<Msg>, more: set<Msg>)
    ensures RendezvousDone(c, h, l, sends + more).0 == RendezvousDone(c, h, l, more).0
    ensures RendezvousDone(c, h, l, sends + more).1 == sends + RendezvousDone(c, h, l, more).1
    ensures KnowReceiver(c, h, l, sends + more).0 == KnowReceiver(c, h, l, more).0
    ensures KnowReceiver(c, h, l, sends + more).1 == sends + KnowReceiver(c, h, l, more).1
    ensures KnowDonor(c, h, l, sends + more).0 == KnowDonor(c, h, l, more).0
    ensures KnowDonor(c, h, l, sends + more).1 == sends + KnowDonor(c, h, l, more).1
    ensures Meet(c, h, l, sends + more).0 == Meet(c, h, l, more).0
    ensures Meet(c, h, l, sends + more).1 == sends + Meet(c, h, l, more).1
  {
    var r := {Return(l.donorProc, l.receiverProc)};
    assert sends + (more + r) == sends + more + r;
  }

  lemma OnwardIsRun(c: Round, h: int, s: LoadBalState, l: Local, a: Arrival, sends: set<Msg>)
    requires l.stage == match s case donorWait => DonorWait case receiverWait => ReceiverWait case returnWait => ReturnWait
                        case workWait => WorkWait case start => Finished case _ => Counting
    requires s in {counting, donorWait, receiverWait, returnWait, workWait, start}
    ensures var (l', ps) := Onward(c, h, s, l.(stage := Counting), a, sends);
            l' == RunHub(c, h, l, a).0 && ps == sends + RunHub(c, h, l, a).1
  {
    assert sends + {} == sends;
    assert sends + ToDonorPoint(c, h) + ToReceiverPoint(c, h) == sends + (ToDonorPoint(c, h) + ToReceiverPoint(c, h));
    SendsAdd(c, h, Announced(c, h), sends, ToDonorPoint(c, h) + ToReceiverPoint(c, h));
    if a.Got? && a.m.DonorRV? {
      SendsAdd(c, h, l.(donorProc := a.m.from), sends, {});
      SendsAdd(c, h, l.(donorProc := a.m.from, stage := Counting), sends, {});
    }
    if a.Got? && a.m.ReceiverRV? {
      SendsAdd(c, h, l.(receiverProc := a.m.from), sends, {});
    }
  }

  // ---------- All hubs together ----------

  /** `moved` is history: which hub has taken work from which. */
  datatype Sys = Sys(nodes: seq<Local>, net: set<Msg>, moved: set<(int, int)>)

  /** The message is what the hub waits for; receives name a kind but no sender. */
  predicate Awaits(l: Local, h: int, m: Msg) {
    match m
    case DonorRV(from, to) => to == h && l.stage == DonorWait
    case ReceiverRV(from, to) => to == h && l.stage == ReceiverWait
    case Return(to, who) => to == h && l.stage == ReturnWait
    case Work(from, to) => to == h && l.stage == WorkWait
  }

  /** Hub `h` can run: it has just finished counting, or a message it waits for is there. */
  ghost predicate Enabled(c: Round, s: Sys, h: int, a: Arrival) {
    && c.Hub(h) && |s.nodes| == c.n
    && match a
       case NoMessage => s.nodes[h].stage == Counting
       case Got(m) => m in s.net && Awaits(s.nodes[h], h, m)
  }

  ghost predicate Runs(c: Round, s: Sys, s': Sys, h: int, a: Arrival) {
    && Enabled(c, s, h, a)
    && var (l, sends) := RunHub(c, h, s.nodes[h], a);
       && s'.nodes == s.nodes[h := l]
       && s'.net == (if a.Got? then s.net - {a.m} else s.net) + sends
       && s'.moved == if a.Got? && a.m.Work? then s.moved + {(a.m.from, h)} else s.moved
  }

  ghost predicate Start(c: Round, s: Sys) {
    && |s.nodes| == c.n && s.net == {} && s.moved == {}
    && forall h | c.Hub(h) :: s.nodes[h] == Local(Counting, UNKNOWN, UNKNOWN, UNKNOWN)
  }

  ghost predicate Moves(c: Round, s: Sys, s': Sys) { exists h, a :: Runs(c, s, s', h, a) }

  ghost predicate IsRun(c: Round, run: seq<Sys>) {
    && |run| > 0 && Start(c, run[0]) && (forall i | 0 <= i < |run| :: |run[i].nodes| == c.n)
    && forall i, j | 0 <= i && j == i + 1 && j < |run| :: Moves(c, run[i], run[j])
  }

  // ---------- The invariant ----------

  predicate Started(l: Local) { l.stage != Counting }

  /** The hub is done with its rendezvous. */
  predicate Served(l: Local) { l.stage == ReturnWait || l.stage == WorkWait || l.stage == Finished }

  ghost predicate NodeOk(c: Round, h: int, l: Local)
    requires c.Ok() && c.Hub(h)
  {
    var id := c.DonorID(h);
    && (l.stage == Counting ==> l == Local(Counting, UNKNOWN, UNKNOWN, UNKNOWN))
    && (l.donorProc != UNKNOWN ==> c.Pair(h) && l.donorProc == c.donor[h])
    && (l.receiverProc != UNKNOWN ==> c.Pair(h) && l.receiverProc == c.receiver[h])
    && (Started(l) && c.Pair(h) && c.donor[h] == h ==> l.donorProc == h)
    && (Started(l) && c.Pair(h) && c.receiver[h] == h ==> l.receiverProc == h)
    && (l.stage == DonorWait ==> c.Pair(h) && l.donorProc == UNKNOWN)
    && (l.stage == ReceiverWait ==> c.Pair(h) && l.donorProc != UNKNOWN && l.receiverProc == UNKNOWN)
    && (Served(l) && c.Pair(h) ==> l.donorProc != UNKNOWN && l.receiverProc != UNKNOWN)
    && (l.myReceiver != UNKNOWN ==> id >= 0 && l.myReceiver == c.receiver[id] && l.stage == Finished)
    && (l.stage == ReturnWait ==> id >= 0 && id != h)
    && (l.stage == WorkWait ==> id < 0 && c.ReceiverID(h) >= 0)
    && (l.stage == Finished && id >= 0 ==> l.myReceiver != UNKNOWN)
  }

  /** All that matters about pair `k`: who knows whom, how far the three hubs are, and what is under way. */
  datatype View = View(knowsDonor: bool, knowsReceiver: bool, served: bool, donorStarted: bool, donorDone: bool,
                       receiverStarted: bool, receiverDone: bool, toPoint: bool, alsoToPoint: bool, back: bool,
                       work: bool, moved: bool)

  ghost function ViewOf(c: Round, s: Sys, k: int): View
    requires c.Ok() && |s.nodes| == c.n && c.Pair(k)
  {
    var d, r := c.donor[k], c.receiver[k];
    View(s.nodes[k].donorProc != UNKNOWN, s.nodes[k].receiverProc != UNKNOWN, Served(s.nodes[k]), Started(s.nodes[d]),
         s.nodes[d].stage == Finished, Started(s.nodes[r]), s.nodes[r].stage == Finished, DonorRV(d, k) in s.net,
         ReceiverRV(r, k) in s.net, Return(d, r) in s.net, Work(d, r) in s.net, (d, r) in s.moved)
  }

  /** The invariant of a pair; `own` and `also` tell whether the meeting point is the donor or receiver itself. */
  predicate ViewOk(v: View, own: bool, also: bool) {
    && (v.knowsDonor ==> v.donorStarted) && (v.knowsReceiver ==> v.receiverStarted)
    && (v.donorDone ==> v.served && v.donorStarted) && (v.receiverDone ==> v.donorDone && v.receiverStarted)
    && (v.served ==> v.knowsDonor && v.knowsReceiver)
    && (own && v.donorStarted ==> v.knowsDonor) && (also && v.receiverStarted ==> v.knowsReceiver)
    && (v.toPoint <==> !own && v.donorStarted && !v.knowsDonor)
    && (v.alsoToPoint <==> !also && v.receiverStarted && !v.knowsReceiver)
    && (v.back <==> !own && v.served && !v.donorDone)
    && (v.work <==> v.donorDone && !v.receiverDone)
    && (v.moved <==> v.receiverDone)
  }

  ghost predicate PairInv(c: Round, s: Sys, k: int)
    requires c.Ok() && |s.nodes| == c.n && c.Pair(k)
  {
    ViewOk(ViewOf(c, s, k), c.donor[k] == k, c.receiver[k] == k)
  }

  /** The number of the pair a message belongs to. */
  function PairOf(c: Round, m: Msg): int {
    match m
    case DonorRV(from, to) => to
    case ReceiverRV(from, to) => to
    case Return(to, who) => c.DonorID(to)
    case Work(from, to) => c.DonorID(from)
  }

  /** The message is one of the four that its pair exchanges. */
  ghost predicate Proper(c: Round, m: Msg)
    requires c.Ok()
  {
    var k := PairOf(c, m);
    && c.Pair(k)
    && var d, r := c.donor[k], c.receiver[k];
       m == DonorRV(d, k) || m == ReceiverRV(r, k) || m == Return(d, r) || m == Work(d, r)
  }

  ghost predicate Inv(c: Round, s: Sys) {
    && c.Ok() && |s.nodes| == c.n
    && (forall h | c.Hub(h) :: NodeOk(c, h, s.nodes[h]))
    && (forall k | c.Pair(k) :: PairInv(c, s, k))
    && (forall m | m in s.net :: Proper(c, m))
    && (forall p | p in s.moved :: exists k :: c.Pair(k) && p == (c.donor[k], c.receiver[k]))
  }

  lemma IndexIsNumber(c: Round, k: int)
    requires c.Ok() && c.Pair(k)
    ensures c.DonorID(c.donor[k]) == k && c.ReceiverID(c.receiver[k]) == k
    ensures c.ReceiverID(c.donor[k]) == -1 && c.DonorID(c.receiver[k]) == -1
  {
    var r := c.ReceiverID(c.donor[k]);
    var d := c.DonorID(c.receiver[k]);
    assert c.Pair(c.DonorID(c.donor[k])) && c.Pair(c.ReceiverID(c.receiver[k]));
  }

  lemma StartHolds(c: Round, s: Sys)
    requires c.Ok() && Start(c, s)
    ensures Inv(c, s)
  {
  }

  /** What one activation leads to, in terms of pairs. */
  ghost predicate Outcome(c: Round, h: int, l: Local, a: Arrival, l': Local, sends: set<Msg>)
    requires c.Ok() && c.Hub(h)
  {
    var id, rid := c.DonorID(h), c.ReceiverID(h);
    && NodeOk(c, h, l') && Started(l') && (Served(l) ==> l'.stage == Finished)
    && (l.donorProc != UNKNOWN ==> l'.donorProc == l.donorProc)
    && (l.receiverProc != UNKNOWN ==> l'.receiverProc == l.receiverProc)
    && (c.Pair(h) ==> (l'.donorProc != UNKNOWN <==>
          l.donorProc != UNKNOWN || (a.Got? && a.m.DonorRV?) || (l.stage == Counting && c.donor[h] == h)))
    && (c.Pair(h) ==> (l'.receiverProc != UNKNOWN <==>
          l.receiverProc != UNKNOWN || (a.Got? && a.m.ReceiverRV?) || (l.stage == Counting && c.receiver[h] == h)))
    && (l'.stage == Finished && l.stage != Finished && id >= 0 ==> (a.Got? && a.m.Return?) || id == h)
    && (l'.stage == Finished && l.stage != Finished && rid >= 0 ==> a.Got? && a.m.Work?)
    && (forall m | m in sends :: Proper(c, m))
    && (forall k | c.Pair(k) ::
          && (DonorRV(c.donor[k], k) in sends <==> l.stage == Counting && k == id && id != h)
          && (ReceiverRV(c.receiver[k], k) in sends <==> l.stage == Counting && k == rid && rid != h)
          && (Return(c.donor[k], c.receiver[k]) in sends <==> k == h && !Served(l) && Served(l') && c.donor[k] != h)
          && (Work(c.donor[k], c.receiver[k]) in sends <==> k == id && l'.stage == Finished && l.stage != Finished))
  }

  lemma HubNumbers(c: Round, h: int)
    requires c.Ok()
    ensures forall k | c.Pair(k) :: (c.donor[k] == h <==> k == c.DonorID(h)) && (c.receiver[k] == h <==> k == c.ReceiverID(h))
    ensures c.DonorID(h) < 0 || c.ReceiverID(h) < 0
  {
    forall k | c.Pair(k)
      ensures (c.donor[k] == h <==> k == c.DonorID(h)) && (c.receiver[k] == h <==> k == c.ReceiverID(h))
    {
      IndexIsNumber(c, k);
    }
    assert c.DonorID(h) >= 0 ==> c.Pair(c.DonorID(h));
    assert c.ReceiverID(h) >= 0 ==> c.Pair(c.ReceiverID(h));
  }

  lemma RunAside(c: Round, h: int, l: Local)
    requires c.Ok() && c.Hub(h) && l == Local(Counting, UNKNOWN, UNKNOWN, UNKNOWN) && !c.Pair(h)
    ensures var (l', sends) := RunHub(c, h, l, NoMessage); Outcome(c, h, l, NoMessage, l', sends)
  {
    HubNumbers(c, h);
  }

  lemma RunAtPoint(c: Round, h: int, l: Local)
    requires c.Ok() && c.Hub(h) && l == Local(Counting, UNKNOWN, UNKNOWN, UNKNOWN) && c.Pair(h)
    ensures var (l', sends) := RunHub(c, h, l, NoMessage); Outcome(c, h, l, NoMessage, l', sends)
  {
    HubNumbers(c, h);
    HubNumbers(c, c.donor[h]);
  }

  lemma RunFromDonorWait(c: Round, h: int, l: Local, m: Msg)
    requires c.Ok() && c.Hub(h) && NodeOk(c, h, l) && l.stage == DonorWait && m == DonorRV(c.donor[h], h)
    ensures var (l', sends) := RunHub(c, h, l, Got(m)); Outcome(c, h, l, Got(m), l', sends)
  {
    HubNumbers(c, h);
    HubNumbers(c, c.donor[h]);
  }

  lemma RunFromReceiverWait(c: Round, h: int, l: Local, m: Msg)
    requires c.Ok() && c.Hub(h) && NodeOk(c, h, l) && l.stage == ReceiverWait && m == ReceiverRV(c.receiver[h], h)
    ensures var (l', sends) := RunHub(c, h, l, Got(m)); Outcome(c, h, l, Got(m), l', sends)
  {
    HubNumbers(c, h);
    HubNumbers(c, c.donor[h]);
  }

  lemma RunFromLastWaits(c: Round, h: int, l: Local, m: Msg)
    requires c.Ok() && c.Hub(h) && NodeOk(c, h, l)
    requires || (l.stage == ReturnWait && m == Return(h, c.receiver[c.DonorID(h)]))
             || (l.stage == WorkWait && m.Work?)
    ensures var (l', sends) := RunHub(c, h, l, Got(m)); Outcome(c, h, l, Got(m), l', sends)
  {
    HubNumbers(c, h);
  }

  lemma RunOutcome(c: Round, s: Sys, h: int, a: Arrival)
    requires Inv(c, s) && Enabled(c, s, h, a)
    ensures var (l, sends) := RunHub(c, h, s.nodes[h], a); Outcome(c, h, s.nodes[h], a, l, sends)
  {
    var l := s.nodes[h];
    assert NodeOk(c, h, l);
    if a.NoMessage? {
      if c.Pair(h) {
        RunAtPoint(c, h, l);
      } else {
        RunAside(c, h, l);
      }
    } else {
      assert Proper(c, a.m);
      if l.stage == DonorWait {
        RunFromDonorWait(c, h, l, a.m);
      } else if l.stage == ReceiverWait {
        RunFromReceiverWait(c, h, l, a.m);
      } else {
        RunFromLastWaits(c, h, l, a.m);
      }
    }
  }

  /** How one step at hub `h` changes the view; `atPoint`, `atDonor` and `atReceiver` tell which of the three `h` is. */
  ghost predicate ViewStep(v: View, v': View, own: bool, also: bool, atPoint: bool, atDonor: bool, atReceiver: bool,
                           l: Local, l': Local, a: Arrival)
  {
    var gotDonor, gotReceiver := a.Got? && a.m.DonorRV?, a.Got? && a.m.ReceiverRV?;
    var gotReturn, gotWork, first := a.Got? && a.m.Return?, a.Got? && a.m.Work?, l.stage == Counting;
    && (atPoint ==> v.knowsDonor == (l.donorProc != UNKNOWN) && v.knowsReceiver == (l.receiverProc != UNKNOWN)
                    && v.served == Served(l) && v'.served == Served(l'))
    && (atDonor ==> v.donorStarted == Started(l) && v.donorDone == (l.stage == Finished)
                    && v'.donorStarted && v'.donorDone == (l'.stage == Finished))
    && (atReceiver ==> v.receiverStarted == Started(l) && v.receiverDone == (l.stage == Finished)
                       && v'.receiverStarted && v'.receiverDone == (l'.stage == Finished))
    && (!atPoint ==> v'.served == v.served)
    && (!atDonor ==> v'.donorStarted == v.donorStarted && v'.donorDone == v.donorDone)
    && (!atReceiver ==> v'.receiverStarted == v.receiverStarted && v'.receiverDone == v.receiverDone)
    && (v'.knowsDonor <==> v.knowsDonor || (atPoint && (gotDonor || (first && own))))
    && (v'.knowsReceiver <==> v.knowsReceiver || (atPoint && (gotReceiver || (first && also))))
    && (v'.toPoint <==> (v.toPoint && !(atPoint && gotDonor)) || (first && atDonor && !atPoint))
    && (v'.alsoToPoint <==> (v.alsoToPoint && !(atPoint && gotReceiver)) || (first && atReceiver && !atPoint))
    && (v'.back <==> (v.back && !(atDonor && gotReturn)) || (atPoint && !Served(l) && Served(l') && !atDonor))
    && (v'.work <==> (v.work && !(atReceiver && gotWork)) || (atDonor && l'.stage == Finished && l.stage != Finished))
    && (v'.moved <==> v.moved || (atReceiver && gotWork))
    && (atPoint && gotDonor ==> v.toPoint) && (atPoint && gotReceiver ==> v.alsoToPoint)
    && (atDonor && gotReturn ==> v.back) && (atReceiver && gotWork ==> v.work)
  }

  /** What is known about the hub that takes the step. */
  ghost predicate HubStep(l: Local, l': Local, a: Arrival, atPoint: bool, atDonor: bool, atReceiver: bool) {
    && Started(l') && (Served(l) ==> l'.stage == Finished)
    && (atPoint && Served(l') ==> l'.donorProc != UNKNOWN && l'.receiverProc != UNKNOWN)
    && (atDonor && l'.stage == Finished && l.stage != Finished ==> (a.Got? && a.m.Return?) || atPoint)
    && (atReceiver && l'.stage == Finished && l.stage != Finished ==> a.Got? && a.m.Work?)
    && (a.Got? && a.m.Work? ==> l.stage == WorkWait && l'.stage == Finished)
    && (a.Got? && a.m.Return? ==> l.stage == ReturnWait && l'.stage == Finished)
    && (a.Got? && a.m.DonorRV? ==> l.stage == DonorWait) && (a.Got? && a.m.ReceiverRV? ==> l.stage == ReceiverWait)
    && (l.stage == Counting <==> a.NoMessage?)
    && (atPoint && atDonor && Started(l) ==> l.donorProc != UNKNOWN)
  }

  lemma ViewKept(v: View, v': View, own: bool, also: bool, atPoint: bool, atDonor: bool, atReceiver: bool,
                 l: Local, l': Local, a: Arrival)
    requires ViewOk(v, own, also) && ViewStep(v, v', own, also, atPoint, atDonor, atReceiver, l, l', a)
    requires HubStep(l, l', a, atPoint, atDonor, atReceiver)
    requires (own ==> atPoint == atDonor) && (also ==> atPoint == atReceiver) && !(atDonor && atReceiver)
    requires (!own ==> !(atPoint && atDonor)) && (!also ==> !(atPoint && atReceiver))
    requires atPoint && Served(l') ==> v'.knowsDonor && v'.knowsReceiver
    ensures ViewOk(v', own, also)
  {
  }

  /** Which message of pair `k` a step takes off the net, if any. */
  lemma TakenMessage(c: Round, s: Sys, h: int, a: Arrival, k: int)
    requires Inv(c, s) && c.Hub(h) && c.Pair(k) && a.Got? && a.m in s.net && Awaits(s.nodes[h], h, a.m)
    ensures var d, r := c.donor[k], c.receiver[k];
            && (a.m == DonorRV(d, k) <==> h == k && a.m.DonorRV?)
            && (a.m == ReceiverRV(r, k) <==> h == k && a.m.ReceiverRV?)
            && (a.m == Return(d, r) <==> h == d && a.m.Return?)
            && (a.m == Work(d, r) <==> h == r && a.m.Work?)
  {
    assert Proper(c, a.m);
    var p := PairOf(c, a.m);
    IndexIsNumber(c, p);
    IndexIsNumber(c, k);
  }

  /** The step, with what is sent. */
  ghost predicate SteppedWith(c: Round, s: Sys, s': Sys, h: int, a: Arrival, sends: set<Msg>)
    requires c.Ok() && c.Hub(h) && |s.nodes| == c.n
  {
    && |s'.nodes| == c.n && s'.nodes == s.nodes[h := s'.nodes[h]]
    && (a.Got? ==> a.m in s.net && Awaits(s.nodes[h], h, a.m)) && (a.NoMessage? ==> s.nodes[h].stage == Counting)
    && s'.moved == (if a.Got? && a.m.Work? then s.moved + {(a.m.from, h)} else s.moved)
    && s'.net == (if a.Got? then s.net - {a.m} else s.net) + sends
    && Outcome(c, h, s.nodes[h], a, s'.nodes[h], sends)
  }

  lemma StepViews(c: Round, s: Sys, s': Sys, h: int, a: Arrival, sends: set<Msg>, k: int)
    requires Inv(c, s) && c.Hub(h) && c.Pair(k) && SteppedWith(c, s, s', h, a, sends)
    ensures ViewStep(ViewOf(c, s, k), ViewOf(c, s', k), c.donor[k] == k, c.receiver[k] == k,
                     h == k, h == c.donor[k], h == c.receiver[k], s.nodes[h], s'.nodes[h], a)
  {
    assert PairInv(c, s, k) && NodeOk(c, h, s.nodes[h]);
    HubNumbers(c, h);
    if a.Got? {
      TakenMessage(c, s, h, a, k);
    }
    StepNet(c, s, s', h, a, sends, k);
    StepMoved(c, s, s', h, a, sends, k);
  }

  lemma StepNet(c: Round, s: Sys, s': Sys, h: int, a: Arrival, sends: set<Msg>, k: int)
    requires Inv(c, s) && c.Hub(h) && c.Pair(k) && SteppedWith(c, s, s', h, a, sends)
    ensures var d, r, l, l' := c.donor[k], c.receiver[k], s.nodes[h], s'.nodes[h];
            && (DonorRV(d, k) in s'.net <==> (DonorRV(d, k) in s.net && !(h == k && a.Got? && a.m.DonorRV?))
                                             || (l.stage == Counting && h == d && h != k))
            && (ReceiverRV(r, k) in s'.net <==> (ReceiverRV(r, k) in s.net && !(h == k && a.Got? && a.m.ReceiverRV?))
                                                || (l.stage == Counting && h == r && h != k))
            && (Return(d, r) in s'.net <==> (Return(d, r) in s.net && !(h == d && a.Got? && a.m.Return?))
                                            || (h == k && !Served(l) && Served(l') && h != d))
            && (Work(d, r) in s'.net <==> (Work(d, r) in s.net && !(h == r && a.Got? && a.m.Work?))
                                          || (h == d && l'.stage == Finished && l.stage != Finished))
  {
    HubNumbers(c, h);
    if a.Got? {
      TakenMessage(c, s, h, a, k);
    }
    var d, r := c.donor[k], c.receiver[k];
    NetMember(s.net, s'.net, a, sends, DonorRV(d, k));
    NetMember(s.net, s'.net, a, sends, ReceiverRV(r, k));
    NetMember(s.net, s'.net, a, sends, Return(d, r));
    NetMember(s.net, s'.net, a, sends, Work(d, r));
    var l, l' := s.nodes[h], s'.nodes[h];
    assert Outcome(c, h, l, a, l', sends);
  }

  lemma NetMember(net: set<Msg>, net': set<Msg>, a: Arrival, sends: set<Msg>, m: Msg)
    requires net' == (if a.Got? then net - {a.m} else net) + sends
    ensures m in net' <==> (m in net && !(a.Got? && m == a.m)) || m in sends
  {
  }

  lemma MovedMember(moved: set<(int, int)>, moved': set<(int, int)>, a: Arrival, h: int, d: int, r: int)
    requires moved' == (if a.Got? && a.m.Work? then moved + {(a.m.from, h)} else moved)
    requires a.Got? && a.m.Work? ==> a.m.to == h
    ensures (d, r) in moved' <==> (d, r) in moved || (a.Got? && a.m == Work(d, r))
  {
  }

  lemma StepMoved(c: Round, s: Sys, s': Sys, h: int, a: Arrival, sends: set<Msg>, k: int)
    requires Inv(c, s) && c.Hub(h) && c.Pair(k) && SteppedWith(c, s, s', h, a, sends)
    ensures var d, r := c.donor[k], c.receiver[k];
            (d, r) in s'.moved <==> (d, r) in s.moved || (h == r && a.Got? && a.m.Work?)
  {
    MovedMember(s.moved, s'.moved, a, h, c.donor[k], c.receiver[k]);
    if a.Got? {
      TakenMessage(c, s, h, a, k);
    }
  }

  lemma StepPair(c: Round, s: Sys, s': Sys, h: int, a: Arrival, sends: set<Msg>, k: int)
    requires Inv(c, s) && c.Hub(h) && c.Pair(k) && SteppedWith(c, s, s', h, a, sends)
    ensures PairInv(c, s', k)
  {
    var own, also, l, l' := c.donor[k] == k, c.receiver[k] == k, s.nodes[h], s'.nodes[h];
    StepViews(c, s, s', h, a, sends, k);
    HubNumbers(c, h);
    assert PairInv(c, s, k) && NodeOk(c, h, l) && NodeOk(c, h, l');
    ViewKept(ViewOf(c, s, k), ViewOf(c, s', k), own, also, h == k, h == c.donor[k], h == c.receiver[k], l, l', a);
  }

  lemma StepMovesPairs(c: Round, s: Sys, s': Sys, h: int, a: Arrival, sends: set<Msg>)
    requires Inv(c, s) && c.Hub(h) && SteppedWith(c, s, s', h, a, sends)
    ensures forall p | p in s'.moved :: exists k :: c.Pair(k) && p == (c.donor[k], c.receiver[k])
  {
    if a.Got? && a.m.Work? {
      assert Proper(c, a.m);
      IndexIsNumber(c, PairOf(c, a.m));
    }
  }

  lemma StepKeepsPairs(c: Round, s: Sys, s': Sys, h: int, a: Arrival, sends: set<Msg>)
    requires Inv(c, s) && c.Hub(h) && SteppedWith(c, s, s', h, a, sends)
    ensures forall k | c.Pair(k) :: PairInv(c, s', k)
  {
    forall k | c.Pair(k) ensures PairInv(c, s', k) {
      StepPair(c, s, s', h, a, sends, k);
    }
  }

  lemma SteppedKeepsInv(c: Round, s: Sys, s': Sys, h: int, a: Arrival, sends: set<Msg>)
    requires Inv(c, s) && c.Hub(h) && SteppedWith(c, s, s', h, a, sends)
    ensures Inv(c, s')
  {
    StepKeepsPairs(c, s, s', h, a, sends);
    StepMovesPairs(c, s, s', h, a, sends);
  }

  lemma RunsKeepsInv(c: Round, s: Sys, s': Sys, h: int, a: Arrival)
    requires Inv(c, s) && Runs(c, s, s', h, a)
    ensures Inv(c, s')
  {
    RunOutcome(c, s, h, a);
    SteppedKeepsInv(c, s, s', h, a, RunHub(c, h, s.nodes[h], a).1);
  }

  lemma MovesKeepsInv(c: Round, s: Sys, s': Sys)
    requires Inv(c, s) && Moves(c, s, s')
    ensures Inv(c, s')
  {
    var h, a :| Runs(c, s, s', h, a);
    RunsKeepsInv(c, s, s', h, a);
  }

  lemma {:induction false} InvHolds(c: Round, run: seq<Sys>, i: nat)
    requires c.Ok() && IsRun(c, run) && i < |run|
    ensures Inv(c, run[i])
  {
    if i == 0 {
      InvAtStart(c, run);
    } else {
      InvHolds(c, run, i - 1);
      InvAtStep(c, run, i);
    }
  }

  lemma InvAtStart(c: Round, run: seq<Sys>)
    requires c.Ok() && IsRun(c, run)
    ensures Inv(c, run[0])
  {
    StartHolds(c, run[0]);
  }

  lemma InvAtStep(c: Round, run: seq<Sys>, i: nat)
    requires IsRun(c, run) && 0 < i < |run| && Inv(c, run[i - 1])
    ensures Inv(c, run[i])
  {
    RunMoves(c, run, i);
    MovesKeepsInv(c, run[i - 1], run[i]);
  }

  lemma RunMoves(c: Round, run: seq<Sys>, i: nat)
    requires IsRun(c, run) && 0 < i < |run|
    ensures Moves(c, run[i - 1], run[i])
  {
  }

  // ---------- What a round achieves ----------

  /** Work only ever moves from a donor to the receiver with the same number, and a donor that has
      learnt its receiver has learnt the right one. */
  lemma OnlyPairsExchange(c: Round, run: seq<Sys>, i: nat)
    requires c.Ok() && IsRun(c, run) && i < |run|
    ensures forall f, t | (f, t) in run[i].moved :: exists k :: c.Pair(k) && c.donor[k] == f && c.receiver[k] == t
    ensures forall h | c.Hub(h) && run[i].nodes[h].myReceiver != UNKNOWN ::
              c.DonorID(h) >= 0 && run[i].nodes[h].myReceiver == c.receiver[c.DonorID(h)]
  {
    InvHolds(c, run, i);
    forall f, t | (f, t) in run[i].moved
      ensures exists k :: c.Pair(k) && c.donor[k] == f && c.receiver[k] == t
    {
      var k :| c.Pair(k) && (f, t) == (c.donor[k], c.receiver[k]);
    }
    forall h | c.Hub(h) && run[i].nodes[h].myReceiver != UNKNOWN
      ensures c.DonorID(h) >= 0 && run[i].nodes[h].myReceiver == c.receiver[c.DonorID(h)]
    {
      assert NodeOk(c, h, run[i].nodes[h]);
    }
  }

  /** When all hubs are through, work has moved in every pair, every donor has learnt its own receiver,
      and nothing is left under way. */
  lemma RoundCompletes(c: Round, run: seq<Sys>, i: nat)
    requires c.Ok() && IsRun(c, run) && i < |run|
    requires forall h | c.Hub(h) :: run[i].nodes[h].stage == Finished
    ensures forall k | c.Pair(k) :: (c.donor[k], c.receiver[k]) in run[i].moved
    ensures forall k | c.Pair(k) :: run[i].nodes[c.donor[k]].myReceiver == c.receiver[k]
    ensures run[i].net == {}
  {
    InvHolds(c, run, i);
    var s := run[i];
    forall k | c.Pair(k) ensures (c.donor[k], c.receiver[k]) in s.moved && s.nodes[c.donor[k]].myReceiver == c.receiver[k] {
      assert PairInv(c, s, k) && NodeOk(c, c.donor[k], s.nodes[c.donor[k]]);
      IndexIsNumber(c, k);
    }
    forall m ensures m !in s.net {
      NothingUnderWay(c, s, m);
    }
  }

  lemma NothingUnderWay(c: Round, s: Sys, m: Msg)
    requires Inv(c, s) && forall h | c.Hub(h) :: s.nodes[h].stage == Finished
    ensures m !in s.net
  {
    assert m in s.net ==> Proper(c, m);
    if Proper(c, m) {
      assert PairInv(c, s, PairOf(c, m));
      IndexIsNumber(c, PairOf(c, m));
    }
  }

  /** Before that, some hub can always go on: a round never deadlocks. */
  lemma RoundNeverStuck(c: Round, run: seq<Sys>, i: nat, h: int) returns (x: int, a: Arrival)
    requires c.Ok() && IsRun(c, run) && i < |run| && c.Hub(h) && run[i].nodes[h].stage != Finished
    ensures Enabled(c, run[i], x, a)
  {
    InvHolds(c, run, i);
    x, a := SomeoneCanGo(c, run[i], h);
  }

  lemma SomeoneCanGo(c: Round, s: Sys, h: int) returns (x: int, a: Arrival)
    requires Inv(c, s) && c.Hub(h) && s.nodes[h].stage != Finished
    ensures Enabled(c, s, x, a)
  {
    assert NodeOk(c, h, s.nodes[h]);
    match s.nodes[h].stage {
      case Counting => x, a := h, NoMessage;
      case DonorWait => x, a := PointCanGo(c, s, h);
      case ReceiverWait => x, a := PointCanGo(c, s, h);
      case ReturnWait => x, a := DonorCanGo(c, s, h);
      case WorkWait =>
        var k := c.ReceiverID(h);
        var d := c.donor[k];
        IndexIsNumber(c, k);
        assert PairInv(c, s, k) && NodeOk(c, d, s.nodes[d]);
        if s.nodes[d].stage == Finished {
          x, a := h, Got(Work(d, h));
        } else if s.nodes[d].stage == Counting {
          x, a := d, NoMessage;
        } else if s.nodes[d].stage == ReturnWait {
          x, a := DonorCanGo(c, s, d);
        } else {
          x, a := PointCanGo(c, s, d);
        }
    }
  }

  /** A meeting point waits for nothing but messages that hubs send when they start. */
  lemma PointCanGo(c: Round, s: Sys, k: int) returns (x: int, a: Arrival)
    requires Inv(c, s) && c.Hub(k) && (s.nodes[k].stage == DonorWait || s.nodes[k].stage == ReceiverWait)
    ensures Enabled(c, s, x, a)
  {
    assert NodeOk(c, k, s.nodes[k]) && PairInv(c, s, k);
    var other := if s.nodes[k].stage == DonorWait then c.donor[k] else c.receiver[k];
    if s.nodes[other].stage == Counting {
      x, a := other, NoMessage;
    } else if s.nodes[k].stage == DonorWait {
      x, a := k, Got(DonorRV(other, k));
    } else {
      x, a := k, Got(ReceiverRV(other, k));
    }
  }

  /** A donor waits for its meeting point, which in turn can always go on. */
  lemma DonorCanGo(c: Round, s: Sys, d: int) returns (x: int, a: Arrival)
    requires Inv(c, s) && c.Hub(d) && s.nodes[d].stage == ReturnWait
    ensures Enabled(c, s, x, a)
  {
    assert NodeOk(c, d, s.nodes[d]);
    var k := c.DonorID(d);
    assert PairInv(c, s, k) && NodeOk(c, k, s.nodes[k]);
    if s.nodes[k].stage == Counting {
      x, a := k, NoMessage;
    } else if Served(s.nodes[k]) {
      x, a := d, Got(Return(d, c.receiver[k]));
    } else {
      x, a := PointCanGo(c, s, k);
    }
  }

  /** How many activations a hub still has before it. */
  function StepsLeft(l: Local): int {
    match l.stage
    case Counting => 4
    case DonorWait => 3
    case ReceiverWait => 2
    case ReturnWait => 1
    case WorkWait => 1
    case Finished => 0
  }

  ghost function StepsAt(s: Sys): int -> int { h => if 0 <= h < |s.nodes| then StepsLeft(s.nodes[h]) else 0 }

  ghost function AllStepsLeft(c: Round, s: Sys): int { Sum(c.n, StepsAt(s)) }

  lemma RunAdvances(c: Round, h: int, l: Local, a: Arrival)
    requires if a.Got? then Awaits(l, h, a.m) else l.stage == Counting
    ensures StepsLeft(RunHub(c, h, l, a).0) < StepsLeft(l)
  {
  }

  lemma RunsMakesProgress(c: Round, s: Sys, s': Sys, h: int, a: Arrival)
    requires |s.nodes| == c.n && Runs(c, s, s', h, a)
    ensures AllStepsLeft(c, s') < AllStepsLeft(c, s)
  {
    RunAdvances(c, h, s.nodes[h], a);
    SumBump(c.n, StepsAt(s), StepsAt(s'), h, StepsAt(s')(h) - StepsAt(s)(h));
  }

  lemma MoveMakesProgress(c: Round, s: Sys, s': Sys)
    requires |s.nodes| == c.n && Moves(c, s, s')
    ensures AllStepsLeft(c, s') < AllStepsLeft(c, s)
  {
    var h, a :| Runs(c, s, s', h, a);
    RunsMakesProgress(c, s, s', h, a);
  }

  /** A round of `n` hubs is over after at most `4 * n` activations. */
  lemma {:induction false} RoundIsFinite(c: Round, run: seq<Sys>, i: nat)
    requires c.Ok() && IsRun(c, run) && i < |run|
    ensures 0 <= AllStepsLeft(c, run[i]) <= 4 * c.n - i
  {
    SumZero(c.n, StepsAt(run[i]), 0);
    if i == 0 {
      AtMostFourEach(c.n, StepsAt(run[0]));
    } else {
      RoundIsFinite(c, run, i - 1);
      RunMoves(c, run, i);
      MoveMakesProgress(c, run[i - 1], run[i]);
    }
  }

  lemma {:induction false} AtMostFourEach(n: nat, f: int -> int)
    requires forall h | 0 <= h < n :: f(h) <= 4
    ensures Sum(n, f) <= 4 * n
  {
    if n > 0 {
      AtMostFourEach(n - 1, f);
    }
  }
}
