/** Asynchronous broadcast of improved incumbents over trees rooted at the finder, as in
    `incumbCast.cpp` and `parBranchThreads.cpp`.  A processor relays what improves its own
    incumbent and silently discards everything else. */
module IncumbentBroadcast {
  import opened TreeTopology

  /** An incumbent value with the rank that found it. */
  datatype Pair = Pair(value: real, source: int)

  /** `content.source` travels as the originator, which is also the root of the tree. */
  datatype Message = Message(dst: int, content: Pair)

  datatype Machine = Machine(size: nat, radix: nat, sense: int, initial: Pair)
  {
    predicate Ok() {
      size >= 1 && radix >= 1 && (sense == 1 || sense == -1)
    }

    predicate Rank(p: int) { 0 <= p < size }

    function Tree(root: nat): Shape { Shape(radix, root, size) }
  }

  /** What is accepted: a better value, or the same value from a lower rank. */
  predicate Better(sense: int, a: Pair, b: Pair) {
    || (a.value - b.value) * (sense as real) < 0.0
    || (a.value == b.value && a.source < b.source)
  }

  predicate NoWorse(sense: int, a: Pair, b: Pair) { !Better(sense, b, a) }

  /** The value is strictly better: lower when minimizing, higher when maximizing. */
  predicate Beats(sense: int, x: real, y: real) { if sense == 1 then x < y else y < x }

  /** Nothing in `known` has a better value than `a`, and nothing with its value comes from a lower rank. */
  predicate BestOf(sense: int, a: Pair, known: set<Pair>) {
    forall b | b in known :: !Beats(sense, b.value, a.value) && (b.value == a.value ==> a.source <= b.source)
  }

  lemma NoWorseMeans(sense: int, a: Pair, b: Pair)
    requires sense == 1 || sense == -1
    ensures NoWorse(sense, a, b) <==> !Beats(sense, b.value, a.value) && (b.value == a.value ==> a.source <= b.source)
    ensures Better(sense, a, b) <==> Beats(sense, a.value, b.value) || (a.value == b.value && a.source < b.source)
  {
  }

  lemma NoWorseIsTotalOrder(sense: int, a: Pair, b: Pair, c: Pair)
    requires sense == 1 || sense == -1
    ensures NoWorse(sense, a, a)
    ensures NoWorse(sense, a, b) || NoWorse(sense, b, a)
    ensures NoWorse(sense, a, b) && NoWorse(sense, b, a) ==> a == b
    ensures NoWorse(sense, a, b) && NoWorse(sense, b, c) ==> NoWorse(sense, a, c)
    ensures Better(sense, a, b) ==> NoWorse(sense, a, b)
  {
    var r := sense as real;
    assert r == 1.0 || r == -1.0;
  }

  /** What processor `v` sends when it starts or relays the broadcast of `a`. */
  function Fanout(m: Machine, v: int, a: Pair): (msgs: seq<Message>)
    requires m.Ok() && m.Rank(v) && m.Rank(a.source)
    ensures |msgs| == Max(m.Tree(a.source).Degree(v), 0)
    ensures forall i | 0 <= i < |msgs| :: msgs[i] == Message(m.Tree(a.source).ChildAt(v, i), a)
  {
    var t := m.Tree(a.source);
    seq(Max(t.Degree(v), 0), i => Message(t.ChildAt(v, i), a))
  }

  /** The thread object of one processor. */
  class IncumbentCaster {
    const machine: Machine
    const rank: nat
    var incumbentValue: real
    var incumbentSource: int
    var originator: int
    var needPruning: bool
    var sent: seq<Message>

    ghost predicate Valid() reads this { machine.Ok() && machine.Rank(rank) }

    function Incumbent(): Pair reads this { Pair(incumbentValue, incumbentSource) }

    constructor (machine: Machine, rank: nat)
      requires machine.Ok() && machine.Rank(rank)
      ensures Valid() && this.machine == machine && this.rank == rank
      ensures Incumbent() == machine.initial && sent == [] && !needPruning
    {
      this.machine, this.rank := machine, rank;
      incumbentValue, incumbentSource := machine.initial.value, machine.initial.source;
      originator, needPruning, sent := rank, false, [];
    }

    /** Decides whether an arriving incumbent replaces the one held here. */
    method UnloadBuffer(value: real, orig: int) returns (useIt: bool)
      requires Valid()
      modifies this
      ensures Valid() && originator == orig && sent == old(sent)
      ensures useIt <==> Better(machine.sense, Pair(value, orig), old(Incumbent()))
      ensures useIt <==> || Beats(machine.sense, value, old(incumbentValue))
                         || (value == old(incumbentValue) && orig < old(incumbentSource))
      ensures Incumbent() == if useIt then Pair(value, orig) else old(Incumbent())
      ensures needPruning == (old(needPruning) || useIt)
    {
      originator := orig;
      if (value - incumbentValue) * (machine.sense as real) < 0.0 ||
         (value == incumbentValue && originator < incumbentSource) {
        incumbentValue := value;
        incumbentSource := originator;
        needPruning := true;
        return true;
      }
      return false;
    }

    /** Starts (with `initiate`) or continues a broadcast of the present incumbent. */
    method Relay(initiate: bool)
      requires Valid() && (initiate || machine.Rank(originator))
      modifies this
      ensures Valid() && Incumbent() == old(Incumbent()) && needPruning == old(needPruning)
      ensures originator == if initiate then rank else old(originator)
      ensures sent == old(sent) + Fanout(machine, rank, Pair(incumbentValue, originator))
    {
      if initiate {
        originator := rank;
      }
      ghost var todo := Fanout(machine, rank, Pair(incumbentValue, originator));
      var tree := new NAryTree(machine.radix, originator, rank, machine.size);
      while tree.count > 0
        invariant machine.Rank(originator)
        invariant tree.Valid() && tree.shape == machine.Tree(originator) && tree.node == rank
        invariant fresh(tree)
        invariant Valid() && Incumbent() == old(Incumbent()) && needPruning == old(needPruning)
        invariant originator == if initiate then rank else old(originator)
        invariant |todo| == tree.children
        invariant sent == old(sent) + todo[..tree.children - tree.count]
        decreases tree.count
      {
        var c := tree.AdvanceChild();
        sent := sent + [Message(c, Pair(incumbentValue, originator))];
      }
    }

    method HandleMessage(content: Pair)
      requires Valid() && machine.Rank(content.source)
      modifies this
      ensures Valid()
      ensures Incumbent() == Received(machine, old(Incumbent()), content)
      ensures sent == old(sent) + Replies(machine, rank, old(Incumbent()), content)
      ensures needPruning == (old(needPruning) || Incumbent() != old(Incumbent()))
    {
      var continueFlag := UnloadBuffer(content.value, content.source);
      if continueFlag {
        Relay(false);
      }
    }

    /** Called with a new solution; announces it if it improves the incumbent strictly. */
    method FoundSolution(value: real) returns (improved: bool)
      requires Valid()
      modifies this
      ensures Valid()
      ensures improved <==> Improves(machine, value, old(Incumbent()))
      ensures improved <==> Beats(machine.sense, value, old(incumbentValue))
      ensures Incumbent() == if improved then Pair(value, rank) else old(Incumbent())
      ensures sent == old(sent) + if improved then Fanout(machine, rank, Pair(value, rank)) else []
      ensures needPruning == (old(needPruning) || improved)
    {
      improved := false;
      if (machine.sense as real) * (value - incumbentValue) < 0.0 {
        improved := true;
        incumbentValue := value;
        incumbentSource := rank;
        needPruning := true;
        Relay(true);
      }
    }
  }

  predicate Improves(m: Machine, value: real, held: Pair) {
    (m.sense as real) * (value - held.value) < 0.0
  }

  function Received(m: Machine, held: Pair, a: Pair): Pair {
    if Better(m.sense, a, held) then a else held
  }

  function Replies(m: Machine, v: int, held: Pair, a: Pair): seq<Message>
    requires m.Ok() && m.Rank(v) && m.Rank(a.source)
  {
    if Better(m.sense, a, held) then Fanout(m, v, a) else []
  }

  // ---------- The whole machine ----------

  /** `known` and `accepted` are history: every pair announced so far (with the initial one), and
      which processor has adopted which pair. */
  datatype System = System(
    held: seq<Pair>,
    transit: multiset<Message>,
    known: set<Pair>,
    accepted: set<(Pair, int)>)

  ghost predicate WellFormed(m: Machine, s: System) {
    && m.Ok() && |s.held| == m.size
    && forall x | x in s.transit :: m.Rank(x.dst) && m.Rank(x.content.source)
  }

  ghost predicate Init(m: Machine, s: System) {
    && m.Ok()
    && s == System(seq(m.size, _ => m.initial), multiset{}, {m.initial}, {})
  }

  ghost predicate Announce(m: Machine, s: System, s': System, p: int, value: real)
    requires WellFormed(m, s)
  {
    && m.Rank(p) && Improves(m, value, s.held[p])
    && var a := Pair(value, p);
       s' == System(s.held[p := a], s.transit + multiset(Fanout(m, p, a)),
                    s.known + {a}, s.accepted + {(a, p)})
  }

  ghost predicate Deliver(m: Machine, s: System, s': System, x: Message)
    requires WellFormed(m, s)
  {
    && x in s.transit
    && s' == System(
              s.held[x.dst := Received(m, s.held[x.dst], x.content)],
              s.transit - multiset{x} + multiset(Replies(m, x.dst, s.held[x.dst], x.content)),
              s.known,
              if Better(m.sense, x.content, s.held[x.dst])
              then s.accepted + {(x.content, x.dst)} else s.accepted)
  }

  ghost predicate Next(m: Machine, s: System, s': System) {
    && WellFormed(m, s)
    && ((exists p, value :: Announce(m, s, s', p, value)) || (exists x :: Deliver(m, s, s', x)))
  }

  ghost predicate IsRun(m: Machine, run: seq<System>) {
    && |run| > 0 && Init(m, run[0])
    && forall i, j | 0 <= i && j == i + 1 && j < |run| :: Next(m, run[i], run[j])
  }

  // ---------- The invariant ----------

  /** A message on its way that will give `p`, or an ancestor of `p`, something as good as `a`. */
  ghost predicate OnItsWay(m: Machine, s: System, a: Pair, p: int, x: Message)
    requires WellFormed(m, s) && m.Rank(p)
  {
    && x in s.transit && NoWorse(m.sense, x.content, a)
    && m.Tree(x.content.source).Above(x.dst, p)
  }

  ghost predicate Promised(m: Machine, s: System, a: Pair, p: int)
    requires WellFormed(m, s) && m.Rank(p)
  {
    NoWorse(m.sense, s.held[p], a) || exists x :: OnItsWay(m, s, a, p, x)
  }

  /** No pair is ever sent twice to the same processor, and none to a processor that has it. */
  ghost predicate SentOnce(m: Machine, s: System, x: Message)
    requires WellFormed(m, s) && x in s.transit
  {
    && s.transit[x] == 1 && x.content in s.known
    && x.dst != x.content.source
    && (x.content, m.Tree(x.content.source).Parent(x.dst)) in s.accepted
    && (x.content, x.dst) !in s.accepted
  }

  ghost predicate AcceptedOk(m: Machine, s: System, a: Pair, p: int)
    requires WellFormed(m, s)
  {
    && m.Rank(p) && m.Rank(a.source) && a in s.known && NoWorse(m.sense, s.held[p], a)
    && Better(m.sense, a, m.initial)
    && (p != a.source ==> (a, m.Tree(a.source).Parent(p)) in s.accepted)
  }

  ghost predicate HeldOk(m: Machine, s: System, p: int)
    requires WellFormed(m, s) && m.Rank(p)
  {
    s.held[p] in s.known && (s.held[p] == m.initial || (s.held[p], p) in s.accepted)
  }

  ghost predicate Inv(m: Machine, s: System) {
    && WellFormed(m, s)
    && (forall p | m.Rank(p) :: HeldOk(m, s, p))
    && (forall x | x in s.transit :: SentOnce(m, s, x))
    && (forall a, p | (a, p) in s.accepted :: AcceptedOk(m, s, a, p))
    && (forall a, p | a in s.known && m.Rank(p) :: Promised(m, s, a, p))
  }

  lemma {:induction false} DistinctOnce(f: seq<Message>, x: Message)
    requires forall i, j | 0 <= i < j < |f| :: f[i] != f[j]
    ensures multiset(f)[x] <= 1
    ensures x in multiset(f) <==> x in f
  {
    if f != [] {
      var k := |f| - 1;
      assert f == f[..k] + [f[k]];
      DistinctOnce(f[..k], x);
    }
  }

  /** The fan-out of `v` holds one message for each processor directly below `v`, and no other. */
  lemma FanoutCovers(m: Machine, v: int, a: Pair, x: Message)
    requires m.Ok() && m.Rank(v) && m.Rank(a.source)
    ensures x in multiset(Fanout(m, v, a)) <==>
            x.content == a && m.Rank(x.dst) && m.Tree(a.source).Below(v, x.dst)
    ensures multiset(Fanout(m, v, a))[x] <= 1
  {
    var t, f := m.Tree(a.source), Fanout(m, v, a);
    forall i | 0 <= i < |f|
      ensures m.Rank(f[i].dst) && t.Below(v, f[i].dst) && t.WhichChild(f[i].dst) == i
    {
      ChildOfParent(t, v, i);
    }
    forall i, j | 0 <= i < j < |f| ensures f[i] != f[j] {
      assert t.WhichChild(f[i].dst) == i && t.WhichChild(f[j].dst) == j;
    }
    DistinctOnce(f, x);
    if x.content == a && m.Rank(x.dst) && t.Below(v, x.dst) {
      ParentOfChild(t, x.dst);
      assert f[t.WhichChild(x.dst)] == x;
    }
  }

  /** A broadcast of `a` that reaches `v` promises `a` to everything below `v`. */
  lemma FanoutPromises(m: Machine, s': System, v: int, a: Pair, p: int)
    requires WellFormed(m, s') && m.Rank(v) && m.Rank(a.source) && m.Rank(p)
    requires m.Tree(a.source).Above(v, p)
    requires s'.held[v] == a
    requires forall x | x in multiset(Fanout(m, v, a)) :: x in s'.transit
    ensures Promised(m, s', a, p)
  {
    NoWorseIsTotalOrder(m.sense, a, a, a);
    if v != p {
      var c := AboveViaChild(m.Tree(a.source), v, p);
      FanoutCovers(m, v, a, Message(c, a));
      assert OnItsWay(m, s', a, p, Message(c, a));
    }
  }

  lemma PromiseWeakens(m: Machine, s: System, b: Pair, a: Pair, p: int)
    requires WellFormed(m, s) && m.Rank(p)
    requires Promised(m, s, b, p) && NoWorse(m.sense, b, a)
    ensures Promised(m, s, a, p)
  {
    if NoWorse(m.sense, s.held[p], b) {
      NoWorseIsTotalOrder(m.sense, s.held[p], b, a);
    } else {
      var x :| OnItsWay(m, s, b, p, x);
      NoWorseIsTotalOrder(m.sense, x.content, b, a);
      assert OnItsWay(m, s, a, p, x);
    }
  }

  lemma AnnounceKeepsWellFormed(m: Machine, s: System, s': System, p: int, value: real)
    requires Inv(m, s) && Announce(m, s, s', p, value)
    ensures WellFormed(m, s')
  {
    var a := Pair(value, p);
    forall x | x in s'.transit ensures m.Rank(x.dst) && m.Rank(x.content.source) {
      FanoutCovers(m, p, a, x);
    }
  }

  /** A pair that is strictly better than what its finder holds has never been announced. */
  lemma AnnouncedPairIsNew(m: Machine, s: System, p: int, value: real, c: int)
    requires Inv(m, s) && m.Rank(p) && Improves(m, value, s.held[p]) && m.Rank(c)
    ensures (Pair(value, p), p) !in s.accepted
    ensures m.Tree(p).Below(p, c) ==> (Pair(value, p), c) !in s.accepted
    ensures m.Tree(p).Below(p, c) ==> Message(c, Pair(value, p)) !in s.transit
  {
    var a := Pair(value, p);
    assert Better(m.sense, a, s.held[p]);
    assert (a, p) in s.accepted ==> AcceptedOk(m, s, a, p);
    assert (a, c) in s.accepted ==> AcceptedOk(m, s, a, c);
    assert Message(c, a) in s.transit ==> SentOnce(m, s, Message(c, a));
  }

  lemma AnnounceSendsOnce(m: Machine, s: System, s': System, p: int, value: real, x: Message)
    requires Inv(m, s) && Announce(m, s, s', p, value) && WellFormed(m, s') && x in s'.transit
    ensures SentOnce(m, s', x)
  {
    FanoutCovers(m, p, Pair(value, p), x);
    AnnouncedPairIsNew(m, s, p, value, x.dst);
    if x in s.transit {
      assert SentOnce(m, s, x);
    }
  }

  lemma AnnounceKeepsPromise(m: Machine, s: System, s': System, p: int, value: real, b: Pair, q: int)
    requires Inv(m, s) && Announce(m, s, s', p, value) && WellFormed(m, s')
    requires b in s'.known && m.Rank(q)
    ensures Promised(m, s', b, q)
  {
    var a := Pair(value, p);
    if b == a {
      RootAboveAll(m.Tree(p), q);
      FanoutPromises(m, s', p, a, q);
    } else {
      assert Promised(m, s, b, q);
      NoWorseIsTotalOrder(m.sense, a, s.held[p], b);
      if !NoWorse(m.sense, s.held[q], b) {
        var x :| OnItsWay(m, s, b, q, x);
        assert OnItsWay(m, s', b, q, x);
      }
    }
  }

  lemma AnnounceKeepsInv(m: Machine, s: System, s': System, p: int, value: real)
    requires Inv(m, s) && Announce(m, s, s', p, value)
    ensures Inv(m, s')
  {
    var a := Pair(value, p);
    AnnounceKeepsWellFormed(m, s, s', p, value);
    NoWorseIsTotalOrder(m.sense, a, s.held[p], a);
    forall q | m.Rank(q) ensures HeldOk(m, s', q) {
      assert HeldOk(m, s, q);
    }
    forall x | x in s'.transit ensures SentOnce(m, s', x) {
      AnnounceSendsOnce(m, s, s', p, value, x);
    }
    forall b, q | (b, q) in s'.accepted ensures AcceptedOk(m, s', b, q) {
      if (b, q) in s.accepted {
        assert AcceptedOk(m, s, b, q);
        NoWorseIsTotalOrder(m.sense, a, s.held[p], b);
      }
    }
    forall b, q | b in s'.known && m.Rank(q) ensures Promised(m, s', b, q) {
      AnnounceKeepsPromise(m, s, s', p, value, b, q);
    }
  }

  lemma DeliverKeepsWellFormed(m: Machine, s: System, s': System, x: Message)
    requires Inv(m, s) && Deliver(m, s, s', x)
    ensures WellFormed(m, s')
  {
    forall y | y in s'.transit ensures m.Rank(y.dst) && m.Rank(y.content.source) {
      FanoutCovers(m, x.dst, x.content, y);
    }
  }

  lemma AcceptSendsOnce(m: Machine, s: System, s': System, x: Message, y: Message)
    requires Inv(m, s) && Deliver(m, s, s', x) && Better(m.sense, x.content, s.held[x.dst])
    requires WellFormed(m, s') && y in s'.transit
    ensures SentOnce(m, s', y)
  {
    var a, d := x.content, x.dst;
    assert SentOnce(m, s, x);
    FanoutCovers(m, d, a, y);
    assert (a, y.dst) in s.accepted ==> AcceptedOk(m, s, a, y.dst);
    if y in s.transit {
      assert SentOnce(m, s, y);
    }
  }

  lemma AcceptKeepsPromise(m: Machine, s: System, s': System, x: Message, b: Pair, q: int)
    requires Inv(m, s) && Deliver(m, s, s', x) && Better(m.sense, x.content, s.held[x.dst])
    requires WellFormed(m, s') && b in s.known && m.Rank(q)
    ensures Promised(m, s', b, q)
  {
    var a, d := x.content, x.dst;
    assert Promised(m, s, b, q);
    NoWorseIsTotalOrder(m.sense, a, s.held[d], b);
    if !NoWorse(m.sense, s.held[q], b) {
      var y :| OnItsWay(m, s, b, q, y);
      if y == x {
        FanoutPromises(m, s', d, a, q);
        PromiseWeakens(m, s', a, b, q);
      } else {
        assert OnItsWay(m, s', b, q, y);
      }
    }
  }

  /** Delivery of a message that improves the incumbent of its destination. */
  lemma AcceptKeepsInv(m: Machine, s: System, s': System, x: Message)
    requires Inv(m, s) && Deliver(m, s, s', x) && Better(m.sense, x.content, s.held[x.dst])
    ensures Inv(m, s')
  {
    DeliverKeepsWellFormed(m, s, s', x);
    var a, d := x.content, x.dst;
    assert SentOnce(m, s, x);
    forall q | m.Rank(q) ensures HeldOk(m, s', q) {
      assert HeldOk(m, s, q);
    }
    forall y | y in s'.transit ensures SentOnce(m, s', y) {
      AcceptSendsOnce(m, s, s', x, y);
    }
    forall b, q | (b, q) in s'.accepted ensures AcceptedOk(m, s', b, q) {
      if (b, q) in s.accepted {
        assert AcceptedOk(m, s, b, q);
      }
      NoWorseIsTotalOrder(m.sense, a, s.held[d], b);
    }
    forall b, q | b in s'.known && m.Rank(q) ensures Promised(m, s', b, q) {
      AcceptKeepsPromise(m, s, s', x, b, q);
    }
  }

  /** Delivery of a message that is thrown away: whatever it promised below its destination is
      promised by what the destination already holds. */
  lemma DiscardKeepsInv(m: Machine, s: System, s': System, x: Message)
    requires Inv(m, s) && Deliver(m, s, s', x) && !Better(m.sense, x.content, s.held[x.dst])
    ensures Inv(m, s')
  {
    DeliverKeepsWellFormed(m, s, s', x);
    assert SentOnce(m, s, x);
    var b := s.held[x.dst];
    assert HeldOk(m, s, x.dst);
    assert b != x.content;
    assert s'.transit == s.transit - multiset{x};
    assert s'.held == s.held;
    forall q | m.Rank(q) ensures HeldOk(m, s', q) {
      assert HeldOk(m, s, q);
    }
    forall y | y in s'.transit ensures SentOnce(m, s', y) {
      assert SentOnce(m, s, y);
    }
    forall a, q | (a, q) in s'.accepted ensures AcceptedOk(m, s', a, q) {
      assert AcceptedOk(m, s, a, q);
    }
    forall a, q | a in s'.known && m.Rank(q) ensures Promised(m, s', a, q) {
      assert Promised(m, s, a, q);
      if !NoWorse(m.sense, s.held[q], a) {
        var y :| OnItsWay(m, s, a, q, y);
        if y == x {
          assert Promised(m, s, b, q);
          KeepsOlderPromise(m, s, s', x, b, q);
          NoWorseIsTotalOrder(m.sense, b, x.content, a);
          PromiseWeakens(m, s', b, a, q);
        } else {
          assert OnItsWay(m, s', a, q, y);
        }
      }
    }
  }

  lemma KeepsOlderPromise(m: Machine, s: System, s': System, x: Message, b: Pair, q: int)
    requires WellFormed(m, s) && WellFormed(m, s') && m.Rank(q) && Promised(m, s, b, q)
    requires s'.held == s.held && s'.transit == s.transit - multiset{x}
    requires NoWorse(m.sense, b, x.content) && b != x.content
    ensures Promised(m, s', b, q)
  {
    if !NoWorse(m.sense, s.held[q], b) {
      var z :| OnItsWay(m, s, b, q, z);
      NoWorseIsTotalOrder(m.sense, b, x.content, b);
      assert z != x;
      assert OnItsWay(m, s', b, q, z);
    }
  }

  lemma NextKeepsInv(m: Machine, s: System, s': System)
    requires Inv(m, s) && Next(m, s, s')
    ensures Inv(m, s')
  {
    if p, value :| Announce(m, s, s', p, value) {
      AnnounceKeepsInv(m, s, s', p, value);
    } else {
      var x :| Deliver(m, s, s', x);
      if Better(m.sense, x.content, s.held[x.dst]) {
        AcceptKeepsInv(m, s, s', x);
      } else {
        DiscardKeepsInv(m, s, s', x);
      }
    }
  }

  lemma {:induction false} InvHolds(m: Machine, run: seq<System>, i: nat)
    requires IsRun(m, run) && i < |run|
    ensures Inv(m, run[i])
  {
    if i == 0 {
      NoWorseIsTotalOrder(m.sense, m.initial, m.initial, m.initial);
    } else {
      InvHolds(m, run, i - 1);
      NextKeepsInv(m, run[i - 1], run[i]);
    }
  }

  /** Agreement: in every run, whenever no broadcast message is in transit, all processors hold
      one and the same pair, and it is the best of all pairs announced so far. */
  lemma IncumbentAgreement(m: Machine, run: seq<System>, i: nat, p: int, q: int)
    requires IsRun(m, run) && i < |run| && run[i].transit == multiset{}
    requires m.Rank(p) && m.Rank(q)
    ensures |run[i].held| == m.size && run[i].held[p] == run[i].held[q]
    ensures run[i].held[p] in run[i].known
    ensures forall a | a in run[i].known :: NoWorse(m.sense, run[i].held[p], a)
    ensures BestOf(m.sense, run[i].held[p], run[i].known)
  {
    var s := run[i];
    InvHolds(m, run, i);
    assert HeldOk(m, s, p) && HeldOk(m, s, q);
    forall a, r | a in s.known && m.Rank(r) ensures NoWorse(m.sense, s.held[r], a) {
      assert Promised(m, s, a, r);
    }
    NoWorseIsTotalOrder(m.sense, s.held[p], s.held[q], s.held[p]);
    forall b | b in s.known
      ensures !Beats(m.sense, b.value, s.held[p].value) && (b.value == s.held[p].value ==> s.held[p].source <= b.source)
    {
      NoWorseMeans(m.sense, s.held[p], b);
    }
  }

  lemma KnownStep(m: Machine, s: System, s': System, a: Pair)
    requires Next(m, s, s')
    ensures a in s'.known <==> a in s.known || Announce(m, s, s', a.source, a.value)
  {
    if a in s'.known && a !in s.known {
      var p, value :| Announce(m, s, s', p, value);
      assert a == Pair(value, p);
    }
  }

  /** Step `k` of the run announces `a`. */
  ghost predicate AnnouncedAt(m: Machine, run: seq<System>, k: nat, a: Pair)
    requires k + 1 < |run|
  {
    WellFormed(m, run[k]) && Announce(m, run[k], run[k + 1], a.source, a.value)
  }

  /** What `known` is: the initial pair and every pair announced in the run, nothing else. */
  lemma {:induction false} KnownIsAnnounced(m: Machine, run: seq<System>, i: nat, a: Pair)
    requires IsRun(m, run) && i < |run|
    ensures a in run[i].known <==> a == m.initial || exists k: nat :: k < i && AnnouncedAt(m, run, k, a)
  {
    if i > 0 {
      var k := i - 1;
      KnownIsAnnounced(m, run, k, a);
      KnownStep(m, run[k], run[i], a);
      assert AnnouncedAt(m, run, k, a) <==> Announce(m, run[k], run[i], a.source, a.value);
    }
  }
}
