/** One wave of `coTree.cpp` over an n-ary tree, with the actions of `intSumTree`: sums travel up to
    the root and the total travels back down. */
module TreeWave {
  import opened Sums
  import opened TreeTopology

  datatype Stage = Init | UpWait | DownWait | Done

  /** What one processor knows; `left` counts the children that have not reported. */
  datatype Local = Local(stage: Stage, left: int, runningSum: int, value: int)

  datatype Packet = Up(to: int, amount: int) | Down(to: int, amount: int)

  datatype Arrival = NoMessage | FromChild(amount: int) | FromParent(amount: int)

  function DownPackets(t: Shape, v: int, amount: int): (ps: seq<Packet>)
    requires t.Ok() && t.Node(v)
    ensures |ps| == Max(t.Degree(v), 0)
    ensures forall i | 0 <= i < |ps| :: ps[i] == Down(t.ChildAt(v, i), amount)
  {
    seq(Max(t.Degree(v), 0), i => Down(t.ChildAt(v, i), amount))
  }

  /** What a processor does once all its children have reported. */
  function Reported(t: Shape, v: int, l: Local): (Local, seq<Packet>)
    requires t.Ok() && t.Node(v)
  {
    var l1 := l.(value := l.runningSum);
    if v == t.root then (l1.(stage := Done), DownPackets(t, v, l1.value))
    else (l1.(stage := DownWait), [Up(t.Parent(v), l1.value)])
  }

  /** One call of `run` with at most one message at hand. */
  function RunNode(t: Shape, v: int, l: Local, a: Arrival): (Local, seq<Packet>)
    requires t.Ok() && t.Node(v)
  {
    match (l.stage, a)
    case (Init, _) =>
      var l1 := Local(UpWait, t.Degree(v), l.value, l.value);
      if l1.left == 0 then Reported(t, v, l1) else (l1, [])
    case (UpWait, FromChild(x)) =>
      var l1 := l.(left := l.left - 1, runningSum := l.runningSum + x, value := x);
      if l1.left == 0 then Reported(t, v, l1) else (l1, [])
    case (DownWait, FromParent(x)) =>
      (l.(stage := Done, value := x), DownPackets(t, v, x))
    case _ => (l, [])
  }

  /** States of the coroutine, as in `coTree`. */
  datatype CoState = init | startWait | upLoop | upWait | upRelay | downWait | downRelay | done

  function Rank(s: CoState): nat {
    match s
    case init => 7
    case startWait => 6
    case upWait => 5
    case upLoop => 4
    case upRelay => 3
    case downWait => 2
    case downRelay => 1
    case done => 0
  }

  /** What running on from state `s` leads to; a wait state here has just met its message. */
  ghost function Onward(t: Shape, v: int, s: CoState, left: int, runningSum: int, value: int, a: Arrival)
    : (Local, seq<Packet>)
    requires t.Ok() && t.Node(v)
  {
    match s
    case init => RunNode(t, v, Local(Init, 0, 0, value), a)
    case upWait => RunNode(t, v, Local(UpWait, left, runningSum, value), a)
    case startWait | upLoop => if left == 0 then Reported(t, v, Local(UpWait, 0, runningSum, value))
                   else (Local(UpWait, left, runningSum, value), [])
    case upRelay => Reported(t, v, Local(UpWait, 0, runningSum, value))
    case downWait => RunNode(t, v, Local(DownWait, left, runningSum, value), a)
    case downRelay => (Local(Done, left, runningSum, value), DownPackets(t, v, value))
    case done => (Local(Done, left, runningSum, value), [])
  }

  /** The coroutine object of one processor.  It leaves `Run` whenever it must wait. */
  class SumNode {
    const shape: Shape
    const node: nat
    const tree: NAryTree
    var state: CoState
    var value: int
    var runningSum: int
    var sent: seq<Packet>

    ghost predicate Valid()
      reads this, tree
    {
      && tree.Valid() && tree.shape == shape && tree.node == node && shape.Ok() && shape.Node(node)
      && (state == init || state == upWait || state == downWait || state == done)
      && (state == upWait ==> tree.count > 0)
    }

    ghost function View(): Local
      reads this, tree
    {
      match state
      case init => Local(Init, 0, 0, value)
      case upWait => Local(UpWait, tree.count, runningSum, value)
      case downWait => Local(DownWait, tree.count, runningSum, value)
      case _ => Local(Done, tree.count, runningSum, value)
    }

    constructor (shape: Shape, node: nat, value: int)
      requires shape.Ok() && shape.Node(node)
      ensures Valid() && fresh(tree) && this.shape == shape && this.node == node
      ensures View() == Local(Init, 0, 0, value) && sent == []
    {
      this.shape, this.node, this.value := shape, node, value;
      tree := new NAryTree(shape.radix, shape.root, node, shape.size);
      state, runningSum, sent := init, 0, [];
    }

    /** Tells every child the value and finishes. */
    method DownRelay()
      requires tree.Valid() && tree.shape == shape && tree.node == node && shape.Ok() && shape.Node(node)
      modifies this, tree
      ensures Valid() && state == done && value == old(value) && runningSum == old(runningSum)
      ensures tree.count == 0
      ensures sent == old(sent) + DownPackets(shape, node, value)
    {
      tree.ResetChildren();
      ghost var todo := DownPackets(shape, node, value);
      while tree.count > 0
        invariant tree.Valid() && tree.shape == shape && tree.node == node
        invariant value == old(value) && runningSum == old(runningSum) && |todo| == tree.children
        invariant sent == old(sent) + todo[..tree.children - tree.count]
        decreases tree.count
      {
        var c := tree.AdvanceChild();
        sent := sent + [Down(c, value)];
      }
      state := done;
    }

    ghost predicate Linked()
      reads this, tree
    {
      && tree.Valid() && tree.shape == shape && tree.node == node && shape.Ok() && shape.Node(node)
      && (state == upRelay ==> tree.count == 0) && (state == upWait ==> tree.count > 0)
    }

    ghost function Ahead(a: Arrival): (Local, seq<Packet>)
      requires Linked()
      reads this, tree
    {
      Onward(shape, node, state, tree.count, runningSum, value, a)
    }

    predicate Collecting()
      reads this
    {
      state == init || state == startWait || state == upLoop || state == upWait
    }

    /** The cases of the switch that collect from the children. */
    method Collect(a: Arrival) returns (canContinue: bool)
      requires Linked() && Collecting()
      modifies this, tree
      ensures Linked()
      ensures canContinue ==> Rank(state) < Rank(old(state)) && Same(Ahead(a).0, old(Ahead(a)).0)
                              && sent + Ahead(a).1 == old(sent) + old(Ahead(a)).1
      ensures !canContinue ==> Valid() && Same(View(), old(Ahead(a)).0) && sent == old(sent) + old(Ahead(a)).1
    {
      canContinue := false;
      match state {
        case init =>
          tree.ResetChildren();
          runningSum := value;
          state := startWait;
          canContinue := true;
        case startWait =>
          state := upLoop;
          canContinue := true;
        case upLoop =>
          if tree.count == 0 {
            state := upRelay;
            canContinue := true;
          } else {
            state := upWait;
          }
        case upWait =>
          if a.FromChild? {
            value := a.amount;
            runningSum := runningSum + value;
            var c := tree.AdvanceChild();
            state := upLoop;
            canContinue := true;
          }
      }
    }

    /** The cases that pass the sum up and the result down. */
    method Relay(a: Arrival) returns (canContinue: bool)
      requires Linked() && !Collecting()
      modifies this, tree
      ensures Linked()
      ensures canContinue ==> Rank(state) < Rank(old(state)) && Same(Ahead(a).0, old(Ahead(a)).0)
                              && sent + Ahead(a).1 == old(sent) + old(Ahead(a)).1
      ensures !canContinue ==> Valid() && Same(View(), old(Ahead(a)).0) && sent == old(sent) + old(Ahead(a)).1
    {
      canContinue := false;
      match state {
        case upRelay =>
          value := runningSum;
          if node == shape.root {
            state := downRelay;
            canContinue := true;
          } else {
            sent := sent + [Up(shape.Parent(node), value)];
            state := downWait;
          }
        case downWait =>
          if a.FromParent? {
            value := a.amount;
            state := downRelay;
            canContinue := true;
          }
        case downRelay =>
          DownRelay();
        case done =>
      }
    }

    /** One pass through the switch; returns whether to go on at once. */
    method Step(a: Arrival) returns (canContinue: bool)
      requires Linked()
      modifies this, tree
      ensures Linked()
      ensures canContinue ==> Rank(state) < Rank(old(state)) && Same(Ahead(a).0, old(Ahead(a)).0)
                              && sent + Ahead(a).1 == old(sent) + old(Ahead(a)).1
      ensures !canContinue ==> Valid() && Same(View(), old(Ahead(a)).0) && sent == old(sent) + old(Ahead(a)).1
    {
      if Collecting() {
        canContinue := Collect(a);
      } else {
        canContinue := Relay(a);
      }
    }

    /** Runs until the next receive; returns whether the wave still needs this processor. */
    method Run(a: Arrival) returns (more: bool)
      requires Valid()
      modifies this, tree
      ensures Valid() && more == (state != done)
      ensures Same(View(), RunNode(shape, node, old(View()), a).0)
      ensures sent == old(sent) + RunNode(shape, node, old(View()), a).1
    {
      ghost var goal, sent0 := Ahead(a), sent;
      var canContinue := true;
      while canContinue
        invariant Linked()
        invariant canContinue ==> Same(Ahead(a).0, goal.0) && sent + Ahead(a).1 == sent0 + goal.1
        invariant !canContinue ==> Valid() && Same(View(), goal.0) && sent == sent0 + goal.1
        decreases canContinue, Rank(state)
      {
        canContinue := Step(a);
      }
      return state != done;
    }
  }

  /** Two views agree on everything that still matters. */
  predicate Same(a: Local, b: Local) {
    && a.stage == b.stage && a.value == b.value
    && (a.stage == UpWait ==> a.left == b.left && a.runningSum == b.runningSum)
  }

  // ---------- The whole tree ----------

  datatype Mail = Nil | Some(amount: int)

  /** `up[c]` is on its way from `c` to its parent and `down[c]` to `c`; `taken` is history. */
  datatype Wave = Wave(nodes: seq<Local>, up: seq<Mail>, down: seq<Mail>, taken: seq<set<int>>)

  ghost predicate Sized(t: Shape, w: Wave) {
    && t.Ok() && |w.nodes| == |w.up| == |w.down| == |w.taken| == t.size
  }

  function SentUp(ps: seq<Packet>, before: Mail): Mail {
    if ps != [] && ps[0].Up? then Some(ps[0].amount) else before
  }

  ghost function SentDown(ps: seq<Packet>, c: int, before: Mail): Mail {
    if ps == [] then before
    else if ps[0].Down? && ps[0].to == c then Some(ps[0].amount)
    else SentDown(ps[1..], c, before)
  }

  /** Processor `v` runs with message `a`, which came from its child `c` if it came from below. */
  ghost predicate Runs(t: Shape, w: Wave, w': Wave, v: int, a: Arrival, c: int)
    requires Sized(t, w)
  {
    && t.Node(v) && Sized(t, w')
    && (match a
        case NoMessage => w.nodes[v].stage == Init
        case FromChild(x) => w.nodes[v].stage == UpWait && t.Node(c) && t.Below(v, c) && w.up[c] == Some(x)
        case FromParent(x) => w.nodes[v].stage == DownWait && w.down[v] == Some(x))
    && var (l, ps) := RunNode(t, v, w.nodes[v], a);
       && w'.nodes == w.nodes[v := l]
       && w'.taken == (if a.FromChild? then w.taken[v := w.taken[v] + {c}] else w.taken)
       && (forall q | t.Node(q) ::
             && w'.up[q] == (if q == v then SentUp(ps, w.up[q]) else if a.FromChild? && q == c then Nil else w.up[q])
             && w'.down[q] == SentDown(ps, q, if a.FromParent? && q == v then Nil else w.down[q]))
  }

  ghost predicate Start(t: Shape, input: seq<int>, w: Wave) {
    && Sized(t, w) && |input| == t.size
    && forall v | t.Node(v) ::
         w.nodes[v] == Local(Init, 0, 0, input[v]) && w.up[v] == Nil && w.down[v] == Nil && w.taken[v] == {}
  }

  ghost predicate IsRun(t: Shape, input: seq<int>, run: seq<Wave>) {
    && |run| > 0 && Start(t, input, run[0]) && (forall i | 0 <= i < |run| :: Sized(t, run[i]))
    && forall i, j | 0 <= i && j == i + 1 && j < |run| :: exists v, a, c :: Runs(t, run[i], run[j], v, a, c)
  }

  // ---------- Sums over subtrees ----------

  ghost function Children(t: Shape, v: int): set<int>
    requires t.Ok() && t.Node(v)
  {
    set w | 0 <= w < t.size && t.Below(v, w)
  }

  ghost function Term(t: Shape, input: seq<int>, v: int, taken: set<int>): int -> int
    requires t.Ok() && |input| == t.size
  {
    w => if t.Node(w) && (w == v || exists c :: c in taken && t.Node(c) && t.Above(c, w)) then input[w] else 0
  }

  ghost function UnderTerm(t: Shape, input: seq<int>, v: int): int -> int
    requires t.Ok() && |input| == t.size
  {
    w => if t.Node(w) && t.Above(v, w) then input[w] else 0
  }

  /** The sum of the inputs of `v` and of everything below it. */
  ghost function Under(t: Shape, input: seq<int>, v: int): int
    requires t.Ok() && |input| == t.size
  {
    Sum(t.size, UnderTerm(t, input, v))
  }

  ghost function SumSoFar(t: Shape, input: seq<int>, v: int, taken: set<int>): int
    requires t.Ok() && |input| == t.size
  {
    Sum(t.size, Term(t, input, v, taken))
  }

  ghost function InputAt(input: seq<int>): int -> int { w => if 0 <= w < |input| then input[w] else 0 }

  lemma SumAlone(t: Shape, input: seq<int>, v: int)
    requires t.Ok() && |input| == t.size && t.Node(v)
    ensures SumSoFar(t, input, v, {}) == input[v]
  {
    var zero := (w: int) => 0;
    SumZero(t.size, zero, 0);
    SumBump(t.size, zero, Term(t, input, v, {}), v, input[v]);
  }

  /** Taking in a child adds its whole subtree, once. */
  lemma SumTakes(t: Shape, input: seq<int>, v: int, taken: set<int>, c: int)
    requires t.Ok() && |input| == t.size && t.Node(v) && taken <= Children(t, v)
    requires c in Children(t, v) && c !in taken
    ensures SumSoFar(t, input, v, taken + {c}) == SumSoFar(t, input, v, taken) + Under(t, input, c)
  {
    forall w | 0 <= w < t.size
      ensures Term(t, input, v, taken + {c})(w) == Term(t, input, v, taken)(w) + UnderTerm(t, input, c)(w)
    {
      ParentIsCloser(t, c);
      if t.Above(c, w) {
        AboveIsCloser(t, c, w);
        forall d | d in taken && t.Node(d) ensures !t.Above(d, w) {
          if t.Above(d, w) {
            OneChildAbove(t, v, c, d, w);
          }
        }
      }
    }
    SumPlus(t.size, Term(t, input, v, taken), UnderTerm(t, input, c), Term(t, input, v, taken + {c}));
  }

  lemma SumComplete(t: Shape, input: seq<int>, v: int)
    requires t.Ok() && |input| == t.size && t.Node(v)
    ensures SumSoFar(t, input, v, Children(t, v)) == Under(t, input, v)
  {
    forall w | 0 <= w < t.size
      ensures Term(t, input, v, Children(t, v))(w) == UnderTerm(t, input, v)(w)
    {
      if t.Above(v, w) && w != v {
        var c := AboveViaChild(t, v, w);
        assert c in Children(t, v);
      }
      forall c | c in Children(t, v) && t.Above(c, w) ensures t.Above(v, w) {
        AboveExtends(t, v, c, w);
      }
    }
    SumSame(t.size, Term(t, input, v, Children(t, v)), UnderTerm(t, input, v));
  }

  lemma RootSum(t: Shape, input: seq<int>)
    requires t.Ok() && |input| == t.size
    ensures Under(t, input, t.root) == Sum(t.size, InputAt(input))
  {
    forall w | 0 <= w < t.size ensures UnderTerm(t, input, t.root)(w) == InputAt(input)(w) {
      RootAboveAll(t, w);
    }
    SumSame(t.size, UnderTerm(t, input, t.root), InputAt(input));
  }

  /** A processor has as many children as its degree says. */
  lemma ChildrenCounted(t: Shape, v: int)
    requires t.Ok() && t.Node(v)
    ensures |Children(t, v)| == Max(t.Degree(v), 0)
  {
    var d := Max(t.Degree(v), 0);
    var kids := FirstChildren(t, v, d);
    forall w ensures w in kids <==> w in Children(t, v) {
      if w in kids {
        var i :| 0 <= i < d && w == t.ChildAt(v, i);
        ChildOfParent(t, v, i);
      }
      if w in Children(t, v) {
        ParentOfChild(t, w);
      }
    }
    assert kids == Children(t, v);
  }

  lemma {:induction false} FirstChildren(t: Shape, v: int, k: nat) returns (kids: set<int>)
    requires t.Ok() && t.Node(v) && k <= Max(t.Degree(v), 0)
    ensures |kids| == k
    ensures forall w :: w in kids <==> exists i :: 0 <= i < k && w == t.ChildAt(v, i)
  {
    if k == 0 {
      kids := {};
    } else {
      var rest := FirstChildren(t, v, k - 1);
      var w := t.ChildAt(v, k - 1);
      ChildOfParent(t, v, k - 1);
      forall i | 0 <= i < k - 1 ensures t.ChildAt(v, i) != w {
        ChildOfParent(t, v, i);
      }
      kids := rest + {w};
    }
  }

  lemma {:induction false} DownReaches(ps: seq<Packet>, t: Shape, v: int, x: int, c: int, before: Mail)
    requires t.Ok() && t.Node(v)
    requires forall i | 0 <= i < |ps| :: ps[i].Down? && ps[i].amount == x
    ensures SentDown(ps, c, before) == if exists i :: 0 <= i < |ps| && ps[i].to == c then Some(x) else before
  {
    if ps != [] && ps[0].to != c {
      DownReaches(ps[1..], t, v, x, c, before);
      assert forall i | 1 <= i < |ps| :: ps[i] == ps[1..][i - 1];
    }
  }

  lemma DownPacketsReach(t: Shape, v: int, x: int, c: int, before: Mail)
    requires t.Ok() && t.Node(v) && t.Node(c)
    ensures SentDown(DownPackets(t, v, x), c, before) == if t.Below(v, c) then Some(x) else before
  {
    var ps := DownPackets(t, v, x);
    DownReaches(ps, t, v, x, c, before);
    if t.Below(v, c) {
      ParentOfChild(t, c);
      assert ps[t.WhichChild(c)].to == c;
    }
    if i :| 0 <= i < |ps| && ps[i].to == c {
      ChildOfParent(t, v, i);
    }
  }

  // ---------- The invariant ----------

  predicate Contributed(l: Local) { l.stage == DownWait || l.stage == Done }

  ghost predicate NodeOk(t: Shape, input: seq<int>, w: Wave, v: int)
    requires Sized(t, w) && |input| == t.size && t.Node(v)
  {
    var l, kids := w.nodes[v], Children(t, v);
    && w.taken[v] <= kids
    && (l.stage == Init ==> l.value == input[v] && w.taken[v] == {})
    && (l.stage == UpWait ==> l.left == |kids| - |w.taken[v]| && l.left != 0
                              && l.runningSum == SumSoFar(t, input, v, w.taken[v]))
    && (Contributed(l) ==> w.taken[v] == kids)
    && (l.stage == DownWait ==> v != t.root)
    && (l.stage == Done ==> l.value == Under(t, input, t.root))
  }

  /** The two mailboxes between `c` and its parent. */
  ghost predicate LinkOk(t: Shape, input: seq<int>, w: Wave, c: int)
    requires Sized(t, w) && |input| == t.size && t.Node(c)
  {
    if c == t.root then w.up[c] == Nil && w.down[c] == Nil
    else
      var p := t.Parent(c);
      && t.Node(p)
      && (w.up[c].Some? <==> Contributed(w.nodes[c]) && c !in w.taken[p])
      && (w.up[c].Some? ==> w.up[c].amount == Under(t, input, c))
      && (c in w.taken[p] ==> Contributed(w.nodes[c]))
      && (w.down[c].Some? <==> w.nodes[p].stage == Done && w.nodes[c].stage == DownWait)
      && (w.down[c].Some? ==> w.down[c].amount == Under(t, input, t.root))
      && (w.nodes[c].stage == Done ==> w.nodes[p].stage == Done)
  }

  ghost predicate Inv(t: Shape, input: seq<int>, w: Wave) {
    && Sized(t, w) && |input| == t.size
    && forall v | t.Node(v) :: NodeOk(t, input, w, v) && LinkOk(t, input, w, v)
  }

  lemma StartHolds(t: Shape, input: seq<int>, w: Wave)
    requires Start(t, input, w)
    ensures Inv(t, input, w)
  {
    forall v | t.Node(v) ensures NodeOk(t, input, w, v) && LinkOk(t, input, w, v) {
      if v != t.root {
        ParentIsCloser(t, v);
      }
    }
  }

  /** The children `v` has heard from once it has run. */
  ghost function TakenAfter(w: Wave, v: int, a: Arrival, c: int): set<int>
    requires 0 <= v < |w.taken|
  {
    if a.FromChild? then w.taken[v] + {c} else w.taken[v]
  }

  /** Running `v` on the way up: it knows the sum so far, or has heard from every child and hands the
      sum of its subtree on. */
  lemma UpStep(t: Shape, input: seq<int>, w: Wave, v: int, a: Arrival, c: int)
    requires Inv(t, input, w) && t.Node(v)
    requires || (a.NoMessage? && w.nodes[v].stage == Init)
             || (a.FromChild? && w.nodes[v].stage == UpWait && t.Node(c) && t.Below(v, c) && w.up[c] == Some(a.amount))
    ensures var (l, ps) := RunNode(t, v, w.nodes[v], a);
            var taken := TakenAfter(w, v, a, c);
            && taken <= Children(t, v)
            && (l.stage == UpWait ==> ps == [] && l.left == |Children(t, v)| - |taken| && l.left != 0
                                      && l.runningSum == SumSoFar(t, input, v, taken))
            && (l.stage != UpWait ==> taken == Children(t, v) && l.value == Under(t, input, v)
                                      && l.stage == (if v == t.root then Done else DownWait)
                                      && ps == (if v == t.root then DownPackets(t, v, l.value)
                                                else [Up(t.Parent(v), l.value)]))
  {
    assert NodeOk(t, input, w, v);
    ChildrenCounted(t, v);
    var taken, kids := TakenAfter(w, v, a, c), Children(t, v);
    if a.FromChild? {
      assert LinkOk(t, input, w, c);
      SumTakes(t, input, v, w.taken[v], c);
    } else {
      SumAlone(t, input, v);
    }
    assert taken <= kids;
    if |taken| == |kids| {
      SubsetSizes(taken, kids);
      SumComplete(t, input, v);
    }
  }

  lemma UpKeepsNodes(t: Shape, input: seq<int>, w: Wave, w': Wave, v: int, a: Arrival, c: int, q: int)
    requires Inv(t, input, w) && Runs(t, w, w', v, a, c) && !a.FromParent? && t.Node(q)
    ensures NodeOk(t, input, w', q)
  {
    assert NodeOk(t, input, w, q);
    if q == v {
      UpStep(t, input, w, v, a, c);
    }
  }

  /** What changes when `v` runs on the way up. */
  ghost predicate UpChanged(t: Shape, input: seq<int>, w: Wave, w': Wave, v: int, a: Arrival, c: int)
    requires Sized(t, w) && Sized(t, w') && |input| == t.size && t.Node(v)
  {
    var l := w'.nodes[v];
    && (l.stage == UpWait || l.stage == (if v == t.root then Done else DownWait))
    && (l.stage != UpWait ==> l.value == Under(t, input, v) && TakenAfter(w, v, a, c) == Children(t, v))
    && w'.nodes == w.nodes[v := l] && w'.taken == w.taken[v := TakenAfter(w, v, a, c)]
    && (forall q | t.Node(q) ::
          && w'.up[q] == (if q == v then if l.stage == DownWait then Some(l.value) else w.up[q]
                          else if a.FromChild? && q == c then Nil else w.up[q])
          && w'.down[q] == (if l.stage == Done && t.Below(v, q) then Some(l.value) else w.down[q]))
  }

  lemma UpChanges(t: Shape, input: seq<int>, w: Wave, w': Wave, v: int, a: Arrival, c: int)
    requires Inv(t, input, w) && Runs(t, w, w', v, a, c) && !a.FromParent?
    ensures UpChanged(t, input, w, w', v, a, c)
  {
    UpStep(t, input, w, v, a, c);
    var l, ps := RunNode(t, v, w.nodes[v], a).0, RunNode(t, v, w.nodes[v], a).1;
    forall q | t.Node(q)
      ensures SentDown(ps, q, w.down[q]) == if l.stage == Done && t.Below(v, q) then Some(l.value) else w.down[q]
    {
      if l.stage == Done {
        DownPacketsReach(t, v, l.value, q, w.down[q]);
      }
    }
  }

  /** The link from `v` to its parent after `v` ran on the way up. */
  lemma UpKeepsOwnLink(t: Shape, input: seq<int>, w: Wave, w': Wave, v: int, a: Arrival, c: int)
    requires Inv(t, input, w) && t.Node(v) && Sized(t, w') && UpChanged(t, input, w, w', v, a, c)
    requires w.nodes[v].stage == Init || w.nodes[v].stage == UpWait
    requires a.FromChild? ==> t.Node(c) && t.Below(v, c)
    ensures LinkOk(t, input, w', v)
  {
    assert LinkOk(t, input, w, v);
    if v != t.root {
      ParentIsCloser(t, v);
    }
  }

  /** The links from the children of `v`, and all other links. */
  lemma UpKeepsOtherLink(t: Shape, input: seq<int>, w: Wave, w': Wave, v: int, a: Arrival, c: int, q: int)
    requires Inv(t, input, w) && t.Node(v) && Sized(t, w') && UpChanged(t, input, w, w', v, a, c)
    requires w.nodes[v].stage == Init || w.nodes[v].stage == UpWait
    requires a.FromChild? ==> t.Node(c) && t.Below(v, c) && w.up[c].Some?
    requires t.Node(q) && q != v
    ensures LinkOk(t, input, w', q)
  {
    assert LinkOk(t, input, w, q);
    assert q in Children(t, v) <==> t.Below(v, q);
  }

  lemma DownKeeps(t: Shape, input: seq<int>, w: Wave, w': Wave, v: int, a: Arrival, c: int, q: int)
    requires Inv(t, input, w) && Runs(t, w, w', v, a, c) && a.FromParent? && t.Node(q)
    ensures NodeOk(t, input, w', q) && LinkOk(t, input, w', q)
  {
    assert NodeOk(t, input, w, q) && LinkOk(t, input, w, q) && NodeOk(t, input, w, v) && LinkOk(t, input, w, v);
    DownPacketsReach(t, v, a.amount, q, if q == v then Nil else w.down[q]);
    ParentIsCloser(t, v);
    assert q in Children(t, v) <==> t.Below(v, q);
    assert DownPackets(t, v, a.amount) == [] || DownPackets(t, v, a.amount)[0].Down?;
  }

  lemma UpKeeps(t: Shape, input: seq<int>, w: Wave, w': Wave, v: int, a: Arrival, c: int, q: int)
    requires Inv(t, input, w) && Runs(t, w, w', v, a, c) && !a.FromParent? && t.Node(q)
    ensures NodeOk(t, input, w', q) && LinkOk(t, input, w', q)
  {
    UpKeepsNodes(t, input, w, w', v, a, c, q);
    UpChanges(t, input, w, w', v, a, c);
    if q == v {
      UpKeepsOwnLink(t, input, w, w', v, a, c);
    } else {
      UpKeepsOtherLink(t, input, w, w', v, a, c, q);
    }
  }

  lemma RunsKeepsInv(t: Shape, input: seq<int>, w: Wave, w': Wave, v: int, a: Arrival, c: int)
    requires Inv(t, input, w) && Runs(t, w, w', v, a, c)
    ensures Inv(t, input, w')
  {
    forall q | t.Node(q) ensures NodeOk(t, input, w', q) && LinkOk(t, input, w', q) {
      if a.FromParent? {
        DownKeeps(t, input, w, w', v, a, c, q);
      } else {
        UpKeeps(t, input, w, w', v, a, c, q);
      }
    }
  }

  lemma {:induction false} InvHolds(t: Shape, input: seq<int>, run: seq<Wave>, i: nat)
    requires IsRun(t, input, run) && i < |run|
    ensures Inv(t, input, run[i])
  {
    if i == 0 {
      StartHolds(t, input, run[0]);
    } else {
      InvHolds(t, input, run, i - 1);
      var v, a, c :| Runs(t, run[i - 1], run[i], v, a, c);
      RunsKeepsInv(t, input, run[i - 1], run[i], v, a, c);
    }
  }

  // ---------- What a wave achieves ----------

  lemma {:induction false} DoneReachesRoot(t: Shape, input: seq<int>, w: Wave, v: int)
    requires Inv(t, input, w) && t.Node(v) && w.nodes[v].stage == Done
    ensures w.nodes[t.root].stage == Done
    decreases t.Rel(v)
  {
    if v != t.root {
      assert LinkOk(t, input, w, v);
      ParentIsCloser(t, v);
      DoneReachesRoot(t, input, w, t.Parent(v));
    }
  }

  lemma {:induction false} RootHeardFromAll(t: Shape, input: seq<int>, w: Wave, v: int)
    requires Inv(t, input, w) && t.Node(v) && w.nodes[t.root].stage == Done
    ensures Contributed(w.nodes[v])
    decreases t.Rel(v)
  {
    if v != t.root {
      ParentIsCloser(t, v);
      RootHeardFromAll(t, input, w, t.Parent(v));
      assert NodeOk(t, input, w, t.Parent(v)) && LinkOk(t, input, w, v);
      assert v in Children(t, t.Parent(v));
    }
  }

  /** In every run over every tree: a finished processor holds the sum of all inputs, and no processor
      finishes before every processor has started and handed in its share. */
  lemma WaveSumsAndBars(t: Shape, input: seq<int>, run: seq<Wave>, i: nat, v: int, q: int)
    requires IsRun(t, input, run) && i < |run| && t.Node(v) && t.Node(q)
    requires run[i].nodes[v].stage == Done
    ensures run[i].nodes[v].value == Sum(t.size, InputAt(input))
    ensures Contributed(run[i].nodes[q])
  {
    InvHolds(t, input, run, i);
    assert NodeOk(t, input, run[i], v);
    RootSum(t, input);
    DoneReachesRoot(t, input, run[i], v);
    RootHeardFromAll(t, input, run[i], q);
  }

  /** `v` could run now. */
  ghost predicate CanRun(t: Shape, w: Wave, v: int, c: int)
    requires Sized(t, w)
  {
    && t.Node(v) && t.Node(c)
    && (|| w.nodes[v].stage == Init
        || (w.nodes[v].stage == UpWait && t.Below(v, c) && w.up[c].Some?)
        || (w.nodes[v].stage == DownWait && w.down[v].Some?))
  }

  lemma {:induction false} UpWaitCanMove(t: Shape, input: seq<int>, w: Wave, v: int) returns (x: int, c: int)
    requires Inv(t, input, w) && t.Node(v) && w.nodes[v].stage == UpWait
    ensures CanRun(t, w, x, c)
    decreases t.size - t.Rel(v)
  {
    assert NodeOk(t, input, w, v);
    var kids := Children(t, v);
    assert kids != w.taken[v];
    var d :| d in kids && d !in w.taken[v];
    assert LinkOk(t, input, w, d);
    RelIsPosition(t, d);
    ParentIsCloser(t, d);
    if Contributed(w.nodes[d]) {
      x, c := v, d;
    } else if w.nodes[d].stage == Init {
      x, c := d, d;
    } else {
      x, c := UpWaitCanMove(t, input, w, d);
    }
  }

  lemma {:induction false} DownWaitCanMove(t: Shape, input: seq<int>, w: Wave, v: int) returns (x: int, c: int)
    requires Inv(t, input, w) && t.Node(v) && w.nodes[v].stage == DownWait
    ensures CanRun(t, w, x, c)
    decreases t.Rel(v)
  {
    assert NodeOk(t, input, w, v) && LinkOk(t, input, w, v);
    var p := t.Parent(v);
    ParentIsCloser(t, v);
    match w.nodes[p].stage {
      case Init => x, c := p, p;
      case UpWait => x, c := UpWaitCanMove(t, input, w, p);
      case DownWait => x, c := DownWaitCanMove(t, input, w, p);
      case Done => x, c := v, v;
    }
  }

  /** A wave never gets stuck: until every processor has finished, one of them can run. */
  lemma WaveNeverStuck(t: Shape, input: seq<int>, run: seq<Wave>, i: nat, v: int) returns (x: int, c: int)
    requires IsRun(t, input, run) && i < |run| && t.Node(v) && run[i].nodes[v].stage != Done
    ensures CanRun(t, run[i], x, c)
  {
    InvHolds(t, input, run, i);
    match run[i].nodes[v].stage {
      case Init => x, c := v, v;
      case UpWait => x, c := UpWaitCanMove(t, input, run[i], v);
      case DownWait => x, c := DownWaitCanMove(t, input, run[i], v);
    }
  }

  /** How many messages a processor may still wait for, and its start. */
  function Remaining(t: Shape, v: int, l: Local): int
    requires t.Ok() && t.Node(v)
  {
    match l.stage
    case Init => t.Degree(v) + 3
    case UpWait => l.left + 2
    case DownWait => 1
    case Done => 0
  }

  ghost function RemainingAt(t: Shape, w: Wave): int -> int
    requires Sized(t, w)
  {
    v => if t.Node(v) then Remaining(t, v, w.nodes[v]) else 0
  }

  ghost function RemainingSteps(t: Shape, w: Wave): int
    requires Sized(t, w)
  {
    Sum(t.size, RemainingAt(t, w))
  }

  lemma RunsMakesProgress(t: Shape, input: seq<int>, w: Wave, w': Wave, v: int, a: Arrival, c: int)
    requires Inv(t, input, w) && Runs(t, w, w', v, a, c)
    ensures RemainingSteps(t, w') < RemainingSteps(t, w)
  {
    var before, after := RemainingAt(t, w), RemainingAt(t, w');
    SumBump(t.size, before, after, v, after(v) - before(v));
  }

  lemma RemainingNotNegative(t: Shape, input: seq<int>, w: Wave)
    requires Inv(t, input, w)
    ensures 0 <= RemainingSteps(t, w)
  {
    forall v | 0 <= v < t.size ensures 0 <= RemainingAt(t, w)(v) {
      assert NodeOk(t, input, w, v);
      SubsetIsSmaller(w.taken[v], Children(t, v));
    }
    SumZero(t.size, RemainingAt(t, w), 0);
  }

  lemma StepMakesProgress(t: Shape, input: seq<int>, run: seq<Wave>, i: nat)
    requires IsRun(t, input, run) && 0 < i < |run|
    ensures 0 <= RemainingSteps(t, run[i]) < RemainingSteps(t, run[i - 1])
  {
    InvHolds(t, input, run, i - 1);
    var v, a, c :| Runs(t, run[i - 1], run[i], v, a, c);
    RunsMakesProgress(t, input, run[i - 1], run[i], v, a, c);
    RunsKeepsInv(t, input, run[i - 1], run[i], v, a, c);
    RemainingNotNegative(t, input, run[i]);
  }

  /** A wave ends: a run takes no more steps than there are starts and messages. */
  lemma {:induction false} WaveIsFinite(t: Shape, input: seq<int>, run: seq<Wave>, i: nat)
    requires IsRun(t, input, run) && i < |run|
    ensures 0 <= RemainingSteps(t, run[i]) <= RemainingSteps(t, run[0]) - i
  {
    if i == 0 {
      InvHolds(t, input, run, 0);
      RemainingNotNegative(t, input, run[0]);
    } else {
      WaveIsFinite(t, input, run, i - 1);
      StepMakesProgress(t, input, run, i);
    }
  }

  lemma SubsetIsSmaller(a: set<int>, b: set<int>)
    requires a <= b
    ensures |a| <= |b|
  {
    assert b == a + (b - a);
  }
}
