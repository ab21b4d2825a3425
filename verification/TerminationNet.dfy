/** The traffic of a parallel search as the termination check sees it: every processor keeps the
    load record of `parLoadObject`, and messages of the four counted kinds (plus the uncounted
    load-balancing transfers) are on their way between processors. */
module TerminationNet {
  import opened Sums

  datatype Counter = Counter(sent: nat, received: nat)
  {
    predicate InBalance() { sent == received }
  }

  /** The part of a load record that matters here; `count` is the number of subproblems. */
  datatype Load = Load(count: nat, mergePending: bool,
                       general: Counter, nonLocal: Counter, local: Counter, dispatch: Counter)
  {
    predicate Idle() { count == 0 && !mergePending }

    /** The test of the first survey. */
    predicate ReadyToPoll() {
      count == 0 && dispatch.InBalance() && local.InBalance() && nonLocal.InBalance()
    }

    /** The test of the second survey. */
    predicate SeemsReallyDone() {
      ReadyToPoll() && !mergePending && general.InBalance()
    }
  }

  const NO_LOAD := Load(0, false, Counter(0, 0), Counter(0, 0), Counter(0, 0), Counter(0, 0))

  function AddCounter(a: Counter, b: Counter): Counter {
    Counter(a.sent + b.sent, a.received + b.received)
  }

  function AddLoad(a: Load, b: Load): Load {
    Load(a.count + b.count, a.mergePending || b.mergePending,
         AddCounter(a.general, b.general), AddCounter(a.nonLocal, b.nonLocal),
         AddCounter(a.local, b.local), AddCounter(a.dispatch, b.dispatch))
  }

  /** `hub[p]` is the leader of the cluster of processor `p`; a hub leads its own cluster. */
  datatype Config = Config(n: nat, hub: seq<nat>)
  {
    predicate Ok() {
      |hub| == n && forall p | 0 <= p < n :: hub[p] < n && hub[hub[p]] == hub[p]
    }

    predicate IsHub(p: int) requires Ok() { 0 <= p < n && hub[p] == p }

    predicate In(p: int, h: int) requires Ok() { 0 <= p < n && hub[p] == h }
  }

  /** A worker's message to its hub: released tokens and a load report, or a poll reply.
      `epoch` is history: how many surveys had passed the test when the report was made. */
  datatype Report = Report(tokens: nat, load: Load, epoch: nat, poll: bool)

  /** `gen`, `nl`, `disp` and `lb` count messages on their way to each processor; `out` the tokens a
      worker has packed but not sent; `chan` the messages from a worker to its hub, oldest first;
      `handled` (history) the tokens its hub has taken from it. */
  datatype Net = Net(load: seq<Load>, gen: seq<nat>, nl: seq<nat>, disp: seq<nat>, lb: seq<nat>,
                     out: seq<nat>, chan: seq<seq<Report>>, handled: seq<nat>)
  {
    predicate Sized(n: nat) {
      |load| == |gen| == |nl| == |disp| == |lb| == |out| == |chan| == |handled| == n
    }
  }

  function Tokens(q: seq<Report>): nat {
    if q == [] then 0 else q[0].tokens + Tokens(q[1..])
  }

  lemma {:induction false} TokensAppend(q: seq<Report>, r: Report)
    ensures Tokens(q + [r]) == Tokens(q) + r.tokens
  {
    if q != [] {
      assert (q + [r])[1..] == q[1..] + [r];
      TokensAppend(q[1..], r);
    } else {
      assert q + [r] == [r];
    }
  }

  /** The messages without number `k`. */
  function Without(q: seq<Report>, k: nat): seq<Report>
    requires k < |q|
  {
    if k == 0 then q[1..] else [q[0]] + Without(q[1..], k - 1)
  }

  lemma TokensFirst(r: Report, q: seq<Report>)
    ensures Tokens([r] + q) == r.tokens + Tokens(q)
  {
    assert ([r] + q)[1..] == q;
  }

  lemma {:induction false} TokensWithout(q: seq<Report>, k: nat)
    requires k < |q|
    ensures Tokens(Without(q, k)) == Tokens(q) - q[k].tokens
  {
    if k > 0 {
      var rest := Without(q[1..], k - 1);
      TokensWithout(q[1..], k - 1);
      TokensFirst(q[0], rest);
    }
  }

  lemma {:induction false} WithoutKeeps(q: seq<Report>, k: nat)
    requires k < |q|
    ensures forall r | r in Without(q, k) :: r in q
  {
    if k > 0 {
      WithoutKeeps(q[1..], k - 1);
    }
  }

  // ---------- Steps ----------

  datatype Input = Nothing | General | NonLocal | Dispatched | Transfer

  /** What one activity sends: general messages, tokens for other hubs, tokens for the own hub,
      work dispatched to the own cluster, and load-balancing transfers. */
  datatype Output = Output(gen: seq<nat>, nl: seq<nat>, local: nat, disp: seq<nat>, lb: seq<nat>)

  function One(b: bool): int { if b then 1 else 0 }

  ghost function At(s: seq<nat>): int -> int { i => if 0 <= i < |s| then s[i] else 0 }

  ghost function In(c: Config, h: int, f: int -> int): int -> int
    requires c.Ok()
  {
    i => if c.In(i, h) then f(i) else 0
  }

  /** The quantities of a load record that are added up, some of them net of others. */
  datatype Field = Count | GeneralDue | NonLocalDue | LocalDue | DispatchDue | DispatchGot | LocalSent
                 | Received | Sent

  function Get(f: Field, l: Load): int {
    match f
    case Count => l.count
    case GeneralDue => l.general.sent - l.general.received
    case NonLocalDue => l.nonLocal.sent - l.nonLocal.received
    case LocalDue => l.local.sent - l.local.received
    case DispatchDue => l.dispatch.sent - l.dispatch.received
    case DispatchGot => l.dispatch.received
    case LocalSent => l.local.sent
    case Received => l.general.received + l.nonLocal.received
    case Sent => l.general.sent + l.nonLocal.sent
  }

  ghost function Of(s: seq<Load>, f: Field): int -> int {
    i => if 0 <= i < |s| then Get(f, s[i]) else 0
  }

  lemma InIs(c: Config, h: int, f: int -> int, i: int)
    requires c.Ok()
    ensures In(c, h, f)(i) == if c.In(i, h) then f(i) else 0
  {
  }

  lemma OfIs(s: seq<Load>, f: Field, i: int)
    requires 0 <= i < |s|
    ensures Of(s, f)(i) == Get(f, s[i])
  {
  }

  ghost predicate OutputOk(c: Config, p: int, o: Output, balancing: bool)
    requires c.Ok() && 0 <= p < c.n
  {
    && |o.gen| == |o.nl| == |o.disp| == |o.lb| == c.n
    && (c.IsHub(p) ==> o.local == 0)
    && (forall q | 0 <= q < c.n && o.disp[q] > 0 :: c.IsHub(p) && c.In(q, p))
    && (forall q | 0 <= q < c.n && o.nl[q] > 0 :: c.IsHub(q))
    && (forall q | 0 <= q < c.n && o.lb[q] > 0 :: balancing && c.IsHub(q))
  }

  predicate Enabled(c: Config, s: Net, p: int, input: Input)
    requires c.Ok() && s.Sized(c.n) && 0 <= p < c.n
  {
    match input
    case Nothing => !s.load[p].Idle()
    case General => s.gen[p] > 0
    case NonLocal => c.IsHub(p) && s.nl[p] > 0
    case Dispatched => s.disp[p] > 0
    case Transfer => c.IsHub(p) && s.lb[p] > 0
  }

  ghost function LoadAfter(c: Config, l: Load, input: Input, o: Output, count: nat, pending: bool): Load
  {
    Load(count, pending,
         Counter(l.general.sent + Total(o.gen), l.general.received + One(input.General?)),
         Counter(l.nonLocal.sent + Total(o.nl), l.nonLocal.received + One(input.NonLocal?)),
         Counter(l.local.sent + o.local, l.local.received),
         Counter(l.dispatch.sent + Total(o.disp), l.dispatch.received + One(input.Dispatched?)))
  }

  ghost function Total(s: seq<nat>): nat {
    TotalIsNat(s);
    Sum(|s|, At(s))
  }

  lemma TotalIsNat(s: seq<nat>)
    ensures Sum(|s|, At(s)) >= 0
  {
    SumZero(|s|, At(s), 0);
  }

  /** `s'` is `s` with `add` put in and, if `take`, one message taken out at `p`. */
  ghost predicate Moved(s: seq<nat>, s': seq<nat>, p: int, take: bool, add: seq<nat>)
    requires |s| == |add| && 0 <= p < |s|
  {
    |s'| == |s| && forall q | 0 <= q < |s| :: s'[q] == s[q] + add[q] - One(take && q == p)
  }

  /** One processor acts: because it has work or a pending merge, or because a message arrived.
      It may then change its subproblem count and send anything. */
  ghost predicate Activity(c: Config, s: Net, s': Net, p: int, input: Input, o: Output,
                           count: nat, pending: bool, balancing: bool)
    requires c.Ok() && s.Sized(c.n) && 0 <= p < c.n
  {
    && OutputOk(c, p, o, balancing) && Enabled(c, s, p, input)
    && s'.load == s.load[p := LoadAfter(c, s.load[p], input, o, count, pending)]
    && Moved(s.gen, s'.gen, p, input.General?, o.gen)
    && Moved(s.nl, s'.nl, p, input.NonLocal?, o.nl)
    && Moved(s.disp, s'.disp, p, input.Dispatched?, o.disp)
    && Moved(s.lb, s'.lb, p, input.Transfer?, o.lb)
    && s'.out == s.out[p := s.out[p] + o.local]
    && s'.chan == s.chan && s'.handled == s.handled
  }

  /** A dispatched subproblem found dead on its way is written off at the hub instead. */
  ghost predicate Redirect(c: Config, s: Net, s': Net, p: int)
    requires c.Ok() && s.Sized(c.n) && 0 <= p < c.n
  {
    && s.disp[p] > 0 && c.hub[p] != p
    && s' == s.(disp := s.disp[p := s.disp[p] - 1][c.hub[p] := s.disp[c.hub[p]] + 1])
  }

  /** A worker sends its packed tokens with a load report. */
  ghost predicate Communicate(c: Config, s: Net, s': Net, w: int, epoch: nat)
    requires c.Ok() && s.Sized(c.n) && 0 <= w < c.n
  {
    && !c.IsHub(w)
    && s' == s.(out := s.out[w := 0],
                chan := s.chan[w := s.chan[w] + [Report(s.out[w], s.load[w], epoch, false)]])
  }

  /** A worker answers a quiescence poll with its present load. */
  ghost predicate Reply(c: Config, s: Net, s': Net, w: int, epoch: nat)
    requires c.Ok() && s.Sized(c.n) && 0 <= w < c.n
  {
    && !c.IsHub(w)
    && s' == s.(chan := s.chan[w := s.chan[w] + [Report(0, s.load[w], epoch, true)]])
  }

  /** The hub takes message `k` of a worker; only tokens can give it more work. */
  ghost predicate Handle(c: Config, s: Net, s': Net, w: int, k: nat, count: nat)
    requires c.Ok() && s.Sized(c.n) && 0 <= w < c.n
  {
    && !c.IsHub(w) && k < |s.chan[w]|
    && var t, h := s.chan[w][k].tokens, c.hub[w];
       && (t == 0 ==> count <= s.load[h].count)
       && s' == s.(load := s.load[h := s.load[h].(count := count,
                             local := Counter(s.load[h].local.sent, s.load[h].local.received + t))],
                   chan := s.chan[w := Without(s.chan[w], k)],
                   handled := s.handled[w := s.handled[w] + t])
  }

  // ---------- Loads only evolve by acting ----------

  ghost predicate CounterLe(a: Counter, b: Counter) { a.sent <= b.sent && a.received <= b.received }

  ghost predicate SameReceipts(a: Load, b: Load) {
    && a.general.received == b.general.received && a.nonLocal.received == b.nonLocal.received
    && a.local.received == b.local.received && a.dispatch.received == b.dispatch.received
  }

  /** A record turns into a later one of the same processor: counters never fall, and a processor
      that was idle and received nothing has not changed at all. */
  ghost predicate Evolves(a: Load, b: Load) {
    && CounterLe(a.general, b.general) && CounterLe(a.nonLocal, b.nonLocal)
    && CounterLe(a.local, b.local) && CounterLe(a.dispatch, b.dispatch)
    && (a.Idle() && SameReceipts(a, b) ==> a == b)
  }

  lemma EvolvesTransitive(a: Load, b: Load, d: Load)
    requires Evolves(a, b) && Evolves(b, d)
    ensures Evolves(a, d)
  {
    if a.Idle() && SameReceipts(a, d) {
      assert SameReceipts(a, b) && SameReceipts(b, d);
    }
  }

  /** No work, no pending merge and no message of the cluster's own kinds anywhere in cluster `h`. */
  ghost predicate ClusterDead(c: Config, s: Net, h: int)
    requires c.Ok() && s.Sized(c.n)
  {
    forall p | c.In(p, h) ::
      s.load[p].Idle() && s.disp[p] == 0 && s.out[p] == 0 && Tokens(s.chan[p]) == 0
  }

  predicate Empty(s: seq<nat>) { forall i | 0 <= i < |s| :: s[i] == 0 }

  /** Nothing to do and nothing on its way anywhere. */
  ghost predicate Dead(c: Config, s: Net)
    requires c.Ok() && s.Sized(c.n)
  {
    && (forall h | c.IsHub(h) :: ClusterDead(c, s, h))
    && Empty(s.gen) && Empty(s.nl) && Empty(s.lb)
  }

  // ---------- Ledgers ----------

  /** General messages sent are received or on their way; likewise tokens between clusters. */
  ghost predicate GlobalLedgers(c: Config, s: Net)
    requires c.Ok() && s.Sized(c.n)
  {
    && Sum(c.n, Of(s.load, GeneralDue)) == Total(s.gen)
    && Sum(c.n, Of(s.load, NonLocalDue)) == Total(s.nl)
  }

  /** What a hub has dispatched was received in its cluster or is on its way there. */
  ghost predicate DispatchLedger(c: Config, s: Net, h: int)
    requires c.Ok() && s.Sized(c.n) && c.IsHub(h)
  {
    s.load[h].dispatch.sent ==
      Sum(c.n, In(c, h, Of(s.load, DispatchGot))) + Sum(c.n, In(c, h, At(s.disp)))
  }

  /** What a hub counts as received from its workers is what it took from each. */
  ghost predicate LocalLedger(c: Config, s: Net, h: int)
    requires c.Ok() && s.Sized(c.n) && c.IsHub(h)
  {
    s.load[h].local.received == Sum(c.n, In(c, h, At(s.handled)))
  }

  ghost predicate WorkerLedger(c: Config, s: Net, p: int)
    requires c.Ok() && s.Sized(c.n) && 0 <= p < c.n
  {
    && s.load[p].local.sent == s.handled[p] + Tokens(s.chan[p]) + s.out[p]
    && (if c.IsHub(p) then s.handled[p] == 0 && s.out[p] == 0 && s.chan[p] == []
        else s.load[p].local.received == 0 && s.load[p].dispatch.sent == 0 && s.load[p].nonLocal.received == 0)
  }

  ghost predicate Ledgers(c: Config, s: Net) {
    && c.Ok() && s.Sized(c.n) && GlobalLedgers(c, s)
    && (forall h | c.IsHub(h) :: DispatchLedger(c, s, h) && LocalLedger(c, s, h))
    && (forall p | 0 <= p < c.n :: WorkerLedger(c, s, p))
  }

  lemma MovedTotal(s: seq<nat>, s': seq<nat>, p: int, take: bool, add: seq<nat>)
    requires |s| == |add| && 0 <= p < |s| && Moved(s, s', p, take, add)
    ensures Total(s') == Total(s) + Total(add) - One(take)
  {
    var n := |s|;
    var mid := (i: int) => At(s)(i) + At(add)(i);
    SumPlus(n, At(s), At(add), mid);
    SumBump(n, mid, At(s'), p, -One(take));
  }

  lemma OneLoadChanges(v: seq<Load>, v': seq<Load>, p: int, f: Field)
    requires 0 <= p < |v| == |v'| && v' == v[p := v'[p]]
    ensures Sum(|v|, Of(v', f)) == Sum(|v|, Of(v, f)) + Get(f, v'[p]) - Get(f, v[p])
  {
    SumBump(|v|, Of(v, f), Of(v', f), p, Get(f, v'[p]) - Get(f, v[p]));
  }

  lemma ActivityKeepsGlobal(c: Config, s: Net, s': Net, p: int, input: Input, o: Output,
                            count: nat, pending: bool, balancing: bool)
    requires Ledgers(c, s) && 0 <= p < c.n
    requires Activity(c, s, s', p, input, o, count, pending, balancing)
    ensures s'.Sized(c.n) && GlobalLedgers(c, s')
  {
    MovedTotal(s.gen, s'.gen, p, input.General?, o.gen);
    MovedTotal(s.nl, s'.nl, p, input.NonLocal?, o.nl);
    OneLoadChanges(s.load, s'.load, p, GeneralDue);
    OneLoadChanges(s.load, s'.load, p, NonLocalDue);
  }

  lemma ActivityMovesDispatch(c: Config, s: Net, s': Net, p: int, input: Input, o: Output, h: int)
    requires c.Ok() && s.Sized(c.n) && s'.Sized(c.n) && 0 <= p < c.n && c.IsHub(h)
    requires |o.disp| == c.n && Moved(s.disp, s'.disp, p, input.Dispatched?, o.disp)
    ensures Sum(c.n, In(c, h, At(s'.disp))) == Sum(c.n, In(c, h, At(s.disp)))
              + Sum(c.n, In(c, h, At(o.disp))) - One(input.Dispatched? && c.In(p, h))
  {
    var f := In(c, h, At(s.disp));
    var add := In(c, h, At(o.disp));
    var mid := (i: int) => f(i) + add(i);
    SumPlus(c.n, f, add, mid);
    SumBump(c.n, mid, In(c, h, At(s'.disp)), p, -One(input.Dispatched? && c.In(p, h)));
  }

  lemma OutputsStayInCluster(c: Config, p: int, o: Output, balancing: bool, h: int)
    requires c.Ok() && 0 <= p < c.n && c.IsHub(h) && OutputOk(c, p, o, balancing)
    ensures Sum(c.n, In(c, h, At(o.disp))) == if p == h then Total(o.disp) else 0
    ensures !c.IsHub(p) ==> Total(o.disp) == 0
  {
    if p == h {
      SumSame(c.n, In(c, h, At(o.disp)), At(o.disp));
    } else {
      forall i | 0 <= i < c.n ensures In(c, h, At(o.disp))(i) == 0 {
        InIs(c, h, At(o.disp), i);
      }
      SumZero(c.n, In(c, h, At(o.disp)), 0);
    }
    if !c.IsHub(p) {
      SumZero(c.n, At(o.disp), 0);
    }
  }

  lemma ActivityCountsDispatch(c: Config, s: Net, s': Net, p: int, k: int, h: int)
    requires c.Ok() && |s.load| == |s'.load| == c.n && 0 <= p < c.n
    requires forall q | 0 <= q < c.n && q != p :: s'.load[q] == s.load[q]
    requires s'.load[p].dispatch.received == s.load[p].dispatch.received + k
    ensures Sum(c.n, In(c, h, Of(s'.load, DispatchGot)))
              == Sum(c.n, In(c, h, Of(s.load, DispatchGot))) + if c.In(p, h) then k else 0
  {
    var f, g := In(c, h, Of(s.load, DispatchGot)), In(c, h, Of(s'.load, DispatchGot));
    forall q | 0 <= q < c.n ensures f(q) + (if c.In(p, h) && q == p then k else 0) == g(q) {
      InIs(c, h, Of(s.load, DispatchGot), q);
      InIs(c, h, Of(s'.load, DispatchGot), q);
    }
    SumBump(c.n, f, g, p, if c.In(p, h) then k else 0);
  }

  lemma ActivityKeepsDispatch(c: Config, s: Net, s': Net, p: int, input: Input, o: Output,
                              count: nat, pending: bool, balancing: bool, h: int)
    requires Ledgers(c, s) && 0 <= p < c.n && c.IsHub(h) && s'.Sized(c.n)
    requires Activity(c, s, s', p, input, o, count, pending, balancing)
    ensures DispatchLedger(c, s', h)
  {
    assert DispatchLedger(c, s, h);
    ActivityMovesDispatch(c, s, s', p, input, o, h);
    ActivityCountsDispatch(c, s, s', p, One(input.Dispatched?), h);
    OutputsStayInCluster(c, p, o, balancing, h);
  }

  lemma ActivityKeepsLedgers(c: Config, s: Net, s': Net, p: int, input: Input, o: Output,
                             count: nat, pending: bool, balancing: bool)
    requires Ledgers(c, s) && 0 <= p < c.n
    requires Activity(c, s, s', p, input, o, count, pending, balancing)
    ensures Ledgers(c, s')
  {
    ActivityKeepsGlobal(c, s, s', p, input, o, count, pending, balancing);
    forall h | c.IsHub(h) ensures DispatchLedger(c, s', h) && LocalLedger(c, s', h) {
      ActivityKeepsDispatch(c, s, s', p, input, o, count, pending, balancing, h);
      assert LocalLedger(c, s, h);
    }
    forall q | 0 <= q < c.n ensures WorkerLedger(c, s', q) {
      assert WorkerLedger(c, s, q);
      if q == p {
        OutputsStayInCluster(c, p, o, balancing, c.hub[p]);
      }
    }
  }

  lemma RedirectKeepsLedgers(c: Config, s: Net, s': Net, p: int)
    requires Ledgers(c, s) && 0 <= p < c.n && Redirect(c, s, s', p)
    ensures Ledgers(c, s')
  {
    forall h | c.IsHub(h) ensures DispatchLedger(c, s', h) && LocalLedger(c, s', h) {
      assert DispatchLedger(c, s, h) && LocalLedger(c, s, h);
      var k := One(c.hub[p] == h);
      var mid := s.disp[p := s.disp[p] - 1];
      InIs(c, h, At(s.disp), p);
      InIs(c, h, At(mid), p);
      InIs(c, h, At(mid), c.hub[p]);
      InIs(c, h, At(s'.disp), c.hub[p]);
      SumBump(c.n, In(c, h, At(s.disp)), In(c, h, At(mid)), p, -k);
      SumBump(c.n, In(c, h, At(mid)), In(c, h, At(s'.disp)), c.hub[p], k);
    }
    forall q | 0 <= q < c.n ensures WorkerLedger(c, s', q) {
      assert WorkerLedger(c, s, q);
    }
  }

  lemma CommunicateKeepsLedgers(c: Config, s: Net, s': Net, w: int, epoch: nat)
    requires Ledgers(c, s) && 0 <= w < c.n && Communicate(c, s, s', w, epoch)
    ensures Ledgers(c, s')
  {
    forall h | c.IsHub(h) ensures DispatchLedger(c, s', h) && LocalLedger(c, s', h) {
      assert DispatchLedger(c, s, h) && LocalLedger(c, s, h);
    }
    TokensAppend(s.chan[w], Report(s.out[w], s.load[w], epoch, false));
    forall q | 0 <= q < c.n ensures WorkerLedger(c, s', q) {
      assert WorkerLedger(c, s, q);
    }
  }

  lemma ReplyKeepsLedgers(c: Config, s: Net, s': Net, w: int, epoch: nat)
    requires Ledgers(c, s) && 0 <= w < c.n && Reply(c, s, s', w, epoch)
    ensures Ledgers(c, s')
  {
    forall h | c.IsHub(h) ensures DispatchLedger(c, s', h) && LocalLedger(c, s', h) {
      assert DispatchLedger(c, s, h) && LocalLedger(c, s, h);
    }
    TokensAppend(s.chan[w], Report(0, s.load[w], epoch, true));
    forall q | 0 <= q < c.n ensures WorkerLedger(c, s', q) {
      assert WorkerLedger(c, s, q);
    }
  }

  lemma HandleKeepsLedgers(c: Config, s: Net, s': Net, w: int, k: nat, count: nat)
    requires Ledgers(c, s) && 0 <= w < c.n && Handle(c, s, s', w, k, count)
    ensures Ledgers(c, s')
  {
    var t := s.chan[w][k].tokens;
    var h := c.hub[w];
    TokensWithout(s.chan[w], k);
    assert Get(GeneralDue, s.load[h]) == Get(GeneralDue, s'.load[h]);
    assert Get(NonLocalDue, s.load[h]) == Get(NonLocalDue, s'.load[h]);
    SumSame(c.n, Of(s.load, GeneralDue), Of(s'.load, GeneralDue));
    SumSame(c.n, Of(s.load, NonLocalDue), Of(s'.load, NonLocalDue));
    forall h | c.IsHub(h) ensures DispatchLedger(c, s', h) && LocalLedger(c, s', h) {
      assert DispatchLedger(c, s, h) && LocalLedger(c, s, h);
      SumSame(c.n, In(c, h, Of(s.load, DispatchGot)), In(c, h, Of(s'.load, DispatchGot)));
      InIs(c, h, At(s.handled), w);
      InIs(c, h, At(s'.handled), w);
      SumBump(c.n, In(c, h, At(s.handled)), In(c, h, At(s'.handled)), w,
              if c.hub[w] == h then t else 0);
    }
    forall q | 0 <= q < c.n ensures WorkerLedger(c, s', q) {
      assert WorkerLedger(c, s, q);
    }
  }

  // ---------- Dead clusters stay dead ----------

  ghost predicate NoNewReceipts(c: Config, s: Net, s': Net, h: int)
    requires c.Ok() && s.Sized(c.n) && s'.Sized(c.n)
  {
    forall p | c.In(p, h) ::
      && s.load[p].general.received == s'.load[p].general.received
      && s.load[p].nonLocal.received == s'.load[p].nonLocal.received
  }

  lemma ActivityEvolves(c: Config, s: Net, s': Net, p: int, input: Input, o: Output,
                        count: nat, pending: bool, balancing: bool, q: int)
    requires c.Ok() && s.Sized(c.n) && 0 <= p < c.n && 0 <= q < c.n
    requires Activity(c, s, s', p, input, o, count, pending, balancing)
    requires input == Transfer ==> q != p
    ensures Evolves(s.load[q], s'.load[q])
  {
  }

  lemma ActivityKeepsClusterDead(c: Config, s: Net, s': Net, p: int, input: Input, o: Output,
                                 count: nat, pending: bool, h: int)
    requires c.Ok() && s.Sized(c.n) && s'.Sized(c.n) && 0 <= p < c.n && c.IsHub(h)
    requires Activity(c, s, s', p, input, o, count, pending, false)
    requires Empty(s.lb) && ClusterDead(c, s, h) && NoNewReceipts(c, s, s', h)
    ensures ClusterDead(c, s', h)
  {
    var inside := c.In(p, h);
  }

  lemma RedirectKeepsClusterDead(c: Config, s: Net, s': Net, p: int, h: int)
    requires c.Ok() && s.Sized(c.n) && 0 <= p < c.n && c.IsHub(h)
    requires Redirect(c, s, s', p) && ClusterDead(c, s, h)
    ensures ClusterDead(c, s', h)
  {
    var inside := c.In(p, h);
  }

  lemma AppendKeepsClusterDead(c: Config, s: Net, s': Net, w: int, epoch: nat, h: int)
    requires c.Ok() && s.Sized(c.n) && 0 <= w < c.n && c.IsHub(h)
    requires Communicate(c, s, s', w, epoch) || Reply(c, s, s', w, epoch)
    requires ClusterDead(c, s, h)
    ensures ClusterDead(c, s', h)
  {
    TokensAppend(s.chan[w], s'.chan[w][|s.chan[w]|]);
  }

  lemma HandleKeepsClusterDead(c: Config, s: Net, s': Net, w: int, k: nat, count: nat, h: int)
    requires c.Ok() && s.Sized(c.n) && 0 <= w < c.n && c.IsHub(h)
    requires Handle(c, s, s', w, k, count) && ClusterDead(c, s, h)
    ensures ClusterDead(c, s', h)
  {
    TokensWithout(s.chan[w], k);
    assert c.In(w, h) ==> Tokens(s.chan[w]) == 0;
    assert c.In(h, h) && s.load[h].Idle();
  }
}
