/** The counting wave as a protocol: the wave of `TreeWave` over the eligibilities, with the numbers that
    `loadBalCount` sends down on top of it. */
module DonorWave {
  import opened DonorNumbering
  import opened TreeTopology
  import opened TreeWave

  /** `childCount[v]` is what the children of `v` have reported; `first[q]` the number in the buffer on its way down
      to `q`; `myID[v]` the number that `v` keeps. */
  datatype Counting = Counting(wave: Wave, childCount: seq<seq<int>>, first: seq<int>, myID: seq<int>)

  ghost predicate Shaped(t: Shape, s: Counting) {
    && Sized(t, s.wave) && |s.childCount| == |s.first| == |s.myID| == t.size
    && forall v | t.Node(v) :: |s.childCount[v]| == t.Degree(v)
  }

  ghost predicate Finishes(t: Shape, w: Wave, w': Wave, v: int)
    requires Sized(t, w) && Sized(t, w') && t.Node(v)
  {
    w.nodes[v].stage != Done && w'.nodes[v].stage == Done
  }

  /** `upMessageAction`: the count of child `c` goes to its place. */
  function Noted(t: Shape, childCount: seq<seq<int>>, v: int, a: Arrival, c: int): seq<seq<int>>
    requires t.Ok() && 0 <= v < |childCount|
  {
    if a.FromChild? && 0 <= t.WhichChild(c) < |childCount[v]| then
      childCount[v := childCount[v][t.WhichChild(c) := a.amount]]
    else childCount
  }

  /** `rootAction` or `downReceiveAction`: where the numbers of the subtree of `v` start. */
  function StartsAt(s: Counting, w': Wave, v: int, a: Arrival): int
    requires 0 <= v < |s.first| && v < |w'.nodes|
  {
    if a.FromParent? then s.first[v] else w'.nodes[v].value
  }

  /** `downRelayAction` and its loop: `v` keeps the first number and passes stretches to its children. */
  ghost predicate Passes(t: Shape, count: seq<int>, s: Counting, s': Counting, v: int, first: int)
    requires Shaped(t, s) && Shaped(t, s') && |count| == t.size && t.Node(v)
  {
    && s'.myID == s.myID[v := first]
    && forall q | t.Node(q) ::
         s'.first[q] == if t.Below(v, q) && 0 <= t.WhichChild(q) <= |s'.childCount[v]|
                        then first - count[v] - Total(s'.childCount[v][..t.WhichChild(q)]) else s.first[q]
  }

  /** One activation of the counting wave at `v`. */
  ghost predicate Counts(t: Shape, count: seq<int>, s: Counting, s': Counting, v: int, a: Arrival, c: int)
    requires Shaped(t, s) && |count| == t.size
  {
    && Runs(t, s.wave, s'.wave, v, a, c) && Shaped(t, s')
    && s'.childCount == Noted(t, s.childCount, v, a, c)
    && if Finishes(t, s.wave, s'.wave, v) then Passes(t, count, s, s', v, StartsAt(s, s'.wave, v, a))
       else s'.first == s.first && s'.myID == s.myID
  }

  ghost predicate IsCount(t: Shape, count: seq<int>, run: seq<Counting>) {
    && |run| > 0 && |count| == t.size && (forall i | 0 <= i < |run| :: Shaped(t, run[i])) && Start(t, count, run[0].wave)
    && forall i, j | 0 <= i && j == i + 1 && j < |run| :: exists v, a, c :: Counts(t, count, run[i], run[j], v, a, c)
  }

  // ---------- What every activation keeps ----------

  /** What has been reported, kept and sent down is right. */
  ghost predicate NumbersOk(t: Shape, count: seq<int>, s: Counting, v: int)
    requires Shaped(t, s) && |count| == t.size && t.Node(v)
  {
    && ReportsOk(t, count, s.childCount[v], s.wave.taken[v], v)
    && (s.wave.nodes[v].stage == Done ==> s.myID[v] == Given(t, count, v))
    && (v != t.root && s.wave.down[v].Some? ==> s.first[v] == Given(t, count, v))
  }

  ghost predicate ReportsOk(t: Shape, count: seq<int>, childCount: seq<int>, taken: set<int>, v: int)
    requires t.Ok() && |count| == t.size
  {
    forall c | c in taken && t.Below(v, c) && 0 <= t.WhichChild(c) < |childCount| ::
      childCount[t.WhichChild(c)] == Under(t, count, c)
  }

  ghost predicate CountInv(t: Shape, count: seq<int>, s: Counting) {
    && Shaped(t, s) && |count| == t.size && Inv(t, count, s.wave)
    && forall v | t.Node(v) :: NumbersOk(t, count, s, v)
  }

  lemma ReportArrives(t: Shape, count: seq<int>, childCount: seq<int>, taken: set<int>, v: int, c: int)
    requires t.Ok() && |count| == t.size && t.Node(v) && t.Node(c) && t.Below(v, c) && |childCount| == t.Degree(v)
    requires ReportsOk(t, count, childCount, taken, v) && forall d | d in taken :: t.Node(d)
    ensures 0 <= t.WhichChild(c) < |childCount|
    ensures ReportsOk(t, count, childCount[t.WhichChild(c) := Under(t, count, c)], taken + {c}, v)
  {
    ParentOfChild(t, c);
    forall d | d in taken + {c} && t.Below(v, d) && 0 <= t.WhichChild(d) < |childCount|
      ensures childCount[t.WhichChild(c) := Under(t, count, c)][t.WhichChild(d)] == Under(t, count, d)
    {
      ParentOfChild(t, d);
    }
  }

  lemma ReportsKept(t: Shape, count: seq<int>, s: Counting, s': Counting, v: int, a: Arrival, c: int, q: int)
    requires CountInv(t, count, s) && Counts(t, count, s, s', v, a, c) && t.Node(q)
    ensures ReportsOk(t, count, s'.childCount[q], s'.wave.taken[q], q)
  {
    assert NumbersOk(t, count, s, q) && NodeOk(t, count, s.wave, q);
    if a.FromChild? && q == v {
      assert LinkOk(t, count, s.wave, c);
      ReportArrives(t, count, s.childCount[v], s.wave.taken[v], v, c);
    }
  }

  /** Once all children have reported, each stretch starts where its child's numbers do. */
  lemma StretchIsGiven(t: Shape, count: seq<int>, childCount: seq<int>, v: int, q: int)
    requires t.Ok() && |count| == t.size && t.Node(v) && t.Node(q) && t.Below(v, q) && |childCount| == t.Degree(v)
    requires ReportsOk(t, count, childCount, Children(t, v), v)
    ensures 0 <= t.WhichChild(q) <= |childCount|
    ensures Given(t, count, q) == Given(t, count, v) - count[v] - Total(childCount[..t.WhichChild(q)])
  {
    ParentOfChild(t, q);
    forall j | 0 <= j < |childCount| ensures childCount[j] == Under(t, count, t.ChildAt(v, j)) {
      ChildOfParent(t, v, j);
      assert t.ChildAt(v, j) in Children(t, v);
    }
    ReportedTotal(t, count, v, childCount, t.WhichChild(q));
  }

  /** Only the root finishes without being told. */
  lemma StartIsGiven(t: Shape, count: seq<int>, s: Counting, s': Counting, v: int, a: Arrival, c: int)
    requires CountInv(t, count, s) && Counts(t, count, s, s', v, a, c) && Inv(t, count, s'.wave)
    requires Finishes(t, s.wave, s'.wave, v)
    ensures StartsAt(s, s'.wave, v, a) == Given(t, count, v)
  {
    assert NumbersOk(t, count, s, v) && NodeOk(t, count, s'.wave, v);
    if a.FromParent? {
      assert LinkOk(t, count, s.wave, v);
    } else {
      UpStep(t, count, s.wave, v, a, c);
    }
  }

  /** A buffer that is on its way down was filled now by its parent, or was on its way before. */
  lemma DownWasThere(t: Shape, count: seq<int>, s: Counting, s': Counting, v: int, a: Arrival, c: int, q: int)
    requires CountInv(t, count, s) && Counts(t, count, s, s', v, a, c) && Inv(t, count, s'.wave)
    requires t.Node(q) && q != t.root && s'.wave.down[q].Some?
    ensures s.wave.down[q].Some? || (t.Below(v, q) && Finishes(t, s.wave, s'.wave, v))
    ensures t.Below(v, q) ==> Finishes(t, s.wave, s'.wave, v)
  {
    var p := t.Parent(q);
    assert LinkOk(t, count, s'.wave, q) && LinkOk(t, count, s.wave, q);
    assert NodeOk(t, count, s.wave, p);
    assert q in Children(t, p);
  }

  /** The number that `q` keeps. */
  lemma OwnNumberKept(t: Shape, count: seq<int>, s: Counting, s': Counting, v: int, a: Arrival, c: int, q: int)
    requires CountInv(t, count, s) && Counts(t, count, s, s', v, a, c) && Inv(t, count, s'.wave) && t.Node(q)
    requires s'.wave.nodes[q].stage == Done
    ensures s'.myID[q] == Given(t, count, q)
  {
    assert NumbersOk(t, count, s, q);
    if Finishes(t, s.wave, s'.wave, v) {
      StartIsGiven(t, count, s, s', v, a, c);
    }
  }

  /** The number in the buffer that `v` has just sent to `q`. */
  lemma NumberSent(t: Shape, count: seq<int>, s: Counting, s': Counting, v: int, a: Arrival, c: int, q: int)
    requires CountInv(t, count, s) && Counts(t, count, s, s', v, a, c) && Inv(t, count, s'.wave) && t.Node(q)
    requires Finishes(t, s.wave, s'.wave, v) && t.Below(v, q)
    ensures s'.first[q] == Given(t, count, q)
  {
    StartIsGiven(t, count, s, s', v, a, c);
    ReportsKept(t, count, s, s', v, a, c, v);
    StretchPassed(t, count, s, s', v, q);
  }

  lemma StretchPassed(t: Shape, count: seq<int>, s: Counting, s': Counting, v: int, q: int)
    requires Shaped(t, s) && Shaped(t, s') && |count| == t.size && t.Node(v) && t.Node(q) && t.Below(v, q)
    requires Passes(t, count, s, s', v, Given(t, count, v)) && NodeOk(t, count, s'.wave, v)
    requires s'.wave.nodes[v].stage == Done && ReportsOk(t, count, s'.childCount[v], s'.wave.taken[v], v)
    ensures s'.first[q] == Given(t, count, q)
  {
    assert s'.wave.taken[v] == Children(t, v);
    StretchIsGiven(t, count, s'.childCount[v], v, q);
  }

  lemma BufferKept(t: Shape, count: seq<int>, s: Counting, s': Counting, v: int, a: Arrival, c: int, q: int)
    requires CountInv(t, count, s) && Counts(t, count, s, s', v, a, c) && Inv(t, count, s'.wave) && t.Node(q)
    requires q != t.root && s'.wave.down[q].Some?
    ensures s'.first[q] == Given(t, count, q)
  {
    DownWasThere(t, count, s, s', v, a, c, q);
    if t.Below(v, q) {
      NumberSent(t, count, s, s', v, a, c, q);
    } else {
      assert NumbersOk(t, count, s, q);
    }
  }

  lemma NumbersKept(t: Shape, count: seq<int>, s: Counting, s': Counting, v: int, a: Arrival, c: int, q: int)
    requires CountInv(t, count, s) && Counts(t, count, s, s', v, a, c) && Inv(t, count, s'.wave) && t.Node(q)
    ensures NumbersOk(t, count, s', q)
  {
    ReportsKept(t, count, s, s', v, a, c, q);
    if s'.wave.nodes[q].stage == Done {
      OwnNumberKept(t, count, s, s', v, a, c, q);
    }
    if q != t.root && s'.wave.down[q].Some? {
      BufferKept(t, count, s, s', v, a, c, q);
    }
  }

  lemma CountsKeepsInv(t: Shape, count: seq<int>, s: Counting, s': Counting, v: int, a: Arrival, c: int)
    requires CountInv(t, count, s) && Counts(t, count, s, s', v, a, c)
    ensures CountInv(t, count, s')
  {
    RunsKeepsInv(t, count, s.wave, s'.wave, v, a, c);
    forall q | t.Node(q) ensures NumbersOk(t, count, s', q) {
      NumbersKept(t, count, s, s', v, a, c, q);
    }
  }

  lemma {:induction false} CountInvHolds(t: Shape, count: seq<int>, run: seq<Counting>, i: nat)
    requires IsCount(t, count, run) && i < |run|
    ensures CountInv(t, count, run[i])
  {
    if i == 0 {
      StartHolds(t, count, run[0].wave);
    } else {
      CountInvHolds(t, count, run, i - 1);
      var v, a, c :| Counts(t, count, run[i - 1], run[i], v, a, c);
      CountsKeepsInv(t, count, run[i - 1], run[i], v, a, c);
    }
  }

  // ---------- What the counting wave achieves ----------

  /** In every run over every tree, under every schedule: a hub that has finished knows the total and its number. */
  lemma FinishedHubIsNumbered(t: Shape, count: seq<int>, run: seq<Counting>, i: nat, v: int)
    requires IsCount(t, count, run) && i < |run| && t.Node(v) && run[i].wave.nodes[v].stage == Done
    ensures run[i].wave.nodes[v].value == TotalCount(t, count) && run[i].myID[v] == Given(t, count, v)
  {
    CountInvHolds(t, count, run, i);
    assert NumbersOk(t, count, run[i], v) && NodeOk(t, count, run[i].wave, v);
    RootSum(t, count);
  }

  /** So eligible hubs that have finished hold different numbers from one to the total. */
  lemma FinishedHubsDiffer(t: Shape, count: seq<int>, run: seq<Counting>, i: nat, u: int, v: int)
    requires IsCount(t, count, run) && i < |run| && DonorNumbering.Counts(t, count)
    requires t.Node(u) && t.Node(v) && count[u] == 1 && count[v] == 1
    requires run[i].wave.nodes[u].stage == Done && run[i].wave.nodes[v].stage == Done
    ensures 1 <= run[i].myID[v] <= TotalCount(t, count) == run[i].wave.nodes[v].value
    ensures u != v ==> run[i].myID[u] != run[i].myID[v]
  {
    FinishedHubIsNumbered(t, count, run, i, u);
    FinishedHubIsNumbered(t, count, run, i, v);
    NumbersAreOneToTotal(t, count, v);
    if u != v {
      NumbersAreUnique(t, count, u, v);
    }
  }
}
