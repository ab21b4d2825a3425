/** What the tests of the load balancer find, said of the records of the single processors. */
module TerminationSurvey {
  import opened Sums
  import opened TerminationCheck
  import opened TerminationLoads
  import opened TerminationNet

  /** What is missing of each kind at processor `p`, by its record. */
  ghost function DispatchGap(v: seq<Load>): int -> int {
    p => if 0 <= p < |v| then v[p].dispatch.sent - v[p].dispatch.received else 0
  }

  ghost function LocalGap(v: seq<Load>): int -> int {
    p => if 0 <= p < |v| then v[p].local.sent - v[p].local.received else 0
  }

  ghost function NonLocalGap(v: seq<Load>): int -> int {
    p => if 0 <= p < |v| then v[p].nonLocal.sent - v[p].nonLocal.received else 0
  }

  ghost function GeneralGap(v: seq<Load>): int -> int {
    p => if 0 <= p < |v| then v[p].general.sent - v[p].general.received else 0
  }

  /** No processor has a subproblem, and nothing dispatched, no tokens within clusters and none between them are missing
      on balance. */
  ghost predicate NothingLeft(v: seq<Load>) {
    && (forall p | 0 <= p < |v| :: v[p].count == 0)
    && Sum(|v|, DispatchGap(v)) == 0 && Sum(|v|, LocalGap(v)) == 0 && Sum(|v|, NonLocalGap(v)) == 0
  }

  /** Nor has any processor a merge pending, nor are general messages missing. */
  ghost predicate NothingElseLeft(v: seq<Load>) {
    && NothingLeft(v) && Sum(|v|, GeneralGap(v)) == 0 && forall p | 0 <= p < |v| :: !v[p].mergePending
  }

  lemma GlobalSum(c: Config, v: seq<Load>, f: Field, gap: int -> int)
    requires c.Ok() && |v| == c.n && forall p | 0 <= p < c.n :: gap(p) == Get(f, v[p])
    ensures Get(f, GlobalLoad(c, v, c.n)) == Sum(c.n, gap)
  {
    GlobalField(c, v, c.n, f);
    Partition(c, Of(v, f));
    SumSame(c.n, Of(v, f), gap);
  }

  ghost function Counts(v: seq<Load>): int -> int { p => if 0 <= p < |v| then v[p].count else 0 }

  lemma NoCountExactly(c: Config, v: seq<Load>)
    requires c.Ok() && |v| == c.n
    ensures GlobalLoad(c, v, c.n).count == 0 <==> forall p | 0 <= p < c.n :: v[p].count == 0
  {
    GlobalSum(c, v, Count, Counts(v));
    SumZero(c.n, Counts(v), 0);
    forall p | 0 <= p < c.n && Sum(c.n, Counts(v)) == 0 ensures v[p].count == 0 {
      SumZero(c.n, Counts(v), p);
    }
  }

  lemma ReadyToPollExactly(c: Config, v: seq<Load>)
    requires c.Ok() && |v| == c.n
    ensures GlobalLoad(c, v, c.n).ReadyToPoll() <==> NothingLeft(v)
  {
    NoCountExactly(c, v);
    GlobalSum(c, v, DispatchDue, DispatchGap(v));
    GlobalSum(c, v, LocalDue, LocalGap(v));
    GlobalSum(c, v, NonLocalDue, NonLocalGap(v));
  }

  lemma {:induction false} PendingFrom(c: Config, v: seq<Load>, k: nat)
    requires c.Ok() && |v| == c.n && k <= c.n && GlobalLoad(c, v, k).mergePending
    ensures exists p :: 0 <= p < c.n && v[p].mergePending
  {
    if c.IsHub(k - 1) && ClusterLoad(c, v, k - 1, c.n).mergePending {
      ClusterPendingExactly(c, v, k - 1, c.n);
    } else {
      PendingFrom(c, v, k - 1);
    }
  }

  lemma NoMergeExactly(c: Config, v: seq<Load>)
    requires c.Ok() && |v| == c.n
    ensures !GlobalLoad(c, v, c.n).mergePending <==> forall p | 0 <= p < c.n :: !v[p].mergePending
  {
    if GlobalLoad(c, v, c.n).mergePending {
      PendingFrom(c, v, c.n);
    } else {
      forall p | 0 <= p < c.n ensures !v[p].mergePending {
        NothingPending(c, v, c.hub[p], p);
      }
    }
  }

  lemma SeemsDoneExactly(c: Config, v: seq<Load>)
    requires c.Ok() && |v| == c.n
    ensures GlobalLoad(c, v, c.n).SeemsReallyDone() <==> NothingElseLeft(v)
  {
    ReadyToPollExactly(c, v);
    NoMergeExactly(c, v);
    GlobalSum(c, v, GeneralDue, GeneralGap(v));
  }

  /** A survey finds the machine ready to poll exactly if no processor's record has a subproblem and the three kinds of
      counted work messages balance over the whole machine. */
  lemma ReadyExactly(c: Config, s: Sys)
    requires c.Ok() && |s.survey| == c.n
    ensures Ready(c, s) <==> NothingLeft(s.survey)
  {
    ReadyToPollExactly(c, s.survey);
  }

  /** Between checks, when all hubs have joined the survey. */
  ghost predicate SurveyOver(c: Config, s: Sys)
    requires Sized(c, s)
  {
    !s.checking && !s.terminated && forall h | c.IsHub(h) :: s.joined[h]
  }

  /** Then a check begins if nothing is left, and only then, and the survey is declined if something is. */
  lemma CheckBeginsExactly(c: Config, s: Sys)
    requires Sized(c, s) && SurveyOver(c, s) && Empty(s.net.lb) && forall h | c.IsHub(h) :: s.phase[h] == Resting
    ensures (exists s' :: Begin(c, s, s')) <==> NothingLeft(s.survey)
    ensures (exists s' :: Decline(c, s, s')) <==> !NothingLeft(s.survey)
  {
    ReadyExactly(c, s);
    if Ready(c, s) {
      assert Begin(c, s, s.(checking := true, joined := NoneJoined(c)));
    } else {
      assert Decline(c, s, s.(joined := NoneJoined(c)));
    }
  }

  /** No check begins while a surveyed processor has a subproblem. */
  lemma WorkIsNotChecked(c: Config, s: Sys, s': Sys, p: int)
    requires Sized(c, s) && 0 <= p < c.n && s.survey[p].count > 0
    ensures !Begin(c, s, s')
  {
    ReadyExactly(c, s);
  }

  /** The root goes on to wave two exactly if nothing is left in what wave one sampled, pending merges and general
      messages included; otherwise the check is over. */
  lemma CombineExactly(c: Config, s: Sys, s': Sys)
    requires Sized(c, s) && Combine(c, s, s')
    ensures s'.combined <==> NothingElseLeft(s.sample)
    ensures s'.combined ==> s'.epoch == s.epoch + 1 && s'.checking
    ensures !s'.combined ==> !s'.checking && forall h | c.IsHub(h) :: s'.phase[h] == Resting
  {
    SeemsDoneExactly(c, s.sample);
  }
}
