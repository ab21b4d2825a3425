/** How the processors come to start the search with one and the same incumbent: `rampUpIncumbentSync` in
    `parBranching.cpp`, and what it means for the broadcasts that follow. */
module RampUpSync {
  import opened IncumbentBroadcast

  function BetterOf(sense: int, x: real, y: real): real { if (y - x) * (sense as real) < 0.0 then y else x }

  /** The first reduction: the best incumbent value. */
  function BestValue(sense: int, found: seq<Pair>): real
    requires found != []
  {
    var k := |found| - 1;
    if k == 0 then found[0].value else BetterOf(sense, BestValue(sense, found[..k]), found[k].value)
  }

  /** The second: the lowest source among the processors that have this value; the others bid `size`. */
  function LowestSource(found: seq<Pair>, best: real, size: nat): int {
    if found == [] then size
    else
      var k := |found| - 1;
      var bid, rest := if found[k].value == best then found[k].source else size, LowestSource(found[..k], best, size);
      if bid < rest then bid else rest
  }

  function Synced(sense: int, found: seq<Pair>): Pair
    requires found != []
  {
    var best := BestValue(sense, found);
    Pair(best, LowestSource(found, best, |found|))
  }

  lemma {:induction false} BestIsReached(sense: int, found: seq<Pair>)
    requires found != [] && (sense == 1 || sense == -1)
    ensures exists p :: 0 <= p < |found| && found[p].value == BestValue(sense, found)
    ensures forall p | 0 <= p < |found| :: (found[p].value - BestValue(sense, found)) * (sense as real) >= 0.0
  {
    var k := |found| - 1;
    if k > 0 {
      BestIsReached(sense, found[..k]);
      var p :| 0 <= p < k && found[..k][p].value == BestValue(sense, found[..k]);
      assert found[p].value == found[..k][p].value && found[k].value == found[k].value;
      forall q | 0 <= q < k ensures found[q].value == found[..k][q].value {
      }
    } else {
      assert found[0].value == BestValue(sense, found);
    }
  }

  lemma {:induction false} LowestIsBid(found: seq<Pair>, best: real, size: nat)
    ensures var s := LowestSource(found, best, size);
            && s <= size && (s < size ==> Pair(best, s) in found)
            && forall a | a in found && a.value == best :: s <= a.source
  {
    if found != [] {
      var k := |found| - 1;
      LowestIsBid(found[..k], best, size);
      assert found == found[..k] + [found[k]];
    }
  }

  /** All processors end with a pair that one of them had, and nobody had a better one. */
  lemma SyncedIsBest(sense: int, found: seq<Pair>)
    requires found != [] && (sense == 1 || sense == -1) && forall a | a in found :: a.source < |found|
    ensures Synced(sense, found) in found && forall a | a in found :: NoWorse(sense, Synced(sense, found), a)
    ensures forall a | a in found ::
              var p := Synced(sense, found);
              !Beats(sense, a.value, p.value) && (a.value == p.value ==> p.source <= a.source)
  {
    BestIsReached(sense, found);
    var best := BestValue(sense, found);
    LowestIsBid(found, best, |found|);
    var p :| 0 <= p < |found| && found[p].value == best;
    assert found[p] in found;
    forall a | a in found ensures NoWorse(sense, Synced(sense, found), a) {
      var q :| 0 <= q < |found| && found[q] == a;
    }
    forall a | a in found
      ensures var p := Synced(sense, found);
              !Beats(sense, a.value, p.value) && (a.value == p.value ==> p.source <= a.source)
    {
      NoWorseMeans(sense, Synced(sense, found), a);
    }
  }

  /** Whatever the processors found during ramp-up and announced since: when no broadcast is in transit they all
      hold the best of it. */
  lemma AgreementSinceRampUp(m: Machine, found: seq<Pair>, run: seq<System>, i: nat, p: int, q: int)
    requires m.Ok() && |found| == m.size && (forall a | a in found :: a.source < m.size)
    requires m.initial == Synced(m.sense, found) && IsRun(m, run) && i < |run| && run[i].transit == multiset{}
    requires m.Rank(p) && m.Rank(q)
    ensures |run[i].held| == m.size && run[i].held[p] == run[i].held[q]
    ensures forall a | a in found || a in run[i].known ::
              && !Beats(m.sense, a.value, run[i].held[p].value)
              && (a.value == run[i].held[p].value ==> run[i].held[p].source <= a.source)
    ensures run[i].held[p] in found || exists k: nat :: k < i && AnnouncedAt(m, run, k, run[i].held[p])
  {
    SyncedIsBest(m.sense, found);
    IncumbentAgreement(m, run, i, p, q);
    KnownIsAnnounced(m, run, i, m.initial);
    forall a | a in found ensures NoWorse(m.sense, run[i].held[p], a) {
      NoWorseIsTotalOrder(m.sense, run[i].held[p], m.initial, a);
    }
    forall a | a in found || a in run[i].known
      ensures !Beats(m.sense, a.value, run[i].held[p].value)
      ensures a.value == run[i].held[p].value ==> run[i].held[p].source <= a.source
    {
      NoWorseMeans(m.sense, run[i].held[p], a);
    }
    KnownIsAnnounced(m, run, i, run[i].held[p]);
  }
}
