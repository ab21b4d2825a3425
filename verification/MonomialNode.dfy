/** The bound of a node of the monomial search, in terms of the rows of the data. */
module MonomialNode {
  import opened Fathoming
  import opened Monomial
  import opened MonomialBound
  import opened Pooling
  import RealSums

  // ---------- Sums do not depend on the order of the entries ----------

  ghost function EntrySum(f: Entry -> real, s: seq<Entry>): real {
    if s == [] then 0.0 else EntrySum(f, s[..|s| - 1]) + f(s[|s| - 1])
  }

  lemma EntrySumPush(f: Entry -> real, s: seq<Entry>, e: Entry)
    ensures EntrySum(f, s + [e]) == EntrySum(f, s) + f(e)
  {
    assert (s + [e])[..|s|] == s;
  }

  lemma {:induction false} EntrySumWithout(f: Entry -> real, s: seq<Entry>, i: nat)
    requires i < |s|
    ensures EntrySum(f, s) == EntrySum(f, WithoutAt(s, i)) + f(s[i])
  {
    WithoutEarlier(s, i);
    if i < |s| - 1 {
      EntrySumWithout(f, s[..|s| - 1], i);
      EntrySumPush(f, WithoutAt(s[..|s| - 1], i), s[|s| - 1]);
    }
  }

  lemma {:induction false} EntrySumSame(f: Entry -> real, s: seq<Entry>, t: seq<Entry>)
    requires multiset(s) == multiset(t)
    ensures EntrySum(f, s) == EntrySum(f, t)
  {
    if s == [] {
      assert |t| == |multiset(t)| == 0;
    } else {
      var front, last := s[..|s| - 1], s[|s| - 1];
      assert s == front + [last];
      var i := SomeIndex(t, last);
      assert multiset(WithoutAt(t, i)) == multiset(front);
      EntrySumSame(f, front, WithoutAt(t, i));
      EntrySumWithout(f, t, i);
    }
  }

  ghost function InClass(k: seq<bool>): Entry -> real { (e: Entry) => if e.obs == k then e.weight else 0.0 }

  ghost function Whole(): Entry -> real { (e: Entry) => e.weight }

  ghost function CoveredPart(m: seq<VarVal>): Entry -> real {
    (e: Entry) => if |m| <= |e.row| && Evaluates(m, e.row) then e.weight else 0.0
  }

  lemma {:induction false} WeightsAsSums(s: seq<Entry>, k: seq<bool>)
    ensures ClassWeight(s, k) == EntrySum(InClass(k), s) && Weight(s) == EntrySum(Whole(), s)
  {
    if s != [] {
      WeightsAsSums(s[..|s| - 1], k);
    }
  }

  lemma {:induction false} CoveredAsSum(s: seq<Entry>, m: seq<VarVal>)
    requires forall i | 0 <= i < |s| :: |m| <= |s[i].row|
    ensures Weight(Covered(s, m)) == EntrySum(CoveredPart(m), s)
  {
    if s != [] {
      var front, last := s[..|s| - 1], s[|s| - 1];
      CoveredAsSum(front, m);
      if Evaluates(m, last.row) {
        ClassWeightAppend(Covered(front, m), last, []);
      } else {
        assert Covered(front, m) + [] == Covered(front, m);
      }
    }
  }

  lemma SameWeights(s: seq<Entry>, t: seq<Entry>, k: seq<bool>)
    requires multiset(s) == multiset(t)
    ensures ClassWeight(s, k) == ClassWeight(t, k) && Weight(s) == Weight(t)
  {
    WeightsAsSums(s, k);
    WeightsAsSums(t, k);
    EntrySumSame(InClass(k), s, t);
    EntrySumSame(Whole(), s, t);
  }

  lemma SameInsep(pos: seq<Entry>, neg: seq<Entry>, pos': seq<Entry>, neg': seq<Entry>, keys: seq<seq<bool>>)
    requires multiset(pos) == multiset(pos') && multiset(neg) == multiset(neg')
    ensures Insep(pos, neg, keys) == Insep(pos', neg', keys)
  {
    forall t | 0 <= t < |keys| ensures ClassMin(pos, neg, keys)(t) == ClassMin(pos', neg', keys)(t) {
      SameWeights(pos, pos', keys[t]);
      SameWeights(neg, neg', keys[t]);
    }
    RealSums.RSumSame(|keys|, ClassMin(pos, neg, keys), ClassMin(pos', neg', keys));
  }

  lemma SameClasses(keys: seq<seq<bool>>, s: seq<Entry>, t: seq<Entry>)
    requires AllClasses(keys, s) && multiset(s) == multiset(t)
    ensures AllClasses(keys, t)
  {
    forall i | 0 <= i < |t| ensures t[i].obs in keys {
      assert t[i] in multiset(s);
      var j := SomeIndex(s, t[i]);
    }
  }

  // ---------- The rows ----------

  ghost predicate Data(rows: seq<seq<bool>>, weight: seq<real>, size: nat) {
    |weight| == |rows| && forall i | 0 <= i < |rows| :: |rows[i]| == size && weight[i] >= 0.0
  }

  /** The weight of the rows that a monomial covers. */
  ghost function CoveredWeight(rows: seq<seq<bool>>, weight: seq<real>, m: seq<VarVal>): real
    requires Data(rows, weight, |m|)
  {
    if rows == [] then 0.0 else
      var n := |rows| - 1;
      CoveredWeight(rows[..n], weight[..n], m) + if Evaluates(m, rows[n]) then weight[n] else 0.0
  }

  ghost function Total(weight: seq<real>): real {
    if weight == [] then 0.0 else Total(weight[..|weight| - 1]) + weight[|weight| - 1]
  }

  lemma LastEntry(rows: seq<seq<bool>>, weight: seq<real>, ignore: set<int>)
    requires |weight| == |rows| > 0
    ensures var n := |rows| - 1;
            Entries(rows, weight, ignore)
            == Entries(rows[..n], weight[..n], ignore) + [Entry(rows[n], Filtered(rows[n], ignore), weight[n])]
  {
  }

  lemma {:induction false} EntriesOfRows(rows: seq<seq<bool>>, weight: seq<real>, m: seq<VarVal>, ignore: set<int>)
    requires Data(rows, weight, |m|)
    ensures EntrySum(CoveredPart(m), Entries(rows, weight, ignore)) == CoveredWeight(rows, weight, m)
    ensures EntrySum(Whole(), Entries(rows, weight, ignore)) == Total(weight)
  {
    if rows != [] {
      var n := |rows| - 1;
      var front, last := Entries(rows[..n], weight[..n], ignore), Entry(rows[n], Filtered(rows[n], ignore), weight[n]);
      EntriesOfRows(rows[..n], weight[..n], m, ignore);
      LastEntry(rows, weight, ignore);
      EntrySumPush(CoveredPart(m), front, last);
      EntrySumPush(Whole(), front, last);
    }
  }

  /** A sorted coverage weighs what its rows weigh, in all and for every monomial. */
  lemma CoverageOfRows(s: seq<Entry>, rows: seq<seq<bool>>, weight: seq<real>, m: seq<VarVal>, ignore: set<int>)
    requires Data(rows, weight, |m|) && FromRows(s, |m|, ignore)
    requires multiset(s) == multiset(Entries(rows, weight, ignore))
    ensures Weight(Covered(s, m)) == CoveredWeight(rows, weight, m) && Weight(s) == Total(weight)
  {
    var all := Entries(rows, weight, ignore);
    CoveredAsSum(s, m);
    WeightsAsSums(s, []);
    EntrySumSame(CoveredPart(m), s, all);
    EntrySumSame(Whole(), s, all);
    EntriesOfRows(rows, weight, m, ignore);
  }

  /** The monomial that covers everything. */
  ghost function NullMonomial(size: nat): seq<VarVal> { seq(size, _ => NullVal) }

  /** An entry list that stands for the rows. */
  ghost predicate StandsFor(s: seq<Entry>, rows: seq<seq<bool>>, weight: seq<real>, ignore: set<int>, size: nat) {
    && Data(rows, weight, size) && FromRows(s, size, ignore) && Weight(s) == Total(weight)
    && forall m: seq<VarVal> | |m| == size :: Weight(Covered(s, m)) == CoveredWeight(rows, weight, m)
  }

  lemma SortedStandsFor(s: seq<Entry>, rows: seq<seq<bool>>, weight: seq<real>, ignore: set<int>, size: nat)
    requires Data(rows, weight, size) && FromRows(s, size, ignore)
    requires multiset(s) == multiset(Entries(rows, weight, ignore))
    ensures StandsFor(s, rows, weight, ignore, size)
  {
    CoverageOfRows(s, rows, weight, NullMonomial(size), ignore);
    forall m: seq<VarVal> | |m| == size ensures Weight(Covered(s, m)) == CoveredWeight(rows, weight, m) {
      CoverageOfRows(s, rows, weight, m, ignore);
    }
  }

  lemma BoundOfParts(pos: seq<Entry>, neg: seq<Entry>, keys: seq<seq<bool>>, size: nat, ignore: set<int>,
                     m: seq<VarVal>, cp: real, cn: real, wp: real, wn: real)
    requires FromRows(pos, size, ignore) && FromRows(neg, size, ignore) && |m| <= size && Avoids(m, ignore)
    requires AllClasses(keys, pos) && AllClasses(keys, neg)
    requires Weight(Covered(pos, m)) == cp && Weight(Covered(neg, m)) == cn && Weight(pos) == wp && Weight(neg) == wn
    ensures Abs(cp - cn) <= MaxReal(wp, wn) - Insep(pos, neg, keys)
  {
    BoundHoldsBelow(pos, neg, keys, size, ignore, m);
  }

  lemma StandsForOne(s: seq<Entry>, rows: seq<seq<bool>>, weight: seq<real>, ignore: set<int>, m: seq<VarVal>)
    requires StandsFor(s, rows, weight, ignore, |m|)
    ensures FromRows(s, |m|, ignore) && Weight(s) == Total(weight)
    ensures Weight(Covered(s, m)) == CoveredWeight(rows, weight, m)
  {
  }

  /** The weight that no monomial of the rows' filtered form can tell apart. */
  ghost function InsepOfRows(posRows: seq<seq<bool>>, posWeight: seq<real>, negRows: seq<seq<bool>>,
                             negWeight: seq<real>, ignore: set<int>, size: nat): real
    requires Data(posRows, posWeight, size) && Data(negRows, negWeight, size)
  {
    var pos, neg := Entries(posRows, posWeight, ignore), Entries(negRows, negWeight, ignore);
    Insep(pos, neg, Classes(pos + neg))
  }

  lemma NodePromise(pos: seq<Entry>, posRows: seq<seq<bool>>, posWeight: seq<real>, neg: seq<Entry>,
                    negRows: seq<seq<bool>>, negWeight: seq<real>, ignore: set<int>, size: nat, keys: seq<seq<bool>>,
                    insepWt: real)
    requires StandsFor(pos, posRows, posWeight, ignore, size) && StandsFor(neg, negRows, negWeight, ignore, size)
    requires Weighted(pos) && Weighted(neg) && AllClasses(keys, pos) && AllClasses(keys, neg)
    requires insepWt == 0.0 || insepWt == Insep(pos, neg, keys)
    ensures forall m: seq<VarVal> | |m| == size && Avoids(m, ignore) ::
              Abs(CoveredWeight(posRows, posWeight, m) - CoveredWeight(negRows, negWeight, m))
              <= MaxReal(Total(posWeight), Total(negWeight)) - insepWt
  {
    InsepNotNegative(pos, neg, keys);
    forall m: seq<VarVal> | |m| == size && Avoids(m, ignore)
      ensures Abs(CoveredWeight(posRows, posWeight, m) - CoveredWeight(negRows, negWeight, m))
              <= MaxReal(Total(posWeight), Total(negWeight)) - insepWt
    {
      StandsForOne(pos, posRows, posWeight, ignore, m);
      StandsForOne(neg, negRows, negWeight, ignore, m);
      BoundOfParts(pos, neg, keys, size, ignore, m, CoveredWeight(posRows, posWeight, m),
                   CoveredWeight(negRows, negWeight, m), Total(posWeight), Total(negWeight));
    }
  }

  /** A coverage of a node, sorted, and the classes `keys` that it has. */
  method Coverage(rows: seq<seq<bool>>, weight: seq<real>, ignore: set<int>, size: nat, ghost keys: seq<seq<bool>>)
    returns (s: seq<Entry>)
    requires Data(rows, weight, size) && AllClasses(keys, Entries(rows, weight, ignore))
    ensures multiset(s) == multiset(Entries(rows, weight, ignore)) && SortedObs(s) && Weighted(s)
    ensures StandsFor(s, rows, weight, ignore, size) && AllClasses(keys, s)
  {
    s := GetFilteredObsSorted(rows, weight, ignore, size);
    SameClasses(keys, Entries(rows, weight, ignore), s);
    SortedStandsFor(s, rows, weight, ignore, size);
  }

  /** A node's bound as it is computed: the heavier coverage less what is inseparable; and what it promises for every
      monomial below the node. */
  method NodeBound(posRows: seq<seq<bool>>, posWeight: seq<real>, negRows: seq<seq<bool>>, negWeight: seq<real>,
                   ignore: set<int>, size: nat) returns (bound: real)
    requires Data(posRows, posWeight, size) && Data(negRows, negWeight, size)
    ensures bound == MaxReal(Total(posWeight), Total(negWeight)) -
                     if ignore == {} then 0.0 else InsepOfRows(posRows, posWeight, negRows, negWeight, ignore, size)
    ensures forall m: seq<VarVal> | |m| == size && Avoids(m, ignore) ::
              Abs(CoveredWeight(posRows, posWeight, m) - CoveredWeight(negRows, negWeight, m)) <= bound
  {
    ghost var pos0, neg0 := Entries(posRows, posWeight, ignore), Entries(negRows, negWeight, ignore);
    ghost var keys := Classes(pos0 + neg0);
    BothClasses(pos0, neg0, keys);
    var pos := Coverage(posRows, posWeight, ignore, size, keys);
    var neg := Coverage(negRows, negWeight, ignore, size, keys);
    var insepWt := CalculateInsepWeight(pos, neg, ignore == {}, keys);
    bound := MaxReal(Weight(pos), Weight(neg)) - insepWt;
    SameInsep(pos, neg, pos0, neg0, keys);
    NodePromise(pos, posRows, posWeight, neg, negRows, negWeight, ignore, size, keys, insepWt);
  }
}
