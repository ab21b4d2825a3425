/** What a node of the monomial search can still achieve, for every monomial below it. */
module MonomialBound {
  import opened Fathoming
  import opened RealSums
  import opened Monomial

  datatype VarVal = NullVal | NotInMonom | InMonom | ComplementedInMonom

  /** `evaluatePoint`. */
  predicate Evaluates(m: seq<VarVal>, row: seq<bool>)
    requires |m| <= |row|
  {
    forall v | 0 <= v < |m| :: (m[v].InMonom? ==> row[v]) && (m[v].ComplementedInMonom? ==> !row[v])
  }

  /** The monomial has no literal on an ignored variable. */
  predicate Avoids(m: seq<VarVal>, ignore: set<int>) {
    forall v | 0 <= v < |m| && v in ignore :: !m[v].InMonom? && !m[v].ComplementedInMonom?
  }

  /** The attributes that are not ignored. */
  function Filtered(row: seq<bool>, ignore: set<int>): seq<bool> {
    if row == [] then []
    else Filtered(row[..|row| - 1], ignore) + if |row| - 1 in ignore then [] else [row[|row| - 1]]
  }

  lemma {:induction false} FilteredSize(a: seq<bool>, b: seq<bool>, ignore: set<int>)
    requires |a| == |b|
    ensures |Filtered(a, ignore)| == |Filtered(b, ignore)|
  {
    if a != [] {
      FilteredSize(a[..|a| - 1], b[..|b| - 1], ignore);
    }
  }

  ghost predicate AgreeOutside(a: seq<bool>, b: seq<bool>, ignore: set<int>) {
    |a| == |b| && forall v | 0 <= v < |a| && v !in ignore :: a[v] == b[v]
  }

  lemma AgreeLast(a: seq<bool>, b: seq<bool>, ignore: set<int>)
    requires |a| == |b| > 0
    ensures var n := |a| - 1;
            AgreeOutside(a, b, ignore) <==> AgreeOutside(a[..n], b[..n], ignore) && (n in ignore || a[n] == b[n])
  {
    var n := |a| - 1;
    assert forall v | 0 <= v < n :: a[..n][v] == a[v] && b[..n][v] == b[v];
    if AgreeOutside(a[..n], b[..n], ignore) && (n in ignore || a[n] == b[n]) {
      forall v | 0 <= v < |a| && v !in ignore ensures a[v] == b[v] {
        assert v < n ==> a[..n][v] == b[..n][v];
      }
    }
  }

  lemma LastEqual(x: seq<bool>, y: seq<bool>, p: bool, q: bool)
    requires |x| == |y|
    ensures x + [p] == y + [q] <==> x == y && p == q
  {
    assert (x + [p])[|x|] == p && (y + [q])[|y|] == q;
    assert (x + [p])[..|x|] == x && (y + [q])[..|y|] == y;
  }

  /** Filtered observations agree exactly when the rows agree on every attribute that is not ignored. */
  lemma {:induction false} SameFiltered(a: seq<bool>, b: seq<bool>, ignore: set<int>)
    requires |a| == |b|
    ensures Filtered(a, ignore) == Filtered(b, ignore) <==> AgreeOutside(a, b, ignore)
  {
    if a != [] {
      var n := |a| - 1;
      var fa, fb := Filtered(a[..n], ignore), Filtered(b[..n], ignore);
      SameFiltered(a[..n], b[..n], ignore);
      AgreeLast(a, b, ignore);
      FilteredSize(a[..n], b[..n], ignore);
      LastEqual(fa, fb, a[n], b[n]);
      assert fa + [] == fa && fb + [] == fb;
    }
  }

  /** Rows of one class are covered together by every monomial that avoids the ignored variables. */
  lemma ClassCoveredTogether(m: seq<VarVal>, a: seq<bool>, b: seq<bool>, ignore: set<int>)
    requires |m| <= |a| == |b| && Avoids(m, ignore) && Filtered(a, ignore) == Filtered(b, ignore)
    ensures Evaluates(m, a) <==> Evaluates(m, b)
  {
    SameFiltered(a, b, ignore);
  }

  /** The entries come from rows of the data. */
  ghost predicate FromRows(s: seq<Entry>, size: nat, ignore: set<int>) {
    && Weighted(s)
    && forall i | 0 <= i < |s| :: |s[i].row| == size && s[i].obs == Filtered(s[i].row, ignore)
  }

  function Covered(s: seq<Entry>, m: seq<VarVal>): seq<Entry>
    requires forall i | 0 <= i < |s| :: |m| <= |s[i].row|
  {
    if s == [] then []
    else Covered(s[..|s| - 1], m) + if Evaluates(m, s[|s| - 1].row) then [s[|s| - 1]] else []
  }

  lemma ClassWeightAppend(s: seq<Entry>, e: Entry, k: seq<bool>)
    ensures ClassWeight(s + [e], k) == ClassWeight(s, k) + if e.obs == k then e.weight else 0.0
    ensures Weight(s + [e]) == Weight(s) + e.weight
  {
    assert (s + [e])[..|s|] == s;
  }

  lemma {:induction false} CoveredClass(s: seq<Entry>, m: seq<VarVal>, k: seq<bool>, whole: bool)
    requires forall i | 0 <= i < |s| :: |m| <= |s[i].row|
    requires forall i | 0 <= i < |s| && s[i].obs == k :: Evaluates(m, s[i].row) == whole
    ensures ClassWeight(Covered(s, m), k) == if whole then ClassWeight(s, k) else 0.0
  {
    if s != [] {
      var front, last := s[..|s| - 1], s[|s| - 1];
      CoveredClass(front, m, k, whole);
      if Evaluates(m, last.row) {
        ClassWeightAppend(Covered(front, m), last, k);
      } else {
        assert Covered(front, m) + [] == Covered(front, m);
      }
    }
  }

  ghost function ClassAt(s: seq<Entry>, keys: seq<seq<bool>>): int -> real {
    t => if 0 <= t < |keys| then ClassWeight(s, keys[t]) else 0.0
  }

  /** The classes make up the whole weight. */
  lemma {:induction false} WeightByClasses(s: seq<Entry>, keys: seq<seq<bool>>)
    requires AllClasses(keys, s)
    ensures Weight(s) == RSum(|keys|, ClassAt(s, keys))
  {
    if s == [] {
      RSumZero(|keys|, ClassAt(s, keys));
    } else {
      var front, last := s[..|s| - 1], s[|s| - 1];
      assert forall i | 0 <= i < |front| :: front[i] == s[i];
      WeightByClasses(front, keys);
      assert last.obs in keys;
      var t :| 0 <= t < |keys| && keys[t] == last.obs;
      RSumBump(|keys|, ClassAt(front, keys), ClassAt(s, keys), t, last.weight);
    }
  }

  lemma {:induction false} CoveredKeepsClasses(s: seq<Entry>, m: seq<VarVal>, keys: seq<seq<bool>>)
    requires (forall i | 0 <= i < |s| :: |m| <= |s[i].row|) && AllClasses(keys, s)
    ensures AllClasses(keys, Covered(s, m))
  {
    if s != [] {
      var front := s[..|s| - 1];
      assert forall i | 0 <= i < |front| :: front[i] == s[i];
      CoveredKeepsClasses(front, m, keys);
    }
  }

  /** Whether class `k` is covered. */
  ghost predicate ClassIn(pos: seq<Entry>, neg: seq<Entry>, m: seq<VarVal>, k: seq<bool>)
    requires forall i | 0 <= i < |pos| :: |m| <= |pos[i].row|
    requires forall i | 0 <= i < |neg| :: |m| <= |neg[i].row|
  {
    || (exists i :: 0 <= i < |pos| && pos[i].obs == k && Evaluates(m, pos[i].row))
    || (exists i :: 0 <= i < |neg| && neg[i].obs == k && Evaluates(m, neg[i].row))
  }

  lemma ClassAllOrNothing(pos: seq<Entry>, neg: seq<Entry>, size: nat, ignore: set<int>, m: seq<VarVal>, k: seq<bool>)
    requires FromRows(pos, size, ignore) && FromRows(neg, size, ignore) && |m| <= size && Avoids(m, ignore)
    ensures forall i | 0 <= i < |pos| && pos[i].obs == k :: Evaluates(m, pos[i].row) == ClassIn(pos, neg, m, k)
    ensures forall i | 0 <= i < |neg| && neg[i].obs == k :: Evaluates(m, neg[i].row) == ClassIn(pos, neg, m, k)
  {
    forall a, b | a in pos + neg && b in pos + neg && a.obs == k && b.obs == k
      ensures Evaluates(m, a.row) == Evaluates(m, b.row)
    {
      ClassCoveredTogether(m, a.row, b.row, ignore);
    }
    assert forall i | 0 <= i < |pos| :: pos[i] in pos + neg;
    assert forall i | 0 <= i < |neg| :: neg[i] in pos + neg;
  }

  /** The bound of a node: for every monomial below it that avoids the ignored variables, the weights it
      covers differ by no more than the heavier coverage less what is inseparable. */
  lemma BoundHoldsBelow(pos: seq<Entry>, neg: seq<Entry>, keys: seq<seq<bool>>, size: nat, ignore: set<int>,
                        m: seq<VarVal>)
    requires FromRows(pos, size, ignore) && FromRows(neg, size, ignore) && |m| <= size && Avoids(m, ignore)
    requires AllClasses(keys, pos) && AllClasses(keys, neg)
    ensures Abs(Weight(Covered(pos, m)) - Weight(Covered(neg, m)))
            <= MaxReal(Weight(pos), Weight(neg)) - Insep(pos, neg, keys)
  {
    OneSide(pos, neg, keys, size, ignore, m);
    OneSide(neg, pos, keys, size, ignore, m);
    InsepSymmetric(pos, neg, keys);
  }

  lemma OneSide(pos: seq<Entry>, neg: seq<Entry>, keys: seq<seq<bool>>, size: nat, ignore: set<int>, m: seq<VarVal>)
    requires FromRows(pos, size, ignore) && FromRows(neg, size, ignore) && |m| <= size && Avoids(m, ignore)
    requires AllClasses(keys, pos) && AllClasses(keys, neg)
    ensures Weight(Covered(pos, m)) - Weight(Covered(neg, m)) <= Weight(pos) - Insep(pos, neg, keys)
  {
    var n, cp, cn := |keys|, Covered(pos, m), Covered(neg, m);
    CoveredKeepsClasses(pos, m, keys);
    CoveredKeepsClasses(neg, m, keys);
    WeightByClasses(pos, keys);
    WeightByClasses(cp, keys);
    WeightByClasses(cn, keys);
    var left := (t: int) => ClassAt(cp, keys)(t) + ClassMin(pos, neg, keys)(t);
    var right := (t: int) => ClassAt(cn, keys)(t) + ClassAt(pos, keys)(t);
    forall t | 0 <= t < n ensures left(t) <= right(t) {
      ClassAllOrNothing(pos, neg, size, ignore, m, keys[t]);
      CoveredClass(pos, m, keys[t], ClassIn(pos, neg, m, keys[t]));
      CoveredClass(neg, m, keys[t], ClassIn(pos, neg, m, keys[t]));
      ClassWeightNotNegative(pos, keys[t]);
      ClassWeightNotNegative(neg, keys[t]);
    }
    RSumLe(n, left, right);
    RSumPlus(n, ClassAt(cp, keys), ClassMin(pos, neg, keys), left);
    RSumPlus(n, ClassAt(cn, keys), ClassAt(pos, keys), right);
  }

  // ---------- The bound is no larger than it must be ----------

  /** The weight of the classes in `picked`. */
  ghost function PickedAt(s: seq<Entry>, keys: seq<seq<bool>>, picked: set<seq<bool>>): int -> real {
    t => if 0 <= t < |keys| && keys[t] in picked then ClassWeight(s, keys[t]) else 0.0
  }

  ghost function Picked(s: seq<Entry>, keys: seq<seq<bool>>, picked: set<seq<bool>>): real {
    RSum(|keys|, PickedAt(s, keys, picked))
  }

  /** How far two picked coverages can be apart. */
  lemma PickedApart(pos: seq<Entry>, neg: seq<Entry>, keys: seq<seq<bool>>, picked: set<seq<bool>>)
    requires AllClasses(keys, pos)
    ensures Picked(pos, keys, picked) - Picked(neg, keys, picked) <= Weight(pos) - Insep(pos, neg, keys)
  {
    var n, p, q := |keys|, PickedAt(pos, keys, picked), PickedAt(neg, keys, picked);
    var left := (t: int) => p(t) + ClassMin(pos, neg, keys)(t);
    var right := (t: int) => q(t) + ClassAt(pos, keys)(t);
    WeightByClasses(pos, keys);
    RSumLe(n, left, right);
    RSumPlus(n, p, ClassMin(pos, neg, keys), left);
    RSumPlus(n, q, ClassAt(pos, keys), right);
  }

  /** The classes in which `pos` weighs more. */
  lemma HeavierPicked(pos: seq<Entry>, neg: seq<Entry>, keys: seq<seq<bool>>) returns (picked: set<seq<bool>>)
    requires AllClasses(keys, pos)
    ensures Picked(pos, keys, picked) - Picked(neg, keys, picked) == Weight(pos) - Insep(pos, neg, keys)
  {
    picked := set k | k in keys && ClassWeight(pos, k) > ClassWeight(neg, k);
    var n, p, q := |keys|, PickedAt(pos, keys, picked), PickedAt(neg, keys, picked);
    var left := (t: int) => p(t) + ClassMin(pos, neg, keys)(t);
    var right := (t: int) => q(t) + ClassAt(pos, keys)(t);
    WeightByClasses(pos, keys);
    forall t | 0 <= t < n ensures left(t) == right(t) {
      assert keys[t] in picked <==> ClassWeight(pos, keys[t]) > ClassWeight(neg, keys[t]);
    }
    RSumSame(n, left, right);
    RSumPlus(n, p, ClassMin(pos, neg, keys), left);
    RSumPlus(n, q, ClassAt(pos, keys), right);
  }

  /** Of all selections of whole classes the bound is the greatest difference: none has a greater one, and one has
      it. */
  lemma BoundIsGreatest(pos: seq<Entry>, neg: seq<Entry>, keys: seq<seq<bool>>) returns (picked: set<seq<bool>>)
    requires AllClasses(keys, pos) && AllClasses(keys, neg)
    ensures var bound := MaxReal(Weight(pos), Weight(neg)) - Insep(pos, neg, keys);
            && Abs(Picked(pos, keys, picked) - Picked(neg, keys, picked)) == bound
            && forall other :: Abs(Picked(pos, keys, other) - Picked(neg, keys, other)) <= bound
  {
    InsepSymmetric(pos, neg, keys);
    forall other
      ensures Abs(Picked(pos, keys, other) - Picked(neg, keys, other))
              <= MaxReal(Weight(pos), Weight(neg)) - Insep(pos, neg, keys)
    {
      PickedApart(pos, neg, keys, other);
      PickedApart(neg, pos, keys, other);
    }
    if Weight(pos) >= Weight(neg) {
      picked := HeavierPicked(pos, neg, keys);
    } else {
      picked := HeavierPicked(neg, pos, keys);
    }
  }

  // ---------- Sorting the coverage ----------

  /** Puts an entry where a sorted multiset puts it: behind the entries that are not greater. */
  function InsertObs(s: seq<Entry>, e: Entry): (r: seq<Entry>)
    ensures |r| == |s| + 1
  {
    if s == [] || !Less(e.obs, s[|s| - 1].obs) then s + [e] else InsertObs(s[..|s| - 1], e) + [s[|s| - 1]]
  }

  lemma {:induction false} InsertObsKeeps(s: seq<Entry>, e: Entry)
    requires SortedObs(s)
    ensures SortedObs(InsertObs(s, e))
    ensures multiset(InsertObs(s, e)) == multiset(s) + multiset{e}
  {
    if s == [] {
    } else if !Less(e.obs, s[|s| - 1].obs) {
      forall i | 0 <= i < |s| ensures !Less(e.obs, s[i].obs) {
        LessOrders(e.obs, s[|s| - 1].obs, s[i].obs);
        LessOrders(s[i].obs, s[|s| - 1].obs, e.obs);
        LessOrders(e.obs, s[i].obs, s[|s| - 1].obs);
      }
    } else {
      var front, last := s[..|s| - 1], s[|s| - 1];
      InsertObsKeeps(front, e);
      assert s == front + [last];
      var r := InsertObs(front, e);
      forall i | 0 <= i < |r| ensures !Less(last.obs, r[i].obs) {
        assert r[i] in multiset(r);
        LessOrders(e.obs, last.obs, e.obs);
        if r[i] != e {
          assert r[i] in front;
        }
      }
    }
  }

  function Entries(rows: seq<seq<bool>>, weight: seq<real>, ignore: set<int>): seq<Entry>
    requires |weight| == |rows|
  {
    seq(|rows|, i requires 0 <= i < |rows| => Entry(rows[i], Filtered(rows[i], ignore), weight[i]))
  }

  /** `getFilteredObsSorted`: the rows with the ignored attributes left out, in order. */
  method GetFilteredObsSorted(rows: seq<seq<bool>>, weight: seq<real>, ignore: set<int>, size: nat)
    returns (sorted: seq<Entry>)
    requires |weight| == |rows|
    requires forall i | 0 <= i < |rows| :: |rows[i]| == size && weight[i] >= 0.0
    ensures SortedObs(sorted) && FromRows(sorted, size, ignore)
    ensures multiset(sorted) == multiset(Entries(rows, weight, ignore))
  {
    ghost var all := Entries(rows, weight, ignore);
    sorted := [];
    var i := 0;
    while i < |rows|
      invariant 0 <= i <= |rows| && SortedObs(sorted) && multiset(sorted) == multiset(all[..i])
    {
      var e := Entry(rows[i], Filtered(rows[i], ignore), weight[i]);
      InsertObsKeeps(sorted, e);
      assert all[..i + 1] == all[..i] + [e];
      sorted := InsertObs(sorted, e);
      i := i + 1;
    }
    assert all[..i] == all;
    forall j | 0 <= j < |sorted|
      ensures sorted[j].weight >= 0.0 && |sorted[j].row| == size && sorted[j].obs == Filtered(sorted[j].row, ignore)
    {
      assert sorted[j] in multiset(sorted);
      assert sorted[j] in all;
    }
  }

  /** The classes of a coverage, in the order of their first entries. */
  function Classes(s: seq<Entry>): (keys: seq<seq<bool>>)
    ensures AllClasses(keys, s)
  {
    if s == [] then []
    else
      var front, last := s[..|s| - 1], s[|s| - 1];
      var rest := Classes(front);
      assert forall i | 0 <= i < |front| :: front[i] == s[i];
      if last.obs in rest then rest else rest + [last.obs]
  }

  lemma BothClasses(pos: seq<Entry>, neg: seq<Entry>, keys: seq<seq<bool>>)
    requires AllClasses(keys, pos + neg)
    ensures AllClasses(keys, pos) && AllClasses(keys, neg)
  {
    var all := pos + neg;
    assert forall i | 0 <= i < |pos| :: pos[i] == all[i];
    assert forall i | 0 <= i < |neg| :: neg[i] == all[|pos| + i];
  }

  lemma InsepNotNegative(pos: seq<Entry>, neg: seq<Entry>, keys: seq<seq<bool>>)
    requires Weighted(pos) && Weighted(neg)
    ensures Insep(pos, neg, keys) >= 0.0
  {
    forall t | 0 <= t < |keys| ensures ClassMin(pos, neg, keys)(t) >= 0.0 {
      ClassWeightNotNegative(pos, keys[t]);
      ClassWeightNotNegative(neg, keys[t]);
    }
    RSumNotNegative(|keys|, ClassMin(pos, neg, keys));
  }
}
