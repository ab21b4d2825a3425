/** The maximum monomial application of `serialMonomial.cpp`: the weight of observations that a node's
    excluded variables leave inseparable, and the bound made from it. */
module Monomial {
  import opened Fathoming
  import opened RealSums

  /** A row of the data, its attributes that are not ignored, and its weight. */
  datatype Entry = Entry(row: seq<bool>, obs: seq<bool>, weight: real)

  /** The lexicographic order of observations. */
  predicate Less(a: seq<bool>, b: seq<bool>) {
    if b == [] then false else if a == [] then true else if a[0] != b[0] then b[0] else Less(a[1..], b[1..])
  }

  lemma {:induction false} LessOrders(a: seq<bool>, b: seq<bool>, c: seq<bool>)
    ensures !Less(a, a) && (Less(a, b) ==> !Less(b, a))
    ensures !Less(a, b) && !Less(b, a) ==> a == b
    ensures Less(a, b) && !Less(c, b) ==> Less(a, c)
    ensures !Less(b, a) && Less(b, c) ==> Less(a, c)
    decreases |a| + |b| + |c|
  {
    if a != [] && b != [] {
      LessOrders(a[1..], b[1..], if c == [] then [] else c[1..]);
      assert a == [a[0]] + a[1..] && b == [b[0]] + b[1..];
    } else if a != [] {
      LessOrders(a[1..], [], []);
    }
  }

  predicate SortedObs(s: seq<Entry>) { forall i, j | 0 <= i < j < |s| :: !Less(s[j].obs, s[i].obs) }

  predicate Weighted(s: seq<Entry>) { forall i | 0 <= i < |s| :: s[i].weight >= 0.0 }

  function Weight(s: seq<Entry>): real { if s == [] then 0.0 else Weight(s[..|s| - 1]) + s[|s| - 1].weight }

  /** The weight of the entries that agree with `k` on all attributes that are not ignored. */
  function ClassWeight(s: seq<Entry>, k: seq<bool>): real {
    if s == [] then 0.0 else ClassWeight(s[..|s| - 1], k) + if s[|s| - 1].obs == k then s[|s| - 1].weight else 0.0
  }

  /** A list of all classes, each once. */
  ghost predicate AllClasses(keys: seq<seq<bool>>, s: seq<Entry>) {
    && (forall t, u | 0 <= t < u < |keys| :: keys[t] != keys[u])
    && (forall i | 0 <= i < |s| :: s[i].obs in keys)
  }

  ghost function ClassMin(pos: seq<Entry>, neg: seq<Entry>, keys: seq<seq<bool>>): int -> real {
    t => if 0 <= t < |keys| then MinReal(ClassWeight(pos, keys[t]), ClassWeight(neg, keys[t])) else 0.0
  }

  /** In every class the lighter side cannot be told apart from the heavier one. */
  ghost function Insep(pos: seq<Entry>, neg: seq<Entry>, keys: seq<seq<bool>>): real {
    RSum(|keys|, ClassMin(pos, neg, keys))
  }

  lemma {:induction false} ClassWeightNotNegative(s: seq<Entry>, k: seq<bool>)
    requires Weighted(s)
    ensures ClassWeight(s, k) >= 0.0
  {
    if s != [] {
      ClassWeightNotNegative(s[..|s| - 1], k);
    }
  }

  lemma {:induction false} AbsentClass(s: seq<Entry>, k: seq<bool>)
    requires forall i | 0 <= i < |s| :: s[i].obs != k
    ensures ClassWeight(s, k) == 0.0
  {
    if s != [] {
      AbsentClass(s[..|s| - 1], k);
    }
  }

  lemma ClassWeightNext(s: seq<Entry>, i: nat, k: seq<bool>)
    requires i < |s|
    ensures ClassWeight(s[..i + 1], k) == ClassWeight(s[..i], k) + if s[i].obs == k then s[i].weight else 0.0
  {
    assert s[..i + 1][..i] == s[..i];
  }

  /** One more positive entry changes the minimum of its own class only. */
  lemma InsepNextPos(pos: seq<Entry>, neg: seq<Entry>, keys: seq<seq<bool>>, i: nat)
    requires i < |pos| && AllClasses(keys, pos)
    ensures var k, p, n := pos[i].obs, ClassWeight(pos[..i], pos[i].obs), ClassWeight(neg, pos[i].obs);
            Insep(pos[..i + 1], neg, keys) == Insep(pos[..i], neg, keys) + MinReal(p + pos[i].weight, n) - MinReal(p, n)
  {
    assert pos[i].obs in keys;
    var t :| 0 <= t < |keys| && keys[t] == pos[i].obs;
    var f, g := ClassMin(pos[..i], neg, keys), ClassMin(pos[..i + 1], neg, keys);
    forall u | 0 <= u < |keys| ensures u != t ==> g(u) == f(u) {
      ClassWeightNext(pos, i, keys[u]);
    }
    ClassWeightNext(pos, i, keys[t]);
    RSumBump(|keys|, f, g, t, g(t) - f(t));
  }

  lemma InsepNextNeg(pos: seq<Entry>, neg: seq<Entry>, keys: seq<seq<bool>>, j: nat)
    requires j < |neg| && AllClasses(keys, neg)
    ensures var k, p, n := neg[j].obs, ClassWeight(pos, neg[j].obs), ClassWeight(neg[..j], neg[j].obs);
            Insep(pos, neg[..j + 1], keys) == Insep(pos, neg[..j], keys) + MinReal(p, n + neg[j].weight) - MinReal(p, n)
  {
    assert neg[j].obs in keys;
    var t :| 0 <= t < |keys| && keys[t] == neg[j].obs;
    var f, g := ClassMin(pos, neg[..j], keys), ClassMin(pos, neg[..j + 1], keys);
    forall u | 0 <= u < |keys| ensures u != t ==> g(u) == f(u) {
      ClassWeightNext(neg, j, keys[u]);
    }
    ClassWeightNext(neg, j, keys[t]);
    RSumBump(|keys|, f, g, t, g(t) - f(t));
  }

  // ---------- The merge ----------

  /** Where the merge stands: `x` is the last class met on both sides; with `inClass` the weights in hand
      are those of `x`, and without it they belong to one side only. */
  ghost predicate Merging(pos: seq<Entry>, neg: seq<Entry>, keys: seq<seq<bool>>, i: nat, j: nat, x: seq<bool>,
                          inClass: bool, posWt: real, negWt: real, insepWt: real)
  {
    && i <= |pos| && j <= |neg| && posWt >= 0.0 && negWt >= 0.0
    && insepWt + MinReal(posWt, negWt) == Insep(pos[..i], neg[..j], keys)
    && (inClass ==> posWt == ClassWeight(pos[..i], x) && negWt == ClassWeight(neg[..j], x))
    && (!inClass ==> MinReal(posWt, negWt) == 0.0)
    && (i < |pos| ==> !Less(pos[i].obs, x) && (!inClass ==> pos[i].obs != x))
    && (j < |neg| ==> !Less(neg[j].obs, x) && (!inClass ==> neg[j].obs != x))
    && (forall q | 0 <= q < i && j < |neg| :: Less(pos[q].obs, neg[j].obs) || pos[q].obs == x)
    && (forall q | 0 <= q < j && i < |pos| :: Less(neg[q].obs, pos[i].obs) || neg[q].obs == x)
  }

  ghost predicate Ready(pos: seq<Entry>, neg: seq<Entry>, keys: seq<seq<bool>>) {
    && SortedObs(pos) && SortedObs(neg) && Weighted(pos) && Weighted(neg)
    && AllClasses(keys, pos) && AllClasses(keys, neg)
  }

  /** The class of the next positive entry is not on the negative side so far, unless it is `x`. */
  lemma NotMetYet(pos: seq<Entry>, neg: seq<Entry>, keys: seq<seq<bool>>, i: nat, j: nat, x: seq<bool>,
                  inClass: bool, posWt: real, negWt: real, insepWt: real)
    requires Merging(pos, neg, keys, i, j, x, inClass, posWt, negWt, insepWt)
    ensures i < |pos| && pos[i].obs != x ==> ClassWeight(neg[..j], pos[i].obs) == 0.0
    ensures j < |neg| && neg[j].obs != x ==> ClassWeight(pos[..i], neg[j].obs) == 0.0
  {
    if i < |pos| && pos[i].obs != x {
      forall q | 0 <= q < j ensures neg[..j][q].obs != pos[i].obs {
        LessOrders(neg[q].obs, pos[i].obs, []);
      }
      AbsentClass(neg[..j], pos[i].obs);
    }
    if j < |neg| && neg[j].obs != x {
      forall q | 0 <= q < i ensures pos[..i][q].obs != neg[j].obs {
        LessOrders(pos[q].obs, neg[j].obs, []);
      }
      AbsentClass(pos[..i], neg[j].obs);
    }
  }

  lemma NextInOrder(s: seq<Entry>, i: nat, x: seq<bool>)
    requires SortedObs(s) && i + 1 < |s| && !Less(s[i].obs, x)
    ensures !Less(s[i + 1].obs, s[i].obs) && !Less(s[i + 1].obs, x) && (s[i].obs != x ==> s[i + 1].obs != x)
  {
    LessOrders(x, s[i].obs, s[i + 1].obs);
    LessOrders(s[i].obs, x, s[i + 1].obs);
    LessOrders(s[i + 1].obs, x, s[i].obs);
  }

  lemma TakePos(pos: seq<Entry>, neg: seq<Entry>, keys: seq<seq<bool>>, i: nat, j: nat, x: seq<bool>,
                inClass: bool, posWt: real, negWt: real, insepWt: real)
    requires Ready(pos, neg, keys) && Merging(pos, neg, keys, i, j, x, inClass, posWt, negWt, insepWt)
    requires i < |pos| && (j < |neg| ==> Less(pos[i].obs, neg[j].obs)) && (inClass <==> pos[i].obs == x)
    requires !inClass ==> posWt == 0.0 && negWt == 0.0
    ensures Merging(pos, neg, keys, i + 1, j, x, inClass, posWt + pos[i].weight, negWt, insepWt)
  {
    var k := pos[i].obs;
    NotMetYet(pos, neg, keys, i, j, x, inClass, posWt, negWt, insepWt);
    InsepNextPos(pos, neg[..j], keys, i);
    ClassWeightNext(pos, i, x);
    ClassWeightNotNegative(pos[..i], k);
    if i + 1 < |pos| {
      NextInOrder(pos, i, x);
      forall q | 0 <= q < j ensures Less(neg[q].obs, pos[i + 1].obs) || neg[q].obs == x {
        LessOrders(neg[q].obs, k, pos[i + 1].obs);
      }
    }
  }

  lemma TakeNeg(pos: seq<Entry>, neg: seq<Entry>, keys: seq<seq<bool>>, i: nat, j: nat, x: seq<bool>,
                inClass: bool, posWt: real, negWt: real, insepWt: real)
    requires Ready(pos, neg, keys) && Merging(pos, neg, keys, i, j, x, inClass, posWt, negWt, insepWt)
    requires j < |neg| && (i < |pos| ==> Less(neg[j].obs, pos[i].obs)) && (inClass <==> neg[j].obs == x)
    requires !inClass ==> posWt == 0.0 && negWt == 0.0
    ensures Merging(pos, neg, keys, i, j + 1, x, inClass, posWt, negWt + neg[j].weight, insepWt)
  {
    var k := neg[j].obs;
    NotMetYet(pos, neg, keys, i, j, x, inClass, posWt, negWt, insepWt);
    InsepNextNeg(pos[..i], neg, keys, j);
    ClassWeightNext(neg, j, x);
    ClassWeightNotNegative(neg[..j], k);
    if j + 1 < |neg| {
      NextInOrder(neg, j, x);
      forall q | 0 <= q < i ensures Less(pos[q].obs, neg[j + 1].obs) || pos[q].obs == x {
        LessOrders(pos[q].obs, k, neg[j + 1].obs);
      }
    }
  }

  /** Both heads agree: the class is met on both sides. */
  lemma TakeBoth(pos: seq<Entry>, neg: seq<Entry>, keys: seq<seq<bool>>, i: nat, j: nat, x: seq<bool>,
                 inClass: bool, posWt: real, negWt: real, insepWt: real)
    requires Ready(pos, neg, keys) && Merging(pos, neg, keys, i, j, x, inClass, posWt, negWt, insepWt)
    requires i < |pos| && j < |neg| && pos[i].obs == neg[j].obs && (inClass <==> pos[i].obs == x)
    requires !inClass ==> posWt == 0.0 && negWt == 0.0
    ensures Merging(pos, neg, keys, i + 1, j + 1, pos[i].obs, true, posWt + pos[i].weight, negWt + neg[j].weight, insepWt)
  {
    var k := pos[i].obs;
    NotMetYet(pos, neg, keys, i, j, x, inClass, posWt, negWt, insepWt);
    InsepNextPos(pos, neg[..j], keys, i);
    InsepNextNeg(pos[..i + 1], neg, keys, j);
    ClassWeightNext(pos, i, k);
    ClassWeightNext(neg, j, k);
    LessOrders(k, k, k);
    TakeBothOrder(pos, neg, i, j, x);
    TakeBothOrder(neg, pos, j, i, x);
  }

  lemma TakeBothOrder(s: seq<Entry>, other: seq<Entry>, i: nat, j: nat, x: seq<bool>)
    requires SortedObs(s) && i < |s| && j < |other| && s[i].obs == other[j].obs && !Less(s[i].obs, x)
    requires forall q | 0 <= q < j :: Less(other[q].obs, s[i].obs) || other[q].obs == x
    ensures i + 1 < |s| ==> !Less(s[i + 1].obs, s[i].obs)
    ensures i + 1 < |s| ==>
              forall q | 0 <= q < j + 1 :: Less(other[q].obs, s[i + 1].obs) || other[q].obs == s[i].obs
  {
    if i + 1 < |s| {
      forall q | 0 <= q < j + 1 ensures Less(other[q].obs, s[i + 1].obs) || other[q].obs == s[i].obs {
        LessOrders(other[q].obs, s[i].obs, s[i + 1].obs);
        LessOrders(x, s[i].obs, s[i + 1].obs);
      }
    }
  }

  /** Closing the class in hand. */
  lemma Flush(pos: seq<Entry>, neg: seq<Entry>, keys: seq<seq<bool>>, i: nat, j: nat, x: seq<bool>,
              inClass: bool, posWt: real, negWt: real, insepWt: real)
    requires Merging(pos, neg, keys, i, j, x, inClass, posWt, negWt, insepWt)
    requires (i < |pos| ==> pos[i].obs != x) && (j < |neg| ==> neg[j].obs != x)
    ensures Merging(pos, neg, keys, i, j, x, false, 0.0, 0.0, insepWt + MinReal(posWt, negWt))
  {
  }

  /** What is left of one side when the other is used up has no class in common with it. */
  lemma {:induction false} LeftoversSeparate(pos: seq<Entry>, neg: seq<Entry>, keys: seq<seq<bool>>, i: nat)
    requires Ready(pos, neg, keys) && i <= |pos|
    requires forall q, r | i <= q < |pos| && 0 <= r < |neg| :: neg[r].obs != pos[q].obs
    ensures Insep(pos[..i], neg, keys) == Insep(pos, neg, keys)
    decreases |pos| - i
  {
    if i == |pos| {
      assert pos[..i] == pos;
    } else {
      LeftoversSeparate(pos, neg, keys, i + 1);
      InsepNextPos(pos, neg, keys, i);
      AbsentClass(neg, pos[i].obs);
      ClassWeightNotNegative(pos[..i], pos[i].obs);
    }
  }

  lemma InsepSymmetric(pos: seq<Entry>, neg: seq<Entry>, keys: seq<seq<bool>>)
    ensures Insep(pos, neg, keys) == Insep(neg, pos, keys)
  {
    RSumSame(|keys|, ClassMin(pos, neg, keys), ClassMin(neg, pos, keys));
  }

  /** Once one side is used up and no entry of class `x` is left, all there is to find has been found. */
  lemma MergeDone(pos: seq<Entry>, neg: seq<Entry>, keys: seq<seq<bool>>, i: nat, j: nat, x: seq<bool>,
                  inClass: bool, posWt: real, negWt: real, insepWt: real)
    requires Ready(pos, neg, keys) && Merging(pos, neg, keys, i, j, x, inClass, posWt, negWt, insepWt)
    requires (i == |pos| || j == |neg|) && (i < |pos| ==> pos[i].obs != x) && (j < |neg| ==> neg[j].obs != x)
    ensures insepWt + MinReal(posWt, negWt) == Insep(pos, neg, keys)
  {
    if j == |neg| {
      assert neg[..j] == neg;
      SideSeparate(pos, neg, i, x);
      LeftoversSeparate(pos, neg, keys, i);
    } else {
      assert pos[..i] == pos;
      SideSeparate(neg, pos, j, x);
      LeftoversSeparate(neg, pos, keys, j);
      InsepSymmetric(pos, neg[..j], keys);
      InsepSymmetric(pos, neg, keys);
    }
  }

  lemma SideSeparate(s: seq<Entry>, other: seq<Entry>, i: nat, x: seq<bool>)
    requires SortedObs(s) && i <= |s| && (i < |s| ==> !Less(s[i].obs, x) && s[i].obs != x)
    requires forall q | 0 <= q < |other| && i < |s| :: Less(other[q].obs, s[i].obs) || other[q].obs == x
    ensures forall q, r | i <= q < |s| && 0 <= r < |other| :: other[r].obs != s[q].obs
  {
    forall q, r | i <= q < |s| && 0 <= r < |other| ensures other[r].obs != s[q].obs {
      LessOrders(other[r].obs, s[i].obs, s[q].obs);
      LessOrders(x, s[i].obs, s[q].obs);
      LessOrders(s[i].obs, x, s[q].obs);
      LessOrders(s[q].obs, s[q].obs, s[q].obs);
    }
  }

  /** The totals of the class in hand and the class last met on both sides. */
  datatype Hand = Hand(posWt: real, negWt: real, lastInsep: seq<bool>)

  ghost predicate MergingHand(pos: seq<Entry>, neg: seq<Entry>, keys: seq<seq<bool>>, i: nat, j: nat, h: Hand,
                              inClass: bool, insepWt: real)
  {
    Merging(pos, neg, keys, i, j, h.lastInsep, inClass, h.posWt, h.negWt, insepWt)
  }

  /** The test at the head of the loop: when both sides have left the class in hand, it is closed. */
  method CloseClass(pos: seq<Entry>, neg: seq<Entry>, ghost keys: seq<seq<bool>>, i: nat, j: nat, h: Hand,
                    ghost inClass: bool, insepWt: real) returns (h': Hand, insepWt': real, ghost inClass': bool)
    requires Ready(pos, neg, keys) && i < |pos| && j < |neg| && MergingHand(pos, neg, keys, i, j, h, inClass, insepWt)
    ensures MergingHand(pos, neg, keys, i, j, h', inClass', insepWt') && h'.lastInsep == h.lastInsep
    ensures inClass' <==> pos[i].obs == h.lastInsep || neg[j].obs == h.lastInsep
    ensures !inClass' ==> h'.posWt == 0.0 && h'.negWt == 0.0
  {
    h', insepWt', inClass' := h, insepWt, true;
    if pos[i].obs != h.lastInsep && neg[j].obs != h.lastInsep {
      Flush(pos, neg, keys, i, j, h.lastInsep, inClass, h.posWt, h.negWt, insepWt);
      insepWt' := insepWt + MinReal(h.posWt, h.negWt);
      h', inClass' := Hand(0.0, 0.0, h.lastInsep), false;
    }
  }

  lemma OnlyTheSmallerIsMet(pos: seq<Entry>, neg: seq<Entry>, keys: seq<seq<bool>>, i: nat, j: nat, h: Hand,
                            inClass: bool, insepWt: real)
    requires i < |pos| && j < |neg| && MergingHand(pos, neg, keys, i, j, h, inClass, insepWt)
    requires inClass <==> pos[i].obs == h.lastInsep || neg[j].obs == h.lastInsep
    ensures Less(pos[i].obs, neg[j].obs) ==> (inClass <==> pos[i].obs == h.lastInsep)
    ensures Less(neg[j].obs, pos[i].obs) ==> (inClass <==> neg[j].obs == h.lastInsep)
    ensures Less(pos[i].obs, neg[j].obs) || Less(neg[j].obs, pos[i].obs) || pos[i].obs == neg[j].obs
  {
    LessOrders(pos[i].obs, neg[j].obs, h.lastInsep);
  }

  /** The rest of one round: the smaller head is taken, or both when they agree. */
  method TakeSmaller(pos: seq<Entry>, neg: seq<Entry>, ghost keys: seq<seq<bool>>, i: nat, j: nat, h: Hand,
                     ghost inClass: bool, ghost insepWt: real) returns (i': nat, j': nat, h': Hand, ghost inClass': bool)
    requires Ready(pos, neg, keys) && i < |pos| && j < |neg| && MergingHand(pos, neg, keys, i, j, h, inClass, insepWt)
    requires inClass <==> pos[i].obs == h.lastInsep || neg[j].obs == h.lastInsep
    requires !inClass ==> h.posWt == 0.0 && h.negWt == 0.0
    ensures MergingHand(pos, neg, keys, i', j', h', inClass', insepWt) && i' + j' > i + j
  {
    OnlyTheSmallerIsMet(pos, neg, keys, i, j, h, inClass, insepWt);
    if pos[i].obs == neg[j].obs {
      TakeBoth(pos, neg, keys, i, j, h.lastInsep, inClass, h.posWt, h.negWt, insepWt);
      return i + 1, j + 1, Hand(h.posWt + pos[i].weight, h.negWt + neg[j].weight, pos[i].obs), true;
    }
    if Less(pos[i].obs, neg[j].obs) {
      TakePos(pos, neg, keys, i, j, h.lastInsep, inClass, h.posWt, h.negWt, insepWt);
      return i + 1, j, h.(posWt := h.posWt + pos[i].weight), inClass;
    }
    TakeNeg(pos, neg, keys, i, j, h.lastInsep, inClass, h.posWt, h.negWt, insepWt);
    return i, j + 1, h.(negWt := h.negWt + neg[j].weight), inClass;
  }

  /** The loop after the merge over what is left of the last class on the positive side. */
  method FinishPos(pos: seq<Entry>, neg: seq<Entry>, ghost keys: seq<seq<bool>>, i0: nat, ghost j: nat, h0: Hand,
                   ghost inClass: bool, ghost insepWt: real) returns (i: nat, h: Hand)
    requires Ready(pos, neg, keys) && MergingHand(pos, neg, keys, i0, j, h0, inClass, insepWt) && (i0 >= |pos| || j >= |neg|)
    ensures MergingHand(pos, neg, keys, i, j, h, inClass, insepWt) && (i >= |pos| || j >= |neg|)
    ensures i < |pos| ==> pos[i].obs != h.lastInsep
  {
    i, h := i0, h0;
    while i < |pos| && pos[i].obs == h.lastInsep
      invariant MergingHand(pos, neg, keys, i, j, h, inClass, insepWt) && (i >= |pos| || j >= |neg|)
      decreases |pos| - i
    {
      TakePos(pos, neg, keys, i, j, h.lastInsep, inClass, h.posWt, h.negWt, insepWt);
      h := h.(posWt := h.posWt + pos[i].weight);
      i := i + 1;
    }
  }

  method FinishNeg(pos: seq<Entry>, neg: seq<Entry>, ghost keys: seq<seq<bool>>, ghost i: nat, j0: nat, h0: Hand,
                   ghost inClass: bool, ghost insepWt: real) returns (j: nat, h: Hand)
    requires Ready(pos, neg, keys) && MergingHand(pos, neg, keys, i, j0, h0, inClass, insepWt) && (i >= |pos| || j0 >= |neg|)
    requires i < |pos| ==> pos[i].obs != h0.lastInsep
    ensures MergingHand(pos, neg, keys, i, j, h, inClass, insepWt) && (i >= |pos| || j >= |neg|)
    ensures (i < |pos| ==> pos[i].obs != h.lastInsep) && (j < |neg| ==> neg[j].obs != h.lastInsep)
  {
    j, h := j0, h0;
    while j < |neg| && neg[j].obs == h.lastInsep
      invariant MergingHand(pos, neg, keys, i, j, h, inClass, insepWt) && (i >= |pos| || j >= |neg|)
      invariant h.lastInsep == h0.lastInsep
      decreases |neg| - j
    {
      TakeNeg(pos, neg, keys, i, j, h.lastInsep, inClass, h.posWt, h.negWt, insepWt);
      h := h.(negWt := h.negWt + neg[j].weight);
      j := j + 1;
    }
  }

  /** `calculateInsepWeight`: merges the two sorted coverages and adds up, class by class, the smaller of
      the two weights.  With nothing to ignore it does not look. */
  method CalculateInsepWeight(pos: seq<Entry>, neg: seq<Entry>, nothingIgnored: bool, ghost keys: seq<seq<bool>>)
    returns (insepWt: real)
    requires Ready(pos, neg, keys)
    ensures insepWt == if nothingIgnored then 0.0 else Insep(pos, neg, keys)
  {
    if nothingIgnored {
      return 0.0;
    }
    var i: nat, j: nat, h := 0, 0, Hand(0.0, 0.0, []);
    ghost var inClass := true;
    insepWt := 0.0;
    StartMerge(pos, neg, keys);
    while i < |pos| && j < |neg|
      invariant MergingHand(pos, neg, keys, i, j, h, inClass, insepWt)
      decreases |pos| + |neg| - i - j
    {
      h, insepWt, inClass := CloseClass(pos, neg, keys, i, j, h, inClass, insepWt);
      i, j, h, inClass := TakeSmaller(pos, neg, keys, i, j, h, inClass, insepWt);
    }
    i, h := FinishPos(pos, neg, keys, i, j, h, inClass, insepWt);
    j, h := FinishNeg(pos, neg, keys, i, j, h, inClass, insepWt);
    MergeDone(pos, neg, keys, i, j, h.lastInsep, inClass, h.posWt, h.negWt, insepWt);
    insepWt := insepWt + MinReal(h.posWt, h.negWt);
  }

  lemma StartMerge(pos: seq<Entry>, neg: seq<Entry>, keys: seq<seq<bool>>)
    ensures Merging(pos, neg, keys, 0, 0, [], true, 0.0, 0.0, 0.0)
  {
    forall t | 0 <= t < |keys| ensures ClassMin(pos[..0], neg[..0], keys)(t) == 0.0 {
    }
    RSumZero(|keys|, ClassMin(pos[..0], neg[..0], keys));
  }
}
