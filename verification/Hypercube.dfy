/** Ranks as corners of a hypercube that need not be complete: bits, links and distances. */
module Hypercube {

  function Pow2(b: nat): nat { if b == 0 then 1 else 2 * Pow2(b - 1) }

  /** The bit that the mask `1 << b` selects. */
  predicate Bit(x: nat, b: nat) { if b == 0 then x % 2 == 1 else Bit(x / 2, b - 1) }

  /** Bitwise exclusive or. */
  function Xor(x: nat, y: nat): nat
    decreases x + y
  {
    if x == 0 && y == 0 then 0 else 2 * Xor(x / 2, y / 2) + if x % 2 == y % 2 then 0 else 1
  }

  /** The processor at the other end of link `b`. */
  function Flip(x: nat, b: nat): nat { Xor(x, Pow2(b)) }

  function Ones(x: nat): nat { if x == 0 then 0 else Ones(x / 2) + x % 2 }

  function BitWidth(x: nat): nat { if x == 0 then 0 else 1 + BitWidth(x / 2) }

  /** How many links lie between two ranks. */
  function Distance(r: nat, s: nat): nat { Ones(Xor(r, s)) }

  lemma {:induction false} XorBits(x: nat, y: nat, b: nat)
    ensures Bit(Xor(x, y), b) <==> Bit(x, b) != Bit(y, b)
    decreases b
  {
    if b > 0 {
      XorBits(x / 2, y / 2, b - 1);
    }
  }

  lemma {:induction false} XorSelf(x: nat, y: nat)
    ensures Xor(x, y) == 0 <==> x == y
    ensures Xor(x, y) == Xor(y, x)
    decreases x + y
  {
    if x != 0 || y != 0 {
      XorSelf(x / 2, y / 2);
    }
  }

  lemma {:induction false} XorZero(x: nat)
    ensures Xor(x, 0) == x && Xor(0, x) == x
  {
    if x != 0 {
      XorZero(x / 2);
    }
  }

  lemma FlipHalf(x: nat, b: nat)
    ensures b > 0 ==> Flip(x, b) == 2 * Flip(x / 2, b - 1) + x % 2
    ensures b == 0 ==> Flip(x, b) == if x % 2 == 1 then x - 1 else x + 1
  {
    XorZero(x / 2);
  }

  /** Following a link back leads home. */
  lemma {:induction false} FlipBack(x: nat, b: nat)
    ensures Flip(Flip(x, b), b) == x
    ensures Xor(Flip(x, b), x) == Pow2(b)
  {
    FlipHalf(x, b);
    FlipHalf(Flip(x, b), b);
    if b > 0 {
      FlipBack(x / 2, b - 1);
    } else {
      XorSelf(x / 2, x / 2);
    }
  }

  lemma XorParts(x: nat, y: nat)
    ensures Xor(x, y) / 2 == Xor(x / 2, y / 2) && Xor(x, y) % 2 == if x % 2 == y % 2 then 0 else 1
  {
    XorZero(0);
  }

  lemma DistanceParts(r: nat, s: nat)
    ensures Distance(r, s) == Distance(r / 2, s / 2) + if r % 2 == s % 2 then 0 else 1
  {
    XorParts(r, s);
    assert Ones(Xor(r, s)) == Ones(Xor(r, s) / 2) + Xor(r, s) % 2;
  }

  /** Crossing a link toward the owner brings a solution one step closer. */
  lemma {:induction false} FlipDistance(r: nat, s: nat, b: nat)
    requires Bit(Xor(r, s), b)
    ensures Distance(r, s) == Distance(Flip(r, b), s) + 1
    decreases b
  {
    var f := Flip(r, b);
    FlipHalf(r, b);
    DistanceParts(r, s);
    DistanceParts(f, s);
    XorParts(r, s);
    if b > 0 {
      assert f / 2 == Flip(r / 2, b - 1) && f % 2 == r % 2;
      FlipDistance(r / 2, s / 2, b - 1);
    } else {
      assert f / 2 == r / 2 && f % 2 != r % 2;
    }
  }

  lemma {:induction false} PowWidth(b: nat)
    ensures BitWidth(Pow2(b)) == b + 1
  {
    if b > 0 {
      PowWidth(b - 1);
      var x := Pow2(b - 1);
      HalfOf(x);
      assert BitWidth(2 * x) == 1 + BitWidth(x);
    } else {
      assert BitWidth(1) == 1 + BitWidth(1 / 2);
    }
  }

  lemma HalfOf(x: nat)
    ensures 2 * x / 2 == x
  {
  }

  lemma {:induction false} BitInWidth(x: nat, b: nat)
    requires Bit(x, b)
    ensures b < BitWidth(x)
  {
    if b > 0 {
      BitInWidth(x / 2, b - 1);
    }
  }

  lemma {:induction false} XorWidth(x: nat, y: nat, m: nat)
    requires x <= m && y <= m
    ensures BitWidth(Xor(x, y)) <= BitWidth(m)
    decreases x + y
  {
    if x != 0 || y != 0 {
      XorWidth(x / 2, y / 2, m / 2);
    }
  }

  /** A processor that is not the owner has a link to one that is closer to the owner and exists: either
      it can drop a bit the owner lacks, or it can add one without exceeding the owner. */
  lemma {:induction false} LinkToward(r: nat, owner: nat) returns (b: nat)
    requires r != owner
    ensures Bit(Xor(r, owner), b) && (Flip(r, b) < r || Flip(r, b) <= owner)
    decreases r + owner
  {
    if r % 2 == 1 && owner % 2 == 0 {
      b := 0;
      FlipHalf(r, 0);
    } else if r / 2 == owner / 2 {
      b := 0;
      FlipHalf(r, 0);
    } else {
      var c := LinkToward(r / 2, owner / 2);
      b := c + 1;
      FlipHalf(r, b);
    }
  }

  /** Whatever the number of processors, there is always a usable link toward the owner. */
  lemma UsableLink(r: nat, owner: nat, size: nat) returns (b: nat)
    requires r < size && owner < size && r != owner
    ensures b < BitWidth(size - 1) && Bit(Xor(r, owner), b) && Flip(r, b) < size
  {
    b := LinkToward(r, owner);
    BitInWidth(Xor(r, owner), b);
    XorWidth(r, owner, size - 1);
  }

  /** The link an acknowledgement came back on, as `solAckAction` works it out. */
  lemma AckLink(r: nat, b: nat)
    ensures BitWidth(Xor(Flip(r, b), r)) - 1 == b
  {
    FlipBack(r, b);
    PowWidth(b);
  }
}
