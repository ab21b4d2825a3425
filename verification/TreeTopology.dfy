/** Balanced n-ary trees over processors, with arbitrary root and radix, as in `treeTopology.h`.
    The functions of `Shape` are the index arithmetic; `NAryTree` is the object with its child cursor. */
module TreeTopology {

  /** C division of integers, which truncates toward zero. */
  function TruncDiv(a: int, b: int): int
    requires b > 0
  {
    if a >= 0 then a / b else -((-a) / b)
  }

  /** C remainder, which takes the sign of the dividend. */
  function TruncMod(a: int, b: int): int
    requires b > 0
  {
    a - b * TruncDiv(a, b)
  }

  function Min(a: int, b: int): int { if a < b then a else b }

  function Max(a: int, b: int): int { if a < b then b else a }

  /** The parameters that fix a tree over processors `0..size-1`. */
  datatype Shape = Shape(radix: nat, root: nat, size: nat)
  {
    predicate Ok() { radix >= 1 && root < size }

    predicate Node(v: int) { 0 <= v < size }

    /** Position of a processor once the numbering is rotated so that the root is 0. */
    function Rel(v: int): int {
      if v - root < 0 then v - root + size else v - root
    }

    function RelFirstChild(v: int): int { Rel(v) * radix + 1 }

    function Degree(v: int): int { Min(radix, Max(size - RelFirstChild(v), 0)) }

    /** The `i`-th processor that the cursor of `v` visits. */
    function ChildAt(v: int, i: int): int
      requires Ok()
    {
      TruncMod(RelFirstChild(v) + root, size) + i -
      if TruncMod(RelFirstChild(v) + root, size) + i >= size then size else 0
    }

    function Parent(v: int): int
      requires Ok()
    {
      TruncMod(TruncDiv(Rel(v) - 1, radix) + root, size)
    }

    predicate ValidChild(v: int, w: int) {
      RelFirstChild(v) <= Rel(w) < RelFirstChild(v) + Degree(v)
    }

    function WhichChild(w: int): int
      requires radix >= 1
    {
      TruncMod(Rel(w) - 1, radix)
    }

    /** `w` hangs directly below `v`. */
    predicate Below(v: int, w: int)
      requires Ok()
    {
      w != root && Parent(w) == v
    }

    /** `u` is `w` itself or lies on the path from `w` to the root. */
    predicate Above(u: int, w: int)
      requires Ok() && Node(w)
      decreases Rel(w)
    {
      u == w || (w != root && (ParentIsCloser(this, w); Above(u, Parent(w))))
    }
  }

  lemma DivBounds(a: int, b: int)
    requires b > 0
    ensures b * (a / b) <= a < b * (a / b) + b
  {
  }

  lemma MulStep(b: int, x: int, y: int)
    requires b > 0 && x < y
    ensures b * x + b <= b * y
  {
    assert b * (y - x - 1) >= 0;
    assert b * (y - x - 1) == b * y - b * x - b;
  }

  lemma DivUnique(a: int, b: int, q: int)
    requires b > 0 && b * q <= a < b * q + b
    ensures a / b == q && a % b == a - b * q
  {
    DivBounds(a, b);
    var d := a / b;
    if d < q {
      MulStep(b, d, q);
    } else if d > q {
      MulStep(b, q, d);
    }
  }

  /** The rotation is a bijection between processors and relative positions. */
  lemma RelIsPosition(t: Shape, v: int)
    requires t.Ok() && t.Node(v)
    ensures 0 <= t.Rel(v) < t.size
    ensures t.Rel(v) == 0 <==> v == t.root
    ensures TruncMod(t.Rel(v) + t.root, t.size) == v
  {
    var s := t.Rel(v) + t.root;
    if s < t.size {
      DivUnique(s, t.size, 0);
    } else {
      DivUnique(s, t.size, 1);
    }
  }

  lemma PositionIsRel(t: Shape, k: int)
    requires t.Ok() && 0 <= k < t.size
    ensures t.Node(TruncMod(k + t.root, t.size))
    ensures t.Rel(TruncMod(k + t.root, t.size)) == k
  {
    if k + t.root < t.size {
      DivUnique(k + t.root, t.size, 0);
    } else {
      DivUnique(k + t.root, t.size, 1);
    }
  }

  lemma QuotientSmaller(k: int, b: int, q: int)
    requires b > 0 && k >= 0 && b * q <= k < b * q + b
    ensures 0 <= q <= k
  {
    assert (b - 1) * k >= 0;
    assert (b - 1) * k == b * k - k;
    if q < 0 {
      MulStep(b, q, 0);
    } else if q > k {
      MulStep(b, k, q);
    }
  }

  /** Every parent is strictly nearer to the root, so following parents always ends there. */
  lemma ParentIsCloser(t: Shape, w: int)
    requires t.Ok() && t.Node(w) && w != t.root
    ensures t.Node(t.Parent(w))
    ensures 0 <= t.Rel(t.Parent(w)) < t.Rel(w)
    ensures t.radix * t.Rel(t.Parent(w)) + 1 <= t.Rel(w) <= t.radix * t.Rel(t.Parent(w)) + t.radix
  {
    RelIsPosition(t, w);
    var k := t.Rel(w) - 1;
    DivBounds(k, t.radix);
    var q := k / t.radix;
    QuotientSmaller(k, t.radix, q);
    PositionIsRel(t, q);
    assert t.Parent(w) == TruncMod(q + t.root, t.size);
  }

  lemma ChildPosition(t: Shape, v: int, i: int)
    requires t.Ok() && t.Node(v) && 0 <= i < t.Degree(v)
    ensures t.Node(t.ChildAt(v, i))
    ensures t.Rel(t.ChildAt(v, i)) == t.RelFirstChild(v) + i
  {
    RelIsPosition(t, v);
    FirstChildPositive(t, v);
    RotatedStep(t, t.RelFirstChild(v), i);
  }

  lemma FirstChildPositive(t: Shape, v: int)
    requires t.Ok() && t.Node(v)
    ensures t.RelFirstChild(v) >= 1
  {
    RelIsPosition(t, v);
    assert 0 <= t.Rel(v) * t.radix;
  }

  lemma RotatedStep(t: Shape, k: int, i: int)
    requires t.Ok() && 0 <= k && 0 <= i && k + i < t.size
    ensures var f := TruncMod(k + t.root, t.size);
            var w := f + i - if f + i >= t.size then t.size else 0;
            t.Node(w) && t.Rel(w) == k + i
  {
    PositionIsRel(t, k);
    RelIsPosition(t, TruncMod(k + t.root, t.size));
  }

  lemma MulCommutes(a: int, b: int)
    ensures a * b == b * a
  {
  }

  lemma PositionSplits(k: int, radix: int, q: int, i: int)
    requires radix >= 1 && q >= 0 && 0 <= i < radix && k == q * radix + 1 + i
    ensures k >= 1 && TruncDiv(k - 1, radix) == q && TruncMod(k - 1, radix) == i
  {
    assert q * radix == radix * q;
    assert 0 <= radix * q;
    DivUnique(k - 1, radix, q);
  }

  /** The relative position of the parent, and the child's number under it. */
  lemma PositionOfParent(t: Shape, w: int) returns (i: int)
    requires t.Ok() && t.Node(w) && w != t.root
    ensures t.Node(t.Parent(w)) && 0 <= i < t.radix
    ensures t.Rel(w) == t.RelFirstChild(t.Parent(w)) + i && t.WhichChild(w) == i
  {
    ParentIsCloser(t, w);
    var q := t.Rel(t.Parent(w));
    MulCommutes(q, t.radix);
    i := t.Rel(w) - 1 - q * t.radix;
    PositionSplits(t.Rel(w), t.radix, q, i);
  }

  lemma SamePosition(t: Shape, v: int, w: int)
    requires t.Ok() && t.Node(v) && t.Node(w) && t.Rel(v) == t.Rel(w)
    ensures v == w
  {
    RelIsPosition(t, v);
    RelIsPosition(t, w);
  }

  /** Parent, child cursor, validity test and child number all describe one and the same tree:
      the `i`-th visited child of `v` is a valid child, has parent `v` and number `i`. */
  lemma ChildOfParent(t: Shape, v: int, i: int)
    requires t.Ok() && t.Node(v) && 0 <= i < t.Degree(v)
    ensures t.Node(t.ChildAt(v, i)) && t.ChildAt(v, i) != t.root
    ensures t.ValidChild(v, t.ChildAt(v, i))
    ensures t.Parent(t.ChildAt(v, i)) == v
    ensures t.WhichChild(t.ChildAt(v, i)) == i
  {
    ChildPosition(t, v, i);
    RelIsPosition(t, v);
    var w := t.ChildAt(v, i);
    RelIsPosition(t, w);
    PositionSplits(t.Rel(w), t.radix, t.Rel(v), i);
  }

  /** Conversely every processor but the root is visited exactly once, by its parent. */
  lemma ParentOfChild(t: Shape, w: int)
    requires t.Ok() && t.Node(w) && w != t.root
    ensures t.Node(t.Parent(w))
    ensures 0 <= t.WhichChild(w) < t.Degree(t.Parent(w))
    ensures t.ChildAt(t.Parent(w), t.WhichChild(w)) == w
  {
    var i := PositionOfParent(t, w);
    RelIsPosition(t, w);
    ChildPosition(t, t.Parent(w), i);
    SamePosition(t, t.ChildAt(t.Parent(w), i), w);
  }

  /** The receiver's validity test accepts exactly the processors whose parent it is. */
  lemma ValidChildIffParent(t: Shape, v: int, w: int)
    requires t.Ok() && t.Node(v) && t.Node(w)
    ensures t.ValidChild(v, w) <==> t.Below(v, w)
  {
    if t.ValidChild(v, w) {
      var i := t.Rel(w) - t.RelFirstChild(v);
      ChildOfParent(t, v, i);
      ChildPosition(t, v, i);
      SamePosition(t, t.ChildAt(v, i), w);
    }
    if t.Below(v, w) {
      ParentOfChild(t, w);
      var i := PositionOfParent(t, w);
    }
  }

  /** The root lies above every processor: the parent map spans the machine. */
  lemma {:induction false} RootAboveAll(t: Shape, w: int)
    requires t.Ok() && t.Node(w)
    ensures t.Above(t.root, w)
    decreases t.Rel(w)
  {
    if w != t.root {
      ParentIsCloser(t, w);
      RootAboveAll(t, t.Parent(w));
    }
  }

  /** A strict ancestor reaches its descendant through one of its own children. */
  lemma {:induction false} AboveViaChild(t: Shape, u: int, w: int) returns (c: int)
    requires t.Ok() && t.Node(w) && t.Above(u, w) && u != w
    ensures t.Node(c) && t.Below(u, c) && t.Above(c, w)
    decreases t.Rel(w)
  {
    ParentIsCloser(t, w);
    if t.Parent(w) == u {
      c := w;
    } else {
      c := AboveViaChild(t, u, t.Parent(w));
      assert t.Above(c, t.Parent(w));
    }
  }

  /** Whatever lies above a processor's child lies below that processor. */
  lemma {:induction false} AboveExtends(t: Shape, v: int, c: int, w: int)
    requires t.Ok() && t.Node(v) && t.Node(c) && t.Node(w) && t.Below(v, c) && t.Above(c, w)
    ensures t.Above(v, w)
    decreases t.Rel(w)
  {
    if c == w {
      assert t.Above(v, t.Parent(w));
    } else {
      ParentIsCloser(t, w);
      AboveExtends(t, v, c, t.Parent(w));
    }
  }

  lemma {:induction false} AboveIsCloser(t: Shape, u: int, w: int)
    requires t.Ok() && t.Node(u) && t.Node(w) && t.Above(u, w)
    ensures u != w ==> t.Rel(u) < t.Rel(w)
    decreases t.Rel(w)
  {
    if u != w {
      ParentIsCloser(t, w);
      AboveIsCloser(t, u, t.Parent(w));
    }
  }

  /** A processor lies under at most one child of any other. */
  lemma {:induction false} OneChildAbove(t: Shape, v: int, c: int, d: int, w: int)
    requires t.Ok() && t.Node(v) && t.Node(c) && t.Node(d) && t.Node(w)
    requires t.Below(v, c) && t.Below(v, d) && t.Above(c, w) && t.Above(d, w)
    ensures c == d
    decreases t.Rel(w)
  {
    if c == w && d == w {
    } else {
      ParentIsCloser(t, w);
      if c != w && d != w {
        OneChildAbove(t, v, c, d, t.Parent(w));
      } else {
        ParentIsCloser(t, c);
        ParentIsCloser(t, d);
        AboveIsCloser(t, c, w);
        AboveIsCloser(t, d, w);
        if c == w {
          AboveIsCloser(t, d, v);
        } else {
          AboveIsCloser(t, c, v);
        }
      }
    }
  }

  /** The tree object held by one processor. */
  class NAryTree {
    const node: nat
    const shape: Shape
    var children: int
    var position: int
    var firstChild: int
    var count: int

    ghost predicate Valid()
      reads this
    {
      && shape.Ok() && shape.Node(node)
      && children == shape.Degree(node)
      && firstChild == TruncMod(shape.RelFirstChild(node) + shape.root, shape.size)
      && 0 <= count <= children
      && (children > 0 ==> 0 <= firstChild < shape.size)
      && position == (if firstChild + (children - count) >= shape.size && children > 0
                      then firstChild + (children - count) - shape.size
                      else firstChild + (children - count))
    }

    constructor (radix: nat, root: nat, node: nat, size: nat)
      requires radix >= 1 && root < size && node < size
      ensures Valid() && shape == Shape(radix, root, size) && this.node == node
      ensures count == children
    {
      var s := Shape(radix, root, size);
      this.node := node;
      shape := s;
      children := s.Degree(node);
      firstChild := TruncMod(s.RelFirstChild(node) + root, size);
      count := s.Degree(node);
      position := TruncMod(s.RelFirstChild(node) + root, size);
      new;
      RelIsPosition(s, node);
      assert 0 <= s.Rel(node) * radix;
      if children > 0 {
        PositionIsRel(s, s.RelFirstChild(node));
      }
    }

    method ResetChildren()
      requires Valid()
      modifies this
      ensures Valid() && count == children
    {
      count := children;
      position := firstChild;
    }

    /** Visits the children in their numbered order. */
    method AdvanceChild() returns (c: int)
      requires Valid() && count > 0
      modifies this
      ensures Valid() && children == old(children) && count == old(count) - 1
      ensures c == shape.ChildAt(node, children - old(count))
      ensures shape.Node(c) && shape.Below(node, c)
    {
      ChildOfParent(shape, node, children - count);
      ChildPosition(shape, node, children - count);
      c := position;
      position := position + 1;
      if position == shape.size {
        position := 0;
      }
      count := count - 1;
    }
  }
}
