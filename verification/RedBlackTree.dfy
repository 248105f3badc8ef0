/**
 red_black_tree.c on heap nodes: the recursive functions that rewrite nodes in place,
 and the public operations on a tree.  Each method leaves behind exactly the tree that
 the function of the same purpose in LlrbTree computes, in the same memory cells.
 */
module RedBlackTree {
  import opened LlrbTree

  class RbtNode {
    var key: Key
    var val: Val
    var left: RbtNode?
    var right: RbtNode?
    var red: bool
    var size: int

    constructor (key: Key, val: Val, red: bool, size: int)
      ensures this.key == key && this.val == val && this.red == red && this.size == size
      ensures left == null && right == null
    {
      this.key, this.val, this.red, this.size := key, val, red, size;
      left, right := null, null;
    }
  }

  type Shape = Tree<RbtNode>

  ghost function Cells(t: Shape): set<RbtNode> {
    if t.Leaf? then {} else Cells(t.left) + Cells(t.right) + {t.at}
  }

  ghost function Root(t: Shape): RbtNode? {
    if t.Leaf? then null else t.at
  }

  /** No memory cell is used twice. */
  ghost predicate Distinct(t: Shape) {
    t.Node? ==>
      && t.at !in Cells(t.left) && t.at !in Cells(t.right) && Cells(t.left) !! Cells(t.right)
      && Distinct(t.left) && Distinct(t.right)
  }

  /** Every cell holds the entry and the links that the tree says. */
  ghost predicate Linked(t: Shape)
    reads Cells(t)
  {
    t.Node? ==>
      && t.at.left == Root(t.left) && t.at.right == Root(t.right)
      && t.at.red == t.red && t.at.key == t.key && t.at.val == t.val && t.at.size == t.size
      && Linked(t.left) && Linked(t.right)
  }

  lemma CellsAllocated(t: Shape)
    ensures forall n :: n in Cells(t) ==> allocated(n)
  {
    if t.Node? {
      CellsAllocated(t.left);
      CellsAllocated(t.right);
    }
  }

  /** x points to a heap copy of t. */
  ghost predicate Holds(x: RbtNode?, t: Shape)
    reads Cells(t)
  {
    x == Root(t) && Distinct(t) && Linked(t)
  }

  function NodeSize(x: RbtNode?): int
    reads x
  {
    if x == null then 0 else x.size
  }

  predicate NodeIsRed(x: RbtNode?)
    reads x
  {
    x != null && x.red
  }

  /** What the C code sees when it looks at the children of a node. */
  lemma Peek(h: RbtNode, t: Shape)
    requires Holds(h, t)
    ensures h in Cells(t) && h.left == Root(t.left) && h.right == Root(t.right)
    ensures Holds(h.left, t.left) && Holds(h.right, t.right)
    ensures NodeIsRed(h.left) == IsRed(t.left) && NodeIsRed(h.right) == IsRed(t.right)
    ensures NodeSize(h.left) == SizeOf(t.left) && NodeSize(h.right) == SizeOf(t.right)
    ensures t.left.Node? ==> h.left in Cells(t) && NodeIsRed(h.left.left) == IsRed(t.left.left)
    ensures t.right.Node? ==> h.right in Cells(t) && NodeIsRed(h.right.left) == IsRed(t.right.left)
  {
    if t.left.Node? {
      assert Linked(t.left) && Linked(t.left.left);
    }
    if t.right.Node? {
      assert Linked(t.right) && Linked(t.right.left);
    }
  }

  /** The cell of t's root entry, whatever its two links are. */
  ghost predicate Entry(x: RbtNode, t: Shape)
    requires t.Node?
    reads x
  {
    x == t.at && x.red == t.red && x.key == t.key && x.val == t.val && x.size == t.size
  }

  method SetLeft(x: RbtNode, ghost t: Shape, c: RbtNode?, ghost s: Shape)
    requires t.Node? && Entry(x, t) && Holds(x.right, t.right) && Holds(c, s)
    requires x !in Cells(s) + Cells(t.right) && Cells(s) !! Cells(t.right)
    modifies x
    ensures Holds(x, t.(left := s))
  {
    x.left := c;
  }

  method SetRight(x: RbtNode, ghost t: Shape, c: RbtNode?, ghost s: Shape)
    requires t.Node? && Entry(x, t) && Holds(x.left, t.left) && Holds(c, s)
    requires x !in Cells(s) + Cells(t.left) && Cells(s) !! Cells(t.left)
    modifies x
    ensures Holds(x, t.(right := s))
  {
    x.right := c;
  }

  // ---------- rotations and colour flips ----------

  lemma RotateRightCells(t: Shape)
    requires t.Node? && t.left.Node? && Distinct(t)
    ensures Distinct(RotateRight(t)) && Cells(RotateRight(t)) == Cells(t)
  {
    assert Distinct(t.left);
    var h := RotateRight(t).right;
    assert Cells(h) == Cells(t.left.right) + Cells(t.right) + {t.at};
  }

  lemma RotateLeftCells(t: Shape)
    requires t.Node? && t.right.Node? && Distinct(t)
    ensures Distinct(RotateLeft(t)) && Cells(RotateLeft(t)) == Cells(t)
  {
    assert Distinct(t.right);
    var h := RotateLeft(t).left;
    assert Cells(h) == Cells(t.left) + Cells(t.right.left) + {t.at};
  }

  lemma FlipColorsCells(t: Shape)
    requires t.Node? && t.left.Node? && t.right.Node? && Distinct(t)
    ensures Distinct(FlipColors(t)) && Cells(FlipColors(t)) == Cells(t)
  {
    var f := FlipColors(t);
    assert Cells(f.left) == Cells(t.left) && Cells(f.right) == Cells(t.right);
    assert Distinct(f.left) && Distinct(f.right);
  }

  method RotateRightNode(h: RbtNode, ghost t: Shape) returns (x: RbtNode)
    requires Holds(h, t) && t.left.Node?
    modifies h, h.left
    ensures Holds(x, RotateRight(t)) && Cells(RotateRight(t)) == Cells(t)
  {
    RotateRightCells(t);
    ghost var a, b, c := t.left.left, t.left.right, t.right;
    assert Linked(t.left) && Distinct(t.left) && t.left.at in Cells(t.left);
    assert Linked(a) && Linked(b) && Linked(c);
    assert {h, t.left.at} !! Cells(a) + Cells(b) + Cells(c);
    x := h.left;
    h.left, x.right, x.red, h.red, x.size := x.right, h, h.red, true, h.size;
    h.size := NodeSize(h.left) + NodeSize(h.right) + 1;
    assert Linked(a) && Linked(b) && Linked(c);
    assert h.size == RotateRight(t).right.size;
  }

  method RotateLeftNode(h: RbtNode, ghost t: Shape) returns (x: RbtNode)
    requires Holds(h, t) && t.right.Node?
    modifies h, h.right
    ensures Holds(x, RotateLeft(t)) && Cells(RotateLeft(t)) == Cells(t)
  {
    RotateLeftCells(t);
    ghost var a, b, c := t.left, t.right.left, t.right.right;
    assert Linked(t.right) && Distinct(t.right) && t.right.at in Cells(t.right);
    assert Linked(a) && Linked(b) && Linked(c);
    assert {h, t.right.at} !! Cells(a) + Cells(b) + Cells(c);
    x := h.right;
    h.right, x.left, x.red, h.red, x.size := x.left, h, h.red, true, h.size;
    h.size := NodeSize(h.left) + NodeSize(h.right) + 1;
    assert Linked(a) && Linked(b) && Linked(c);
    assert h.size == RotateLeft(t).left.size;
  }

  method FlipColorsNode(h: RbtNode, ghost t: Shape)
    requires Holds(h, t) && t.left.Node? && t.right.Node?
    modifies h, h.left, h.right
    ensures Holds(h, FlipColors(t)) && Cells(FlipColors(t)) == Cells(t)
  {
    FlipColorsCells(t);
    ghost var l, r := t.left, t.right;
    assert Linked(l) && Linked(r) && Distinct(l) && Distinct(r) && l.at in Cells(l) && r.at in Cells(r);
    assert {h, l.at, r.at} !! Cells(l.left) + Cells(l.right) + Cells(r.left) + Cells(r.right);
    h.red, h.left.red, h.right.red := !h.red, !h.left.red, !h.right.red;
  }

  method MoveRedLeftNode(x: RbtNode, ghost t: Shape) returns (h: RbtNode)
    requires Holds(x, t) && t.left.Node? && t.right.Node?
    modifies Cells(t)
    ensures Holds(h, MoveRedLeft(t)) && Cells(MoveRedLeft(t)) == Cells(t)
  {
    h := x;
    Peek(h, t);
    FlipColorsNode(h, t);
    ghost var f := FlipColors(t);
    Peek(h, f);
    if NodeIsRed(h.right.left) {
      h := TurnAround(h, f);
      FlipColorsNode(h, RotateLeft(f.(right := RotateRight(f.right))));
    }
  }

  /** Both rotations of move_red_left. */
  method TurnAround(x: RbtNode, ghost f: Shape) returns (h: RbtNode)
    requires Holds(x, f) && f.Node? && f.right.Node? && f.right.left.Node?
    modifies Cells(f)
    ensures var g := RotateLeft(f.(right := RotateRight(f.right))); Holds(h, g) && Cells(g) == Cells(f)
  {
    Peek(x, f);
    Peek(x.right, f.right);
    CellsAllocated(f);
    var r := RotateRightNode(x.right, f.right);
    ghost var g := f.(right := RotateRight(f.right));
    SetRight(x, f, r, g.right);
    h := RotateLeftNode(x, g);
  }

  method MoveRedRightNode(x: RbtNode, ghost t: Shape) returns (h: RbtNode)
    requires Holds(x, t) && t.left.Node? && t.right.Node?
    modifies Cells(t)
    ensures Holds(h, MoveRedRight(t)) && Cells(MoveRedRight(t)) == Cells(t)
  {
    h := x;
    Peek(h, t);
    FlipColorsNode(h, t);
    ghost var f := FlipColors(t);
    Peek(h, f);
    if NodeIsRed(h.left.left) {
      h := RotateRightNode(h, f);
      FlipColorsNode(h, RotateRight(f));
    }
  }

  method LeanAndSplitNode(x: RbtNode, ghost t: Shape) returns (h: RbtNode)
    requires Holds(x, t)
    modifies Cells(t)
    ensures Holds(h, LeanAndSplit(t)) && Cells(LeanAndSplit(t)) == Cells(t)
  {
    h := x;
    ghost var t1 := t;
    Peek(h, t);
    if NodeIsRed(h.left) && NodeIsRed(h.left.left) {
      h := RotateRightNode(h, t);
      t1 := RotateRight(t);
    }
    Peek(h, t1);
    ghost var t2 := t1;
    if NodeIsRed(h.left) && NodeIsRed(h.right) {
      FlipColorsNode(h, t1);
      t2 := FlipColors(t1);
    }
    ResizeNode(h, t2);
  }

  method ResizeNode(h: RbtNode, ghost t: Shape)
    requires Holds(h, t)
    modifies h
    ensures Holds(h, Resize(t)) && Cells(Resize(t)) == Cells(t)
  {
    Peek(h, t);
    h.size := NodeSize(h.left) + NodeSize(h.right) + 1;
  }

  method BalanceNode(x: RbtNode, ghost t: Shape) returns (h: RbtNode)
    requires Holds(x, t)
    modifies Cells(t)
    ensures Holds(h, Balance(t)) && Cells(Balance(t)) == Cells(t)
  {
    h := x;
    ghost var t1 := t;
    Peek(h, t);
    if NodeIsRed(h.right) {
      h := RotateLeftNode(h, t);
      t1 := RotateLeft(t);
    }
    h := LeanAndSplitNode(h, t1);
  }

  // ---------- insertion ----------

  method FixUpNode(x: RbtNode, ghost t: Shape) returns (h: RbtNode)
    requires Holds(x, t)
    modifies Cells(t)
    ensures Holds(h, FixUp(t)) && Cells(FixUp(t)) == Cells(t)
  {
    h := x;
    ghost var t1 := t;
    Peek(h, t);
    if NodeIsRed(h.right) && !NodeIsRed(h.left) {
      h := RotateLeftNode(h, t);
      t1 := RotateLeft(t);
    }
    h := LeanAndSplitNode(h, t1);
  }

  method NodePutNode(x: RbtNode?, ghost t: Shape, key: Key, val: Val) returns (h: RbtNode, ghost at: RbtNode)
    requires Holds(x, t)
    modifies Cells(t)
    ensures at in Cells(t) || fresh(at)
    ensures Holds(h, NodePut(t, key, val, at)) && Cells(NodePut(t, key, val, at)) <= Cells(t) + {at}
    decreases t
  {
    CellsAllocated(t);
    if x == null {
      h := new RbtNode(key, val, true, 1);
      at := h;
    } else {
      Peek(x, t);
      if key < x.key {
        var l;
        l, at := NodePutNode(x.left, t.left, key, val);
        SetLeft(x, t, l, NodePut(t.left, key, val, at));
        h := FixUpNode(x, t.(left := NodePut(t.left, key, val, at)));
      } else if key > x.key {
        var r;
        r, at := NodePutNode(x.right, t.right, key, val);
        SetRight(x, t, r, NodePut(t.right, key, val, at));
        h := FixUpNode(x, t.(right := NodePut(t.right, key, val, at)));
      } else {
        x.val := val;
        h := FixUpNode(x, t.(val := val));
        at := x;
      }
    }
  }

  // ---------- deletion ----------

  lemma MoveRedLeftMin(t: Shape)
    requires t.Node? && t.left.Node? && t.right.Node?
    ensures Min(MoveRedLeft(t)).key == Min(t).key && Min(MoveRedLeft(t)).val == Min(t).val
  {
    var f := FlipColors(t);
    assert Min(f).key == Min(t).key && Min(f).val == Min(t).val;
    if IsRed(f.right.left) {
      var g := RotateLeft(f.(right := RotateRight(f.right)));
      assert g.left.left == f.left;
    }
  }

  method NodeDeleteMinNode(x: RbtNode, ghost t: Shape) returns (r: RbtNode?, key: Key, val: Val)
    requires Holds(x, t) && RedAtHand(t)
    modifies Cells(t)
    ensures Holds(r, NodeDeleteMin(t)) && Cells(NodeDeleteMin(t)) <= Cells(t)
    ensures key == Min(t).key && val == Min(t).val
    decreases Count(t)
  {
    CellsAllocated(t);
    Peek(x, t);
    if x.left == null {
      return null, x.key, x.val;
    }
    var h := x;
    ghost var t1 := t;
    if !NodeIsRed(x.left) && !NodeIsRed(x.left.left) {
      MoveRedLeftShape(t);
      MoveRedLeftMin(t);
      h := MoveRedLeftNode(x, t);
      t1 := MoveRedLeft(t);
      Peek(h, t1);
    }
    var l;
    l, key, val := NodeDeleteMinNode(h.left, t1.left);
    ghost var t2 := t1.(left := NodeDeleteMin(t1.left));
    SetLeft(h, t1, l, t2.left);
    r := BalanceNode(h, t2);
  }

  method NodeMinNode(x: RbtNode, ghost t: Shape) returns (m: RbtNode)
    requires Holds(x, t)
    ensures m.key == Min(t).key && m.val == Min(t).val
  {
    m := x;
    ghost var s := t;
    while m.left != null
      invariant Holds(m, s) && Min(s) == Min(t)
      decreases s
    {
      Peek(m, s);
      m := m.left;
      s := s.left;
    }
  }

  /** rbt_node_delete: the key is known to be present. */
  method NodeDeleteNode(x: RbtNode, ghost t: Shape, key: Key) returns (r: RbtNode?)
    requires Holds(x, t) && (RedAtHand(t) || RightHeavy(t, key)) && Ordered(t) && key in Model(t)
    modifies Cells(t)
    ensures Holds(r, NodeDelete(t, key)) && Cells(NodeDelete(t, key)) <= Cells(t)
    decreases Count(t), 1
  {
    CellsAllocated(t);
    Peek(x, t);
    if key < x.key {
      var h := x;
      ghost var t1 := t;
      if !NodeIsRed(x.left) && !NodeIsRed(x.left.left) {
        MoveRedLeftShape(t);
        MoveRedLeftModel(t);
        h := MoveRedLeftNode(x, t);
        t1 := MoveRedLeft(t);
        Peek(h, t1);
      }
      var l := NodeDeleteNode(h.left, t1.left, key);
      ghost var t2 := t1.(left := NodeDelete(t1.left, key));
      SetLeft(h, t1, l, t2.left);
      r := BalanceNode(h, t2);
    } else if NodeIsRed(x.left) {
      RotateRightShape(t, key);
      RotateRightModel(t);
      var h := RotateRightNode(x, t);
      r := DeleteAtOrRightNode(h, RotateRight(t), key);
    } else {
      r := DeleteAtOrRightNode(x, t, key);
    }
  }

  method DeleteAtOrRightNode(x: RbtNode, ghost t: Shape, key: Key) returns (r: RbtNode?)
    requires Holds(x, t) && ((Llrb(t) && IsRed(t)) || RightHeavy(t, key))
    requires Ordered(t) && key in Model(t) && t.key <= key
    modifies Cells(t)
    ensures Holds(r, DeleteAtOrRight(t, key)) && Cells(DeleteAtOrRight(t, key)) <= Cells(t)
    decreases Count(t), 0
  {
    Peek(x, t);
    if key == x.key && x.right == null {
      return null;
    }
    var h := x;
    ghost var t1 := t;
    if !NodeIsRed(x.right) && !NodeIsRed(x.right.left) {
      MoveRedRightShape(t, key);
      MoveRedRightModel(t);
      h := MoveRedRightNode(x, t);
      t1 := MoveRedRight(t);
    }
    RemoveRightNode(h, t1, key);
    r := BalanceNode(h, RemoveRight(t1, key));
  }

  /** The least entry on the right takes the place of the one at the node. */
  method TakeSuccessor(x: RbtNode, ghost t: Shape)
    requires Holds(x, t) && t.right.Node? && RedAtHand(t.right)
    modifies Cells(t)
    ensures var t' := t.(key := Min(t.right).key, val := Min(t.right).val, right := NodeDeleteMin(t.right));
      Holds(x, t') && Cells(t') <= Cells(t)
  {
    CellsAllocated(t);
    Peek(x, t);
    var m := NodeMinNode(x.right, t.right);
    SetEntry(x, t, m.key, m.val);
    DropMin(x, t.(key := Min(t.right).key, val := Min(t.right).val));
  }

  method SetEntry(x: RbtNode, ghost t: Shape, key: Key, val: Val)
    requires Holds(x, t)
    modifies x
    ensures Holds(x, t.(key := key, val := val))
  {
    Peek(x, t);
    x.key, x.val := key, val;
  }

  method DropMin(x: RbtNode, ghost t: Shape)
    requires Holds(x, t) && t.right.Node? && RedAtHand(t.right)
    modifies Cells(t)
    ensures var t' := t.(right := NodeDeleteMin(t.right)); Holds(x, t') && Cells(t') <= Cells(t)
  {
    CellsAllocated(t);
    Peek(x, t);
    var r, k, v := NodeDeleteMinNode(x.right, t.right);
    SetRight(x, t, r, NodeDeleteMin(t.right));
  }

  method RemoveRightNode(x: RbtNode, ghost t: Shape, key: Key)
    requires Holds(x, t) && ReadyRight(t, key) && Ordered(t) && key in Model(t) && t.key <= key
    modifies Cells(t)
    ensures Holds(x, RemoveRight(t, key)) && Cells(RemoveRight(t, key)) <= Cells(t)
    decreases Count(t.right), 2
  {
    CellsAllocated(t);
    Peek(x, t);
    if key == x.key {
      TakeSuccessor(x, t);
    } else {
      var r := NodeDeleteNode(x.right, t.right, key);
      SetRight(x, t, r, NodeDelete(t.right, key));
    }
  }

  // ---------- the public operations ----------

  method BlackenNode(x: RbtNode?, ghost t: Shape)
    requires Holds(x, t)
    modifies x
    ensures Holds(x, Blacken(t)) && Cells(Blacken(t)) == Cells(t)
  {
    if x != null {
      Peek(x, t);
      x.red := false;
    }
  }

  method RedIfBlackChildrenNode(x: RbtNode, ghost t: Shape)
    requires Holds(x, t)
    modifies x
    ensures Holds(x, RedIfBlackChildren(t)) && Cells(RedIfBlackChildren(t)) == Cells(t)
  {
    Peek(x, t);
    if !NodeIsRed(x.left) && !NodeIsRed(x.right) {
      x.red := true;
    }
  }

  class RbtTree {
    var root: RbtNode?
    ghost var shape: Shape

    ghost predicate Valid()
      reads this, Cells(shape)
    {
      Holds(root, shape) && WellFormed(shape)
    }

    ghost function Contents(): Pairs
      reads this
    {
      Model(shape)
    }

    constructor ()
      ensures Valid() && Contents() == map[] && Cells(shape) == {}
    {
      root := null;
      shape := Leaf;
    }

    method Put(key: Key, val: Val)
      requires Valid()
      modifies this, Cells(shape)
      ensures Valid() && Contents() == old(Contents())[key := val]
      ensures fresh(Cells(shape) - old(Cells(shape)))
    {
      ghost var t := shape;
      ghost var at;
      root, at := NodePutNode(root, t, key, val);
      PutCorrect(t, key, val, at);
      BlackenNode(root, NodePut(t, key, val, at));
      shape := Blacken(NodePut(t, key, val, at));
    }

    method Delete(key: Key)
      requires Valid()
      modifies this, Cells(shape)
      ensures Valid() && Contents() == old(Contents()) - {key}
      ensures Cells(shape) <= old(Cells(shape))
    {
      ghost var t := shape;
      CellsAllocated(t);
      var found, val := Get(key);
      DeleteCorrect(t, key);
      if found {
        RedIfBlackChildrenReady(t);
        RedIfBlackChildrenNode(root, t);
        root := NodeDeleteNode(root, RedIfBlackChildren(t), key);
        BlackenNode(root, NodeDelete(RedIfBlackChildren(t), key));
        shape := Blacken(NodeDelete(RedIfBlackChildren(t), key));
      }
    }

    method DeleteAndGetMin() returns (found: bool, key: Key, val: Val)
      requires Valid()
      modifies this, Cells(shape)
      ensures Valid() && found == (old(Contents()) != map[])
      ensures found ==> IsLeast(key, old(Contents())) && val == old(Contents())[key]
      ensures Contents() == if found then old(Contents()) - {key} else map[]
      ensures Cells(shape) <= old(Cells(shape))
    {
      ghost var t := shape;
      found, key, val := root != null, 0, 0;
      DeleteMinCorrect(t);
      if found {
        MinIsLeast(t);
        RedIfBlackChildrenReady(t);
        RedIfBlackChildrenNode(root, t);
        root, key, val := NodeDeleteMinNode(root, RedIfBlackChildren(t));
        BlackenNode(root, NodeDeleteMin(RedIfBlackChildren(t)));
        shape := Blacken(NodeDeleteMin(RedIfBlackChildren(t)));
      }
    }

    method Get(key: Key) returns (found: bool, val: Val)
      requires Valid()
      ensures found == (key in Contents()) && (found ==> val == Contents()[key])
    {
      GetAgrees(shape, key);
      var x := root;
      ghost var t := shape;
      while x != null
        invariant Holds(x, t) && LlrbTree.Get(t, key) == LlrbTree.Get(shape, key)
        decreases t
      {
        Peek(x, t);
        if key < x.key {
          x, t := x.left, t.left;
        } else if key > x.key {
          x, t := x.right, t.right;
        } else {
          return true, x.val;
        }
      }
      return false, 0;
    }

    method MinEntry() returns (found: bool, key: Key, val: Val)
      requires Valid()
      ensures found == (Contents() != map[])
      ensures found ==> IsLeast(key, Contents()) && val == Contents()[key]
    {
      if root == null {
        return false, 0, 0;
      }
      MinIsLeast(shape);
      var m := NodeMinNode(root, shape);
      return true, m.key, m.val;
    }

    method Size() returns (n: int)
      requires Valid()
      ensures n == |Contents()|
    {
      SizeIsCardinality(shape);
      n := NodeSize(root);
    }
  }
}
