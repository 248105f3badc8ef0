/**
 picosplay.c on heap nodes with parent pointers.

 Zip(z) says that the heap holds the tree z, seen from its focus: every child link and
 every parent link is as the zipper says.  The pointer code is proved to leave behind the
 zipper that SplayModel computes, so its results carry over: order, root, path halving.
 */
module SplayTree {
  import opened SplayModel
  import Costs = SplayCost

  /** The comparison function and the values it compares are the caller's; a value is a
      plain handle, and the comparison is any total preorder on handles. */
  type Value = int
  type Comparator = (Value, Value) -> int

  ghost predicate Precedes(comp: Comparator, a: Value, b: Value) {
    comp(a, b) <= 0
  }

  ghost predicate IsComparator(comp: Comparator) {
    && (forall a, b :: comp(a, b) < 0 <==> comp(b, a) > 0)
    && (forall a, b, c :: Precedes(comp, a, b) && Precedes(comp, b, c) ==> Precedes(comp, a, c))
  }

  class SplayNode {
    var parent: SplayNode?
    var left: SplayNode?
    var right: SplayNode?
    const value: Value

    constructor (value: Value)
      ensures this.value == value && parent == null && left == null && right == null
    {
      this.value := value;
      parent, left, right := null, null, null;
    }
  }

  type Shape = Tree<SplayNode>
  type Focus = Zipper<SplayNode>

  ghost function Root(t: Shape): SplayNode? {
    if t.Leaf? then null else t.at
  }

  ghost function Parent(c: Ctx<SplayNode>): SplayNode? {
    if c.Top? then null else c.p
  }

  ghost function Around(c: Ctx<SplayNode>): set<SplayNode> {
    if c.Top? then {} else Around(c.up) + {c.p} + Labels(c.sibling)
  }

  ghost function Cells(z: Focus): set<SplayNode> {
    Labels(z.t) + Around(z.c)
  }

  // ---------- no node is used twice ----------

  ghost predicate Distinct(t: Shape) {
    t.Bin? ==>
      && t.at !in Labels(t.l) && t.at !in Labels(t.r) && Labels(t.l) !! Labels(t.r)
      && Distinct(t.l) && Distinct(t.r)
  }

  ghost predicate DistinctAround(c: Ctx<SplayNode>) {
    !c.Top? ==>
      && c.p !in Labels(c.sibling) && c.p !in Around(c.up) && Labels(c.sibling) !! Around(c.up)
      && Distinct(c.sibling) && DistinctAround(c.up)
  }

  ghost predicate DistinctZip(z: Focus) {
    Distinct(z.t) && DistinctAround(z.c) && Labels(z.t) !! Around(z.c)
  }

  // ---------- the links ----------

  ghost predicate Linked(t: Shape, parent: SplayNode?)
    reads Labels(t)
  {
    t.Bin? ==>
      && t.at.parent == parent && t.at.left == Root(t.l) && t.at.right == Root(t.r)
      && Linked(t.l, t.at) && Linked(t.r, t.at)
  }

  ghost predicate LinkedAround(c: Ctx<SplayNode>, x: SplayNode?)
    reads Around(c)
  {
    !c.Top? ==>
      && c.p.parent == Parent(c.up)
      && c.p.left == (if c.InLeft? then x else Root(c.sibling))
      && c.p.right == (if c.InLeft? then Root(c.sibling) else x)
      && Linked(c.sibling, c.p) && LinkedAround(c.up, c.p)
  }

  ghost predicate Zip(z: Focus)
    reads Cells(z)
  {
    DistinctZip(z) && Linked(z.t, Parent(z.c)) && LinkedAround(z.c, Root(z.t))
  }

  lemma LabelsAllocated(t: Shape)
    ensures forall n :: n in Labels(t) ==> allocated(n)
  {
    if t.Bin? {
      LabelsAllocated(t.l);
      LabelsAllocated(t.r);
    }
  }

  lemma AroundAllocated(c: Ctx<SplayNode>)
    ensures forall n :: n in Around(c) ==> allocated(n)
  {
    if !c.Top? {
      LabelsAllocated(c.sibling);
      AroundAllocated(c.up);
    }
  }

  // ---------- rotation ----------

  lemma RotateDistinct(z: Focus)
    requires !z.c.Top? && z.t.Bin? && DistinctZip(z)
    ensures DistinctZip(Rotate(z)) && Cells(Rotate(z)) == Cells(z)
  {
    var r := Rotate(z);
    if z.c.InLeft? {
      assert Labels(r.t.r) == Labels(z.t.r) + {z.c.p} + Labels(z.c.sibling);
    } else {
      assert Labels(r.t.l) == Labels(z.c.sibling) + {z.c.p} + Labels(z.t.l);
    }
  }

  /** The parent g of p, if any, gets child in p's place. */
  method Redirect(g: SplayNode?, p: SplayNode, child: SplayNode, ghost up: Ctx<SplayNode>)
    requires g == Parent(up) && LinkedAround(up, p) && DistinctAround(up) && p !in Around(up)
    modifies Around(up)
    ensures LinkedAround(up, child)
  {
    if g == null {
      return;
    }
    assert LinkedAround(up.up, g) && Linked(up.sibling, g);
    assert up.sibling.Bin? ==> up.sibling.at in Labels(up.sibling);
    if g.left == p {
      g.left := child;
    } else {
      g.right := child;
    }
  }

  /** Between marking and relinking: child and parent have changed places, and the
      subtrees are where they were. */
  ghost predicate Marked(z: Focus)
    requires !z.c.Top? && z.t.Bin?
    reads Cells(z)
  {
    var x, p := z.t.at, z.c.p;
    && x.parent == Parent(z.c.up) && p.parent == x && LinkedAround(z.c.up, x)
    && x.left == Root(z.t.l) && x.right == Root(z.t.r)
    && Linked(z.t.l, x) && Linked(z.t.r, x) && Linked(z.c.sibling, p)
    && (if z.c.InLeft? then p.right else p.left) == Root(z.c.sibling)
  }

  method MarkGp(child: SplayNode, ghost z: Focus)
    requires Zip(z) && z.t.Bin? && z.t.at == child && !z.c.Top?
    modifies Cells(z)
    ensures Marked(z)
  {
    LabelsAllocated(z.t);
    AroundAllocated(z.c);
    var p := child.parent;
    var g := p.parent;
    Redirect(g, p, child, z.c.up);
    child.parent := g;
    p.parent := child;
  }

  /** Set the parent of a child, if there is a child. */
  method Adopt(p: SplayNode?, x: SplayNode?, ghost t: Shape, ghost was: SplayNode?)
    requires Linked(t, was) && Distinct(t) && x == Root(t)
    modifies (if x == null then {} else {x})`parent
    ensures Linked(t, p)
  {
    if x != null {
      assert Linked(t.l, x) && Linked(t.r, x);
      x.parent := p;
    }
  }

  method TurnLeftChild(child: SplayNode, p: SplayNode, ghost z: Focus)
    requires z.t.Bin? && z.c.InLeft? && z.t.at == child && z.c.p == p && DistinctZip(z) && Marked(z)
    modifies Cells(z)
    ensures Zip(Rotate(z))
  {
    LabelsAllocated(z.t);
    AroundAllocated(z.c);
    RotateDistinct(z);
    p.left := child.right;
    Adopt(p, child.right, z.t.r, child);
    child.right := p;
  }

  method TurnRightChild(child: SplayNode, p: SplayNode, ghost z: Focus)
    requires z.t.Bin? && z.c.InRight? && z.t.at == child && z.c.p == p && DistinctZip(z) && Marked(z)
    modifies Cells(z)
    ensures Zip(Rotate(z))
  {
    LabelsAllocated(z.t);
    AroundAllocated(z.c);
    RotateDistinct(z);
    p.right := child.left;
    Adopt(p, child.left, z.t.l, child);
    child.left := p;
  }

  method RotateNode(child: SplayNode, ghost z: Focus)
    requires Zip(z) && z.t.Bin? && z.t.at == child && !z.c.Top?
    modifies Cells(z)
    ensures Zip(Rotate(z)) && Cells(Rotate(z)) == Cells(z)
  {
    RotateDistinct(z);
    var p := child.parent;
    if p.left == child {
      assert z.c.InLeft?;
      MarkGp(child, z);
      TurnLeftChild(child, p, z);
    } else {
      assert z.c.InRight?;
      MarkGp(child, z);
      TurnRightChild(child, p, z);
    }
  }

  // ---------- moving the focus ----------

  lemma ZipUp(z: Focus)
    requires !z.c.Top?
    ensures Zip(z) <==> Zip(Up(z))
    ensures Cells(Up(z)) == Cells(z)
  {
  }

  lemma {:induction false} ZipPlug(z: Focus)
    ensures Zip(z) <==> Zip(Zipper(Top, Plug(z)))
    ensures Cells(z) == Labels(Plug(z))
    decreases z.c
  {
    if !z.c.Top? {
      ZipUp(z);
      ZipPlug(Up(z));
    }
  }

  /** Any node of the tree can be brought into focus. */
  lemma {:induction false} FocusOn(z: Focus, n: SplayNode) returns (f: Focus)
    requires n in Labels(z.t)
    ensures Plug(f) == Plug(z) && f.t.Bin? && f.t.at == n
    decreases z.t
  {
    if n == z.t.at {
      f := z;
    } else if n in Labels(z.t.l) {
      f := FocusOn(Zipper(InLeft(z.c, z.t.at, z.t.r), z.t.l), n);
    } else {
      f := FocusOn(Zipper(InRight(z.c, z.t.at, z.t.l), z.t.r), n);
    }
  }

  // ---------- splaying ----------

  method ZigZig(x: SplayNode, p: SplayNode, ghost z: Focus)
    requires Zip(z) && z.t.Bin? && z.t.at == x && !z.c.Top? && !z.c.up.Top? && z.c.p == p
    requires z.c.InLeft? == z.c.up.InLeft?
    modifies Cells(z)
    ensures Zip(Step(z)) && Cells(Step(z)) == Cells(z)
  {
    ZipUp(z);
    RotateParentIsRotate(z);
    ZipUp(RotateParent(z));
    RotateNode(p, Up(z));
    ZipUp(RotateParent(z));
    RotateNode(x, RotateParent(z));
  }

  method ZigZag(x: SplayNode, ghost z: Focus)
    requires Zip(z) && z.t.Bin? && z.t.at == x && !z.c.Top? && !z.c.up.Top?
    requires z.c.InLeft? != z.c.up.InLeft?
    modifies Cells(z)
    ensures Zip(Step(z)) && Cells(Step(z)) == Cells(z)
  {
    RotateNode(x, z);
    RotateNode(x, Rotate(z));
  }

  method SplayNodeUp(x: SplayNode, ghost z: Focus) returns (ghost rounds: nat)
    requires Zip(z) && z.t.Bin? && z.t.at == x
    modifies Cells(z)
    ensures Zip(Zipper(Top, Splay(z))) && Labels(Splay(z)) == Cells(z) && rounds == Rounds(z.c)
  {
    rounds := 0;
    ghost var w := z;
    while x.parent != null
      invariant w.t.Bin? && w.t.at == x && Zip(w) && Cells(w) == Cells(z) && Splay(w) == Splay(z)
      invariant rounds + Rounds(w.c) == Rounds(z.c)
      decreases w.c
    {
      var p := x.parent;
      var g := p.parent;
      assert !w.c.Top? && p == w.c.p && g == Parent(w.c.up);
      if g == null {
        RotateNode(x, w);
      } else {
        assert LinkedAround(w.c.up, p);
        if (x == p.left && p == g.left) || (x == p.right && p == g.right) {
          ZigZig(x, p, w);
        } else {
          ZigZag(x, w);
        }
      }
      RoundsStep(w);
      w, rounds := Step(w), rounds + 1;
    }
  }

  // ---------- walking ----------

  /** The first node of a subtree in order, or null. */
  method Leftmost(node: SplayNode?, ghost z: Focus) returns (first: SplayNode?, ghost f: Focus)
    requires Zip(z) && node == Root(z.t)
    ensures first == if z.t.Leaf? then null else Inorder(z.t)[0]
    ensures z.t.Bin? ==> f.t.Bin? && f.t.at == first && f.t.l.Leaf? && Plug(f) == Plug(z) && Zip(f)
    ensures z.t.Bin? ==> OnLeftSpine(z, f)
  {
    first := null;
    f := z;
    var n := node;
    ghost var w := z;
    while n != null
      invariant Zip(w) && n == Root(w.t) && OnLeftSpine(z, w) && Plug(w) == Plug(z)
      invariant w.t.Leaf? && z.t.Bin? ==>
        f.t.Bin? && f.t.l.Leaf? && f.t.at == first && Plug(f) == Plug(z) && Zip(f) && OnLeftSpine(z, f)
      invariant z.t.Leaf? ==> first == null && w == z
      decreases w.t
    {
      first, f := n, w;
      w := Zipper(InLeft(w.c, w.t.at, w.t.r), w.t.l);
      ZipUp(w);
      n := n.left;
    }
    if z.t.Bin? {
      LeftSpineFirst(z, f);
    }
  }

  /** f is reached from z by going left only. */
  ghost predicate OnLeftSpine(z: Focus, f: Focus)
    decreases f.c
  {
    f == z || (f.c.InLeft? && OnLeftSpine(z, Up(f)))
  }

  lemma {:induction false} LeftSpineFirst(z: Focus, f: Focus)
    requires OnLeftSpine(z, f) && f.t.Bin? && f.t.l.Leaf?
    ensures z.t.Bin? && Inorder(z.t)[0] == f.t.at
  {
    LeftSpinePrefix(z, f);
    assert Inorder(f.t)[0] == f.t.at;
  }

  lemma {:induction false} LeftSpinePrefix(z: Focus, f: Focus)
    requires OnLeftSpine(z, f)
    ensures Inorder(f.t) <= Inorder(z.t)
    decreases f.c
  {
    if f != z {
      LeftSpinePrefix(z, Up(f));
    }
  }

  /** The node after the focus in order, or null. */
  method Next(node: SplayNode, ghost z: Focus) returns (succ: SplayNode?)
    requires Zip(z) && z.t.Bin? && z.t.at == node
    ensures var after := Inorder(z.t.r) + After(z.c); succ == if after == [] then null else after[0]
  {
    if node.right != null {
      ghost var w := Zipper(InRight(z.c, z.t.at, z.t.l), z.t.r);
      ZipUp(w);
      ghost var f;
      succ, f := Leftmost(node.right, w);
      return;
    }
    var n := node;
    ghost var w := z;
    while n.parent != null && n == n.parent.right
      invariant Zip(w) && w.t.Bin? && w.t.at == n && After(w.c) == After(z.c)
      decreases w.c
    {
      n := n.parent;
      ZipUp(w);
      w := Up(w);
    }
    return n.parent;
  }

  // ---------- removing the root ----------

  lemma {:induction false} RemoveFirstDistinct(t: Shape)
    requires t.Bin? && Distinct(t)
    ensures Distinct(RemoveFirst(t)) && Labels(RemoveFirst(t)) == Labels(t) - {First(t)}
    ensures First(t) in Labels(t)
  {
    if t.l.Bin? {
      RemoveFirstDistinct(t.l);
    }
  }

  lemma {:induction false} SpineRemove(z: Focus, f: Focus)
    requires OnLeftSpine(z, f) && f.t.Bin?
    ensures z.t.Bin? && First(f.t) == First(z.t)
    ensures Plug(Zipper(f.c, RemoveFirst(f.t))) == Plug(Zipper(z.c, RemoveFirst(z.t)))
    decreases f.c
  {
    if f != z {
      SpineRemove(z, Up(f));
      assert Up(Zipper(f.c, RemoveFirst(f.t))) == Zipper(Up(f).c, RemoveFirst(Up(f).t));
    }
  }

  /** x, a left child with no left child, is replaced by its right subtree. */
  method Unlink(x: SplayNode, ghost f: Focus)
    requires Zip(f) && f.t.Bin? && f.t.at == x && f.t.l.Leaf? && f.c.InLeft?
    modifies Cells(f)
    ensures Zip(Zipper(f.c, f.t.r))
  {
    LabelsAllocated(f.t);
    AroundAllocated(f.c);
    x.parent.left := x.right;
    Adopt(x.parent, x.right, f.t.r, x);
  }

  /** x takes the place of the root node, above its two subtrees. */
  method TakeRoot(x: SplayNode, node: SplayNode, ghost l: Shape, ghost r: Shape)
    requires Distinct(l) && Distinct(r) && Labels(l) !! Labels(r) && x != node
    requires {x, node} !! Labels(l) && {x, node} !! Labels(r) && l.Bin? && r.Bin?
    requires node.left == Root(l) && node.right == Root(r) && Linked(l, node) && Linked(r, node)
    modifies {x} + Labels(l) + Labels(r)
    ensures Linked(Bin(l, x, r), null)
  {
    LabelsAllocated(l);
    LabelsAllocated(r);
    x.right := node.right;
    Adopt(x, x.right, r, node);
    x.parent := null;
    x.left := node.left;
    Adopt(x, x.left, l, node);
  }

  method DeleteRootNode(node: SplayNode, ghost t: Shape) returns (root: SplayNode?)
    requires Zip(Zipper(Top, t)) && t.Bin? && t.at == node
    modifies Labels(t)
    ensures Zip(Zipper(Top, DeleteRoot(t))) && root == Root(DeleteRoot(t))
    ensures Labels(DeleteRoot(t)) == Labels(t) - {node}
  {
    LabelsAllocated(t);
    if node.left == null {
      root := node.right;
      Adopt(null, root, t.r, node);
    } else if node.right == null {
      root := node.left;
      Adopt(null, root, t.l, node);
    } else {
      root := ReplaceRoot(node, t);
    }
  }

  /** With both children, the first node on the right takes its place. */
  method ReplaceRoot(node: SplayNode, ghost t: Shape) returns (root: SplayNode?)
    requires Zip(Zipper(Top, t)) && t.Bin? && t.at == node && t.l.Bin? && t.r.Bin?
    modifies Labels(t)
    ensures Zip(Zipper(Top, DeleteRoot(t))) && root == Root(DeleteRoot(t))
    ensures Labels(DeleteRoot(t)) == Labels(t) - {node}
  {
    LabelsAllocated(t);
    ghost var w := Zipper(InRight(Top, node, t.l), t.r);
    ZipUp(w);
    ghost var f;
    root, f := Leftmost(node.right, w);
    RemoveFirstDistinct(t.r);
    SpineRemove(w, f);
    ZipPlug(f);
    ZipPlug(w);
    LeftSpineTop(w, f);
    if root.parent != node {
      UnlinkBelow(root, node, w, f);
      TakeRoot(root, node, t.l, RemoveFirst(t.r));
    } else {
      root.parent := null;
      root.left := node.left;
      Adopt(root, root.left, t.l, node);
    }
  }

  lemma LeftSpineTop(z: Focus, f: Focus)
    requires OnLeftSpine(z, f) && !z.c.Top?
    ensures !f.c.Top? && (f == z || f.c.p in Labels(z.t))
  {
    if f != z {
      LeftSpineLabels(z, Up(f));
    }
  }

  lemma {:induction false} LeftSpineLabels(z: Focus, f: Focus)
    requires OnLeftSpine(z, f)
    ensures Labels(f.t) <= Labels(z.t)
    decreases f.c
  {
    if f != z {
      LeftSpineLabels(z, Up(f));
    }
  }

  method UnlinkBelow(x: SplayNode, node: SplayNode, ghost w: Focus, ghost f: Focus)
    requires Zip(f) && Plug(f) == Plug(w) && OnLeftSpine(w, f) && w.c.InRight? && w.c.p == node && w.t.Bin?
    requires f.t.Bin? && f.t.at == x && f.t.l.Leaf? && x.parent != node
    modifies Cells(f)
    ensures Zip(Zipper(w.c, RemoveFirst(w.t)))
  {
    SpineRemove(w, f);
    Unlink(x, f);
    ZipPlug(Zipper(f.c, f.t.r));
    ZipPlug(Zipper(w.c, RemoveFirst(w.t)));
  }

  // ---------- the tree ----------

  ghost predicate Sorted(comp: Comparator, s: seq<SplayNode>) {
    forall i, j :: 0 <= i < j < |s| ==> comp(s[i].value, s[j].value) <= 0
  }

  class PicoSplay {
    const comp: Comparator
    var root: SplayNode?
    var size: int
    ghost var shape: Shape
    ghost var account: Costs.Account

    ghost predicate Valid()
      reads this, Labels(shape)
    {
      Ordered() && Costs.Balanced(account, shape)
    }

    ghost predicate Ordered()
      reads `root, `size, `shape, Labels(shape)
    {
      && Zip(Zipper(Top, shape)) && root == Root(shape)
      && IsComparator(comp) && Sorted(comp, Contents()) && size == |Contents()|
    }

    /** The nodes of the tree in order. */
    ghost function Contents(): seq<SplayNode>
      reads `shape
    {
      Inorder(shape)
    }

    constructor (comp: Comparator)
      requires IsComparator(comp)
      ensures Valid() && Contents() == [] && Labels(shape) == {} && account == Costs.Account(0, 0, 0)
    {
      this.comp := comp;
      root, size := null, 0;
      shape := Leaf;
      account := Costs.Account(0, 0, 0);
    }

    /** Where a search for value is: everything before the focus is smaller than value
        (or, unless strict, equal to it), everything after it is greater. */
    ghost predicate Splits(value: Value, z: Focus, strict: bool) {
      && (forall n :: n in Before(z.c) ==> comp(value, n.value) > 0 || (!strict && comp(value, n.value) == 0))
      && (forall n :: n in After(z.c) ==> comp(value, n.value) < 0)
    }

    /** What stands left of a node does not come after it, what stands right not before. */
    lemma Around(z: Focus)
      requires Sorted(comp, Sequence(z)) && z.t.Bin?
      ensures forall n :: n in Inorder(z.t.l) ==> Precedes(comp, n.value, z.t.at.value)
      ensures forall n :: n in Inorder(z.t.r) ==> Precedes(comp, z.t.at.value, n.value)
    {
      var s, k := Sequence(z), |Before(z.c)| + |Inorder(z.t.l)|;
      assert s == Before(z.c) + Inorder(z.t.l) + [z.t.at] + Inorder(z.t.r) + After(z.c);
      assert s[k] == z.t.at;
      forall n | n in Inorder(z.t.l) ensures Precedes(comp, n.value, z.t.at.value) {
        var i :| 0 <= i < |Inorder(z.t.l)| && Inorder(z.t.l)[i] == n;
        assert s[|Before(z.c)| + i] == n;
      }
      forall n | n in Inorder(z.t.r) ensures Precedes(comp, z.t.at.value, n.value) {
        var i :| 0 <= i < |Inorder(z.t.r)| && Inorder(z.t.r)[i] == n;
        assert s[k + 1 + i] == n;
      }
    }

    lemma Carries(value: Value, x: Value, y: Value)
      requires IsComparator(comp) && Precedes(comp, x, y)
      ensures comp(value, x) < 0 ==> comp(value, y) < 0
      ensures comp(value, y) > 0 ==> comp(value, x) > 0
      ensures comp(value, y) == 0 ==> comp(value, x) >= 0
    {
      assert Precedes(comp, value, x) ==> Precedes(comp, value, y);
      assert Precedes(comp, y, value) ==> Precedes(comp, x, value);
    }

    lemma SplitsDown(value: Value, z: Focus, strict: bool)
      requires IsComparator(comp) && Sorted(comp, Sequence(z)) && Splits(value, z, strict) && z.t.Bin?
      ensures comp(value, z.t.at.value) < 0 ==> Splits(value, Zipper(InLeft(z.c, z.t.at, z.t.r), z.t.l), strict)
      ensures comp(value, z.t.at.value) > 0 || (!strict && comp(value, z.t.at.value) == 0) ==>
        Splits(value, Zipper(InRight(z.c, z.t.at, z.t.l), z.t.r), strict)
    {
      Around(z);
      var at := z.t.at.value;
      forall n | n in Inorder(z.t.l)
        ensures (comp(value, at) > 0 ==> comp(value, n.value) > 0)
        ensures (comp(value, at) == 0 ==> comp(value, n.value) >= 0) {
        Carries(value, n.value, at);
      }
      forall n | n in Inorder(z.t.r) ensures comp(value, at) < 0 ==> comp(value, n.value) < 0 {
        Carries(value, at, n.value);
      }
    }

    /** A search for value stands at z. */
    ghost predicate Searching(value: Value, z: Focus, strict: bool)
      reads this, Cells(z)
    {
      Zip(z) && Plug(z) == shape && Sequence(z) == Contents() && Splits(value, z, strict)
    }

    lemma SearchDown(value: Value, z: Focus, strict: bool)
      requires IsComparator(comp) && Sorted(comp, Contents()) && Searching(value, z, strict) && z.t.Bin?
      ensures z.t.at.left == Root(z.t.l) && z.t.at.right == Root(z.t.r) && z.t.at in Contents()
      ensures comp(value, z.t.at.value) < 0 ==>
        Searching(value, Zipper(InLeft(z.c, z.t.at, z.t.r), z.t.l), strict)
      ensures comp(value, z.t.at.value) > 0 || (!strict && comp(value, z.t.at.value) == 0) ==>
        Searching(value, Zipper(InRight(z.c, z.t.at, z.t.l), z.t.r), strict)
    {
      SplitsDown(value, z, strict);
      var l, r := Zipper(InLeft(z.c, z.t.at, z.t.r), z.t.l), Zipper(InRight(z.c, z.t.at, z.t.l), z.t.r);
      ZipUp(l);
      ZipUp(r);
      UpSequence(l);
      UpSequence(r);
      assert Sequence(z)[|Before(z.c)| + |Inorder(z.t.l)|] == z.t.at;
    }

    /** The descent of an insertion: after all nodes not greater than value. */
    method FindPlace(value: Value) returns (parent: SplayNode?, left: bool, ghost z: Focus)
      requires Ordered()
      ensures Searching(value, z, false) && z.t.Leaf? && parent == Parent(z.c)
      ensures parent != null ==> left == z.c.InLeft?
    {
      z := Zipper(Top, shape);
      var curr := root;
      parent, left := null, false;
      assert Sequence(z) == Contents();
      while curr != null
        invariant Searching(value, z, false) && curr == Root(z.t) && parent == Parent(z.c)
        invariant parent != null ==> left == z.c.InLeft?
        decreases z.t
      {
        parent := curr;
        SearchDown(value, z, false);
        if comp(value, curr.value) < 0 {
          left := true;
          curr := curr.left;
          z := Zipper(InLeft(z.c, z.t.at, z.t.r), z.t.l);
        } else {
          left := false;
          curr := curr.right;
          z := Zipper(InRight(z.c, z.t.at, z.t.l), z.t.r);
        }
      }
    }

    /** All calls together have taken a logarithmic number of rounds each, on average. */
    lemma Amortised()
      requires Valid()
      ensures account.rounds <= account.calls * (4 * Costs.Log2(account.peak) + 1)
    {
    }

    method Insert(value: Value)
        returns (node: SplayNode, ghost before: seq<SplayNode>, ghost after: seq<SplayNode>,
                 ghost op: Costs.Op<SplayNode>)
      requires Valid()
      modifies this, Labels(shape)
      ensures Valid() && fresh(node) && node.value == value && root == node
      ensures old(Contents()) == before + after && Contents() == before + [node] + after
      ensures forall n :: n in before ==> comp(value, n.value) >= 0
      ensures forall n :: n in after ==> comp(value, n.value) < 0
      ensures Labels(shape) == old(Labels(shape)) + {node}
      ensures Costs.Applies(old(shape), op, shape) && account == Costs.Charged(old(account), Costs.Cost(op), shape)
    {
      ghost var was, z, rounds := shape, Zipper(Top, shape), 0;
      node, before, after, z, rounds := Plant(value);
      op := Costs.Insert(z.c, node);
      Costs.ChargedBalances(account, was, op, shape);
      account := Costs.Charged(account, rounds, shape);
    }

    method Plant(value: Value)
        returns (node: SplayNode, ghost before: seq<SplayNode>, ghost after: seq<SplayNode>,
                 ghost z: Focus, ghost rounds: nat)
      requires Ordered()
      modifies `root, `size, `shape, Labels(shape)
      ensures Ordered() && fresh(node) && node.value == value && root == node
      ensures old(Contents()) == before + after && Contents() == before + [node] + after
      ensures forall n :: n in before ==> comp(value, n.value) >= 0
      ensures forall n :: n in after ==> comp(value, n.value) < 0
      ensures Labels(shape) == old(Labels(shape)) + {node}
      ensures Costs.Applies(old(shape), Costs.Insert(z.c, node), shape) && rounds == Rounds(z.c)
    {
      var parent, left;
      parent, left, z := FindPlace(value);
      before, after := Before(z.c), After(z.c);
      SequenceAtFocus(z);
      ZipPlug(z);
      node, shape, rounds := AddLeaf(value, parent, left, z);
      root, size := node, size + 1;
      SortedInsert(comp, before, node, after);
    }

    /** The last node before a place, if there is one. */
    static ghost function LastBefore(c: Ctx<SplayNode>): SplayNode? {
      if Before(c) == [] then null else Before(c)[|Before(c)| - 1]
    }

    /** The search loop of find and find_previous: the node with the value, if there is one,
        and otherwise the last node that is smaller. */
    method Seek(value: Value) returns (found: SplayNode?, previous: SplayNode?, ghost z: Focus)
      requires Ordered()
      ensures Searching(value, z, true) && found == Root(z.t) && (found != null ==> comp(value, found.value) == 0)
      ensures previous == LastBefore(z.c)
    {
      z := Zipper(Top, shape);
      found, previous := root, null;
      assert Sequence(z) == Contents();
      while found != null && comp(value, found.value) != 0
        invariant Searching(value, z, true) && found == Root(z.t) && previous == LastBefore(z.c)
        decreases z.t
      {
        if comp(value, found.value) < 0 {
          found, z := SeekLeft(value, found, z);
        } else {
          previous := found;
          found, z := SeekRight(value, found, z);
        }
      }
    }

    method SeekLeft(value: Value, node: SplayNode, ghost z: Focus) returns (found: SplayNode?, ghost z': Focus)
      requires IsComparator(comp) && Sorted(comp, Contents()) && Searching(value, z, true) && node == Root(z.t)
      requires comp(value, node.value) < 0
      ensures Searching(value, z', true) && found == Root(z'.t) && LastBefore(z'.c) == LastBefore(z.c) && z'.t < z.t
    {
      SearchDown(value, z, true);
      found := node.left;
      z' := Zipper(InLeft(z.c, z.t.at, z.t.r), z.t.l);
    }

    method SeekRight(value: Value, node: SplayNode, ghost z: Focus) returns (found: SplayNode?, ghost z': Focus)
      requires IsComparator(comp) && Sorted(comp, Contents()) && Searching(value, z, true) && node == Root(z.t)
      requires comp(value, node.value) > 0
      ensures Searching(value, z', true) && found == Root(z'.t) && LastBefore(z'.c) == node && z'.t < z.t
    {
      SearchDown(value, z, true);
      found := node.right;
      z' := Zipper(InRight(z.c, z.t.at, z.t.l), z.t.r);
    }

    method Raise(node: SplayNode) returns (ghost op: Costs.Op<SplayNode>)
      requires Valid() && node in Labels(shape)
      modifies this, Labels(shape)
      ensures Valid() && Contents() == old(Contents()) && Labels(shape) == old(Labels(shape)) && root == node
      ensures Costs.Applies(old(shape), op, shape) && account == Costs.Charged(old(account), Costs.Cost(op), shape)
    {
      ghost var was, f, rounds := shape, Zipper(Top, shape), 0;
      shape, f, rounds := SplayToRoot(node, shape);
      root, op := node, Costs.Touch(f);
      Costs.ChargedBalances(account, was, op, shape);
      account := Costs.Charged(account, rounds, shape);
    }

    method Find(value: Value) returns (node: SplayNode?, ghost op: Costs.Op<SplayNode>)
      requires Valid()
      modifies this, Labels(shape)
      ensures Valid() && Contents() == old(Contents()) && Labels(shape) == old(Labels(shape))
      ensures node == null <==> forall n :: n in Contents() ==> comp(value, n.value) != 0
      ensures node != null ==> node in Contents() && comp(value, node.value) == 0 && root == node
      ensures node != null ==>
        Costs.Applies(old(shape), op, shape) && account == Costs.Charged(old(account), Costs.Cost(op), shape)
      ensures node == null ==> account == old(account) && shape == old(shape)
    {
      LabelsAllocated(shape);
      op := Costs.Touch(Zipper(Top, shape));
      var previous;
      ghost var z;
      node, previous, z := Seek(value);
      if node != null {
        ZipPlug(z);
        SearchDown(value, z, true);
        op := Raise(node);
      }
    }

    method FindPrevious(value: Value) returns (node: SplayNode?, ghost before: seq<SplayNode>,
                        ghost after: seq<SplayNode>)
      requires Valid()
      ensures node == null ==> after == Contents() && forall n :: n in after ==> comp(value, n.value) < 0
      ensures node != null ==> Contents() == before + [node] + after && comp(value, node.value) >= 0
      ensures node != null && comp(value, node.value) > 0 ==> forall n :: n in after ==> comp(value, n.value) < 0
    {
      var found, previous;
      ghost var z;
      found, previous, z := Seek(value);
      SequenceAtFocus(z);
      node, before, after := previous, Before(z.c), After(z.c);
      if found != null {
        node, before, after := found, before + Inorder(z.t.l), Inorder(z.t.r) + after;
      } else if previous != null {
        ghost var b := before;
        before := b[..|b| - 1];
        assert b == before + [node];
      } else {
        assert before + after == after;
      }
    }

    method DeleteHint(node: SplayNode?)
        returns (ghost before: seq<SplayNode>, ghost after: seq<SplayNode>, ghost op: Costs.Op<SplayNode>)
      requires Valid() && (node != null ==> node in Labels(shape))
      modifies this, Labels(shape)
      ensures Valid()
      ensures node == null ==> shape == old(shape) && account == old(account)
      ensures node != null ==> old(Contents()) == before + [node] + after && Contents() == before + after
      ensures node != null ==> Labels(shape) == old(Labels(shape)) - {node}
      ensures node != null ==>
        Costs.Applies(old(shape), op, shape) && account == Costs.Charged(old(account), Costs.Cost(op), shape)
    {
      before, after, op := [], [], Costs.Touch(Zipper(Top, shape));
      if node != null {
        before, after, op := DeleteNode(node);
      }
    }

    method DeleteNode(node: SplayNode)
        returns (ghost before: seq<SplayNode>, ghost after: seq<SplayNode>, ghost op: Costs.Op<SplayNode>)
      requires Valid() && node in Labels(shape)
      modifies this, Labels(shape)
      ensures Valid()
      ensures old(Contents()) == before + [node] + after && Contents() == before + after
      ensures Labels(shape) == old(Labels(shape)) - {node}
      ensures Costs.Applies(old(shape), op, shape) && account == Costs.Charged(old(account), Costs.Cost(op), shape)
    {
      ghost var was, z, rounds := shape, Zipper(Top, shape), 0;
      before, after, z, rounds := TakeOut(node);
      op := Costs.Delete(z);
      Costs.ChargedBalances(account, was, op, shape);
      account := Costs.Charged(account, rounds, shape);
    }

    method TakeOut(node: SplayNode)
        returns (ghost before: seq<SplayNode>, ghost after: seq<SplayNode>, ghost z: Focus, ghost rounds: nat)
      requires Ordered() && node in Labels(shape)
      modifies `root, `size, `shape, Labels(shape)
      ensures Ordered()
      ensures old(Contents()) == before + [node] + after && Contents() == before + after
      ensures Labels(shape) == old(Labels(shape)) - {node}
      ensures Costs.Applies(old(shape), Costs.Delete(z), shape) && rounds == Rounds(z.c)
    {
      ghost var s := Contents();
      root, shape, before, after, z, rounds := RemoveNode(node, shape);
      ghost var t := Contents();
      SortedRemove(comp, s, t, before, node, after);
      assert |t| == |s| - 1;
      size := size - 1;
    }

    /** picosplay_next: the in-order successor. */
    method Successor(node: SplayNode) returns (succ: SplayNode?, ghost before: seq<SplayNode>,
                     ghost after: seq<SplayNode>)
      requires Valid() && node in Labels(shape)
      ensures Contents() == before + [node] + after
      ensures succ == if after == [] then null else after[0]
    {
      ghost var z := FocusOn(Zipper(Top, shape), node);
      ZipPlug(z);
      PlugSequence(z);
      SequenceAtFocus(z);
      before, after := Before(z.c) + Inorder(z.t.l), Inorder(z.t.r) + After(z.c);
      succ := Next(node, z);
    }
  }

  /** Bring a node of the tree to the root. */
  method SplayToRoot(node: SplayNode, ghost t: Shape) returns (ghost t': Shape, ghost z: Focus, ghost rounds: nat)
    requires Zip(Zipper(Top, t)) && node in Labels(t)
    modifies Labels(t)
    ensures t'.Bin? && t'.at == node && Zip(Zipper(Top, t')) && Labels(t') == Labels(t) && Inorder(t') == Inorder(t)
    ensures Costs.Applies(t, Costs.Touch(z), t') && rounds == Rounds(z.c)
  {
    z := FocusOn(Zipper(Top, t), node);
    ZipPlug(z);
    PlugSequence(z);
    SplaySequence(z);
    rounds := SplayNodeUp(node, z);
    t' := Splay(z);
  }

  /** Splay a node to the root and take it out. */
  method RemoveNode(node: SplayNode, ghost t: Shape)
      returns (root: SplayNode?, ghost t': Shape, ghost before: seq<SplayNode>, ghost after: seq<SplayNode>,
               ghost z: Focus, ghost rounds: nat)
    requires Zip(Zipper(Top, t)) && node in Labels(t)
    modifies Labels(t)
    ensures Zip(Zipper(Top, t')) && root == Root(t') && Labels(t') == Labels(t) - {node}
    ensures Inorder(t) == before + [node] + after && Inorder(t') == before + after
    ensures Costs.Applies(t, Costs.Delete(z), t') && rounds == Rounds(z.c)
  {
    ghost var t1;
    t1, z, rounds := SplayToRoot(node, t);
    before, after := Inorder(t1.l), Inorder(t1.r);
    root := DeleteRootNode(node, t1);
    DeleteRootInorder(t1);
    t' := DeleteRoot(t1);
  }

  /** Create a node, link it at the empty place z and splay it. */
  method AddLeaf(value: Value, parent: SplayNode?, left: bool, ghost z: Focus)
      returns (node: SplayNode, ghost t: Shape, ghost rounds: nat)
    requires Zip(z) && z.t.Leaf? && parent == Parent(z.c)
    requires parent != null ==> left == z.c.InLeft?
    modifies Cells(z)
    ensures fresh(node) && node.value == value
    ensures t == Splay(Zipper(z.c, Bin(Leaf, node, Leaf))) && Inorder(t) == Before(z.c) + [node] + After(z.c)
    ensures Zip(Zipper(Top, t)) && Labels(t) == Cells(z) + {node} && rounds == Rounds(z.c)
  {
    AroundAllocated(z.c);
    node := new SplayNode(value);
    ghost var f := Zipper(z.c, Bin(Leaf, node, Leaf));
    AttachLeaf(node, parent, left, z);
    rounds := SplayNodeUp(node, f);
    SplaySequence(f);
    assert Inorder(f.t) == [node];
    t := Splay(f);
  }

  lemma SortedRemove(comp: Comparator, s: seq<SplayNode>, t: seq<SplayNode>,
                     before: seq<SplayNode>, node: SplayNode, after: seq<SplayNode>)
    requires Sorted(comp, s) && s == before + [node] + after && t == before + after
    ensures Sorted(comp, t)
  {
    forall i, j | 0 <= i < j < |t| ensures comp(t[i].value, t[j].value) <= 0 {
      var k := |before|;
      var i' := if i < k then i else i + 1;
      var j' := if j < k then j else j + 1;
      assert t[i] == s[i'] && t[j] == s[j'];
    }
  }

  lemma SortedInsert(comp: Comparator, before: seq<SplayNode>, node: SplayNode, after: seq<SplayNode>)
    requires IsComparator(comp) && Sorted(comp, before + after)
    requires forall n :: n in before ==> comp(node.value, n.value) >= 0
    requires forall n :: n in after ==> comp(node.value, n.value) < 0
    ensures Sorted(comp, before + [node] + after)
  {
    var s, t := before + after, before + [node] + after;
    forall i, j | 0 <= i < j < |t| ensures comp(t[i].value, t[j].value) <= 0 {
      var k := |before|;
      if i != k && j != k {
        var i' := if i < k then i else i - 1;
        var j' := if j < k then j else j - 1;
        assert t[i] == s[i'] && t[j] == s[j'];
      } else if j == k {
        assert t[i] in before;
      } else {
        assert t[j] in after;
      }
    }
  }

  /** Link a new node into the empty place a search ended at. */
  method AttachLeaf(node: SplayNode, parent: SplayNode?, left: bool, ghost z: Focus)
    requires Zip(z) && z.t.Leaf? && parent == Parent(z.c) && node !in Cells(z)
    requires parent != null ==> left == z.c.InLeft?
    requires node.left == null && node.right == null
    modifies Around(z.c), node
    ensures Zip(Zipper(z.c, Bin(Leaf, node, Leaf)))
  {
    node.parent := parent;
    if parent != null {
      assert LinkedAround(z.c.up, parent) && Linked(z.c.sibling, parent) && DistinctAround(z.c);
      if left {
        parent.left := node;
      } else {
        parent.right := node;
      }
    }
  }
}
