/**
 The left-leaning red-black tree of red_black_tree.c, as values.

 Every function below computes the tree that the in-place C function of the same
 purpose leaves behind; module RedBlackTree proves that for heap nodes.  The two
 arguments made here are the shape argument (Llrb, BlackHeight: the tree stays
 balanced) and the contents argument (Ordered, Model: the tree is a map).
 */
module LlrbTree {
  import opened Options
  import opened Powers

  type Key = nat
  type Val = nat

  /** A tree over keys and values; `at` is the memory cell that holds the entry. */
  datatype Tree<A> =
    | Leaf
    | Node(at: A, red: bool, key: Key, val: Val, size: int, left: Tree<A>, right: Tree<A>)

  predicate IsRed<A>(t: Tree<A>) {
    t.Node? && t.red
  }

  function SizeOf<A>(t: Tree<A>): int {
    if t.Leaf? then 0 else t.size
  }

  // ---------- what a tree must satisfy ----------

  /** Number of black nodes on the left spine; on every path when Llrb holds. */
  function BlackHeight<A>(t: Tree<A>): nat {
    if t.Leaf? then 0 else BlackHeight(t.left) + (if t.red then 0 else 1)
  }

  /** No red right link, no two reds in a row, equal black height on all paths. */
  predicate Llrb<A>(t: Tree<A>) {
    t.Node? ==>
      && !IsRed(t.right)
      && !(t.red && IsRed(t.left))
      && BlackHeight(t.left) == BlackHeight(t.right)
      && Llrb(t.left) && Llrb(t.right)
  }

  function Count<A>(t: Tree<A>): nat {
    if t.Leaf? then 0 else Count(t.left) + Count(t.right) + 1
  }

  /** Every node counts the nodes below and including it. */
  predicate Sized<A>(t: Tree<A>) {
    t.Node? ==>
      && t.size == SizeOf(t.left) + SizeOf(t.right) + 1
      && Sized(t.left) && Sized(t.right)
  }

  type Pairs = map<Key, Val>

  predicate Below(m: Pairs, k: Key) {
    forall x :: x in m ==> x < k
  }

  predicate Above(m: Pairs, k: Key) {
    forall x :: x in m ==> k < x
  }

  function Join(l: Pairs, k: Key, v: Val, r: Pairs): Pairs {
    (l + r)[k := v]
  }

  /** The key-value pairs of a tree. */
  function Model<A>(t: Tree<A>): Pairs {
    if t.Leaf? then map[] else Join(Model(t.left), t.key, t.val, Model(t.right))
  }

  predicate Ordered<A>(t: Tree<A>) {
    t.Node? ==>
      && Below(Model(t.left), t.key) && Above(Model(t.right), t.key)
      && Ordered(t.left) && Ordered(t.right)
  }

  /** The invariant of a whole tree between calls. */
  predicate WellFormed<A>(t: Tree<A>) {
    Llrb(t) && !IsRed(t) && Sized(t) && Ordered(t)
  }

  // ---------- rotations and colour flips ----------

  function RotateRight<A>(h: Tree<A>): Tree<A>
    requires h.Node? && h.left.Node?
  {
    var x := h.left;
    var h' := h.(left := x.right, red := true, size := SizeOf(x.right) + SizeOf(h.right) + 1);
    x.(right := h', red := h.red, size := h.size)
  }

  function RotateLeft<A>(h: Tree<A>): Tree<A>
    requires h.Node? && h.right.Node?
  {
    var x := h.right;
    var h' := h.(right := x.left, red := true, size := SizeOf(h.left) + SizeOf(x.left) + 1);
    x.(left := h', red := h.red, size := h.size)
  }

  function FlipColors<A>(h: Tree<A>): Tree<A>
    requires h.Node? && h.left.Node? && h.right.Node?
  {
    h.(red := !h.red, left := h.left.(red := !h.left.red), right := h.right.(red := !h.right.red))
  }

  function MoveRedLeft<A>(h: Tree<A>): Tree<A>
    requires h.Node? && h.left.Node? && h.right.Node?
  {
    var f := FlipColors(h);
    if IsRed(f.right.left) then FlipColors(RotateLeft(f.(right := RotateRight(f.right)))) else f
  }

  function MoveRedRight<A>(h: Tree<A>): Tree<A>
    requires h.Node? && h.left.Node? && h.right.Node?
  {
    var f := FlipColors(h);
    if IsRed(f.left.left) then FlipColors(RotateRight(f)) else f
  }

  function Resize<A>(h: Tree<A>): Tree<A>
    requires h.Node?
  {
    h.(size := SizeOf(h.left) + SizeOf(h.right) + 1)
  }

  /** The two last repairs shared by put and balance, then the size. */
  function LeanAndSplit<A>(h: Tree<A>): Tree<A>
    requires h.Node?
  {
    var h1 := if IsRed(h.left) && IsRed(h.left.left) then RotateRight(h) else h;
    var h2 := if IsRed(h1.left) && IsRed(h1.right) then FlipColors(h1) else h1;
    Resize(h2)
  }

  function Balance<A>(h: Tree<A>): Tree<A>
    requires h.Node?
  {
    LeanAndSplit(if IsRed(h.right) then RotateLeft(h) else h)
  }

  // ---------- insertion ----------

  function FixUp<A>(h: Tree<A>): Tree<A>
    requires h.Node?
  {
    LeanAndSplit(if IsRed(h.right) && !IsRed(h.left) then RotateLeft(h) else h)
  }

  function NodePut<A>(t: Tree<A>, key: Key, val: Val, at: A): Tree<A> {
    if t.Leaf? then Node(at, true, key, val, 1, Leaf, Leaf)
    else if key < t.key then FixUp(t.(left := NodePut(t.left, key, val, at)))
    else if key > t.key then FixUp(t.(right := NodePut(t.right, key, val, at)))
    else FixUp(t.(val := val))
  }

  function Blacken<A>(t: Tree<A>): Tree<A> {
    if t.Leaf? then t else t.(red := false)
  }

  function Put<A>(t: Tree<A>, key: Key, val: Val, at: A): Tree<A> {
    Blacken(NodePut(t, key, val, at))
  }

  // ---------- lookup ----------

  function Get<A>(t: Tree<A>, key: Key): Option<Val> {
    if t.Leaf? then None
    else if key < t.key then Get(t.left, key)
    else if key > t.key then Get(t.right, key)
    else Some(t.val)
  }

  function Min<A>(t: Tree<A>): (m: Tree<A>)
    requires t.Node?
    ensures m.Node?
  {
    if t.left.Leaf? then t else Min(t.left)
  }

  // ---------- deletion ----------

  /** A tree a deletion may descend into: balanced, with a red node at hand on the left. */
  predicate RedAtHand<A>(t: Tree<A>) {
    Llrb(t) && (t.Node? ==> t.red || IsRed(t.left))
  }

  /** The one other shape a deletion meets: moving red right can leave a red right child,
      and then the search goes on to the right. */
  predicate RightHeavy<A>(t: Tree<A>, key: Key) {
    t.Node? && !t.red && !IsRed(t.left) && IsRed(t.right) && t.key <= key &&
    Llrb(t.left) && Llrb(t.right) && BlackHeight(t.left) == BlackHeight(t.right)
  }

  /** A node below which, to the right, a deletion may descend. */
  predicate ReadyRight<A>(m: Tree<A>, key: Key) {
    m.Node? && m.right.Node? &&
    (RedAtHand(m.right) || (RightHeavy(m.right, key) && m.key < key))
  }

  /** What Balance can repair: sound children, any colours under a black node. */
  predicate Repairable<A>(h: Tree<A>) {
    h.Node? && Llrb(h.left) && Llrb(h.right) && BlackHeight(h.left) == BlackHeight(h.right) &&
    (h.red ==> !IsRed(h.left) && !IsRed(h.right))
  }

  lemma BalanceRepairs<A>(h: Tree<A>)
    requires Repairable(h)
    ensures Llrb(Balance(h)) && BlackHeight(Balance(h)) == BlackHeight(h)
    ensures IsRed(Balance(h)) ==> h.red || (IsRed(h.left) && IsRed(h.right))
  {
  }

  lemma MoveRedLeftShape<A>(h: Tree<A>)
    requires Llrb(h) && h.Node? && h.red && h.left.Node? && !IsRed(h.left.left)
    ensures h.right.Node?
    ensures var m := MoveRedLeft(h);
      && m.Node? && BlackHeight(m) == BlackHeight(h)
      && RedAtHand(m.left) && m.left.Node? && Llrb(m.right) && BlackHeight(m.left) == BlackHeight(m.right)
      && (m.red ==> !IsRed(m.left) && !IsRed(m.right))
      && Count(m.left) < Count(h)
  {
    assert Llrb(h.left) && Llrb(h.right) && Llrb(h.right.left);
    assert h.right.left.Node? ==> Count(h.right.left) > Count(h.right.left.left);
    var m := MoveRedLeft(h);
    assert BlackHeight(m.left.left) == BlackHeight(h.left.left);
  }

  lemma MoveRedRightShape<A>(h: Tree<A>, key: Key)
    requires Llrb(h) && h.Node? && h.red && h.right.Node? && !IsRed(h.right.left)
    requires h.key <= key && Ordered(h)
    ensures h.left.Node?
    ensures var m := MoveRedRight(h);
      && m.Node? && BlackHeight(m) == BlackHeight(h)
      && Llrb(m.left) && BlackHeight(m.left) == BlackHeight(m.right) && ReadyRight(m, key)
      && (m.red ==> !IsRed(m.left) && !IsRed(m.right))
      && Count(m.right) < Count(h)
  {
    assert Llrb(h.left) && Llrb(h.right) && Llrb(h.left.left);
    JoinParts(Model(h.left.left), h.left.key, h.left.val, Model(h.left.right), h.key);
  }

  lemma RotateRightShape<A>(h: Tree<A>, key: Key)
    requires Llrb(h) && h.Node? && IsRed(h.left) && h.key <= key && Ordered(h)
    ensures RightHeavy(RotateRight(h), key)
    ensures Count(RotateRight(h)) == Count(h) && BlackHeight(RotateRight(h)) == BlackHeight(h)
  {
    assert Llrb(h.left);
    JoinParts(Model(h.left.left), h.left.key, h.left.val, Model(h.left.right), h.key);
  }

  function NodeDeleteMin<A>(t: Tree<A>): (r: Tree<A>)
    requires RedAtHand(t)
    ensures Llrb(r) && BlackHeight(r) == BlackHeight(t)
    ensures IsRed(r) ==> IsRed(t)
    decreases Count(t)
  {
    if t.Leaf? || t.left.Leaf? then Leaf
    else
      var h :=
        if !IsRed(t.left) && !IsRed(t.left.left) then MoveRedLeftShape(t); MoveRedLeft(t) else t;
      var h' := h.(left := NodeDeleteMin(h.left));
      BalanceRepairs(h');
      Balance(h')
  }

  /** Deletion of a key that is present. */
  function NodeDelete<A>(t: Tree<A>, key: Key): (r: Tree<A>)
    requires RedAtHand(t) || RightHeavy(t, key)
    requires Ordered(t) && key in Model(t)
    ensures Llrb(r) && BlackHeight(r) == BlackHeight(t)
    ensures IsRed(r) ==> IsRed(t)
    decreases Count(t), 1
  {
    if key < t.key then
      var h :=
        if !IsRed(t.left) && !IsRed(t.left.left)
        then MoveRedLeftShape(t); MoveRedLeftModel(t); MoveRedLeft(t) else t;
      var h' := h.(left := NodeDelete(h.left, key));
      BalanceRepairs(h');
      Balance(h')
    else if IsRed(t.left) then
      RotateRightShape(t, key); RotateRightModel(t);
      DeleteAtOrRight(RotateRight(t), key)
    else
      DeleteAtOrRight(t, key)
  }

  /** The key is at h or to its right, and h no longer leans left. */
  function DeleteAtOrRight<A>(h: Tree<A>, key: Key): (r: Tree<A>)
    requires (Llrb(h) && IsRed(h)) || RightHeavy(h, key)
    requires Ordered(h) && key in Model(h) && h.key <= key
    ensures Llrb(r) && BlackHeight(r) == BlackHeight(h)
    ensures IsRed(r) ==> IsRed(h)
    decreases Count(h), 0
  {
    if key == h.key && h.right.Leaf? then Leaf
    else
      var m :=
        if !IsRed(h.right) && !IsRed(h.right.left)
        then MoveRedRightShape(h, key); MoveRedRightModel(h); MoveRedRight(h) else h;
      var m' := RemoveRight(m, key);
      BalanceRepairs(m');
      Balance(m')
  }

  /** Overwrite m with its successor, or search on to the right. */
  function RemoveRight<A>(m: Tree<A>, key: Key): (r: Tree<A>)
    requires ReadyRight(m, key)
    requires Ordered(m) && key in Model(m) && m.key <= key
    ensures r.Node? && r.red == m.red && r.left == m.left
    ensures Llrb(r.right) && BlackHeight(r.right) == BlackHeight(m.right)
    ensures IsRed(r.right) ==> IsRed(m.right)
    decreases Count(m.right), 2
  {
    if key == m.key
    then m.(key := Min(m.right).key, val := Min(m.right).val, right := NodeDeleteMin(m.right))
    else m.(right := NodeDelete(m.right, key))
  }

  // ---------- contents ----------

  /** The one fact about maps behind both rotations. */
  lemma JoinRotate(a: Pairs, k1: Key, v1: Val, b: Pairs, k2: Key, v2: Val, c: Pairs)
    requires k1 < k2 && Below(a, k1) && Above(b, k1) && Below(b, k2) && Above(c, k2)
    ensures Below(Join(a, k1, v1, b), k2) && Above(Join(b, k2, v2, c), k1)
    ensures Join(Join(a, k1, v1, b), k2, v2, c) == Join(a, k1, v1, Join(b, k2, v2, c))
  {
    assert Below(a, k2) && Above(c, k1);
    var ab, bc := Join(a, k1, v1, b), Join(b, k2, v2, c);
    var l, r := Join(ab, k2, v2, c), Join(a, k1, v1, bc);
    forall x
      ensures x in l <==> x in r
      ensures x in l ==> l[x] == r[x]
    {
    }
  }

  lemma RotateRightModel<A>(h: Tree<A>)
    requires h.Node? && h.left.Node? && Ordered(h)
    ensures Ordered(RotateRight(h)) && Model(RotateRight(h)) == Model(h)
  {
    var x := h.left;
    JoinParts(Model(x.left), x.key, x.val, Model(x.right), h.key);
    JoinRotate(Model(x.left), x.key, x.val, Model(x.right), h.key, h.val, Model(h.right));
    var h' := RotateRight(h).right;
    assert Model(h') == Join(Model(x.right), h.key, h.val, Model(h.right));
  }

  lemma RotateLeftModel<A>(h: Tree<A>)
    requires h.Node? && h.right.Node? && Ordered(h)
    ensures Ordered(RotateLeft(h)) && Model(RotateLeft(h)) == Model(h)
  {
    var x := h.right;
    JoinParts(Model(x.left), x.key, x.val, Model(x.right), h.key);
    JoinRotate(Model(h.left), h.key, h.val, Model(x.left), x.key, x.val, Model(x.right));
    var h' := RotateLeft(h).left;
    assert Model(h') == Join(Model(h.left), h.key, h.val, Model(x.left));
  }

  lemma JoinParts(l: Pairs, k: Key, v: Val, r: Pairs, bound: Key)
    ensures Below(Join(l, k, v, r), bound) ==> Below(l, bound) && k < bound && Below(r, bound)
    ensures Above(Join(l, k, v, r), bound) ==> Above(l, bound) && bound < k && Above(r, bound)
  {
    var j := Join(l, k, v, r);
    assert k in j;
    assert forall x :: x in l || x in r ==> x in j;
  }

  lemma FlipColorsModel<A>(h: Tree<A>)
    requires h.Node? && h.left.Node? && h.right.Node? && Ordered(h)
    ensures Ordered(FlipColors(h)) && Model(FlipColors(h)) == Model(h)
  {
    var f := FlipColors(h);
    assert Model(f.left) == Model(h.left) && Model(f.right) == Model(h.right);
  }

  lemma MoveRedLeftModel<A>(h: Tree<A>)
    requires h.Node? && h.left.Node? && h.right.Node? && Ordered(h)
    ensures Ordered(MoveRedLeft(h)) && Model(MoveRedLeft(h)) == Model(h)
  {
    FlipColorsModel(h);
    var f := FlipColors(h);
    if IsRed(f.right.left) {
      RotateRightModel(f.right);
      var g := f.(right := RotateRight(f.right));
      assert Ordered(g) && Model(g) == Model(f);
      RotateLeftModel(g);
      FlipColorsModel(RotateLeft(g));
    }
  }

  lemma MoveRedRightModel<A>(h: Tree<A>)
    requires h.Node? && h.left.Node? && h.right.Node? && Ordered(h)
    ensures Ordered(MoveRedRight(h)) && Model(MoveRedRight(h)) == Model(h)
  {
    FlipColorsModel(h);
    var f := FlipColors(h);
    if IsRed(f.left.left) {
      RotateRightModel(f);
      FlipColorsModel(RotateRight(f));
    }
  }

  lemma LeanAndSplitModel<A>(h: Tree<A>)
    requires h.Node? && Ordered(h)
    ensures Ordered(LeanAndSplit(h)) && Model(LeanAndSplit(h)) == Model(h)
  {
    var h1 := h;
    if IsRed(h.left) && IsRed(h.left.left) {
      RotateRightModel(h);
      h1 := RotateRight(h);
    }
    if IsRed(h1.left) && IsRed(h1.right) {
      FlipColorsModel(h1);
    }
  }

  lemma BalanceModel<A>(h: Tree<A>)
    requires h.Node? && Ordered(h)
    ensures Ordered(Balance(h)) && Model(Balance(h)) == Model(h)
  {
    if IsRed(h.right) {
      RotateLeftModel(h);
      LeanAndSplitModel(RotateLeft(h));
    } else {
      LeanAndSplitModel(h);
    }
  }

  lemma FixUpModel<A>(h: Tree<A>)
    requires h.Node? && Ordered(h)
    ensures Ordered(FixUp(h)) && Model(FixUp(h)) == Model(h)
  {
    if IsRed(h.right) && !IsRed(h.left) {
      RotateLeftModel(h);
      LeanAndSplitModel(RotateLeft(h));
    } else {
      LeanAndSplitModel(h);
    }
  }

  lemma JoinUpdate(l: Pairs, k: Key, v: Val, r: Pairs, x: Key, w: Val)
    requires Below(l, k) && Above(r, k)
    ensures x < k ==> Join(l[x := w], k, v, r) == Join(l, k, v, r)[x := w] && Below(l[x := w], k)
    ensures x > k ==> Join(l, k, v, r[x := w]) == Join(l, k, v, r)[x := w] && Above(r[x := w], k)
    ensures Join(l, k, w, r) == Join(l, k, v, r)[k := w]
  {
  }

  /** Put is map update, on any ordered tree. */
  lemma {:induction false} NodePutModel<A>(t: Tree<A>, key: Key, val: Val, at: A)
    requires Ordered(t)
    ensures Ordered(NodePut(t, key, val, at))
    ensures Model(NodePut(t, key, val, at)) == Model(t)[key := val]
  {
    if t.Node? {
      if key < t.key {
        NodePutModel(t.left, key, val, at);
        var h := t.(left := NodePut(t.left, key, val, at));
        JoinUpdate(Model(t.left), t.key, t.val, Model(t.right), key, val);
        FixUpModel(h);
      } else if key > t.key {
        NodePutModel(t.right, key, val, at);
        var h := t.(right := NodePut(t.right, key, val, at));
        JoinUpdate(Model(t.left), t.key, t.val, Model(t.right), key, val);
        FixUpModel(h);
      } else {
        JoinUpdate(Model(t.left), t.key, t.val, Model(t.right), key, val);
        FixUpModel(t.(val := val));
      }
    }
  }

  lemma {:induction false} MinIsLeast<A>(t: Tree<A>)
    requires Ordered(t) && t.Node?
    ensures var m := Min(t); m.key in Model(t) && Model(t)[m.key] == m.val
    ensures forall x :: x in Model(t) ==> Min(t).key <= x
  {
    if t.left.Node? {
      MinIsLeast(t.left);
      assert Min(t).key < t.key && Min(t).key !in Model(t.right);
    }
  }

  lemma {:induction false} GetAgrees<A>(t: Tree<A>, key: Key)
    requires Ordered(t)
    ensures Get(t, key) == if key in Model(t) then Some(Model(t)[key]) else None
  {
    if t.Node? {
      if key < t.key {
        GetAgrees(t.left, key);
      } else if key > t.key {
        GetAgrees(t.right, key);
      }
    }
  }

  lemma JoinRemove(l: Pairs, k: Key, v: Val, r: Pairs, x: Key)
    requires Below(l, k) && Above(r, k)
    ensures x < k ==> Join(l - {x}, k, v, r) == Join(l, k, v, r) - {x}
    ensures x > k ==> Join(l, k, v, r - {x}) == Join(l, k, v, r) - {x}
    ensures Below(l - {x}, k) && Above(r - {x}, k)
  {
  }

  lemma JoinSuccessor(l: Pairs, k: Key, v: Val, r: Pairs, x: Key)
    requires Below(l, k) && Above(r, k) && x in r && forall y :: y in r ==> x <= y
    ensures Below(l, x) && Above(r - {x}, x)
    ensures Join(l, x, r[x], r - {x}) == Join(l, k, v, r) - {k}
  {
  }

  /** Delete-min removes exactly the least key. */
  lemma {:induction false} NodeDeleteMinModel<A>(t: Tree<A>)
    requires RedAtHand(t) && t.Node? && Ordered(t)
    ensures Ordered(NodeDeleteMin(t))
    ensures Model(NodeDeleteMin(t)) == Model(t) - {Min(t).key}
    decreases Count(t)
  {
    if t.left.Leaf? {
      assert BlackHeight(t.right) == 0;
      assert t.right.Leaf?;
      assert Model(t) == map[t.key := t.val];
    } else {
      var h := t;
      if !IsRed(t.left) && !IsRed(t.left.left) {
        MoveRedLeftShape(t);
        MoveRedLeftModel(t);
        h := MoveRedLeft(t);
      }
      MinIsLeast(t);
      MinIsLeast(h);
      NodeDeleteMinModel(h.left);
      MinIsLeast(h.left);
      JoinRemove(Model(h.left), h.key, h.val, Model(h.right), Min(h).key);
      var h' := h.(left := NodeDeleteMin(h.left));
      BalanceRepairs(h');
      BalanceModel(h');
    }
  }

  /** Delete removes exactly the given key. */
  lemma {:induction false} NodeDeleteModel<A>(t: Tree<A>, key: Key)
    requires RedAtHand(t) || RightHeavy(t, key)
    requires Ordered(t) && key in Model(t)
    ensures Ordered(NodeDelete(t, key))
    ensures Model(NodeDelete(t, key)) == Model(t) - {key}
    decreases Count(t), 1
  {
    if key < t.key {
      var h := t;
      if !IsRed(t.left) && !IsRed(t.left.left) {
        MoveRedLeftShape(t);
        MoveRedLeftModel(t);
        h := MoveRedLeft(t);
      }
      NodeDeleteModel(h.left, key);
      JoinRemove(Model(h.left), h.key, h.val, Model(h.right), key);
      var h' := h.(left := NodeDelete(h.left, key));
      BalanceRepairs(h');
      BalanceModel(h');
    } else {
      if IsRed(t.left) {
        RotateRightShape(t, key);
        RotateRightModel(t);
        DeleteAtOrRightModel(RotateRight(t), key);
      } else {
        DeleteAtOrRightModel(t, key);
      }
    }
  }

  lemma {:induction false} DeleteAtOrRightModel<A>(h: Tree<A>, key: Key)
    requires (Llrb(h) && IsRed(h)) || RightHeavy(h, key)
    requires Ordered(h) && key in Model(h) && h.key <= key
    ensures Ordered(DeleteAtOrRight(h, key))
    ensures Model(DeleteAtOrRight(h, key)) == Model(h) - {key}
    decreases Count(h), 0
  {
    if key == h.key && h.right.Leaf? {
      assert h.left.Leaf?;
    } else {
      var m := h;
      if !IsRed(h.right) && !IsRed(h.right.left) {
        MoveRedRightShape(h, key);
        MoveRedRightModel(h);
        m := MoveRedRight(h);
      }
      RemoveRightModel(m, key);
      var m' := RemoveRight(m, key);
      BalanceRepairs(m');
      BalanceModel(m');
    }
  }

  lemma {:induction false} RemoveRightModel<A>(m: Tree<A>, key: Key)
    requires ReadyRight(m, key)
    requires Ordered(m) && key in Model(m) && m.key <= key
    ensures Ordered(RemoveRight(m, key))
    ensures Model(RemoveRight(m, key)) == Model(m) - {key}
    decreases Count(m.right), 2
  {
    if key == m.key {
      MinIsLeast(m.right);
      NodeDeleteMinModel(m.right);
      JoinSuccessor(Model(m.left), m.key, m.val, Model(m.right), Min(m.right).key);
    } else {
      NodeDeleteModel(m.right, key);
      JoinRemove(Model(m.left), m.key, m.val, Model(m.right), key);
    }
  }

  // ---------- balance of insertion ----------

  /** Sound below the root, where a red root may still have a red left child. */
  predicate AlmostLlrb<A>(t: Tree<A>) {
    t.Node? && !IsRed(t.right) && BlackHeight(t.left) == BlackHeight(t.right) &&
    Llrb(t.left) && Llrb(t.right)
  }

  lemma FixUpShape<A>(h: Tree<A>)
    requires h.Node? && BlackHeight(h.left) == BlackHeight(h.right)
    requires Llrb(h.right) && (Llrb(h.left) || (AlmostLlrb(h.left) && !h.red && !IsRed(h.right)))
    requires h.red ==> !(IsRed(h.left) && IsRed(h.right))
    ensures var r := FixUp(h);
      BlackHeight(r) == BlackHeight(h) && AlmostLlrb(r) && (h.red ==> r.red) && (!h.red ==> Llrb(r))
  {
    if h.left.Node? {
      assert Llrb(h.left.left) && Llrb(h.left.right);
    }
    if h.right.Node? {
      assert Llrb(h.right.left) && Llrb(h.right.right);
    }
  }

  lemma {:induction false} NodePutShape<A>(t: Tree<A>, key: Key, val: Val, at: A)
    requires Llrb(t)
    ensures var r := NodePut(t, key, val, at);
      && BlackHeight(r) == BlackHeight(t) && AlmostLlrb(r)
      && (IsRed(t) ==> r.red) && (!IsRed(t) ==> Llrb(r))
  {
    if t.Node? {
      if key < t.key {
        NodePutShape(t.left, key, val, at);
        FixUpShape(t.(left := NodePut(t.left, key, val, at)));
      } else if key > t.key {
        NodePutShape(t.right, key, val, at);
        FixUpShape(t.(right := NodePut(t.right, key, val, at)));
      } else {
        FixUpShape(t.(val := val));
      }
    }
  }

  // ---------- sizes ----------

  /** Sizes are exact below the root; the root's own size may be stale. */
  predicate SizedBelow<A>(h: Tree<A>) {
    h.Node? && Sized(h.left) && Sized(h.right)
  }

  lemma LeanAndSplitSized<A>(h: Tree<A>)
    requires SizedBelow(h)
    ensures Sized(LeanAndSplit(h))
  {
    var h1 := if IsRed(h.left) && IsRed(h.left.left) then RotateRight(h) else h;
    assert SizedBelow(h1);
    assert IsRed(h1.left) && IsRed(h1.right) ==> SizedBelow(FlipColors(h1));
  }

  lemma MoveRedSized<A>(h: Tree<A>)
    requires SizedBelow(h) && h.left.Node? && h.right.Node?
    ensures SizedBelow(MoveRedLeft(h)) && SizedBelow(MoveRedRight(h))
  {
    var f := FlipColors(h);
    assert Sized(f.left) && Sized(f.right);
    if IsRed(f.right.left) {
      var g := f.(right := RotateRight(f.right));
      assert Sized(g.right);
      assert SizedBelow(RotateLeft(g));
    }
    if IsRed(f.left.left) {
      assert SizedBelow(RotateRight(f));
    }
  }

  lemma {:induction false} NodePutSized<A>(t: Tree<A>, key: Key, val: Val, at: A)
    requires Sized(t)
    ensures Sized(NodePut(t, key, val, at))
  {
    if t.Node? {
      var h := t.(val := val);
      if key < t.key {
        NodePutSized(t.left, key, val, at);
        h := t.(left := NodePut(t.left, key, val, at));
      } else if key > t.key {
        NodePutSized(t.right, key, val, at);
        h := t.(right := NodePut(t.right, key, val, at));
      }
      LeanAndSplitSized(if IsRed(h.right) && !IsRed(h.left) then RotateLeft(h) else h);
    }
  }

  lemma BalanceSized<A>(h: Tree<A>)
    requires SizedBelow(h)
    ensures Sized(Balance(h))
  {
    LeanAndSplitSized(if IsRed(h.right) then RotateLeft(h) else h);
  }

  lemma {:induction false} NodeDeleteMinSized<A>(t: Tree<A>)
    requires RedAtHand(t) && (t.Node? ==> SizedBelow(t))
    ensures Sized(NodeDeleteMin(t))
    decreases Count(t)
  {
    if t.Node? && t.left.Node? {
      var h := t;
      if !IsRed(t.left) && !IsRed(t.left.left) {
        MoveRedLeftShape(t);
        MoveRedSized(t);
        h := MoveRedLeft(t);
      }
      NodeDeleteMinSized(h.left);
      BalanceSized(h.(left := NodeDeleteMin(h.left)));
    }
  }

  lemma {:induction false} NodeDeleteSized<A>(t: Tree<A>, key: Key)
    requires RedAtHand(t) || RightHeavy(t, key)
    requires Ordered(t) && key in Model(t) && SizedBelow(t)
    ensures Sized(NodeDelete(t, key))
    decreases Count(t), 1
  {
    if key < t.key {
      var h := t;
      if !IsRed(t.left) && !IsRed(t.left.left) {
        MoveRedLeftShape(t);
        MoveRedLeftModel(t);
        MoveRedSized(t);
        h := MoveRedLeft(t);
      }
      NodeDeleteSized(h.left, key);
      BalanceSized(h.(left := NodeDelete(h.left, key)));
    } else if IsRed(t.left) {
      RotateRightShape(t, key);
      RotateRightModel(t);
      DeleteAtOrRightSized(RotateRight(t), key);
    } else {
      DeleteAtOrRightSized(t, key);
    }
  }

  lemma {:induction false} DeleteAtOrRightSized<A>(h: Tree<A>, key: Key)
    requires (Llrb(h) && IsRed(h)) || RightHeavy(h, key)
    requires Ordered(h) && key in Model(h) && h.key <= key && SizedBelow(h)
    ensures Sized(DeleteAtOrRight(h, key))
    decreases Count(h), 0
  {
    if !(key == h.key && h.right.Leaf?) {
      var m := h;
      if !IsRed(h.right) && !IsRed(h.right.left) {
        MoveRedRightShape(h, key);
        MoveRedRightModel(h);
        MoveRedSized(h);
        m := MoveRedRight(h);
      }
      if key == m.key {
        NodeDeleteMinSized(m.right);
      } else {
        NodeDeleteSized(m.right, key);
      }
      BalanceSized(RemoveRight(m, key));
    }
  }

  /** The root's size field is the number of keys. */
  lemma {:induction false} SizeIsCardinality<A>(t: Tree<A>)
    requires Ordered(t)
    ensures Count(t) == |Model(t)|
    ensures Sized(t) ==> SizeOf(t) == |Model(t)|
  {
    if t.Node? {
      SizeIsCardinality(t.left);
      SizeIsCardinality(t.right);
      JoinCardinality(Model(t.left), t.key, t.val, Model(t.right));
    }
  }

  lemma JoinCardinality(l: Pairs, k: Key, v: Val, r: Pairs)
    requires Below(l, k) && Above(r, k)
    ensures |Join(l, k, v, r)| == |l| + 1 + |r|
  {
    var ks := l.Keys + r.Keys;
    assert l.Keys !! r.Keys && k !in ks;
    assert |ks| == |l.Keys| + |r.Keys|;
    assert Join(l, k, v, r).Keys == ks + {k};
  }

  // ---------- depth ----------

  function Depth<A>(t: Tree<A>): nat {
    if t.Leaf? then 0
    else 1 + (if Depth(t.left) < Depth(t.right) then Depth(t.right) else Depth(t.left))
  }

  lemma {:induction false} DepthByBlackHeight<A>(t: Tree<A>)
    requires Llrb(t)
    ensures Depth(t) <= 2 * BlackHeight(t) + (if IsRed(t) then 1 else 0)
    ensures Pow2(BlackHeight(t)) <= Count(t) + 1
  {
    if t.Node? {
      DepthByBlackHeight(t.left);
      DepthByBlackHeight(t.right);
    }
  }

  /** Half of a depth, rounded up. */
  function HalfUp(d: nat): nat {
    (d + 1) / 2
  }

  lemma DepthWithin(depth: nat, b: nat, n: nat, k: nat)
    requires depth <= 2 * b && Pow2(b) <= n + 1 && n < Pow2(k)
    ensures depth <= 2 * k
  {
    if b > k {
      Pow2Monotone(k, b);
    }
  }

  const RBT_MAX_DEPTH := 70
  lemma TwoTo35()
    ensures Pow2(35) == TWO_TO_35
  {
    assert Pow2(12) == 0x1000;
    assert Pow2(24) == 0x100_0000;
  }

  /** Depth is at most twice the whole part of log2(n + 1). */
  lemma DepthBound<A>(t: Tree<A>)
    requires WellFormed(t)
    ensures Pow2(HalfUp(Depth(t))) <= |Model(t)| + 1
  {
    SizeIsCardinality(t);
    DepthByBlackHeight(t);
    Pow2Monotone(HalfUp(Depth(t)), BlackHeight(t));
  }

  /** So fewer than 2^35 keys stay within the declared depth limit. */
  lemma DepthLimit<A>(t: Tree<A>)
    requires WellFormed(t) && |Model(t)| < TWO_TO_35
    ensures Depth(t) <= RBT_MAX_DEPTH
  {
    SizeIsCardinality(t);
    DepthByBlackHeight(t);
    TwoTo35();
    DepthWithin(Depth(t), BlackHeight(t), |Model(t)|, 35);
  }

  // ---------- the three public updates ----------

  function RedIfBlackChildren<A>(t: Tree<A>): Tree<A>
    requires t.Node?
  {
    if !IsRed(t.left) && !IsRed(t.right) then t.(red := true) else t
  }

  lemma RedIfBlackChildrenReady<A>(t: Tree<A>)
    requires WellFormed(t) && t.Node?
    ensures var h := RedIfBlackChildren(t); RedAtHand(h) && Ordered(h) && Model(h) == Model(t) && SizedBelow(h)
  {
  }

  function Delete<A>(t: Tree<A>, key: Key): Tree<A>
    requires WellFormed(t)
  {
    if Get(t, key).None? then t
    else
      RedIfBlackChildrenReady(t); GetAgrees(t, key);
      Blacken(NodeDelete(RedIfBlackChildren(t), key))
  }

  function DeleteMin<A>(t: Tree<A>): Tree<A>
    requires WellFormed(t)
  {
    if t.Leaf? then t
    else
      RedIfBlackChildrenReady(t);
      Blacken(NodeDeleteMin(RedIfBlackChildren(t)))
  }

  lemma BlackenWellFormed<A>(t: Tree<A>)
    requires Ordered(t) && Sized(t) && (Llrb(t) || AlmostLlrb(t))
    ensures WellFormed(Blacken(t)) && Model(Blacken(t)) == Model(t)
  {
  }

  lemma PutCorrect<A>(t: Tree<A>, key: Key, val: Val, at: A)
    requires WellFormed(t)
    ensures WellFormed(Put(t, key, val, at))
    ensures Model(Put(t, key, val, at)) == Model(t)[key := val]
  {
    NodePutModel(t, key, val, at);
    NodePutShape(t, key, val, at);
    NodePutSized(t, key, val, at);
    BlackenWellFormed(NodePut(t, key, val, at));
  }

  lemma DeleteCorrect<A>(t: Tree<A>, key: Key)
    requires WellFormed(t)
    ensures WellFormed(Delete(t, key))
    ensures Model(Delete(t, key)) == Model(t) - {key}
  {
    GetAgrees(t, key);
    if key in Model(t) {
      RedIfBlackChildrenReady(t);
      var h := RedIfBlackChildren(t);
      NodeDeleteModel(h, key);
      NodeDeleteSized(h, key);
      BlackenWellFormed(NodeDelete(h, key));
    }
  }

  lemma DeleteMinCorrect<A>(t: Tree<A>)
    requires WellFormed(t)
    ensures WellFormed(DeleteMin(t))
    ensures t.Node? ==> Min(t).key in Model(t) && (forall x :: x in Model(t) ==> Min(t).key <= x)
    ensures Model(DeleteMin(t)) == if t.Leaf? then map[] else Model(t) - {Min(t).key}
  {
    if t.Node? {
      MinIsLeast(t);
      RedIfBlackChildrenReady(t);
      var h := RedIfBlackChildren(t);
      MinIsLeast(h);
      NodeDeleteMinModel(h);
      NodeDeleteMinSized(h);
      BlackenWellFormed(NodeDeleteMin(h));
    }
  }

  // ---------- every run ----------

  datatype Op<A> = OpPut(key: Key, val: Val, at: A) | OpDelete(key: Key) | OpDeleteMin

  /** The tree after a run of operations from an empty tree. */
  function Run<A>(ops: seq<Op<A>>): (t: Tree<A>)
    ensures WellFormed(t)
  {
    if ops == [] then Leaf
    else
      var t := Run(ops[..|ops| - 1]);
      match ops[|ops| - 1]
      case OpPut(k, v, at) => PutCorrect(t, k, v, at); Put(t, k, v, at)
      case OpDelete(k) => DeleteCorrect(t, k); Delete(t, k)
      case OpDeleteMin => DeleteMinCorrect(t); DeleteMin(t)
  }

  ghost predicate IsLeast(k: Key, m: Pairs) {
    k in m && forall x :: x in m ==> k <= x
  }

  /** The same run on a plain map. */
  ghost function RunMap<A>(ops: seq<Op<A>>): Pairs {
    if ops == [] then map[]
    else
      var m := RunMap(ops[..|ops| - 1]);
      match ops[|ops| - 1]
      case OpPut(k, v, _) => m[k := v]
      case OpDelete(k) => m - {k}
      case OpDeleteMin => map k | k in m && !IsLeast(k, m) :: m[k]
  }

  /** What a caller can observe of tree t is what the plain map m says. */
  ghost predicate Observes<A>(t: Tree<A>, m: Pairs, key: Key) {
    && Get(t, key) == (if key in m then Some(m[key]) else None)
    && SizeOf(t) == |m|
    && (t.Leaf? <==> m == map[])
    && (t.Node? ==> IsLeast(Min(t).key, m) && m[Min(t).key] == Min(t).val)
    && Pow2(HalfUp(Depth(t))) <= |m| + 1
    && (|m| < TWO_TO_35 ==> Depth(t) <= RBT_MAX_DEPTH)
  }

  lemma WellFormedObserves<A>(t: Tree<A>, key: Key)
    requires WellFormed(t)
    ensures Observes(t, Model(t), key)
  {
    GetAgrees(t, key);
    SizeIsCardinality(t);
    DepthBound(t);
    if |Model(t)| < TWO_TO_35 {
      DepthLimit(t);
    }
    if t.Node? {
      MinIsLeast(t);
    }
  }

  /** Over every run the tree is the plain map: contents, lookup, minimum, size, depth. */
  lemma RunAgrees<A>(ops: seq<Op<A>>, key: Key)
    ensures Model(Run(ops)) == RunMap(ops)
    ensures Observes(Run(ops), RunMap(ops), key)
  {
    RunModel(ops);
    WellFormedObserves(Run(ops), key);
  }

  lemma {:induction false} RunModel<A>(ops: seq<Op<A>>)
    ensures Model(Run(ops)) == RunMap(ops)
  {
    if ops != [] {
      var t := Run(ops[..|ops| - 1]);
      RunModel(ops[..|ops| - 1]);
      match ops[|ops| - 1]
      case OpPut(k, v, at) => PutCorrect(t, k, v, at);
      case OpDelete(k) => DeleteCorrect(t, k);
      case OpDeleteMin => DeleteMinCorrect(t);
    }
  }
}
