/**
 The splay tree of picosplay.c, as values.

 A tree with a focus is a zipper: the subtree in focus and the context around it, from
 the focus up to the root.  Rotate, Step and Splay compute what the pointer loop leaves
 behind.  The results: the in-order sequence never changes, the splayed node ends at the
 root, and every node on the access path ends at about half its old depth, which is what
 rotating p before x in the zig-zig case is for.
 */
module SplayModel {

  datatype Tree<A> = Leaf | Bin(l: Tree<A>, at: A, r: Tree<A>)

  /** The way up from a subtree: it is the left (or right) child of p, whose other
      subtree is given, and so on to the top. */
  datatype Ctx<A> =
    | Top
    | InLeft(up: Ctx<A>, p: A, sibling: Tree<A>)
    | InRight(up: Ctx<A>, p: A, sibling: Tree<A>)

  datatype Zipper<A> = Zipper(c: Ctx<A>, t: Tree<A>)

  function Inorder<A>(t: Tree<A>): seq<A> {
    if t.Leaf? then [] else Inorder(t.l) + [t.at] + Inorder(t.r)
  }

  function Before<A>(c: Ctx<A>): seq<A> {
    match c
    case Top => []
    case InLeft(up, _, _) => Before(up)
    case InRight(up, p, l) => Before(up) + Inorder(l) + [p]
  }

  function After<A>(c: Ctx<A>): seq<A> {
    match c
    case Top => []
    case InLeft(up, p, r) => [p] + Inorder(r) + After(up)
    case InRight(up, _, _) => After(up)
  }

  /** The in-order sequence of the whole tree, read off a zipper. */
  function Sequence<A>(z: Zipper<A>): seq<A> {
    Before(z.c) + Inorder(z.t) + After(z.c)
  }

  function Up<A>(z: Zipper<A>): Zipper<A>
    requires !z.c.Top?
  {
    match z.c
    case InLeft(up, p, r) => Zipper(up, Bin(z.t, p, r))
    case InRight(up, p, l) => Zipper(up, Bin(l, p, z.t))
  }

  /** The whole tree. */
  function Plug<A>(z: Zipper<A>): Tree<A>
    decreases z.c
  {
    if z.c.Top? then z.t else Plug(Up(z))
  }

  lemma {:induction false} PlugSequence<A>(z: Zipper<A>)
    ensures Inorder(Plug(z)) == Sequence(z)
    decreases z.c
  {
    if !z.c.Top? {
      PlugSequence(Up(z));
      UpSequence(z);
    } else {
      assert Sequence(z) == Inorder(z.t);
    }
  }

  lemma UpSequence<A>(z: Zipper<A>)
    requires !z.c.Top?
    ensures Sequence(Up(z)) == Sequence(z)
  {
    var u := Up(z).t;
    assert Inorder(u) == Inorder(u.l) + [u.at] + Inorder(u.r);
    match z.c
    case InLeft(up, p, r) =>
      assert Sequence(z) == Before(up) + Inorder(z.t) + ([p] + Inorder(r) + After(up));
    case InRight(up, p, l) =>
      assert Sequence(z) == (Before(up) + Inorder(l) + [p]) + Inorder(z.t) + After(up);
  }

  lemma SequenceAtFocus<A>(z: Zipper<A>)
    ensures z.t.Leaf? ==> Sequence(z) == Before(z.c) + After(z.c)
    ensures z.t.Bin? ==>
      Sequence(z) == (Before(z.c) + Inorder(z.t.l)) + [z.t.at] + (Inorder(z.t.r) + After(z.c))
  {
    if z.t.Bin? {
      var a, b, c, d := Before(z.c), Inorder(z.t.l), Inorder(z.t.r), After(z.c);
      assert a + (b + [z.t.at] + c) + d == (a + b) + [z.t.at] + (c + d);
    }
  }

  // ---------- rotation and splaying ----------

  /** Rotate the focus above its parent. */
  function Rotate<A>(z: Zipper<A>): (r: Zipper<A>)
    requires !z.c.Top? && z.t.Bin?
    ensures r.c == z.c.up && r.t.Bin? && r.t.at == z.t.at
  {
    match z.c
    case InLeft(up, p, r) => Zipper(up, Bin(z.t.l, z.t.at, Bin(z.t.r, p, r)))
    case InRight(up, p, l) => Zipper(up, Bin(Bin(l, p, z.t.l), z.t.at, z.t.r))
  }

  lemma RotateSequence<A>(z: Zipper<A>)
    requires !z.c.Top? && z.t.Bin?
    ensures Sequence(Rotate(z)) == Sequence(z)
  {
    UpSequence(z);
    match z.c
    case InLeft(up, p, s) => RotateInorder(z.t.l, z.t.at, z.t.r, p, s);
    case InRight(up, p, s) => RotateInorder(s, p, z.t.l, z.t.at, z.t.r);
  }

  lemma RotateInorder<A>(a: Tree<A>, x: A, b: Tree<A>, p: A, c: Tree<A>)
    ensures Inorder(Bin(a, x, Bin(b, p, c))) == Inorder(Bin(Bin(a, x, b), p, c))
  {
    var i, j, k := Inorder(a), Inorder(b), Inorder(c);
    assert i + [x] + (j + [p] + k) == (i + [x] + j) + [p] + k;
  }

  /** Rotate the parent above the grandparent, keeping the focus where it is. */
  function RotateParent<A>(z: Zipper<A>): (r: Zipper<A>)
    requires !z.c.Top? && !z.c.up.Top? && z.t.Bin?
    requires z.c.InLeft? == z.c.up.InLeft?
    ensures !r.c.Top? && r.c.up == z.c.up.up && r.t == z.t
  {
    var g := z.c.up;
    if z.c.InLeft?
    then Zipper(InLeft(g.up, z.c.p, Bin(z.c.sibling, g.p, g.sibling)), z.t)
    else Zipper(InRight(g.up, z.c.p, Bin(g.sibling, g.p, z.c.sibling)), z.t)
  }

  /** RotateParent is Rotate one level up. */
  lemma RotateParentIsRotate<A>(z: Zipper<A>)
    requires !z.c.Top? && !z.c.up.Top? && z.t.Bin?
    requires z.c.InLeft? == z.c.up.InLeft?
    ensures Up(RotateParent(z)) == Rotate(Up(z))
  {
  }

  /** One round of the splay loop. */
  function Step<A>(z: Zipper<A>): (r: Zipper<A>)
    requires !z.c.Top? && z.t.Bin?
    ensures r.t.Bin? && r.t.at == z.t.at
    ensures r.c == if z.c.up.Top? then Top else z.c.up.up
  {
    if z.c.up.Top? then Rotate(z)
    else if z.c.InLeft? == z.c.up.InLeft? then Rotate(RotateParent(z))
    else Rotate(Rotate(z))
  }

  lemma StepSequence<A>(z: Zipper<A>)
    requires !z.c.Top? && z.t.Bin?
    ensures Sequence(Step(z)) == Sequence(z)
  {
    if z.c.up.Top? {
      RotateSequence(z);
    } else if z.c.InLeft? == z.c.up.InLeft? {
      UpSequence(z);
      RotateParentIsRotate(z);
      RotateSequence(Up(z));
      UpSequence(RotateParent(z));
      RotateSequence(RotateParent(z));
    } else {
      RotateSequence(z);
      RotateSequence(Rotate(z));
    }
  }

  /** The whole tree after splaying the focus. */
  function Splay<A>(z: Zipper<A>): (t: Tree<A>)
    requires z.t.Bin?
    ensures t.Bin? && t.at == z.t.at
    decreases z.c
  {
    if z.c.Top? then z.t else Splay(Step(z))
  }

  lemma {:induction false} SplaySequence<A>(z: Zipper<A>)
    requires z.t.Bin?
    ensures Inorder(Splay(z)) == Sequence(z)
    decreases z.c
  {
    if z.c.Top? {
      assert Sequence(z) == Inorder(z.t);
    } else {
      StepSequence(z);
      SplaySequence(Step(z));
    }
  }

  // ---------- the access path is halved ----------

  function Labels<A>(t: Tree<A>): set<A> {
    if t.Leaf? then {} else Labels(t.l) + {t.at} + Labels(t.r)
  }

  /** Every entry of t that is y lies at depth at most d. */
  predicate Within<A(==)>(t: Tree<A>, y: A, d: int) {
    t.Bin? ==> (t.at == y ==> d >= 0) && Within(t.l, y, d - 1) && Within(t.r, y, d - 1)
  }

  function Length<A>(c: Ctx<A>): nat {
    if c.Top? then 0 else 1 + Length(c.up)
  }

  /** Rounds the splay loop still needs. */
  function Rounds<A>(c: Ctx<A>): nat {
    (Length(c) + 1) / 2
  }

  lemma {:induction false} WithinMonotone<A>(t: Tree<A>, y: A, d: int, e: int)
    requires Within(t, y, d) && d <= e
    ensures Within(t, y, e)
  {
    if t.Bin? {
      WithinMonotone(t.l, y, d - 1, e - 1);
      WithinMonotone(t.r, y, d - 1, e - 1);
    }
  }

  /** No y in t at all. */
  predicate Absent<A(==)>(t: Tree<A>, y: A) {
    t.Bin? ==> t.at != y && Absent(t.l, y) && Absent(t.r, y)
  }

  predicate AbsentAround<A(==)>(c: Ctx<A>, y: A) {
    !c.Top? ==> c.p != y && Absent(c.sibling, y) && AbsentAround(c.up, y)
  }

  lemma {:induction false} AbsentWithin<A>(t: Tree<A>, y: A, d: int)
    requires Absent(t, y)
    ensures Within(t, y, d)
  {
    if t.Bin? {
      AbsentWithin(t.l, y, d - 1);
      AbsentWithin(t.r, y, d - 1);
    }
  }

  /** What is already in focus sinks by at most one level a round. */
  lemma StepSinks<A>(z: Zipper<A>, y: A, d: nat)
    requires !z.c.Top? && z.t.Bin? && Within(z.t, y, d) && AbsentAround(z.c, y)
    ensures Within(Step(z).t, y, d + 1) && AbsentAround(Step(z).c, y)
  {
    var t := z.t;
    WithinMonotone(t.l, y, d - 1, d);
    WithinMonotone(t.r, y, d - 1, d);
    AbsentWithin(z.c.sibling, y, d - 1);
    AbsentWithin(z.c.sibling, y, d - 2);
    if !z.c.up.Top? {
      AbsentWithin(z.c.up.sibling, y, d - 1);
      AbsentWithin(z.c.up.sibling, y, d - 2);
    }
  }

  lemma RoundsStep<A>(z: Zipper<A>)
    requires !z.c.Top? && z.t.Bin?
    ensures Rounds(z.c) == Rounds(Step(z).c) + 1
  {
    assert Length(z.c) == 1 + Length(z.c.up);
    if !z.c.up.Top? {
      assert Length(z.c.up) == 1 + Length(z.c.up.up);
    }
  }

  lemma {:induction false} SplaySinks<A>(z: Zipper<A>, y: A, d: nat)
    requires z.t.Bin? && Within(z.t, y, d) && AbsentAround(z.c, y)
    ensures Within(Splay(z), y, d + Rounds(z.c))
    decreases z.c
  {
    if !z.c.Top? {
      StepSinks(z, y, d);
      SplaySinks(Step(z), y, d + 1);
      RoundsStep(z);
    }
  }

  /** y occurs once, on the access path, at depth d from the root. */
  predicate OnPath<A(==)>(c: Ctx<A>, y: A, d: nat) {
    !c.Top? && Absent(c.sibling, y) &&
    if c.p == y then Length(c.up) == d && AbsentAround(c.up, y) else OnPath(c.up, y, d)
  }

  /** A round either leaves y on the path above, or takes it in at depth 2 or less. */
  lemma StepMeets<A>(z: Zipper<A>, y: A, d: nat)
    requires !z.c.Top? && z.t.Bin? && Absent(z.t, y) && OnPath(z.c, y, d)
    ensures var z' := Step(z);
      || (Absent(z'.t, y) && OnPath(z'.c, y, d))
      || (Within(z'.t, y, 2) && AbsentAround(z'.c, y) && Rounds(z'.c) <= (d + 1) / 2)
  {
    AbsentWithin(z.t.l, y, 0);
    AbsentWithin(z.t.l, y, 1);
    AbsentWithin(z.t.r, y, 0);
    AbsentWithin(z.t.r, y, 1);
    AbsentWithin(z.c.sibling, y, -1);
    AbsentWithin(z.c.sibling, y, 0);
    var z' := Step(z);
    if z.c.up.Top? {
      assert Within(z'.t.l, y, 1) && Within(z'.t.r, y, 1);
    } else if z.c.p == y || z.c.up.p == y {
      AbsentWithin(z.c.up.sibling, y, -1);
      AbsentWithin(z.c.up.sibling, y, 0);
      assert Within(z'.t.l, y, 1) && Within(z'.t.r, y, 1);
      assert Length(z'.c) <= d;
    } else {
      assert OnPath(z.c.up, y, d);
      assert Absent(z'.t.l, y) && Absent(z'.t.r, y);
    }
  }

  /** Splaying halves the access path: a node at depth d ends at depth at most d/2 + 2. */
  lemma {:induction false} PathHalved<A>(z: Zipper<A>, y: A, d: nat)
    requires z.t.Bin? && Absent(z.t, y) && OnPath(z.c, y, d)
    ensures Within(Splay(z), y, 2 + (d + 1) / 2)
    decreases z.c
  {
    StepMeets(z, y, d);
    var z' := Step(z);
    if Absent(z'.t, y) && OnPath(z'.c, y, d) {
      PathHalved(z', y, d);
    } else {
      SplaySinks(z', y, 2);
      WithinMonotone(Splay(z'), y, 2 + Rounds(z'.c), 2 + (d + 1) / 2);
    }
  }

  // ---------- removing the root ----------

  function First<A>(t: Tree<A>): A
    requires t.Bin?
  {
    if t.l.Leaf? then t.at else First(t.l)
  }

  function RemoveFirst<A>(t: Tree<A>): Tree<A>
    requires t.Bin?
  {
    if t.l.Leaf? then t.r else Bin(RemoveFirst(t.l), t.at, t.r)
  }

  lemma {:induction false} RemoveFirstInorder<A>(t: Tree<A>)
    requires t.Bin?
    ensures Inorder(t) == [First(t)] + Inorder(RemoveFirst(t))
  {
    if t.l.Leaf? {
      assert Inorder(t) == [t.at] + Inorder(t.r);
    } else {
      RemoveFirstInorder(t.l);
      var tail := [t.at] + Inorder(t.r);
      assert Inorder(t) == Inorder(t.l) + tail;
      assert Inorder(RemoveFirst(t)) == Inorder(RemoveFirst(t.l)) + tail;
    }
  }

  /** The tree without its root: the successor of the root takes its place. */
  function DeleteRoot<A>(t: Tree<A>): Tree<A>
    requires t.Bin?
  {
    if t.l.Leaf? then t.r
    else if t.r.Leaf? then t.l
    else Bin(t.l, First(t.r), RemoveFirst(t.r))
  }

  lemma DeleteRootInorder<A>(t: Tree<A>)
    requires t.Bin?
    ensures Inorder(DeleteRoot(t)) == Inorder(t.l) + Inorder(t.r)
  {
    if t.l.Bin? && t.r.Bin? {
      RemoveFirstInorder(t.r);
      assert Inorder(DeleteRoot(t)) == Inorder(t.l) + ([First(t.r)] + Inorder(RemoveFirst(t.r)));
    }
  }
}
