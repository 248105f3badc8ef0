/**
 What splaying costs (picosplay.c).

 Every node of a tree with s nodes below it, itself included, has rank log2(s), rounded down,
 and the potential of a tree is the sum of all ranks.  A round of the splay loop is paid for by
 the potential it frees and three times the rank that the splayed node gains.  So over a run of
 operations from the empty tree, each takes a logarithmic number of rounds on average, however
 the tree may lean in between.
 */
module SplayCost {
  import opened Powers
  import opened SplayModel

  // ---------- logarithms ----------

  /** The largest power of two not above n, from the k-th on. */
  function LogFrom(n: nat, k: nat): nat
    decreases n - Pow2(k)
  {
    if 2 * Pow2(k) <= n then LogFrom(n, k + 1) else k
  }

  /** Rounded down; 0 for 0. */
  function Log2(n: nat): nat {
    LogFrom(n, 0)
  }

  lemma {:induction false} LogFromBounds(n: nat, k: nat)
    requires Pow2(k) <= n
    ensures Pow2(LogFrom(n, k)) <= n < 2 * Pow2(LogFrom(n, k))
    decreases n - Pow2(k)
  {
    if 2 * Pow2(k) <= n {
      LogFromBounds(n, k + 1);
    }
  }

  lemma Log2Bounds(n: nat)
    requires n > 0
    ensures Pow2(Log2(n)) <= n < 2 * Pow2(Log2(n))
  {
    LogFromBounds(n, 0);
  }

  lemma Log2Monotone(a: nat, b: nat)
    requires a <= b
    ensures Log2(a) <= Log2(b)
  {
    if a > 0 {
      Log2Bounds(a);
      Log2Bounds(b);
      if Log2(b) < Log2(a) {
        Pow2Monotone(Log2(b) + 1, Log2(a));
        assert false;
      }
    }
  }

  /** Two parts of a whole are not both of its rank. */
  lemma Log2Parts(a: nat, b: nat, c: nat)
    requires a > 0 && b > 0 && a + b <= c
    ensures Log2(a) + Log2(b) + 1 <= 2 * Log2(c)
  {
    Log2Monotone(a, c);
    Log2Monotone(b, c);
    Log2Bounds(a);
    Log2Bounds(b);
    Log2Bounds(c);
  }

  // ---------- size and potential ----------

  /** The number of nodes of a tree, and its potential. */
  datatype Mass = Mass(n: nat, phi: nat)

  /** Of a node, from those of its subtrees. */
  function Join(a: Mass, b: Mass, rank: nat -> nat): Mass {
    var n := a.n + 1 + b.n;
    Mass(n, rank(n) + a.phi + b.phi)
  }

  function Measure<A>(t: Tree<A>, rank: nat -> nat): Mass {
    if t.Leaf? then Mass(0, 0) else Join(Measure(t.l, rank), Measure(t.r, rank), rank)
  }

  /** Of a whole tree, from that of the focus. */
  function Outer<A>(c: Ctx<A>, m: Mass, rank: nat -> nat): Mass {
    if c.Top? then m else Outer(c.up, Join(m, Measure(c.sibling, rank), rank), rank)
  }

  lemma {:induction false} PlugMeasure<A>(z: Zipper<A>, rank: nat -> nat)
    ensures Measure(Plug(z), rank) == Outer(z.c, Measure(z.t, rank), rank)
    decreases z.c
  {
    if !z.c.Top? {
      PlugMeasure(Up(z), rank);
      JoinSymmetric(Measure(z.t, rank), Measure(z.c.sibling, rank), rank);
    }
  }

  lemma JoinSymmetric(a: Mass, b: Mass, rank: nat -> nat)
    ensures Join(a, b, rank) == Join(b, a, rank)
  {
  }

  /** Only the potential of the focus counts, if its size stays. */
  lemma {:induction false} OuterShift<A>(c: Ctx<A>, m: Mass, m': Mass, rank: nat -> nat)
    requires m.n == m'.n
    ensures Outer(c, m, rank).n == Outer(c, m', rank).n >= m.n
    ensures Outer(c, m', rank).phi - Outer(c, m, rank).phi == m'.phi - m.phi
    decreases c
  {
    if !c.Top? {
      var s := Measure(c.sibling, rank);
      OuterShift(c.up, Join(m, s, rank), Join(m', s, rank), rank);
    }
  }

  // ---------- a round, in sizes and potentials ----------

  ghost predicate DoublePays(p': nat, g': nat, x: nat, p: nat, g: nat, rank: nat -> nat) {
    rank(p') + rank(g') + 1 <= rank(x) + rank(p) + 3 * (rank(g) - rank(x))
  }

  /** x below p below g, all on one side: the old subtree of x and the new one of g are apart. */
  lemma ZigZigPays(p': nat, g': nat, x: nat, p: nat, g: nat)
    requires 0 < x <= p <= g && p' <= g && 0 < g' && x + g' <= g
    ensures DoublePays(p', g', x, p, g, Log2)
  {
    Log2Parts(x, g', g);
    Log2Monotone(x, p);
    Log2Monotone(p', g);
  }

  /** On different sides: p and g become siblings below x. */
  lemma ZigZagPays(p': nat, g': nat, x: nat, p: nat, g: nat)
    requires p' > 0 && g' > 0 && p' + g' <= g && 0 < x <= p <= g
    ensures DoublePays(p', g', x, p, g, Log2)
  {
    Log2Parts(p', g', g);
    Log2Monotone(x, p);
    Log2Monotone(x, g);
  }

  /** The mass that a focus has come to pays for a round. */
  ghost predicate Pays(x: Mass, was: Mass, now: Mass, extra: nat, rank: nat -> nat) {
    now.n == was.n && now.phi + 1 <= was.phi + 3 * (rank(was.n) - rank(x.n)) + extra
  }

  lemma ZigMass(a: Mass, b: Mass, c: Mass)
    ensures var x := Join(a, b, Log2); Pays(x, Join(x, c, Log2), Join(a, Join(b, c, Log2), Log2), 1, Log2)
  {
    Log2Monotone(b.n + 1 + c.n, a.n + 1 + b.n + 1 + c.n);
    Log2Monotone(a.n + 1 + b.n, a.n + 1 + b.n + 1 + c.n);
  }

  lemma ZigZigSum(a: Mass, b: Mass, c: Mass, d: Mass, rank: nat -> nat)
    requires var x := a.n + 1 + b.n; var p := x + 1 + c.n; var g' := c.n + 1 + d.n;
      DoublePays(b.n + 1 + g', g', x, p, p + 1 + d.n, rank)
    ensures var x := Join(a, b, rank);
      Pays(x, Join(Join(x, c, rank), d, rank), Join(a, Join(b, Join(c, d, rank), rank), rank), 0, rank)
  {
    assert a.n + 1 + (b.n + 1 + (c.n + 1 + d.n)) == a.n + 1 + b.n + 1 + c.n + 1 + d.n;
  }

  lemma ZigZagSum(a: Mass, b: Mass, c: Mass, d: Mass, rank: nat -> nat)
    requires var x := a.n + 1 + b.n; var p := x + 1 + c.n;
      DoublePays(b.n + 1 + c.n, a.n + 1 + d.n, x, p, p + 1 + d.n, rank)
    ensures var x := Join(a, b, rank);
      Pays(x, Join(Join(x, c, rank), d, rank), Join(Join(b, c, rank), Join(a, d, rank), rank), 0, rank)
  {
    assert (b.n + 1 + c.n) + 1 + (a.n + 1 + d.n) == a.n + 1 + b.n + 1 + c.n + 1 + d.n;
  }

  lemma ZigZigMass(a: Mass, b: Mass, c: Mass, d: Mass)
    ensures var x := Join(a, b, Log2);
      Pays(x, Join(Join(x, c, Log2), d, Log2), Join(a, Join(b, Join(c, d, Log2), Log2), Log2), 0, Log2)
  {
    var x, g' := a.n + 1 + b.n, c.n + 1 + d.n;
    ZigZigPays(b.n + 1 + g', g', x, x + 1 + c.n, x + 1 + c.n + 1 + d.n);
    ZigZigSum(a, b, c, d, Log2);
  }

  lemma ZigZagMass(a: Mass, b: Mass, c: Mass, d: Mass)
    ensures var x := Join(a, b, Log2);
      Pays(x, Join(Join(x, c, Log2), d, Log2), Join(Join(b, c, Log2), Join(a, d, Log2), Log2), 0, Log2)
  {
    var x := a.n + 1 + b.n;
    ZigZagPays(b.n + 1 + c.n, a.n + 1 + d.n, x, x + 1 + c.n, x + 1 + c.n + 1 + d.n);
    ZigZagSum(a, b, c, d, Log2);
  }

  // ---------- a round ----------

  /** What a round leaves in the focus, from the subtrees of the node on the outside and on the
      inside, and the other subtrees of its parent and grandparent. */
  function Rounded<A>(z: Zipper<A>, rank: nat -> nat): Mass
    requires !z.c.Top? && z.t.Bin?
  {
    var l, r, c := Measure(z.t.l, rank), Measure(z.t.r, rank), Measure(z.c.sibling, rank);
    var a, b := if z.c.InLeft? then l else r, if z.c.InLeft? then r else l;
    if z.c.up.Top? then Join(a, Join(b, c, rank), rank)
    else
      var d := Measure(z.c.up.sibling, rank);
      if z.c.InLeft? == z.c.up.InLeft? then Join(a, Join(b, Join(c, d, rank), rank), rank)
      else Join(Join(b, c, rank), Join(a, d, rank), rank)
  }

  lemma BinMeasure<A>(l: Tree<A>, at: A, r: Tree<A>, rank: nat -> nat)
    ensures Measure(Bin(l, at, r), rank) ==
      Join(Measure(l, rank), Measure(r, rank), rank) == Join(Measure(r, rank), Measure(l, rank), rank)
  {
  }

  lemma ZigMeasure<A>(z: Zipper<A>, rank: nat -> nat)
    requires !z.c.Top? && z.t.Bin? && z.c.up.Top?
    ensures Measure(Step(z).t, rank) == Rounded(z, rank)
  {
    var t, p, c := z.t, z.c.p, z.c.sibling;
    if z.c.InLeft? {
      BinMeasure(t.r, p, c, rank);
      BinMeasure(t.l, t.at, Bin(t.r, p, c), rank);
    } else {
      BinMeasure(c, p, t.l, rank);
      BinMeasure(Bin(c, p, t.l), t.at, t.r, rank);
    }
  }

  lemma ZigZigMeasure<A>(z: Zipper<A>, rank: nat -> nat)
    requires !z.c.Top? && z.t.Bin? && !z.c.up.Top? && z.c.InLeft? == z.c.up.InLeft?
    ensures Measure(Step(z).t, rank) == Rounded(z, rank)
  {
    var t, p, c, g, d := z.t, z.c.p, z.c.sibling, z.c.up.p, z.c.up.sibling;
    if z.c.InLeft? {
      BinMeasure(c, g, d, rank);
      BinMeasure(t.r, p, Bin(c, g, d), rank);
      BinMeasure(t.l, t.at, Bin(t.r, p, Bin(c, g, d)), rank);
    } else {
      BinMeasure(d, g, c, rank);
      BinMeasure(Bin(d, g, c), p, t.l, rank);
      BinMeasure(Bin(Bin(d, g, c), p, t.l), t.at, t.r, rank);
    }
  }

  lemma ZigZagMeasure<A>(z: Zipper<A>, rank: nat -> nat)
    requires !z.c.Top? && z.t.Bin? && !z.c.up.Top? && z.c.InLeft? != z.c.up.InLeft?
    ensures Measure(Step(z).t, rank) == Rounded(z, rank)
  {
    var t, p, c, g, d := z.t, z.c.p, z.c.sibling, z.c.up.p, z.c.up.sibling;
    if z.c.InLeft? {
      BinMeasure(d, g, t.l, rank);
      BinMeasure(t.r, p, c, rank);
      BinMeasure(Bin(d, g, t.l), t.at, Bin(t.r, p, c), rank);
    } else {
      BinMeasure(t.r, g, d, rank);
      BinMeasure(c, p, t.l, rank);
      BinMeasure(Bin(c, p, t.l), t.at, Bin(t.r, g, d), rank);
    }
  }

  /** What the focus and the parents on its way have together before the round. */
  function Gathered<A>(z: Zipper<A>, rank: nat -> nat): Mass
    requires !z.c.Top?
  {
    var m := Join(Measure(z.t, rank), Measure(z.c.sibling, rank), rank);
    if z.c.up.Top? then m else Join(m, Measure(z.c.up.sibling, rank), rank)
  }

  lemma OuterGathered<A>(z: Zipper<A>, rank: nat -> nat)
    requires !z.c.Top? && z.t.Bin?
    ensures Outer(z.c, Measure(z.t, rank), rank) == Outer(Step(z).c, Gathered(z, rank), rank)
  {
  }

  lemma RoundPays<A>(z: Zipper<A>)
    requires !z.c.Top? && z.t.Bin?
    ensures Measure(Step(z).t, Log2) == Rounded(z, Log2)
    ensures Pays(Measure(z.t, Log2), Gathered(z, Log2), Rounded(z, Log2), if z.c.up.Top? then 1 else 0, Log2)
  {
    var l, r, c := Measure(z.t.l, Log2), Measure(z.t.r, Log2), Measure(z.c.sibling, Log2);
    var a, b := if z.c.InLeft? then l else r, if z.c.InLeft? then r else l;
    BinMeasure(z.t.l, z.t.at, z.t.r, Log2);
    if z.c.up.Top? {
      ZigMeasure(z, Log2);
      ZigMass(a, b, c);
    } else if z.c.InLeft? == z.c.up.InLeft? {
      ZigZigMeasure(z, Log2);
      ZigZigMass(a, b, c, Measure(z.c.up.sibling, Log2));
    } else {
      ZigZagMeasure(z, Log2);
      ZigZagMass(a, b, c, Measure(z.c.up.sibling, Log2));
    }
  }

  // ---------- a splay ----------

  lemma Parity<A>(z: Zipper<A>)
    requires !z.c.Top? && z.t.Bin?
    ensures Length(z.c) % 2 == (Length(Step(z).c) + if z.c.up.Top? then 1 else 0) % 2
    ensures z.c.up.Top? ==> Length(z.c) == 1 && Length(Step(z).c) == 0
  {
    assert Length(z.c) == 1 + Length(z.c.up);
    if !z.c.up.Top? {
      assert Length(z.c.up) == 1 + Length(z.c.up.up);
    }
  }

  /** The whole tree with the focus of a zipper, and the focus alone. */
  function All<A>(z: Zipper<A>): Mass {
    Outer(z.c, Measure(z.t, Log2), Log2)
  }

  lemma StepPays<A>(z: Zipper<A>)
    requires !z.c.Top? && z.t.Bin?
    ensures var r := Step(z);
      && All(r).n == All(z).n
      && All(r).phi + 1 <= All(z).phi + 3 * (Log2(Measure(r.t, Log2).n) - Log2(Measure(z.t, Log2).n)) +
         if z.c.up.Top? then 1 else 0
  {
    RoundPays(z);
    OuterGathered(z, Log2);
    OuterShift(Step(z).c, Gathered(z, Log2), Rounded(z, Log2), Log2);
  }

  /** A splay takes at most as many rounds as the potential it frees, three times the rank that the
      node gains, and one. */
  ghost predicate SplayPaid(rounds: nat, end: Mass, whole: Mass, focus: Mass, odd: nat) {
    end.n == whole.n && rounds + end.phi <= whole.phi + 3 * (Log2(whole.n) - Log2(focus.n)) + odd
  }

  lemma OneRoundMore(rounds: nat, end: Mass, whole: Mass, whole': Mass, focus: Mass, focus': Mass, odd: nat, odd': nat,
                     extra: nat)
    requires SplayPaid(rounds, end, whole', focus', odd') && whole'.n == whole.n && odd == odd' + extra
    requires whole'.phi + 1 <= whole.phi + 3 * (Log2(focus'.n) - Log2(focus.n)) + extra
    ensures SplayPaid(rounds + 1, end, whole, focus, odd)
  {
  }

  lemma {:induction false} SplayPays<A>(z: Zipper<A>)
    requires z.t.Bin?
    ensures SplayPaid(Rounds(z.c), Measure(Splay(z), Log2), All(z), Measure(z.t, Log2), Length(z.c) % 2)
    decreases z.c
  {
    if !z.c.Top? {
      var r := Step(z);
      StepPays(z);
      RoundsStep(z);
      Parity(z);
      SplayPays(r);
      OneRoundMore(Rounds(r.c), Measure(Splay(z), Log2), All(z), All(r), Measure(z.t, Log2), Measure(r.t, Log2),
                   Length(z.c) % 2, Length(r.c) % 2, if z.c.up.Top? then 1 else 0);
    }
  }

  // ---------- operations ----------

  /** An operation on a tree: splay a node, link a new node in and splay it, or splay a node and
      delete it. */
  datatype Op<A> = Touch(z: Zipper<A>) | Insert(c: Ctx<A>, x: A) | Delete(z: Zipper<A>)

  ghost predicate Applies<A>(t: Tree<A>, op: Op<A>, t': Tree<A>) {
    match op
    case Touch(z) => z.t.Bin? && Plug(z) == t && t' == Splay(z)
    case Insert(c, x) => Plug(Zipper(c, Leaf)) == t && t' == Splay(Zipper(c, Bin(Leaf, x, Leaf)))
    case Delete(z) => z.t.Bin? && Plug(z) == t && t' == DeleteRoot(Splay(z))
  }

  /** The rounds of its splay loop. */
  function Cost<A>(op: Op<A>): nat {
    match op
    case Touch(z) => Rounds(z.c)
    case Insert(c, _) => Rounds(c)
    case Delete(z) => Rounds(z.c)
  }

  function Size<A>(t: Tree<A>): nat {
    Measure(t, Log2).n
  }

  function Phi<A>(t: Tree<A>): nat {
    Measure(t, Log2).phi
  }

  /** A new node raises the ranks along its path by a logarithm altogether, since the sizes there
      are all different. */
  lemma {:induction false} OuterGrows<A>(c: Ctx<A>, m: Mass, m': Mass)
    requires m'.n == m.n + 1
    ensures var w, w' := Outer(c, m, Log2), Outer(c, m', Log2);
      w'.n == w.n + 1 >= m'.n && w'.phi + m.phi + Log2(m'.n) <= w.phi + m'.phi + Log2(w'.n)
    decreases c
  {
    if !c.Top? {
      var s := Measure(c.sibling, Log2);
      var j, j' := Join(m, s, Log2), Join(m', s, Log2);
      OuterGrows(c.up, j, j');
      Log2Monotone(m'.n, j.n);
      assert j.phi == Log2(j.n) + m.phi + s.phi && j'.phi == Log2(j'.n) + m'.phi + s.phi;
    }
  }

  /** A node less below it does not raise the rank of a node. */
  lemma JoinFrees(a: Mass, a': Mass, b: Mass, b': Mass)
    requires a'.n <= a.n && b'.n <= b.n && a'.phi <= a.phi && b'.phi <= b.phi
    ensures Join(a', b', Log2).phi <= Join(a, b, Log2).phi
  {
    Log2Monotone(a'.n + 1 + b'.n, a.n + 1 + b.n);
  }

  lemma {:induction false} RemoveFirstFrees<A>(t: Tree<A>)
    requires t.Bin?
    ensures Size(RemoveFirst(t)) + 1 == Size(t) && Phi(RemoveFirst(t)) <= Phi(t)
  {
    BinMeasure(t.l, t.at, t.r, Log2);
    if t.l.Bin? {
      RemoveFirstFrees(t.l);
      JoinFrees(Measure(t.l, Log2), Measure(RemoveFirst(t.l), Log2), Measure(t.r, Log2), Measure(t.r, Log2));
    }
  }

  lemma DeleteRootFrees<A>(t: Tree<A>)
    requires t.Bin?
    ensures Size(DeleteRoot(t)) + 1 == Size(t) && Phi(DeleteRoot(t)) <= Phi(t)
  {
    BinMeasure(t.l, t.at, t.r, Log2);
    if t.l.Bin? && t.r.Bin? {
      RemoveFirstFrees(t.r);
      JoinFrees(Measure(t.l, Log2), Measure(t.l, Log2), Measure(t.r, Log2), Measure(RemoveFirst(t.r), Log2));
    }
  }

  lemma SplayWithin<A>(z: Zipper<A>, n: nat)
    requires z.t.Bin? && All(z).n <= n
    ensures Rounds(z.c) + Phi(Splay(z)) <= All(z).phi + 3 * Log2(n) + 1
  {
    SplayPays(z);
    Log2Monotone(All(z).n, n);
  }

  lemma TouchPays<A>(z: Zipper<A>, n: nat)
    requires z.t.Bin? && Size(Plug(z)) <= n
    ensures Rounds(z.c) + Phi(Splay(z)) <= Phi(Plug(z)) + 3 * Log2(n) + 1
  {
    PlugMeasure(z, Log2);
    SplayWithin(z, n);
  }

  /** The new node alone has rank 0. */
  lemma Planted<A>(c: Ctx<A>, x: A, n: nat)
    requires All(Zipper(c, Bin(Leaf, x, Leaf))).n <= n
    ensures All(Zipper(c, Bin(Leaf, x, Leaf))).phi <= Phi(Plug(Zipper(c, Leaf))) + Log2(n)
  {
    PlugMeasure(Zipper(c, Leaf), Log2);
    OuterGrows(c, Mass(0, 0), Mass(1, 0));
    Log2Monotone(Outer(c, Mass(1, 0), Log2).n, n);
  }

  lemma InsertPays<A>(c: Ctx<A>, x: A, n: nat)
    requires Size(Splay(Zipper(c, Bin(Leaf, x, Leaf)))) <= n
    ensures Rounds(c) + Phi(Splay(Zipper(c, Bin(Leaf, x, Leaf)))) <= Phi(Plug(Zipper(c, Leaf))) + 4 * Log2(n) + 1
  {
    SplayPays(Zipper(c, Bin(Leaf, x, Leaf)));
    SplayWithin(Zipper(c, Bin(Leaf, x, Leaf)), n);
    Planted(c, x, n);
  }

  /** An operation on at most n nodes pays for itself with four logarithms of n, and one. */
  lemma OperationPays<A>(t: Tree<A>, op: Op<A>, t': Tree<A>, n: nat)
    requires Applies(t, op, t') && Size(t) <= n && Size(t') <= n
    ensures Cost(op) + Phi(t') <= Phi(t) + 4 * Log2(n) + 1
  {
    match op
    case Touch(z) => TouchPays(z, n);
    case Insert(c, x) => InsertPays(c, x, n);
    case Delete(z) =>
      TouchPays(z, n);
      DeleteRootFrees(Splay(z));
  }

  // ---------- runs ----------

  ghost predicate Run<A>(ts: seq<Tree<A>>, ops: seq<Op<A>>) {
    |ts| == |ops| + 1 && forall i :: 0 <= i < |ops| ==> Applies(ts[i], ops[i], ts[i + 1])
  }

  function TotalCost<A>(ops: seq<Op<A>>): nat {
    if ops == [] then 0 else TotalCost(ops[..|ops| - 1]) + Cost(ops[|ops| - 1])
  }

  lemma {:induction false} RunPays<A>(ts: seq<Tree<A>>, ops: seq<Op<A>>, n: nat)
    requires Run(ts, ops) && forall i :: 0 <= i < |ts| ==> Size(ts[i]) <= n
    ensures TotalCost(ops) + Phi(ts[|ops|]) <= Phi(ts[0]) + |ops| * (4 * Log2(n) + 1)
    decreases |ops|
  {
    if ops != [] {
      var k := |ops| - 1;
      assert Run(ts[..k + 1], ops[..k]) by {
        forall i | 0 <= i < k ensures Applies(ts[..k + 1][i], ops[..k][i], ts[..k + 1][i + 1]) {
          assert Applies(ts[i], ops[i], ts[i + 1]);
        }
      }
      RunPays(ts[..k + 1], ops[..k], n);
      assert Applies(ts[k], ops[k], ts[k + 1]);
      OperationPays(ts[k], ops[k], ts[k + 1], n);
      OneMoreTime(k, 4 * Log2(n) + 1);
    }
  }

  lemma OneMoreTime(k: nat, b: nat)
    ensures (k + 1) * b == k * b + b
  {
  }

  /** From the empty tree, and with never more than n nodes, m operations that splay take at most
      m * (4 * log2(n) + 1) rounds together. */
  lemma AmortisedLogarithmic<A>(ts: seq<Tree<A>>, ops: seq<Op<A>>, n: nat)
    requires Run(ts, ops) && ts[0] == Leaf && forall i :: 0 <= i < |ts| ==> Size(ts[i]) <= n
    ensures TotalCost(ops) <= |ops| * (4 * Log2(n) + 1)
  {
    RunPays(ts, ops, n);
  }

  // ---------- keeping account ----------

  /** The operations so far, the rounds they took, and the most nodes there were. */
  datatype Account = Account(calls: nat, rounds: nat, peak: nat)

  function Charged<A>(a: Account, rounds: nat, t: Tree<A>): Account {
    Account(a.calls + 1, a.rounds + rounds, if Size(t) > a.peak then Size(t) else a.peak)
  }

  /** The account of a tree that began empty. */
  ghost predicate Balanced<A>(a: Account, t: Tree<A>) {
    Size(t) <= a.peak && a.rounds + Phi(t) <= a.calls * (4 * Log2(a.peak) + 1)
  }

  lemma MoreTimes(k: nat, b: nat, b': nat)
    requires b <= b'
    ensures (k + 1) * b' >= k * b + b'
  {
    assert k * b' >= k * b;
  }

  lemma ChargedBalances<A>(a: Account, t: Tree<A>, op: Op<A>, t': Tree<A>)
    requires Balanced(a, t) && Applies(t, op, t')
    ensures Balanced(Charged(a, Cost(op), t'), t')
  {
    var n := Charged(a, Cost(op), t').peak;
    OperationPays(t, op, t', n);
    Log2Monotone(a.peak, n);
    MoreTimes(a.calls, 4 * Log2(a.peak) + 1, 4 * Log2(n) + 1);
  }

  lemma {:induction false} SizeIsLength<A>(t: Tree<A>)
    ensures Size(t) == |Inorder(t)|
  {
    if t.Bin? {
      SizeIsLength(t.l);
      SizeIsLength(t.r);
    }
  }
}
