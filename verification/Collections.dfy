/** Small facts about sequences and sets that several modules need. */
module Collections {

  /** No element occurs twice. */
  ghost predicate Unrepeated<T>(s: seq<T>) {
    forall i, j :: 0 <= i < j < |s| ==> s[i] != s[j]
  }

  ghost function Elements<T>(s: seq<T>): set<T> {
    set x | x in s
  }

  /** The numbers below n. */
  ghost function Below(n: nat): (s: set<int>)
    ensures |s| == n && forall x :: x in s <==> 0 <= x < n
  {
    if n == 0 then {} else Below(n - 1) + {n - 1}
  }

  lemma SomeElement<T>(s: set<T>) returns (x: T)
    requires s != {}
    ensures x in s
  {
    x :| x in s;
  }

  lemma {:induction false} SubsetSmaller<T>(xs: set<T>, ys: set<T>)
    requires xs <= ys
    ensures |xs| <= |ys|
    decreases |xs|
  {
    if xs != {} {
      var x := SomeElement(xs);
      SubsetSmaller(xs - {x}, ys - {x});
    }
  }

  lemma SomeOther<T>(xs: set<T>, ys: set<T>) returns (x: T)
    requires |ys| < |xs|
    ensures x in xs && x !in ys
  {
    if xs <= ys {
      SubsetSmaller(xs, ys);
    }
    x :| x in xs && x !in ys;
  }

  lemma {:induction false} Injects<A, B>(xs: set<A>, ys: set<B>, f: map<A, B>)
    requires xs <= f.Keys && (forall x :: x in xs ==> f[x] in ys)
    requires forall x, x' :: x in xs && x' in xs && f[x] == f[x'] ==> x == x'
    ensures |xs| <= |ys|
    decreases |xs|
  {
    if xs != {} {
      var x :| x in xs;
      Injects(xs - {x}, ys - {f[x]}, f);
    }
  }
}
