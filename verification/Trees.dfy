/** The binary tree of CLPs: ranks are heap indices, so parents and children are arithmetic. */
module Trees {

  function Parent(r: nat): nat
    requires r > 0
  {
    (r - 1) / 2
  }

  predicate Adjacent(a: nat, b: nat) {
    (a > 0 && b == Parent(a)) || (b > 0 && a == Parent(b))
  }

  /** `r` lies in the subtree of `c`. */
  predicate Under(c: nat, r: nat) {
    r == c || (r > c && Under(c, Parent(r)))
  }

  /** Number of edges between two ranks: the greater one is never an ancestor of the other. */
  function Dist(a: nat, b: nat): nat
    decreases a + b
  {
    if a == b then 0
    else if a > b then 1 + Dist(Parent(a), b)
    else 1 + Dist(a, Parent(b))
  }

  /** The child of `a` whose subtree holds `b`. */
  function ChildToward(a: nat, b: nat): nat
    requires a != b && Under(a, b)
    decreases b
  {
    if Parent(b) == a then b else ChildToward(a, Parent(b))
  }

  function NextHop(a: nat, b: nat): nat
    requires a != b
  {
    if Under(a, b) then ChildToward(a, b)
    else if a == 0 then 0
    else Parent(a)
  }

  /** `r` lies on the side of `b` of the edge between `a` and `b`. */
  predicate Beyond(a: nat, b: nat, r: nat) {
    r != a && NextHop(a, r) == b
  }

  lemma {:induction false} RootIsAboveAll(r: nat)
    ensures Under(0, r)
  {
    if r > 0 {
      RootIsAboveAll(Parent(r));
    }
  }

  lemma {:induction false} UnderIsAtLeast(c: nat, r: nat)
    requires Under(c, r)
    ensures c <= r
  {
  }

  lemma {:induction false} ChildTowardIsChild(a: nat, b: nat)
    requires a != b && Under(a, b)
    ensures var c := ChildToward(a, b); c > a && Parent(c) == a && Under(c, b)
    decreases b
  {
    if Parent(b) != a {
      ChildTowardIsChild(a, Parent(b));
    }
  }

  /** Two ranks above a third one are in line, so one child only leads to it. */
  lemma {:induction false} ChildIsUnique(a: nat, c: nat, b: nat)
    requires c > 0 && Parent(c) == a && Under(c, b)
    ensures a != b && Under(a, b) && ChildToward(a, b) == c
    decreases b
  {
    UnderIsAtLeast(c, b);
    if b != c {
      ChildIsUnique(a, c, Parent(b));
    }
  }

  lemma {:induction false} DistIsSymmetric(a: nat, b: nat)
    ensures Dist(a, b) == Dist(b, a)
    decreases a + b
  {
    if a > b {
      DistIsSymmetric(Parent(a), b);
    } else if a < b {
      DistIsSymmetric(a, Parent(b));
    }
  }

  lemma {:induction false} DistDown(c: nat, r: nat)
    requires c > 0 && Under(c, r)
    ensures Dist(Parent(c), r) == 1 + Dist(c, r)
    decreases r
  {
    if r != c {
      DistDown(c, Parent(r));
    }
  }

  lemma {:induction false} DistUp(c: nat, r: nat)
    requires c > 0 && !Under(c, r)
    ensures Dist(c, r) == 1 + Dist(Parent(c), r)
    decreases r
  {
    if c < r {
      DistUp(c, Parent(r));
    }
  }

  /** The two sides of the edge from a rank to its parent. */
  lemma EdgeSides(c: nat, r: nat)
    requires c > 0
    ensures Beyond(Parent(c), c, r) <==> Under(c, r)
    ensures Beyond(c, Parent(c), r) <==> !Under(c, r)
  {
    if Under(c, r) {
      ChildIsUnique(Parent(c), c, r);
      if r != c {
        ChildTowardIsChild(c, r);
      }
    } else if r != Parent(c) && Under(Parent(c), r) {
      ChildTowardIsChild(Parent(c), r);
    }
  }

  /** An edge splits the ranks in two. */
  lemma EdgeSplits(a: nat, b: nat, r: nat)
    requires Adjacent(a, b)
    ensures Beyond(a, b, r) <==> !Beyond(b, a, r)
  {
    EdgeSides(if a > 0 && b == Parent(a) then a else b, r);
  }

  /** The next hop is a neighbour and one step closer. */
  lemma NextHopIsCloser(a: nat, b: nat)
    requires a != b
    ensures Adjacent(a, NextHop(a, b))
    ensures Dist(a, b) == 1 + Dist(NextHop(a, b), b)
  {
    if Under(a, b) {
      ChildTowardIsChild(a, b);
      DistDown(ChildToward(a, b), b);
    } else {
      RootIsAboveAll(b);
      DistUp(a, b);
    }
  }

  /** Every other neighbour is one step further away. */
  lemma OtherNeighboursAreFurther(a: nat, n: nat, b: nat)
    requires Adjacent(a, n) && (a == b || n != NextHop(a, b))
    ensures Dist(n, b) == 1 + Dist(a, b)
  {
    EdgeSplits(a, n, b);
    assert Beyond(n, a, b);
    NextHopIsCloser(n, b);
  }

  lemma AdjacentIsNextHop(a: nat, b: nat)
    requires Adjacent(a, b)
    ensures a != b && NextHop(a, b) == b && Dist(a, b) == 1
  {
    EdgeSplits(a, b, b);
    NextHopIsCloser(a, b);
  }

  /** The distances to the two ends of an edge differ by one. */
  lemma EdgeDistances(a: nat, n: nat, b: nat)
    requires Adjacent(a, n)
    ensures Dist(b, a) == Dist(b, n) + 1 || Dist(b, n) == Dist(b, a) + 1
  {
    DistIsSymmetric(a, b);
    DistIsSymmetric(n, b);
    if a == b || n != NextHop(a, b) {
      OtherNeighboursAreFurther(a, n, b);
    } else {
      NextHopIsCloser(a, b);
    }
  }

  /** Seen from anywhere else, the two ends of an edge lie in the same direction. */
  lemma EndsLieTogether(x: nat, a: nat, b: nat)
    requires Adjacent(a, b) && x != a && x != b
    ensures NextHop(x, a) == NextHop(x, b)
  {
    var m, k := NextHop(x, a), NextHop(x, b);
    NextHopIsCloser(x, a);
    NextHopIsCloser(x, b);
    EdgeDistances(a, b, x);
    EdgeDistances(a, b, m);
    EdgeDistances(a, b, k);
    if m != k {
      OtherNeighboursAreFurther(x, m, b);
      OtherNeighboursAreFurther(x, k, a);
    }
  }

  // ---- Distance and next hop against walks in the tree ----

  predicate IsWalk(w: seq<nat>) {
    w != [] && forall i :: 0 <= i < |w| - 1 ==> Adjacent(w[i], w[i + 1])
  }

  /** No walk is shorter than the distance, and one of exactly that length starts with the next
      hop: distance and next hop are those of the unique tree path. */
  lemma {:induction false} WalksAreNoShorter(w: seq<nat>)
    requires IsWalk(w)
    ensures |w| - 1 >= Dist(w[0], w[|w| - 1])
    ensures |w| > 1 && |w| - 1 == Dist(w[0], w[|w| - 1]) ==> w[0] != w[|w| - 1] && w[1] == NextHop(w[0], w[|w| - 1])
  {
    if |w| > 1 {
      var a, n, b := w[0], w[1], w[|w| - 1];
      var rest := w[1..];
      forall i | 0 <= i < |rest| - 1 ensures Adjacent(rest[i], rest[i + 1]) {
        assert Adjacent(w[i + 1], w[i + 1 + 1]);
      }
      assert Adjacent(w[0], w[0 + 1]);
      WalksAreNoShorter(rest);
      if a != b && n == NextHop(a, b) {
        NextHopIsCloser(a, b);
      } else {
        OtherNeighboursAreFurther(a, n, b);
      }
    }
  }

  function Path(a: nat, b: nat): (w: seq<nat>)
    decreases Dist(a, b)
  {
    if a == b then [a]
    else
      NextHopIsCloser(a, b);
      [a] + Path(NextHop(a, b), b)
  }

  lemma {:induction false} PathIsShortestWalk(a: nat, b: nat)
    ensures IsWalk(Path(a, b)) && |Path(a, b)| == Dist(a, b) + 1
    ensures Path(a, b)[0] == a && Path(a, b)[Dist(a, b)] == b
    decreases Dist(a, b)
  {
    if a != b {
      NextHopIsCloser(a, b);
      PathIsShortestWalk(NextHop(a, b), b);
      var w := Path(NextHop(a, b), b);
      forall i | 0 <= i < |Path(a, b)| - 1 ensures Adjacent(Path(a, b)[i], Path(a, b)[i + 1]) {
        if i > 0 {
          assert Adjacent(w[i - 1], w[i - 1 + 1]);
        }
      }
    }
  }

  // ---- The tree of the first n ranks ----

  lemma {:induction false} PathStaysInTree(n: nat, a: nat, b: nat)
    requires a < n && b < n && a != b
    ensures NextHop(a, b) < n
  {
    if Under(a, b) {
      ChildTowardIsChild(a, b);
      UnderIsAtLeast(ChildToward(a, b), b);
    }
  }
}
