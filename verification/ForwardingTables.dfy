/** The table a CLP builds once, by walking the whole tree from its own rank. */
module ForwardingTables {
  import opened Timelines
  import opened Trees

  datatype RoutingInfo = RoutingInfo(source: nat, destination: nat, hops: nat, next: nat)

  /** The neighbours of a rank in the order of the walk. */
  function Neighbour(rank: nat, k: nat): nat
    requires k < 2 || rank > 0
  {
    if k == 0 then 2 * rank + 1 else if k == 1 then 2 * rank + 2 else (rank - 1) / 2
  }

  /** What the walk at `rank` owes `r`: from the CLP itself on, the first hop is the one of the tree path. */
  function Entry(clp: nat, rank: nat, hops: nat, next: nat, r: nat): RoutingInfo {
    RoutingInfo(clp, r, hops + Dist(rank, r), if rank != clp then next else if r == clp then clp else NextHop(clp, r))
  }

  /** `r` is `rank`, or the tree path to it avoids `from` and starts with one of the first `k` neighbours. */
  predicate Reached(rank: nat, from: nat, k: nat, r: nat) {
    r == rank || (NextHop(rank, r) != from &&
                  ((k > 0 && NextHop(rank, r) == 2 * rank + 1) || (k > 1 && NextHop(rank, r) == 2 * rank + 2) || k > 2))
  }

  ghost predicate WalkedAt(before: map<nat, RoutingInfo>, after: map<nat, RoutingInfo>,
                           n: nat, from: nat, k: nat, clp: nat, rank: nat, hops: nat, next: nat, r: nat) {
    && (r in after <==> r in before || (r < n && Reached(rank, from, k, r)))
    && (r in after ==> after[r] == if r in before then before[r] else Entry(clp, rank, hops, next, r))
  }

  /** `after` is `before` with the entries for all ranks reached from `rank`. */
  ghost predicate Walked(before: map<nat, RoutingInfo>, after: map<nat, RoutingInfo>,
                         n: nat, from: nat, k: nat, clp: nat, rank: nat, hops: nat, next: nat) {
    forall r: nat :: WalkedAt(before, after, n, from, k, clp, rank, hops, next, r)
  }

  /** No rank whose path from `rank` avoids `from` is in the table. */
  ghost predicate Free(table: map<nat, RoutingInfo>, n: nat, from: nat, rank: nat) {
    forall r: nat :: r < n && Reached(rank, from, 3, r) ==> r !in table
  }

  /** What a walk must find: it came from an entered neighbour, and no rank further on is entered. */
  ghost predicate MayWalk(table: map<nat, RoutingInfo>, n: nat, clp: nat, from: nat, rank: nat, next: nat) {
    && clp < n && clp in table
    && from < n && from in table && Adjacent(from, rank)
    && (rank < n && rank !in table ==> Free(table, n, from, rank))
    && (next == 2 * clp + 1 || next == 2 * clp + 2 ==> rank > 0 && from == Neighbour(rank, 2))
  }

  /** What a walk must leave: nothing new outside the tree and at an entered rank, and all it owes elsewhere. */
  ghost predicate Finished(before: map<nat, RoutingInfo>, after: map<nat, RoutingInfo>,
                           n: nat, clp: nat, from: nat, rank: nat, hops: nat, next: nat) {
    if rank >= n || rank in before then after == before else Walked(before, after, n, from, 3, clp, rank, hops, next)
  }

  lemma NeighboursOf(rank: nat, r: nat)
    ensures Adjacent(rank, r) <==> r == 2 * rank + 1 || r == 2 * rank + 2 || (rank > 0 && r == Neighbour(rank, 2))
    ensures r != rank ==> Adjacent(rank, NextHop(rank, r)) && Dist(rank, r) == 1 + Dist(NextHop(rank, r), r)
  {
    if r != rank {
      NextHopIsCloser(rank, r);
    }
  }

  /** Seen from a neighbour, what lies in its direction is what does not lie back through `rank`. */
  lemma Across(rank: nat, neighbour: nat, r: nat)
    requires Adjacent(rank, neighbour)
    ensures Reached(neighbour, rank, 3, r) <==> r != rank && NextHop(rank, r) == neighbour
  {
    EdgeSplits(rank, neighbour, r);
  }

  /** The walk has entered `rank` and finished its first `k` neighbours. */
  ghost predicate OnTheWay(before: map<nat, RoutingInfo>, table: map<nat, RoutingInfo>, n: nat, k: nat, clp: nat,
                           from: nat, rank: nat, hops: nat, next: nat) {
    && rank < n && clp < n && from < n && clp in table && from in table
    && Walked(before, table, n, from, k, clp, rank, hops, next)
    && Free(before, n, from, rank)
  }

  function Onward(clp: nat, rank: nat, k: nat, next: nat): nat
    requires k < 2 || rank > 0
  {
    if rank == clp then Neighbour(rank, k) else next
  }

  /** The walk may go on to its next neighbour. */
  lemma MayWalkOn(before: map<nat, RoutingInfo>, table: map<nat, RoutingInfo>, n: nat, k: nat, clp: nat,
                  from: nat, rank: nat, hops: nat, next: nat)
    requires k < 2 || (k == 2 && rank > 0 && Onward(clp, rank, k, next) != 2 * clp + 1 &&
                       Onward(clp, rank, k, next) != 2 * clp + 2)
    requires OnTheWay(before, table, n, k, clp, from, rank, hops, next)
    ensures MayWalk(table, n, clp, rank, Neighbour(rank, k), Onward(clp, rank, k, next))
  {
    var neighbour := Neighbour(rank, k);
    NeighboursOf(rank, neighbour);
    assert WalkedAt(before, table, n, from, k, clp, rank, hops, next, rank);
    forall r: nat | neighbour != from && r < n && Reached(neighbour, rank, 3, r) ensures r !in table {
      assert WalkedAt(before, table, n, from, k, clp, rank, hops, next, r);
      Across(rank, neighbour, r);
    }
  }

  /** Every neighbour but the one the walk came from is outside the tree or not entered yet. */
  lemma NeighbourIsNew(before: map<nat, RoutingInfo>, table: map<nat, RoutingInfo>, n: nat, k: nat, clp: nat,
                       from: nat, rank: nat, hops: nat, next: nat)
    requires k < 2 || (k == 2 && rank > 0)
    requires OnTheWay(before, table, n, k, clp, from, rank, hops, next)
    ensures Neighbour(rank, k) != from && Neighbour(rank, k) < n ==> Neighbour(rank, k) !in table
  {
    var neighbour := Neighbour(rank, k);
    NeighboursOf(rank, neighbour);
    Across(rank, neighbour, neighbour);
    assert WalkedAt(before, table, n, from, k, clp, rank, hops, next, neighbour);
    assert Reached(rank, from, 3, neighbour) || neighbour == from;
  }

  lemma WalkedOnwardAt(before: map<nat, RoutingInfo>, middle: map<nat, RoutingInfo>, after: map<nat, RoutingInfo>,
                       n: nat, k: nat, clp: nat, from: nat, rank: nat, hops: nat, next: nat, r: nat)
    requires k < 2 || (k == 2 && rank > 0)
    requires OnTheWay(before, middle, n, k, clp, from, rank, hops, next)
    requires Finished(middle, after, n, clp, rank, Neighbour(rank, k), hops + 1, Onward(clp, rank, k, next))
    ensures WalkedAt(before, after, n, from, k + 1, clp, rank, hops, next, r)
  {
    hide Dist, NextHop, Under, Free, Adjacent;
    var neighbour := Neighbour(rank, k);
    NeighbourIsNew(before, middle, n, k, clp, from, rank, hops, next);
    assert WalkedAt(before, middle, n, from, k, clp, rank, hops, next, r);
    NeighboursOf(rank, neighbour);
    NeighboursOf(rank, r);
    if r != rank {
      NeighboursOf(rank, NextHop(rank, r));
    }
    Across(rank, neighbour, r);
    if neighbour == from || neighbour >= n {
      if r < n && r != rank {
        PathStaysInTree(n, rank, r);
      }
    } else {
      assert WalkedAt(middle, after, n, rank, 3, clp, neighbour, hops + 1, Onward(clp, rank, k, next), r);
    }
  }

  /** What the walk to one more neighbour adds. */
  lemma WalkedOnward(before: map<nat, RoutingInfo>, middle: map<nat, RoutingInfo>, after: map<nat, RoutingInfo>,
                     n: nat, k: nat, clp: nat, from: nat, rank: nat, hops: nat, next: nat)
    requires k < 2 || (k == 2 && rank > 0)
    requires OnTheWay(before, middle, n, k, clp, from, rank, hops, next)
    requires Finished(middle, after, n, clp, rank, Neighbour(rank, k), hops + 1, Onward(clp, rank, k, next))
    ensures OnTheWay(before, after, n, k + 1, clp, from, rank, hops, next)
    ensures before.Keys <= after.Keys && rank in after
  {
    var done := k + 1;
    hide Entry, NextHop;
    forall r: nat
      ensures WalkedAt(before, after, n, from, done, clp, rank, hops, next, r)
      ensures r in before || r == rank || r == from || r == clp ==> r in after
    {
      WalkedOnwardAt(before, middle, after, n, k, clp, from, rank, hops, next, r);
      assert WalkedAt(before, middle, n, from, k, clp, rank, hops, next, r);
    }
  }

  /** The walk is complete with its third neighbour, or if that does not exist or was where it came from. */
  lemma Completed(before: map<nat, RoutingInfo>, after: map<nat, RoutingInfo>,
                  n: nat, k: nat, clp: nat, from: nat, rank: nat, hops: nat, next: nat)
    requires OnTheWay(before, after, n, k, clp, from, rank, hops, next)
    requires k == 3 || (k == 2 && (rank == 0 || from == Neighbour(rank, 2)))
    ensures rank !in before ==> Finished(before, after, n, clp, from, rank, hops, next)
    ensures Walked(before, after, n, from, 3, clp, rank, hops, next)
  {
    forall r: nat ensures WalkedAt(before, after, n, from, 3, clp, rank, hops, next, r) {
      assert WalkedAt(before, after, n, from, k, clp, rank, hops, next, r);
      NeighboursOf(rank, r);
    }
  }

  lemma NeighbourNames(rank: nat)
    ensures Neighbour(rank, 0) == 2 * rank + 1
    ensures Neighbour(rank, 1) == 2 * rank + 2
    ensures rank > 0 ==> Neighbour(rank, 2) == (rank - 1) / 2
  {
  }

  lemma AllWalked(table: map<nat, RoutingInfo>, n: nat, clp: nat)
    requires Walked(map[], table, n, clp, 3, clp, clp, 0, 0)
    ensures forall r: nat :: r in table <==> r < n
    ensures forall r: nat :: r in table ==>
              table[r] == RoutingInfo(clp, r, Dist(clp, r), if r == clp then clp else NextHop(clp, r))
  {
    forall r: nat
      ensures r in table <==> r < n
      ensures r in table ==> table[r] == Entry(clp, clp, 0, 0, r)
    {
      assert WalkedAt(map[], table, n, clp, 3, clp, clp, 0, 0, r);
      NeighboursOf(clp, r);
    }
  }

  class ForwardingTable {
    const clpRank: nat
    const numberOfClps: nat
    var table: map<nat, RoutingInfo>

    ghost function Unvisited(): set<nat>
      reads this
    {
      set r: nat | r < numberOfClps && r !in table
    }

    /** The walk covers every CLP, with its distance and the first rank of the tree path to it. */
    constructor (rank: nat, n: nat)
      requires rank < n
      ensures clpRank == rank && numberOfClps == n
      ensures forall r: nat :: r in table <==> r < n
      ensures forall r: nat :: r in table ==>
                table[r] == RoutingInfo(rank, r, Dist(rank, r), if r == rank then rank else NextHop(rank, r))
    {
      clpRank := rank;
      numberOfClps := n;
      table := map[rank := RoutingInfo(rank, rank, 0, rank)];
      new;
      assert OnTheWay(map[], table, n, 0, rank, rank, rank, 0, 0);
      NeighbourNames(rank);
      hide Neighbour, MayWalk, Finished, OnTheWay, Walked;
      ghost var t := table;
      MayWalkOn(map[], t, n, 0, rank, rank, rank, 0, 0);
      WalkTree(2 * rank + 1, 1, 2 * rank + 1, rank);
      WalkedOnward(map[], t, table, n, 0, rank, rank, rank, 0, 0);
      t := table;
      MayWalkOn(map[], t, n, 1, rank, rank, rank, 0, 0);
      WalkTree(2 * rank + 2, 1, 2 * rank + 2, rank);
      WalkedOnward(map[], t, table, n, 1, rank, rank, rank, 0, 0);
      if rank != 0 {
        t := table;
        MayWalkOn(map[], t, n, 2, rank, rank, rank, 0, 0);
        WalkTree((rank - 1) / 2, 1, (rank - 1) / 2, rank);
        WalkedOnward(map[], t, table, n, 2, rank, rank, rank, 0, 0);
      }
      Completed(map[], table, n, if rank != 0 then 3 else 2, rank, rank, rank, 0, 0);
      AllWalked(table, n, rank);
    }

    /** Walks on from `from`, a rank already in the table, to its neighbour. */
    method WalkTree(rank: nat, hops: nat, next: nat, ghost from: nat)
      requires MayWalk(table, numberOfClps, clpRank, from, rank, next)
      modifies this
      ensures Finished(old(table), table, numberOfClps, clpRank, from, rank, hops, next)
      decreases Unvisited()
    {
      if rank >= numberOfClps || rank in table {
        return;
      }
      ghost var n, before := numberOfClps, table;
      assert rank in Unvisited();
      table := table[rank := RoutingInfo(clpRank, rank, hops, next)];
      assert OnTheWay(before, table, n, 0, clpRank, from, rank, hops, next);
      NeighbourNames(rank);
      hide Neighbour, MayWalk, Finished, OnTheWay, Walked;
      ghost var t := table;
      MayWalkOn(before, t, n, 0, clpRank, from, rank, hops, next);
      WalkTree(2 * rank + 1, hops + 1, next, rank);
      WalkedOnward(before, t, table, n, 0, clpRank, from, rank, hops, next);
      t := table;
      MayWalkOn(before, t, n, 1, clpRank, from, rank, hops, next);
      WalkTree(2 * rank + 2, hops + 1, next, rank);
      WalkedOnward(before, t, table, n, 1, clpRank, from, rank, hops, next);
      if next != 2 * clpRank + 1 && next != 2 * clpRank + 2 && rank != 0 {
        t := table;
        MayWalkOn(before, t, n, 2, clpRank, from, rank, hops, next);
        WalkTree((rank - 1) / 2, hops + 1, next, rank);
        WalkedOnward(before, t, table, n, 2, clpRank, from, rank, hops, next);
        Completed(before, table, n, 3, clpRank, from, rank, hops, next);
      } else {
        Completed(before, table, n, 2, clpRank, from, rank, hops, next);
      }
    }

    method GetRoutingInfo(rank: nat) returns (info: Option<RoutingInfo>)
      ensures info == if rank in table then Some(table[rank]) else None
    {
      if rank in table {
        return Some(table[rank]);
      }
      return None;
    }
  }
}
