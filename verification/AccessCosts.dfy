/** When a CLP gives variables away: the one whose accesses come mostly through one port goes there. */
module AccessCosts {
  import opened Clps
  import opened Filters
  import opened ForwardingTables
  import opened RouteTables
  import opened Timelines
  import opened Trees
  import opened WritePeriods

  // ---- The test whether a CLP is at the bottom of the tree ----

  function Pow2(k: nat): (r: nat)
    ensures r > 0
  {
    if k == 0 then 1 else 2 * Pow2(k - 1)
  }

  /** The least power of two that is not below `x`, from exponent `k` on. */
  function CeilLog2From(x: nat, k: nat): (r: nat)
    ensures r >= k && Pow2(r) >= x && (r > k ==> Pow2(r - 1) < x)
    decreases x - Pow2(k)
  {
    if Pow2(k) >= x then k else CeilLog2From(x, k + 1)
  }

  function CeilLog2(x: nat): nat {
    CeilLog2From(x, 0)
  }

  predicate IsParent(n: nat, rank: nat) {
    CeilLog2(n + 1) == CeilLog2(rank + 2)
  }

  predicate HasNoChildren(n: nat, rank: nat) {
    2 * rank + 1 >= n
  }

  predicate IsPowerOfTwo(x: nat) {
    Pow2(CeilLog2(x)) == x
  }

  lemma {:induction false} Pow2Grows(i: nat, j: nat)
    requires i <= j
    ensures Pow2(i) <= Pow2(j) && (i < j ==> Pow2(i) < Pow2(j))
  {
    if i < j {
      Pow2Grows(i, j - 1);
    }
  }

  lemma CeilLog2Is(x: nat, k: nat)
    requires k > 0 && Pow2(k - 1) < x <= Pow2(k)
    ensures CeilLog2(x) == k
  {
    var r := CeilLog2(x);
    if r < k {
      Pow2Grows(r, k - 1);
    } else if r > k {
      Pow2Grows(k, r - 1);
    }
  }

  /** The test compares the rank with half the next power of two instead of half the number of CLPs. */
  lemma IsParentIff(n: nat, rank: nat)
    requires rank < n
    ensures CeilLog2(n + 1) > 0
    ensures IsParent(n, rank) <==> rank + 1 >= Pow2(CeilLog2(n + 1) - 1)
  {
    var k := CeilLog2(n + 1);
    assert Pow2(0) == 1 && n + 1 > 1;
    if rank + 1 >= Pow2(k - 1) {
      CeilLog2Is(rank + 2, k);
    } else {
      var r := CeilLog2(rank + 2);
      assert r > 0;
      if r >= k {
        Pow2Grows(k - 1, r - 1);
      }
    }
  }

  /** It finds exactly the CLPs without children if and only if the bottom row of the tree is full or lacks
      just its last CLP. */
  lemma LeafTestIsRightIff(n: nat)
    requires n > 0
    ensures (forall rank: nat :: rank < n ==> (IsParent(n, rank) <==> HasNoChildren(n, rank))) <==>
            IsPowerOfTwo(n + 1) || IsPowerOfTwo(n + 2)
  {
    var k := CeilLog2(n + 1);
    assert Pow2(0) == 1;
    var half := Pow2(k - 1) - 1;
    assert half < n;
    forall rank: nat | rank < n
      ensures IsParent(n, rank) <==> rank >= half
      ensures HasNoChildren(n, rank) <==> rank >= n / 2
    {
      IsParentIff(n, rank);
    }
    assert Pow2(k) == 2 * Pow2(k - 1);
    if half != n / 2 {
      var rank := if half < n / 2 then half else n / 2;
      assert IsParent(n, rank) != HasNoChildren(n, rank);
    }
    PowerOfTwoIs(n + 2, k);
  }

  lemma PowerOfTwoIs(x: nat, k: nat)
    requires k > 0 && Pow2(k - 1) < x - 1 <= Pow2(k)
    ensures IsPowerOfTwo(x) ==> x == Pow2(k) || x == Pow2(k) + 1
    ensures x == Pow2(k) ==> IsPowerOfTwo(x)
  {
    var r := CeilLog2(x);
    if x == Pow2(k) {
      CeilLog2Is(x, k);
    }
    if IsPowerOfTwo(x) && r > k {
      Pow2Grows(k + 1, r);
    } else if IsPowerOfTwo(x) && r < k {
      Pow2Grows(r, k - 1);
    }
  }

  lemma PerfectTreeIsOdd(k: nat)
    requires k > 0
    ensures (Pow2(k) - 1) % 2 == 1
  {
    var half := Pow2(k - 1);
    assert Pow2(k) == 2 * half;
    hide Pow2;
  }

  lemma Pow2IsPower(k: nat)
    requires k > 0
    ensures IsPowerOfTwo(Pow2(k))
  {
    assert Pow2(k - 1) < Pow2(k);
    hide CeilLog2From, Pow2;
    CeilLog2Is(Pow2(k), k);
  }

  /** In a perfect tree it is right. */
  lemma LeafTestInPerfectTree(n: nat, k: nat, rank: nat)
    requires k > 0 && n == Pow2(k) - 1 && rank < n
    ensures IsParent(n, rank) <==> HasNoChildren(n, rank)
  {
    hide *;
    Pow2IsPower(k);
    assert n + 1 == Pow2(k);
    LeafTestIsRightIff(n);
  }

  // ---- The calculator ----

  type Counters = map<Direction, nat>

  function Count(counters: map<SsvId, Counters>, v: SsvId, d: Direction): nat {
    if v in counters && d in counters[v] then counters[v][d] else 0
  }

  function Accesses(counters: map<SsvId, Counters>, v: SsvId): nat {
    Count(counters, v, UP) + Count(counters, v, LEFT) + Count(counters, v, RIGHT)
  }

  function PortCost(accesses: map<SsvId, Counters>, hops: map<SsvId, Counters>, v: SsvId): nat {
    Count(accesses, v, UP) * Count(hops, v, UP) + Count(accesses, v, LEFT) * Count(hops, v, LEFT) +
    Count(accesses, v, RIGHT) * Count(hops, v, RIGHT)
  }

  predicate IsAway(d: Direction) {
    d == UP || d == LEFT || d == RIGHT
  }

  /** More than two thirds of the accesses come through the port, which leads to a CLP. */
  predicate Moves(accesses: map<SsvId, Counters>, hops: map<SsvId, Counters>, threshold: nat, isParent: bool, v: SsvId, d: Direction) {
    && IsAway(d) && (isParent ==> d == UP)
    && PortCost(accesses, hops, v) > threshold
    && Count(accesses, v, d) > 2 * (Accesses(accesses, v) - Count(accesses, v, d))
  }

  /** At most one port can have so many. */
  lemma MovesOneWay(accesses: map<SsvId, Counters>, hops: map<SsvId, Counters>, threshold: nat, isParent: bool, v: SsvId,
                    d: Direction, e: Direction)
    requires Moves(accesses, hops, threshold, isParent, v, d) && Moves(accesses, hops, threshold, isParent, v, e)
    ensures d == e
  {
  }

  const AWAY: seq<Direction> := [UP, LEFT, RIGHT]

  function MovesBy(accesses: map<SsvId, Counters>, hops: map<SsvId, Counters>, threshold: nat, isParent: bool, d: Direction): SsvId -> bool {
    (v: SsvId) => Moves(accesses, hops, threshold, isParent, v, d)
  }

  function MovesThrough(accesses: map<SsvId, Counters>, hops: map<SsvId, Counters>, threshold: nat, isParent: bool, v: SsvId): Direction -> bool {
    d => Moves(accesses, hops, threshold, isParent, v, d)
  }

  function ListFor(moves: map<Direction, seq<SsvId>>, d: Direction): seq<SsvId> {
    if d in moves then moves[d] else []
  }

  /** The variable is listed under the first `i` ports away from here that it moves through. */
  ghost predicate Added(before: map<Direction, seq<SsvId>>, moves: map<Direction, seq<SsvId>>, v: SsvId, w: Direction -> bool, i: nat) {
    forall d :: ListFor(moves, d) == if IsAway(d) && Index(d) <= i && w(d) then ListFor(before, d) + [v] else ListFor(before, d)
  }

  lemma NothingAdded(before: map<Direction, seq<SsvId>>, v: SsvId, w: Direction -> bool)
    ensures Added(before, before, v, w, 0)
  {
  }

  lemma AddedOne(before: map<Direction, seq<SsvId>>, moves: map<Direction, seq<SsvId>>, after: map<Direction, seq<SsvId>>,
                 v: SsvId, w: Direction -> bool, i: nat)
    requires i < 3 && Added(before, moves, v, w, i)
    requires forall e :: ListFor(after, e) == if e == AWAY[i] && w(e) then ListFor(moves, e) + [v] else ListFor(moves, e)
    ensures Added(before, after, v, w, i + 1)
  {
    hide ListFor;
    assert Index(AWAY[i]) == i + 1 && IsAway(AWAY[i]);
    forall d ensures ListFor(after, d) == if IsAway(d) && Index(d) <= i + 1 && w(d) then ListFor(before, d) + [v] else ListFor(before, d) {
      assert Index(d) == i + 1 ==> d == AWAY[i];
    }
  }

  lemma AddedAll(before: map<Direction, seq<SsvId>>, moves: map<Direction, seq<SsvId>>, v: SsvId, w: Direction -> bool)
    requires Added(before, moves, v, w, 3) && forall d :: w(d) ==> IsAway(d)
    ensures forall d :: ListFor(moves, d) == if w(d) then ListFor(before, d) + [v] else ListFor(before, d)
  {
    hide ListFor;
  }

  /** The map is what the calculator of a CLP makes of its counters. */
  ghost predicate IsMigrationMap(moves: map<Direction, seq<SsvId>>, variables: seq<SsvId>, accesses: map<SsvId, Counters>,
                                 hops: map<SsvId, Counters>, threshold: nat, isParent: bool) {
    && (forall d :: d in moves ==> moves[d] != [])
    && (forall d :: ListFor(moves, d) == Filter(variables, MovesBy(accesses, hops, threshold, isParent, d)))
  }

  /** A variable is listed under a port exactly if more than two thirds of its accesses through the tree come
      through it, if all these accesses times their hops exceed the threshold, and if the leaf test allows it. */
  lemma ListedIff(moves: map<Direction, seq<SsvId>>, variables: seq<SsvId>, accesses: map<SsvId, Counters>,
                  hops: map<SsvId, Counters>, threshold: nat, isParent: bool, d: Direction, v: SsvId)
    requires IsMigrationMap(moves, variables, accesses, hops, threshold, isParent)
    ensures d in moves && v in moves[d] <==>
            && v in variables && (d == UP || d == LEFT || d == RIGHT) && (isParent ==> d == UP)
            && 3 * Count(accesses, v, d) > 2 * (Count(accesses, v, UP) + Count(accesses, v, LEFT) + Count(accesses, v, RIGHT))
            && Count(accesses, v, UP) * Count(hops, v, UP) + Count(accesses, v, LEFT) * Count(hops, v, LEFT) +
               Count(accesses, v, RIGHT) * Count(hops, v, RIGHT) > threshold
  {
    var p := MovesBy(accesses, hops, threshold, isParent, d);
    assert ListFor(moves, d) == Filter(variables, p);
    FilterMember(variables, p, v);
  }

  class AccessCostCalculator {
    const isParentClp: bool
    const portThreshold: nat
    var variables: seq<SsvId>
    var accesses: map<SsvId, Counters>
    var hops: map<SsvId, Counters>

    constructor (rank: nat, n: nat, portThreshold: nat)
      ensures isParentClp == IsParent(n, rank) && this.portThreshold == portThreshold
      ensures variables == [] && accesses == map[] && hops == map[]
    {
      isParentClp := CeilLog2(n + 1) == CeilLog2(rank + 2);
      this.portThreshold := portThreshold;
      variables, accesses, hops := [], map[], map[];
    }

    method InitialiseCounters(v: SsvId)
      modifies this
      ensures variables == if v in old(variables) then old(variables) else old(variables) + [v]
      ensures accesses == old(accesses)[v := map[UP := 0, LEFT := 0, RIGHT := 0]]
      ensures hops == old(hops)[v := map[UP := 0, LEFT := 0, RIGHT := 0]]
    {
      if v !in variables {
        variables := variables + [v];
      }
      accesses := accesses[v := map[UP := 0, LEFT := 0, RIGHT := 0]];
      hops := hops[v := map[UP := 0, LEFT := 0, RIGHT := 0]];
    }

    /** The count before the update; nothing changes for a variable that is not here. */
    method UpdateAccessCount(d: Direction, count: nat, v: SsvId) returns (before: nat)
      modifies this`accesses
      ensures before == if v in variables then Count(old(accesses), v, d) else 0
      ensures forall w, e :: Count(accesses, w, e) ==
                if w == v && e == d && v in variables && v in old(accesses) then Count(old(accesses), v, d) + count
                else Count(old(accesses), w, e)
    {
      before := 0;
      if v !in variables {
        return;
      }
      if v in accesses {
        var counters: Counters := accesses[v];
        if d in counters {
          before := counters[d];
        }
        counters := counters[d := before + count];
        accesses := accesses[v := counters];
      }
    }

    ghost function Mover(d: Direction): SsvId -> bool
      reads this
    {
      MovesBy(accesses, hops, portThreshold, isParentClp, d)
    }

    method GetCount(counters: map<SsvId, Counters>, d: Direction, v: SsvId) returns (count: nat)
      ensures count == if v in counters && d in counters[v] then counters[v][d] else 0
      ensures count == Count(counters, v, d)
    {
      if v !in counters {
        return 0;
      }
      return if d in counters[v] then counters[v][d] else 0;
    }

    /** For every port the variables that move through it, in the order of the list; no entry without any. */
    method GetMigrationMap() returns (moves: map<Direction, seq<SsvId>>)
      ensures IsMigrationMap(moves, variables, accesses, hops, portThreshold, isParentClp)
      ensures forall d, v :: d in moves && v in moves[d] <==>
                && v in variables && (d == UP || d == LEFT || d == RIGHT) && (isParentClp ==> d == UP)
                && 3 * Count(accesses, v, d) > 2 * (Count(accesses, v, UP) + Count(accesses, v, LEFT) + Count(accesses, v, RIGHT))
                && Count(accesses, v, UP) * Count(hops, v, UP) + Count(accesses, v, LEFT) * Count(hops, v, LEFT) +
                   Count(accesses, v, RIGHT) * Count(hops, v, RIGHT) > portThreshold
    {
      moves := map[];
      for i := 0 to |variables|
        invariant forall d :: d in moves ==> moves[d] != []
        invariant forall d :: ListFor(moves, d) == Filter(variables[..i], Mover(d))
      {
        forall d ensures Filter(variables[..i + 1], Mover(d)) ==
                         if Mover(d)(variables[i]) then Filter(variables[..i], Mover(d)) + [variables[i]]
                         else Filter(variables[..i], Mover(d)) {
          FilterStep(variables, i, Mover(d));
        }
        hide Filter;
        moves := AddMoves(moves, variables[i]);
      }
      assert variables[..|variables|] == variables;
      forall d, v ensures d in moves && v in moves[d] <==>
                && v in variables && (d == UP || d == LEFT || d == RIGHT) && (isParentClp ==> d == UP)
                && 3 * Count(accesses, v, d) > 2 * (Count(accesses, v, UP) + Count(accesses, v, LEFT) + Count(accesses, v, RIGHT))
                && Count(accesses, v, UP) * Count(hops, v, UP) + Count(accesses, v, LEFT) * Count(hops, v, LEFT) +
                   Count(accesses, v, RIGHT) * Count(hops, v, RIGHT) > portThreshold
      {
        ListedIff(moves, variables, accesses, hops, portThreshold, isParentClp, d, v);
      }
    }

    method AddMoves(before: map<Direction, seq<SsvId>>, v: SsvId) returns (moves: map<Direction, seq<SsvId>>)
      requires forall d :: d in before ==> before[d] != []
      ensures forall d :: d in moves ==> moves[d] != []
      ensures forall d :: ListFor(moves, d) == if Mover(d)(v) then ListFor(before, d) + [v] else ListFor(before, d)
    {
      moves := before;
      var total, cost := TotalAndCost(v);
      ghost var w := MovesThrough(accesses, hops, portThreshold, isParentClp, v);
      NothingAdded(before, v, w);
      assert forall d :: w(d) <==> Mover(d)(v);
      assert forall d :: w(d) ==> IsAway(d) && cost > portThreshold;
      hide Accesses, PortCost, Count, ListFor, Added, Moves;
      if cost > portThreshold {
        for i := 0 to |AWAY|
          invariant forall d :: d in moves ==> moves[d] != []
          invariant Added(before, moves, v, w, i)
        {
          ghost var earlier := moves;
          moves := ConsiderPort(moves, v, AWAY[i], total);
          AddedOne(before, earlier, moves, v, w, i);
        }
        AddedAll(before, moves, v, w);
      }
    }

    method ConsiderPort(before: map<Direction, seq<SsvId>>, v: SsvId, d: Direction, total: nat)
      returns (moves: map<Direction, seq<SsvId>>)
      requires IsAway(d) && total == Accesses(accesses, v) && PortCost(accesses, hops, v) > portThreshold
      requires forall e :: e in before ==> before[e] != []
      ensures forall e :: e in moves ==> moves[e] != []
      ensures forall e :: ListFor(moves, e) == if e == d && Mover(d)(v) then ListFor(before, d) + [v] else ListFor(before, e)
    {
      moves := before;
      var count := GetCount(accesses, d, v);
      hide Accesses, PortCost, Count;
      if count > 2 * (total - count) && (!isParentClp || d == UP) {
        if d in moves {
          moves := moves[d := moves[d] + [v]];
        } else {
          moves := moves[d := [v]];
        }
      }
    }

    method TotalAndCost(v: SsvId) returns (total: nat, cost: nat)
      ensures total == Accesses(accesses, v) && cost == PortCost(accesses, hops, v)
    {
      total, cost := 0, 0;
      for i := 0 to |AWAY|
        invariant total == (if i > 0 then Count(accesses, v, UP) else 0) + (if i > 1 then Count(accesses, v, LEFT) else 0) +
                           (if i > 2 then Count(accesses, v, RIGHT) else 0)
        invariant cost == (if i > 0 then Count(accesses, v, UP) * Count(hops, v, UP) else 0) +
                          (if i > 1 then Count(accesses, v, LEFT) * Count(hops, v, LEFT) else 0) +
                          (if i > 2 then Count(accesses, v, RIGHT) * Count(hops, v, RIGHT) else 0)
      {
        var count := GetCount(accesses, AWAY[i], v);
        var hop := GetCount(hops, AWAY[i], v);
        total, cost := total + count, cost + count * hop;
      }
    }
  }

  // ---- The migration map ----

  /** The entries in the order of their ports. */
  function InOrder(moves: map<Direction, seq<SsvId>>, i: nat): seq<(Direction, seq<SsvId>)>
    requires i <= 3
  {
    if i == 0 then []
    else InOrder(moves, i - 1) + if AWAY[i - 1] in moves then [(AWAY[i - 1], moves[AWAY[i - 1]])] else []
  }

  lemma {:induction false} FilterKeepsDistinct(s: seq<SsvId>, p: SsvId -> bool)
    requires NoDuplicates(s)
    ensures NoDuplicates(Filter(s, p))
  {
    if s != [] {
      FilterKeepsDistinct(s[1..], p);
      FilterMember(s[1..], p, s[0]);
    }
  }

  lemma {:induction false} MovedEarlier(moves: seq<(Direction, seq<SsvId>)>, i: nat, v: SsvId)
    requires i <= |moves| && v in Moved(moves, i)
    ensures exists j :: 0 <= j < i && v in moves[j].1
  {
    if v !in moves[i - 1].1 {
      MovedEarlier(moves, i - 1, v);
    }
  }

  lemma {:induction false} InOrderEntries(moves: map<Direction, seq<SsvId>>, k: nat)
    requires k <= 3
    ensures forall i :: 0 <= i < |InOrder(moves, k)| ==>
              var d := InOrder(moves, k)[i].0;
              IsAway(d) && Index(d) <= k && d in moves && InOrder(moves, k)[i].1 == moves[d]
    ensures forall i, j :: 0 <= i < j < |InOrder(moves, k)| ==> InOrder(moves, k)[i].0 != InOrder(moves, k)[j].0
  {
    if k > 0 {
      InOrderEntries(moves, k - 1);
    }
  }

  // ---- The root is never accessed through the port up ----

  /** A variable comes in, goes, or is accessed by an agent of ALP number `alp`. */
  datatype Update = Comes(v: SsvId) | Goes(v: SsvId) | Accessed(v: SsvId, alp: nat, count: nat)

  const NOTHING_YET: Counters := map[UP := 0, LEFT := 0, RIGHT := 0]

  /** An access is counted for the port through which its ALP is reached. */
  ghost predicate IsUpdate(before: map<SsvId, Counters>, after: map<SsvId, Counters>, u: Update, t: Routes, n: nat, alps: nat) {
    match u
    case Comes(v) => after == before[v := NOTHING_YET]
    case Goes(v) => after == before - {v}
    case Accessed(v, i, count) =>
      && i < alps && n + i in t.toRank
      && forall w, e :: Count(after, w, e) == Count(before, w, e) + if w == v && e == t.toRank[n + i] then count else 0
  }

  /** All counters a CLP with table `t` has had, from its start on. */
  datatype History = History(states: seq<map<SsvId, Counters>>, updates: seq<Update>)

  ghost predicate IsHistory(h: History, t: Routes, n: nat, alps: nat) {
    && |h.states| == |h.updates| + 1 && h.states[0] == map[]
    && forall i :: 0 <= i < |h.updates| ==> IsUpdate(h.states[i], h.states[i + 1], h.updates[i], t, n, alps)
  }

  lemma PortIsNotUp(t: Routes, n: nat, homes: seq<nat>, i: nat)
    requires RoutesAlps(t, n, homes, 0) && i < |homes|
    ensures n + i in t.toRank && t.toRank[n + i] != UP
  {
    assert RoutesAlp(t, n + i, homes[i], 0);
    if homes[i] != 0 {
      NextHopIsCloser(0, homes[i]);
      NeighboursOf(0, NextHop(0, homes[i]));
    }
  }

  lemma {:induction false} RootNeverCountsUp(h: History, t: Routes, n: nat, homes: seq<nat>, k: nat, v: SsvId)
    requires RoutesAlps(t, n, homes, 0) && IsHistory(h, t, n, |homes|) && k < |h.states|
    ensures Count(h.states[k], v, UP) == 0
  {
    if k > 0 {
      RootNeverCountsUp(h, t, n, homes, k - 1, v);
      assert IsUpdate(h.states[k - 1], h.states[k], h.updates[k - 1], t, n, |homes|);
      if h.updates[k - 1].Accessed? {
        PortIsNotUp(t, n, homes, h.updates[k - 1].alp);
      }
    }
  }

  /** The port to the parent leads up unless this is the root; the others lead to the children if there are any. */
  lemma AwayPort(t: Routes, n: nat, rank: nat, d: Direction)
    requires n % 2 == 1 && rank < n && RoutesClps(t, n, rank)
    requires (d == UP && rank > 0) || ((d == LEFT || d == RIGHT) && !HasNoChildren(n, rank))
    ensures d in t.atPort && t.atPort[d] < n && Adjacent(rank, t.atPort[d]) && PortTo(rank, t.atPort[d]) == d
  {
    var e := if d == UP then (rank - 1) / 2 else if d == LEFT then 2 * rank + 1 else 2 * rank + 2;
    AdjacentIsNextHop(rank, e);
  }

  lemma EveryMoveLeadsToAClp(moves: map<Direction, seq<SsvId>>, variables: seq<SsvId>, accesses: map<SsvId, Counters>,
                             hops: map<SsvId, Counters>, threshold: nat, n: nat, k: nat, rank: nat, t: Routes, d: Direction,
                             history: History, homes: seq<nat>)
    requires k > 0 && n == Pow2(k) - 1 && rank < n && RoutesClps(t, n, rank)
    requires IsMigrationMap(moves, variables, accesses, hops, threshold, IsParent(n, rank)) && d in moves
    requires RoutesAlps(t, n, homes, rank) && IsHistory(history, t, n, |homes|) && accesses == history.states[|history.updates|]
    ensures IsAway(d) && d in t.atPort && t.atPort[d] < n && Adjacent(rank, t.atPort[d]) && PortTo(rank, t.atPort[d]) == d
  {
    var p := MovesBy(accesses, hops, threshold, IsParent(n, rank), d);
    assert moves[d] == Filter(variables, p) by {
      assert ListFor(moves, d) == Filter(variables, p);
    }
    var v := moves[d][0];
    FilterMember(variables, p, v);
    assert Moves(accesses, hops, threshold, IsParent(n, rank), v, d);
    LeafTestInPerfectTree(n, k, rank);
    PerfectTreeIsOdd(k);
    if rank == 0 {
      RootNeverCountsUp(history, t, n, homes, |history.updates|, v);
    }
    assert d == UP ==> rank > 0;
    hide RoutesClps, Pow2, IsParent, Filter, IsMigrationMap, IsHistory, RoutesAlps;
    AwayPort(t, n, rank, d);
  }

  /** In a perfect tree the map lists every variable under one port at most, and every port in it leads to
      another CLP; so the migration handler can carry it out. */
  lemma MigrationMapIsValid(moves: map<Direction, seq<SsvId>>, variables: seq<SsvId>, accesses: map<SsvId, Counters>,
                            hops: map<SsvId, Counters>, threshold: nat, n: nat, k: nat, rank: nat, t: Routes,
                            held: map<SsvId, Timeline>, history: History, homes: seq<nat>)
    requires k > 0 && n == Pow2(k) - 1 && rank < n && RoutesClps(t, n, rank)
    requires IsMigrationMap(moves, variables, accesses, hops, threshold, IsParent(n, rank))
    requires RoutesAlps(t, n, homes, rank) && IsHistory(history, t, n, |homes|) && accesses == history.states[|history.updates|]
    requires NoDuplicates(variables) && forall v :: v in variables ==> v in held
    ensures forall d :: d in moves ==> d in t.atPort && t.atPort[d] < n && Adjacent(rank, t.atPort[d]) && PortTo(rank, t.atPort[d]) == d
    ensures MovesAreValid(InOrder(moves, 3), t, held)
  {
    forall d | d in moves
      ensures d in t.atPort && t.atPort[d] < n && Adjacent(rank, t.atPort[d]) && PortTo(rank, t.atPort[d]) == d
      ensures NoDuplicates(moves[d])
      ensures forall v :: v in moves[d] ==> v in variables && Moves(accesses, hops, threshold, IsParent(n, rank), v, d)
    {
      EveryMoveLeadsToAClp(moves, variables, accesses, hops, threshold, n, k, rank, t, d, history, homes);
      var p := MovesBy(accesses, hops, threshold, IsParent(n, rank), d);
      assert ListFor(moves, d) == Filter(variables, p);
      FilterKeepsDistinct(variables, p);
      FilterMembers(variables, p);
    }
    var entries := InOrder(moves, 3);
    InOrderEntries(moves, 3);
    hide InOrder, IsParent, RoutesClps, Adjacent, PortTo, Pow2, NoDuplicates;
    forall i, v | 0 <= i < |entries| && v in entries[i].1 ensures v in held && v !in Moved(entries, i) {
      if v in Moved(entries, i) {
        MovedEarlier(entries, i, v);
        var j :| 0 <= j < i && v in entries[j].1;
        MovesOneWay(accesses, hops, threshold, IsParent(n, rank), v, entries[i].0, entries[j].0);
      }
    }
  }
}
