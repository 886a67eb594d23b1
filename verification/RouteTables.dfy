/** Ports of a CLP, and the tables that say through which port a rank or a variable is reached. */
module RouteTables {
  import opened ForwardingTables
  import opened Timelines
  import opened Trees

  datatype Direction = HERE | UP | LEFT | RIGHT | DIRECTION_SIZE
  function Index(d: Direction): nat {
    match d
    case HERE => 0
    case UP => 1
    case LEFT => 2
    case RIGHT => 3
    case DIRECTION_SIZE => 4
  }

  function NextPort(d: Direction): Direction
    requires d != DIRECTION_SIZE
  {
    match d
    case HERE => UP
    case UP => LEFT
    case LEFT => RIGHT
    case RIGHT => DIRECTION_SIZE
  }

  /** The rank the code takes for the parent: for the root an unsigned wrap, and no rank of any tree. */
  function UnsignedParent(r: nat): nat {
    if r == 0 then 0x7FFF_FFFF else (r - 1) / 2
  }

  /** The port of `lp` on the tree path to `r`. */
  function PortTo(lp: nat, r: nat): Direction {
    if r == lp then HERE
    else if NextHop(lp, r) == 2 * lp + 1 then LEFT
    else if NextHop(lp, r) == 2 * lp + 2 then RIGHT
    else UP
  }

  function Children(n: nat, lp: nat): nat {
    if 2 * lp + 2 < n then 2 else if 2 * lp + 1 < n then 1 else 0
  }

  /** How many of the first `i` ALPs are attached to `lp`; ALP `n + i` is attached to `homes[i]`. */
  function Attached(homes: seq<nat>, i: nat, lp: nat): nat
    requires i <= |homes|
  {
    if i == 0 then 0 else Attached(homes, i - 1, lp) + if homes[i - 1] == lp then 1 else 0
  }

  /** The assertion that guards the running direction: the CLP has a port for every child and every ALP. */
  ghost predicate PortsSuffice(n: nat, homes: seq<nat>, lp: nat) {
    Children(n, lp) + Attached(homes, |homes|, lp) <= 2
  }

  /** The first CLP that lists the variable. */
  function Host(placement: seq<(nat, seq<SsvId>)>, v: SsvId): Option<nat> {
    if placement == [] then None
    else if Host(placement[..|placement| - 1], v).Some? then Host(placement[..|placement| - 1], v)
    else if v in placement[|placement| - 1].1 then Some(placement[|placement| - 1].0)
    else None
  }

  datatype Routes = Routes(toRank: map<nat, Direction>, atPort: map<Direction, nat>, toVariable: map<SsvId, Direction>)

  /** Every CLP is reached through the port of the tree path, whose far end is the next CLP of that path. */
  ghost predicate RoutesClps(t: Routes, n: nat, lp: nat) {
    forall r: nat :: r < n ==>
      && r in t.toRank && t.toRank[r] == PortTo(lp, r)
      && (r != lp ==> PortTo(lp, r) in t.atPort && t.atPort[PortTo(lp, r)] == NextHop(lp, r))
  }

  /** An ALP is reached through a port of its own if attached here, else through the port to its CLP; at the root
      that is never the port up. */
  ghost predicate RoutesAlp(t: Routes, alp: nat, home: nat, lp: nat) {
    && alp in t.toRank
    && (home != lp ==> t.toRank[alp] == PortTo(lp, home))
    && (home == lp ==>
          && t.toRank[alp] != HERE && t.toRank[alp] != DIRECTION_SIZE
          && (lp == 0 ==> t.toRank[alp] != UP)
          && t.toRank[alp] in t.atPort && t.atPort[t.toRank[alp]] == alp)
  }

  ghost predicate RoutesAlps(t: Routes, n: nat, homes: seq<nat>, lp: nat) {
    forall i: nat :: i < |homes| ==> RoutesAlp(t, n + i, homes[i], lp)
  }

  ghost predicate RoutesVariables(toVariable: map<SsvId, Direction>, placement: seq<(nat, seq<SsvId>)>, lp: nat) {
    forall v: SsvId ::
      && (v in toVariable <==> Host(placement, v).Some?)
      && (v in toVariable ==> toVariable[v] == PortTo(lp, Host(placement, v).value))
  }

  lemma NearIsAdjacent(lp: nat, r: nat)
    requires r != lp
    ensures Dist(lp, r) <= 1 <==> r == 2 * lp + 1 || r == 2 * lp + 2 || (lp > 0 && r == Parent(lp))
    ensures Dist(lp, r) <= 1 ==> NextHop(lp, r) == r
    ensures Dist(lp, r) > 1 ==> NextHop(lp, r) != lp && NextHop(lp, r) != r && PortTo(lp, NextHop(lp, r)) == PortTo(lp, r)
  {
    NextHopIsCloser(lp, r);
    NextHopIsCloser(lp, NextHop(lp, r));
  }

  // ---- Filling the tables ----

  ghost predicate Knows(table: map<nat, RoutingInfo>, n: nat, lp: nat) {
    forall r: nat :: r < n ==>
      r in table && table[r].hops == Dist(lp, r) && table[r].next == if r == lp then lp else NextHop(lp, r)
  }

  /** The running direction before rank `r` is looked at. */
  function Running(lp: nat, r: nat): nat {
    (if lp == 0 then 2 else if Parent(lp) < r then 2 else 1) +
    (if 2 * lp + 1 < r then 1 else 0) + (if 2 * lp + 2 < r then 1 else 0)
  }

  /** The entries of the neighbours below `upto`. */
  ghost predicate NearRoutes(toRank: map<nat, Direction>, atPort: map<Direction, nat>, upto: nat, lp: nat, next: nat) {
    && (forall r: nat :: r in toRank <==> r == lp || (r < upto && Dist(lp, r) <= 1))
    && (forall r: nat :: r in toRank ==> toRank[r] == PortTo(lp, r))
    && (forall r: nat :: r in toRank && r != lp ==> PortTo(lp, r) in atPort && atPort[PortTo(lp, r)] == r)
    && (forall r: nat :: r in toRank ==> Index(PortTo(lp, r)) < next)
  }

  /** The running direction is the port of the neighbour it is given to. */
  lemma RunningStep(lp: nat, r: nat, d: Direction)
    requires Index(d) == Running(lp, r)
    ensures if r == lp || Dist(lp, r) > 1 then Running(lp, r + 1) == Running(lp, r)
            else d != DIRECTION_SIZE && d == PortTo(lp, r) && Index(NextPort(d)) == Running(lp, r + 1) == Running(lp, r) + 1
  {
    if r != lp {
      NearIsAdjacent(lp, r);
    }
    hide Dist, NextHop;
  }

  lemma NearRoutesAdd(toRank: map<nat, Direction>, atPort: map<Direction, nat>, r: nat, lp: nat, d: Direction)
    requires NearRoutes(toRank, atPort, r, lp, Running(lp, r)) && Index(d) == Running(lp, r)
    ensures r == lp || Dist(lp, r) > 1 ==> NearRoutes(toRank, atPort, r + 1, lp, Running(lp, r + 1))
    ensures r != lp && Dist(lp, r) <= 1 ==>
              && d != DIRECTION_SIZE && Index(NextPort(d)) == Running(lp, r + 1)
              && NearRoutes(toRank[r := d], atPort[d := r], r + 1, lp, Running(lp, r + 1))
    ensures r == lp || Dist(lp, r) > 1 ==> Running(lp, r) == Running(lp, r + 1)
  {
    RunningStep(lp, r, d);
    assert PortTo(lp, lp) == HERE;
    hide Dist, PortTo, Running;
  }

  /** The ports taken by CLPs are the ones before the first free port. */
  ghost predicate ClpPorts(t: Routes, n: nat, lp: nat) {
    RoutesClps(t, n, lp) && forall r: nat :: r < n ==> Index(PortTo(lp, r)) < 2 + Children(n, lp)
  }

  /** The ports of the ALPs attached here lie between the ports of the CLPs and the next free port. */
  ghost predicate AlpPort(t: Routes, alp: nat, home: nat, lp: nat, low: nat, high: nat) {
    RoutesAlp(t, alp, home, lp) && (home == lp ==> low <= Index(t.toRank[alp]) < high)
  }

  ghost predicate AlpPorts(t: Routes, n: nat, homes: seq<nat>, i: nat, lp: nat, high: nat)
    requires i <= |homes|
  {
    forall j: nat :: j < i ==> AlpPort(t, n + j, homes[j], lp, 2 + Children(n, lp), high)
  }

  lemma AttachAlp(t: Routes, n: nat, homes: seq<nat>, i: nat, lp: nat, d: Direction)
    requires i < |homes| && homes[i] == lp && 2 + Children(n, lp) <= Index(d) < 4
    requires ClpPorts(t, n, lp) && AlpPorts(t, n, homes, i, lp, Index(d))
    ensures var u := Routes(t.toRank[n + i := d], t.atPort[d := n + i], t.toVariable);
            ClpPorts(u, n, lp) && AlpPorts(u, n, homes, i + 1, lp, Index(d) + 1)
  {
    hide NextHop, PortTo, Children;
    var low, high := 2 + Children(n, lp), Index(d) + 1;
    var u := Routes(t.toRank[n + i := d], t.atPort[d := n + i], t.toVariable);
    forall j: nat | j < i + 1 ensures AlpPort(u, n + j, homes[j], lp, low, high) {
      if j < i {
        assert AlpPort(t, n + j, homes[j], lp, low, Index(d));
      }
    }
  }

  lemma PassAlp(t: Routes, n: nat, homes: seq<nat>, i: nat, lp: nat, high: nat)
    requires i < |homes| && lp != homes[i] < n
    requires ClpPorts(t, n, lp) && AlpPorts(t, n, homes, i, lp, high)
    ensures homes[i] in t.toRank
    ensures var u := t.(toRank := t.toRank[n + i := t.toRank[homes[i]]]);
            ClpPorts(u, n, lp) && AlpPorts(u, n, homes, i + 1, lp, high)
  {
    hide NextHop, PortTo, Children;
    var low := 2 + Children(n, lp);
    var u := t.(toRank := t.toRank[n + i := t.toRank[homes[i]]]);
    forall j: nat | j < i + 1 ensures AlpPort(u, n + j, homes[j], lp, low, high) {
      if j < i {
        assert AlpPort(t, n + j, homes[j], lp, low, high);
      }
    }
  }

  lemma {:induction false} AttachedGrows(homes: seq<nat>, i: nat, k: nat, lp: nat)
    requires i <= k <= |homes|
    ensures Attached(homes, i, lp) <= Attached(homes, k, lp)
  {
    if i < k {
      AttachedGrows(homes, i, k - 1, lp);
    }
  }

  /** The tables with the first `i` ALPs, and the port of the next one attached here. */
  ghost predicate AlpsUpTo(t: Routes, n: nat, homes: seq<nat>, i: nat, lp: nat, next: Direction)
    requires i <= |homes|
  {
    && PortsSuffice(n, homes, lp)
    && ClpPorts(t, n, lp) && AlpPorts(t, n, homes, i, lp, Index(next))
    && Index(next) == 2 + Children(n, lp) + Attached(homes, i, lp)
  }

  lemma AlpsStep(t: Routes, n: nat, homes: seq<nat>, i: nat, lp: nat, next: Direction)
    requires i < |homes| && homes[i] < n && AlpsUpTo(t, n, homes, i, lp, next)
    ensures homes[i] == lp ==>
              && next != DIRECTION_SIZE
              && AlpsUpTo(Routes(t.toRank[n + i := next], t.atPort[next := n + i], t.toVariable), n, homes, i + 1, lp, NextPort(next))
    ensures homes[i] != lp ==>
              && homes[i] in t.toRank
              && AlpsUpTo(t.(toRank := t.toRank[n + i := t.toRank[homes[i]]]), n, homes, i + 1, lp, next)
  {
    AttachedGrows(homes, i + 1, |homes|, lp);
    if homes[i] == lp {
      AttachAlp(t, n, homes, i, lp, next);
    } else {
      PassAlp(t, n, homes, i, lp, Index(next));
    }
    hide ClpPorts, AlpPorts, Children;
  }

  lemma AlpsRouted(t: Routes, n: nat, homes: seq<nat>, lp: nat, next: Direction)
    requires AlpsUpTo(t, n, homes, |homes|, lp, next)
    ensures RoutesClps(t, n, lp) && RoutesAlps(t, n, homes, lp)
  {
    hide RoutesAlp;
  }

  lemma HostStep(placement: seq<(nat, seq<SsvId>)>, host: nat, listed: seq<SsvId>, v: SsvId)
    ensures Host(placement + [(host, listed)], v) ==
            if Host(placement, v).Some? then Host(placement, v) else if v in listed then Some(host) else None
  {
    assert (placement + [(host, listed)])[..|placement|] == placement;
  }

  /** One more listed variable: the table keeps the entry of an earlier CLP. */
  lemma RoutesVariablesAdd(t: map<SsvId, Direction>, placement: seq<(nat, seq<SsvId>)>, host: nat, listed: seq<SsvId>,
                           v: SsvId, lp: nat)
    requires RoutesVariables(t, placement + [(host, listed)], lp)
    ensures RoutesVariables(if v in t then t else t[v := PortTo(lp, host)], placement + [(host, listed + [v])], lp)
  {
    var u := if v in t then t else t[v := PortTo(lp, host)];
    hide PortTo, Host;
    forall w: SsvId
      ensures w in u <==> Host(placement + [(host, listed + [v])], w).Some?
      ensures w in u ==> u[w] == PortTo(lp, Host(placement + [(host, listed + [v])], w).value)
    {
      HostStep(placement, host, listed, w);
      HostStep(placement, host, listed + [v], w);
    }
  }

  lemma RoutesVariablesNone(t: map<SsvId, Direction>, placement: seq<(nat, seq<SsvId>)>, host: nat, lp: nat)
    requires RoutesVariables(t, placement, lp)
    ensures RoutesVariables(t, placement + [(host, [])], lp)
  {
    hide PortTo;
    forall w: SsvId ensures Host(placement + [(host, [])], w) == Host(placement, w) {
      HostStep(placement, host, [], w);
    }
  }

  /** Behind the port to every CLP is the first CLP of the tree path to it. */
  ghost predicate PortsLead(atPort: map<Direction, nat>, n: nat, lp: nat) {
    forall r: nat :: r < n ==>
      && Index(PortTo(lp, r)) < 2 + Children(n, lp)
      && (r != lp ==> PortTo(lp, r) in atPort && atPort[PortTo(lp, r)] == NextHop(lp, r))
  }

  /** The neighbours' entries, and those of the other CLPs below `rank`. */
  ghost predicate FarRoutes(toRank: map<nat, Direction>, near: map<nat, Direction>, n: nat, rank: nat, lp: nat) {
    && lp in near
    && (forall r: nat :: r in near ==> r in toRank && toRank[r] == near[r] == PortTo(lp, r))
    && (forall r: nat :: r in toRank <==> r in near || r < rank)
    && (forall r: nat :: r < rank ==> toRank[r] == PortTo(lp, r))
    && (forall r: nat :: r < n && r !in near ==> NextHop(lp, r) in near && PortTo(lp, NextHop(lp, r)) == PortTo(lp, r))
  }

  lemma NearRoutesComplete(t: Routes, n: nat, lp: nat)
    requires lp < n && NearRoutes(t.toRank, t.atPort, n, lp, Running(lp, n))
    ensures Running(lp, n) == 2 + Children(n, lp)
    ensures FarRoutes(t.toRank, t.toRank, n, 0, lp) && PortsLead(t.atPort, n, lp)
    ensures forall r: nat :: r < n && r !in t.toRank ==> Dist(lp, r) > 1
  {
    hide Dist, NextHop, PortTo;
    forall r: nat | r < n && r !in t.toRank
      ensures NextHop(lp, r) in t.toRank && PortTo(lp, NextHop(lp, r)) == PortTo(lp, r) && NextHop(lp, r) != lp
      ensures t.atPort[PortTo(lp, r)] == NextHop(lp, r)
    {
      NearIsAdjacent(lp, r);
      PathStaysInTree(n, lp, r);
      NextHopIsCloser(lp, r);
      NearIsAdjacent(lp, NextHop(lp, r));
    }
    forall r: nat | r in t.toRank && r != lp ensures NextHop(lp, r) == r {
      NearIsAdjacent(lp, r);
    }
  }

  lemma FarRoutesAdd(toRank: map<nat, Direction>, near: map<nat, Direction>, n: nat, rank: nat, lp: nat)
    requires rank < n && FarRoutes(toRank, near, n, rank, lp)
    ensures rank in toRank <==> rank in near
    ensures rank in toRank ==> FarRoutes(toRank, near, n, rank + 1, lp)
    ensures rank !in toRank ==>
              && rank != lp && NextHop(lp, rank) in toRank
              && FarRoutes(toRank[rank := toRank[NextHop(lp, rank)]], near, n, rank + 1, lp)
  {
    hide NextHop, PortTo;
  }

  lemma FarRoutesDone(t: Routes, near: map<nat, Direction>, n: nat, lp: nat)
    requires FarRoutes(t.toRank, near, n, n, lp) && PortsLead(t.atPort, n, lp)
    ensures ClpPorts(t, n, lp)
  {
    hide NextHop, PortTo;
  }

  class RouteTable {
    var rankToDirection: map<nat, Direction>
    var directionToRank: map<Direction, nat>
    var ssvidToDirection: map<SsvId, Direction>

    ghost function View(): Routes
      reads this
    {
      Routes(rankToDirection, directionToRank, ssvidToDirection)
    }

    constructor (lp: nat, n: nat, homes: seq<nat>, placement: seq<(nat, seq<SsvId>)>)
      requires lp < n <= 0x7FFF_FFFF
      requires PortsSuffice(n, homes, lp) && forall i :: 0 <= i < |homes| ==> homes[i] < n
      requires forall i :: 0 <= i < |placement| ==> placement[i].0 < n
      ensures RoutesClps(View(), n, lp)
      ensures RoutesAlps(View(), n, homes, lp)
      ensures RoutesVariables(ssvidToDirection, placement, lp)
    {
      rankToDirection, directionToRank, ssvidToDirection := map[], map[], map[];
      new;
      var ft := new ForwardingTable(lp, n);
      hide Dist, NextHop, PortTo, Running, NearRoutes, RoutesVariables, RoutesClps, RoutesAlps, ClpPorts, FarRoutes, PortsLead, PortsSuffice;
      assert Knows(ft.table, n, lp);
      hide Knows;
      AddVariables(lp, n, placement, ft);
      var direction := AddNeighbours(lp, n, ft);
      NearRoutesComplete(View(), n, lp);
      AddFarClps(lp, n, ft);
      AddAlps(lp, n, homes, direction);
    }

    method FindPort(lp: nat, n: nat, host: nat, ft: ForwardingTable) returns (direction: Option<Direction>)
      requires lp < n <= 0x7FFF_FFFF && host < n && Knows(ft.table, n, lp)
      ensures direction == Some(PortTo(lp, host))
    {
      if host == lp {
        return Some(HERE);
      }
      var info := ft.GetRoutingInfo(host);
      NextHopIsCloser(lp, host);
      PathStaysInTree(n, lp, host);
      hide Dist, NextHop;
      if info.value.next == UnsignedParent(lp) {
        return Some(UP);
      } else if info.value.next == 2 * lp + 1 {
        return Some(LEFT);
      } else if info.value.next == 2 * lp + 2 {
        return Some(RIGHT);
      } else {
        return None;
      }
    }

    method AddVariables(lp: nat, n: nat, placement: seq<(nat, seq<SsvId>)>, ft: ForwardingTable)
      requires lp < n <= 0x7FFF_FFFF && Knows(ft.table, n, lp)
      requires forall i :: 0 <= i < |placement| ==> placement[i].0 < n
      requires ssvidToDirection == map[]
      modifies this`ssvidToDirection
      ensures RoutesVariables(ssvidToDirection, placement, lp)
    {
      hide Dist, NextHop, PortTo, Knows;
      assert RoutesVariables(ssvidToDirection, placement[..0], lp);
      for i := 0 to |placement|
        invariant RoutesVariables(ssvidToDirection, placement[..i], lp)
      {
        var host, listed := placement[i].0, placement[i].1;
        RoutesVariablesNone(ssvidToDirection, placement[..i], host, lp);
        assert listed[..0] == [];
        hide Host, RoutesVariables;
        for j := 0 to |listed|
          invariant RoutesVariables(ssvidToDirection, placement[..i] + [(host, listed[..j])], lp)
        {
          var direction := FindPort(lp, n, host, ft);
          RoutesVariablesAdd(ssvidToDirection, placement[..i], host, listed[..j], listed[j], lp);
          assert listed[..j] + [listed[j]] == listed[..j + 1];
          if direction.Some? && listed[j] !in ssvidToDirection {
            ssvidToDirection := ssvidToDirection[listed[j] := direction.value];
          }
        }
        assert listed[..|listed|] == listed;
        assert placement[..i] + [(host, listed)] == placement[..i + 1];
      }
      assert placement[..|placement|] == placement;
    }

    method AddNeighbours(lp: nat, n: nat, ft: ForwardingTable) returns (direction: Direction)
      requires lp < n && Knows(ft.table, n, lp)
      requires rankToDirection == map[] && directionToRank == map[]
      modifies this
      ensures NearRoutes(rankToDirection, directionToRank, n, lp, Running(lp, n))
      ensures Index(direction) == Running(lp, n)
      ensures ssvidToDirection == old(ssvidToDirection)
    {
      rankToDirection := rankToDirection[lp := HERE];
      direction := if lp == 0 then LEFT else UP;
      hide Dist, NextHop;
      for rank := 0 to n
        invariant NearRoutes(rankToDirection, directionToRank, rank, lp, Running(lp, rank))
        invariant Index(direction) == Running(lp, rank)
        invariant ssvidToDirection == old(ssvidToDirection)
      {
        NearRoutesAdd(rankToDirection, directionToRank, rank, lp, direction);
        if rank == lp {
          continue;
        }
        var info := ft.GetRoutingInfo(rank);
        hide NearRoutes, Running;
        if info.value.hops <= 1 {
          rankToDirection := rankToDirection[rank := direction];
          directionToRank := directionToRank[direction := rank];
          direction := NextPort(direction);
        }
      }
    }

    method AddFarClps(lp: nat, n: nat, ft: ForwardingTable)
      requires lp < n && Knows(ft.table, n, lp)
      requires NearRoutes(rankToDirection, directionToRank, n, lp, Running(lp, n))
      modifies this`rankToDirection
      ensures ClpPorts(View(), n, lp)
    {
      hide Dist, NextHop, NearRoutes, PortTo, Running, FarRoutes, PortsLead, ClpPorts, Children;
      NearRoutesComplete(View(), n, lp);
      ghost var near := rankToDirection;
      for rank := 0 to n
        invariant FarRoutes(rankToDirection, near, n, rank, lp)
      {
        FarRoutesAdd(rankToDirection, near, n, rank, lp);
        if rank !in rankToDirection {
          var info := ft.GetRoutingInfo(rank);
          if info.value.hops > 1 {
            rankToDirection := rankToDirection[rank := rankToDirection[info.value.next]];
          }
        }
      }
      FarRoutesDone(View(), near, n, lp);
    }

    method AddAlps(lp: nat, n: nat, homes: seq<nat>, start: Direction)
      requires lp < n && ClpPorts(View(), n, lp) && PortsSuffice(n, homes, lp)
      requires Index(start) == 2 + Children(n, lp)
      requires forall i :: 0 <= i < |homes| ==> homes[i] < n
      modifies this
      ensures RoutesClps(View(), n, lp) && RoutesAlps(View(), n, homes, lp)
      ensures ssvidToDirection == old(ssvidToDirection)
    {
      var direction := start;
      assert AlpsUpTo(View(), n, homes, 0, lp, direction);
      hide RoutesClps, RoutesAlps, AlpsUpTo;
      for i := 0 to |homes|
        invariant AlpsUpTo(View(), n, homes, i, lp, direction)
        invariant ssvidToDirection == old(ssvidToDirection)
      {
        AlpsStep(View(), n, homes, i, lp, direction);
        if homes[i] == lp {
          rankToDirection := rankToDirection[n + i := direction];
          directionToRank := directionToRank[direction := n + i];
          direction := NextPort(direction);
        } else {
          rankToDirection := rankToDirection[n + i := rankToDirection[homes[i]]];
        }
      }
      AlpsRouted(View(), n, homes, lp, direction);
    }

    /** DIRECTION_SIZE for a variable the table does not know. */
    method GetDirectionFromSsvId(v: SsvId) returns (direction: Direction)
      ensures direction == if v in ssvidToDirection then ssvidToDirection[v] else DIRECTION_SIZE
    {
      if v in ssvidToDirection {
        return ssvidToDirection[v];
      }
      return DIRECTION_SIZE;
    }

    /** None where the program exits. */
    method GetDirectionFromRank(rank: nat) returns (direction: Option<Direction>)
      ensures direction == if rank in rankToDirection then Some(rankToDirection[rank]) else None
    {
      if rank in rankToDirection {
        return Some(rankToDirection[rank]);
      }
      return None;
    }

    method GetRankFromDirection(direction: Direction) returns (rank: Option<nat>)
      ensures rank == if direction in directionToRank then Some(directionToRank[direction]) else None
    {
      if direction in directionToRank {
        return Some(directionToRank[direction]);
      }
      return None;
    }

    method SetSsvIdHost(v: SsvId, direction: Direction)
      modifies this`ssvidToDirection
      ensures View() == old(View()).(toVariable := old(View().toVariable)[v := direction])
    {
      ssvidToDirection := ssvidToDirection[v := direction];
    }
  }
}
