/** Routing one message by the tables of a CLP, and what the tables of all CLPs together do with it. */
module Routers {
  import opened ForwardingTables
  import opened RouteTables
  import opened Timelines
  import opened Trees

  /** Process the message here, pass it to a rank, or exit the program. */
  datatype Decision = Here | Forward(rank: nat) | Exits

  function Hop(t: Routes, d: Direction): Decision {
    if d == HERE then Here
    else if d in t.atPort then Forward(t.atPort[d])
    else Exits
  }

  function VariableHop(t: Routes, v: SsvId): Decision {
    if v !in t.toVariable || t.toVariable[v] == DIRECTION_SIZE then Exits else Hop(t, t.toVariable[v])
  }

  function RankHop(t: Routes, rank: nat): Decision {
    if rank !in t.toRank then Exits else Hop(t, t.toRank[rank])
  }

  class Router {
    const lpRank: nat
    const routeTable: RouteTable

    constructor (lp: nat, n: nat, homes: seq<nat>, placement: seq<(nat, seq<SsvId>)>)
      requires lp < n <= 0x7FFF_FFFF
      requires PortsSuffice(n, homes, lp) && forall i :: 0 <= i < |homes| ==> homes[i] < n
      requires forall i :: 0 <= i < |placement| ==> placement[i].0 < n
      ensures lpRank == lp && fresh(routeTable)
      ensures RoutesClps(routeTable.View(), n, lp)
      ensures RoutesAlps(routeTable.View(), n, homes, lp)
      ensures RoutesVariables(routeTable.View().toVariable, placement, lp)
    {
      lpRank := lp;
      routeTable := new RouteTable(lp, n, homes, placement);
    }

    /** Reads, writes and their anti-messages go to the variable. */
    method RouteToVariable(v: SsvId) returns (decision: Decision)
      ensures decision == VariableHop(routeTable.View(), v)
    {
      var direction := routeTable.GetDirectionFromSsvId(v);
      if direction == DIRECTION_SIZE {
        return Exits;
      }
      if direction == HERE {
        return Here;
      }
      var rank := routeTable.GetRankFromDirection(direction);
      return if rank.Some? then Forward(rank.value) else Exits;
    }

    /** Responses and rollbacks go to the ALP of the original agent. */
    method RouteToAgent(agentRank: nat) returns (decision: Decision)
      ensures decision == RankHop(routeTable.View(), agentRank)
    {
      var direction := routeTable.GetDirectionFromRank(agentRank);
      if direction == None {
        return Exits;
      }
      if direction.value == HERE {
        return Here;
      }
      var rank := routeTable.GetRankFromDirection(direction.value);
      return if rank.Some? then Forward(rank.value) else Exits;
    }

    /** A migration message stops where it was sent. */
    method RouteMigration(destination: nat) returns (here: bool)
      ensures here <==> destination == lpRank
    {
      return destination == lpRank;
    }

    method GetLpRankByDirection(direction: Direction) returns (rank: Option<nat>)
      ensures rank == if direction in routeTable.directionToRank then Some(routeTable.directionToRank[direction]) else None
    {
      rank := routeTable.GetRankFromDirection(direction);
    }

    method SetSsvIdDirection(v: SsvId, direction: Direction)
      modifies routeTable
      ensures routeTable.View() == old(routeTable.View()).(toVariable := old(routeTable.View().toVariable)[v := direction])
    {
      routeTable.SetSsvIdHost(v, direction);
    }
  }

  // ---- Delivery hop by hop ----

  /** Where a message from `at` is after `k` hops, each by the table of the CLP it is at. */
  ghost function Trip(hops: seq<Decision>, at: nat, k: nat): Option<nat> {
    if k == 0 then Some(at)
    else
      var r := Trip(hops, at, k - 1);
      if r.Some? && r.value < |hops| && hops[r.value].Forward? then Some(hops[r.value].rank) else None
  }

  /** Every CLP but the host passes the message to the next CLP of the tree path. */
  ghost predicate LeadTo(hops: seq<Decision>, host: nat) {
    forall c: nat :: c < |hops| && c != host ==> hops[c] == Forward(NextHop(c, host))
  }

  lemma {:induction false} PathStep(n: nat, a: nat, b: nat, k: nat)
    requires a < n && b < n && k <= Dist(a, b)
    ensures |Path(a, b)| == Dist(a, b) + 1
    ensures Path(a, b)[k] < n && Dist(Path(a, b)[k], b) == Dist(a, b) - k
    ensures k < Dist(a, b) ==> Path(a, b)[k] != b && Path(a, b)[k + 1] == NextHop(Path(a, b)[k], b)
    ensures Path(a, b)[0] == a && Path(a, b)[Dist(a, b)] == b
    decreases Dist(a, b)
  {
    PathIsShortestWalk(a, b);
    if a != b {
      NextHopIsCloser(a, b);
      PathStaysInTree(n, a, b);
      PathStep(n, NextHop(a, b), b, if k == 0 then 0 else k - 1);
    }
  }

  /** A message follows the tree path to the host and no other way. */
  lemma {:induction false} TripFollowsThePath(hops: seq<Decision>, at: nat, host: nat, k: nat)
    requires at < |hops| && host < |hops| && LeadTo(hops, host)
    requires k <= Dist(at, host)
    ensures |Path(at, host)| == Dist(at, host) + 1
    ensures Trip(hops, at, k) == Some(Path(at, host)[k])
    ensures k < Dist(at, host) ==> Path(at, host)[k] != host
    ensures k == Dist(at, host) ==> Path(at, host)[k] == host
  {
    PathStep(|hops|, at, host, k);
    if k > 0 {
      TripFollowsThePath(hops, at, host, k - 1);
      PathStep(|hops|, at, host, k - 1);
    }
  }

  function VariableHops(tables: seq<Routes>, v: SsvId): seq<Decision> {
    seq(|tables|, c requires 0 <= c < |tables| => VariableHop(tables[c], v))
  }

  function RankHops(tables: seq<Routes>, rank: nat): seq<Decision> {
    seq(|tables|, c requires 0 <= c < |tables| => RankHop(tables[c], rank))
  }

  ghost predicate AllRoutesClps(tables: seq<Routes>) {
    forall c: nat :: c < |tables| ==> RoutesClps(tables[c], |tables|, c)
  }

  lemma PortsLeadTo(tables: seq<Routes>, c: nat, host: nat)
    requires AllRoutesClps(tables) && c < |tables| && host < |tables|
    ensures Hop(tables[c], PortTo(c, host)) == if c == host then Here else Forward(NextHop(c, host))
    ensures PortTo(c, host) != DIRECTION_SIZE
  {
    assert RoutesClps(tables[c], |tables|, c);
  }

  /** A variable request reaches the host in exactly the tree distance, and is processed there and not before. */
  lemma VariableRequestArrives(tables: seq<Routes>, placement: seq<(nat, seq<SsvId>)>, at: nat, v: SsvId, host: nat, k: nat)
    requires AllRoutesClps(tables)
    requires forall c: nat :: c < |tables| ==> RoutesVariables(tables[c].toVariable, placement, c)
    requires Host(placement, v) == Some(host) && host < |tables| && at < |tables|
    requires k <= Dist(at, host)
    ensures var r := Trip(VariableHops(tables, v), at, k);
            && r.Some? && r.value < |tables|
            && (VariableHop(tables[r.value], v).Here? <==> k == Dist(at, host))
            && (k == Dist(at, host) <==> r.value == host)
  {
    var hops := VariableHops(tables, v);
    forall c: nat | c < |tables| ensures hops[c] == if c == host then Here else Forward(NextHop(c, host)) {
      PortsLeadTo(tables, c, host);
      assert RoutesVariables(tables[c].toVariable, placement, c);
      hide PortTo, NextHop, Hop, RoutesClps;
    }
    hide NextHop, Dist, VariableHops, VariableHop;
    TripFollowsThePath(hops, at, host, k);
    PathStep(|tables|, at, host, k);
    assert hops[Path(at, host)[k]] == VariableHop(tables[Path(at, host)[k]], v);
  }

  lemma AgentHop(tables: seq<Routes>, homes: seq<nat>, c: nat, i: nat)
    requires AllRoutesClps(tables) && c < |tables| && i < |homes| && homes[i] < |tables|
    requires RoutesAlps(tables[c], |tables|, homes, c)
    ensures RankHop(tables[c], |tables| + i) ==
            Forward(if c == homes[i] then |tables| + i else NextHop(c, homes[i]))
  {
    PortsLeadTo(tables, c, homes[i]);
    assert RoutesAlp(tables[c], |tables| + i, homes[i], c);
  }

  /** A response or rollback reaches its ALP one hop after the tree distance to the CLP the ALP is attached to;
      no CLP on the way takes it for its own. */
  lemma AgentMessageArrives(tables: seq<Routes>, homes: seq<nat>, at: nat, i: nat, k: nat)
    requires AllRoutesClps(tables)
    requires forall c: nat :: c < |tables| ==> RoutesAlps(tables[c], |tables|, homes, c)
    requires i < |homes| && homes[i] < |tables| && at < |tables|
    requires k <= Dist(at, homes[i])
    ensures var hops := RankHops(tables, |tables| + i);
            && (var r := Trip(hops, at, k);
                r.Some? && r.value < |tables| && hops[r.value].Forward? && (k == Dist(at, homes[i]) <==> r.value == homes[i]))
            && Trip(hops, at, Dist(at, homes[i]) + 1) == Some(|tables| + i)
  {
    hide *;
    AgentHops(tables, homes, i);
    AgentTrip(RankHops(tables, |tables| + i), |tables| + i, at, homes[i], k);
  }

  lemma AgentHops(tables: seq<Routes>, homes: seq<nat>, i: nat)
    requires AllRoutesClps(tables) && i < |homes| && homes[i] < |tables|
    requires forall c: nat :: c < |tables| ==> RoutesAlps(tables[c], |tables|, homes, c)
    ensures var hops, alp := RankHops(tables, |tables| + i), |tables| + i;
            |hops| == |tables| &&
            forall c: nat :: c < |hops| ==> hops[c] == if c == homes[i] then Forward(alp) else Forward(NextHop(c, homes[i]))
  {
    hide NextHop, RankHop, RoutesAlps, AllRoutesClps;
    forall c: nat | c < |tables|
      ensures RankHop(tables[c], |tables| + i) == Forward(if c == homes[i] then |tables| + i else NextHop(c, homes[i]))
    {
      AgentHop(tables, homes, c, i);
    }
  }

  lemma AgentTrip(hops: seq<Decision>, alp: nat, at: nat, host: nat, k: nat)
    requires at < |hops| && host < |hops| && k <= Dist(at, host)
    requires forall c: nat :: c < |hops| ==> hops[c] == if c == host then Forward(alp) else Forward(NextHop(c, host))
    ensures var r := Trip(hops, at, k);
            r.Some? && r.value < |hops| && hops[r.value].Forward? && (k == Dist(at, host) <==> r.value == host)
    ensures Trip(hops, at, Dist(at, host) + 1) == Some(alp)
  {
    hide NextHop, Dist;
    TripFollowsThePath(hops, at, host, k);
    TripFollowsThePath(hops, at, host, Dist(at, host));
    PathStep(|hops|, at, host, k);
  }
}
