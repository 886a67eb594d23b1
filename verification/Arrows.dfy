/** Variables moving along the edges of the tree: each move updates the tables of its two ends only,
    and still every table points towards the variable. */
module Arrows {
  import opened ForwardingTables
  import opened RouteTables
  import opened Routers
  import opened Timelines
  import opened Trees
  import opened Histories
  import opened Migration

  datatype MigrationMessage = MigrationMessage(origin: nat, destination: nat, variables: map<SsvId, Timeline>)

  /** Tables and variables of all CLPs, and the migration messages sent and not yet processed. */
  datatype Network = Network(tables: seq<Routes>, held: seq<map<SsvId, Timeline>>, flying: map<nat, MigrationMessage>)

  /** A move to a neighbouring CLP, the arrival of message `id`, and any request or truncation that
      changes a variable where it is. */
  datatype Step =
    | Move(from: nat, to: nat, vs: set<SsvId>, id: nat)
    | Arrive(id: nat)
    | Change(at: nat, v: SsvId, l: Timeline)

  ghost predicate WellFormed(net: Network) {
    && |net.held| == |net.tables|
    && AllRoutesClps(net.tables)
    && forall id :: id in net.flying ==>
         var m := net.flying[id];
         m.origin < |net.tables| && m.destination < |net.tables| && Adjacent(m.origin, m.destination)
  }

  ghost predicate Enabled(net: Network, s: Step)
    requires WellFormed(net)
  {
    match s
    case Move(from, to, vs, id) =>
      from < |net.tables| && to < |net.tables| && Adjacent(from, to) && vs <= net.held[from].Keys && id !in net.flying
    case Arrive(id) => id in net.flying
    case Change(at, v, l) => at < |net.tables| && v in net.held[at]
  }

  function Redirect(t: Routes, vs: set<SsvId>, d: Direction): Routes {
    t.(toVariable := t.toVariable + map v | v in vs :: d)
  }

  ghost function Next(net: Network, s: Step): Network
    requires WellFormed(net) && Enabled(net, s)
  {
    match s
    case Move(from, to, vs, id) =>
      Network(net.tables[from := Redirect(net.tables[from], vs, PortTo(from, to))],
              net.held[from := net.held[from] - vs],
              net.flying[id := MigrationMessage(from, to, map v | v in vs :: net.held[from][v])])
    case Arrive(id) =>
      var m := net.flying[id];
      Network(net.tables[m.destination := Redirect(net.tables[m.destination], m.variables.Keys, HERE)],
              net.held[m.destination := net.held[m.destination] + map v | v in m.variables :: ReplayWrites([], m.variables[v])],
              net.flying - {id})
    case Change(at, v, l) =>
      var h: map<SsvId, Timeline> := net.held[at][v := l];
      net.(held := net.held[at := h])
  }

  ghost predicate Holds(net: Network, v: SsvId, x: nat)
    requires WellFormed(net) && x < |net.tables|
  {
    v in net.held[x]
  }

  ghost predicate Carries(net: Network, v: SsvId, id: nat) {
    id in net.flying && v in net.flying[id].variables
  }

  /** The table of `x` names the port on the tree path to `c`. */
  ghost predicate Points(net: Network, v: SsvId, x: nat, c: nat)
    requires WellFormed(net) && x < |net.tables|
  {
    v in net.tables[x].toVariable && net.tables[x].toVariable[v] == PortTo(x, c)
  }

  /** Only `c` holds the variable, and every table points towards `c`. */
  ghost predicate Settled(net: Network, v: SsvId, c: nat)
    requires WellFormed(net)
  {
    && c < |net.tables|
    && (forall x: nat :: x < |net.tables| ==> (Holds(net, v, x) <==> x == c) && Points(net, v, x, c))
    && (forall id :: !Carries(net, v, id))
  }

  /** Where tables point while a message is under way: the receiver back to the sender, all others to the receiver. */
  function Aim(m: MigrationMessage, x: nat): nat {
    if x == m.destination then m.origin else m.destination
  }

  /** Only message `id` holds the variable; its receiver points back to the sender, all others to the receiver. */
  ghost predicate Flying(net: Network, v: SsvId, id: nat)
    requires WellFormed(net)
  {
    && Carries(net, v, id)
    && (forall i :: Carries(net, v, i) ==> i == id)
    && var m := net.flying[id];
       forall x: nat :: x < |net.tables| ==>
         !Holds(net, v, x) && Points(net, v, x, Aim(m, x))
  }

  ghost predicate Located(net: Network, v: SsvId)
    requires WellFormed(net)
  {
    (exists c :: Settled(net, v, c)) || (exists id :: Flying(net, v, id))
  }

  lemma StepKeepsWellFormed(net: Network, s: Step)
    requires WellFormed(net) && Enabled(net, s)
    ensures WellFormed(Next(net, s)) && |Next(net, s).tables| == |net.tables|
  {
    var after := Next(net, s);
    forall c: nat | c < |after.tables| ensures RoutesClps(after.tables[c], |after.tables|, c) {
      assert RoutesClps(net.tables[c], |net.tables|, c);
      hide PortTo, NextHop;
    }
  }

  lemma PortsAcrossEdge(x: nat, a: nat, b: nat)
    requires Adjacent(a, b) && x != a && x != b
    ensures PortTo(x, a) == PortTo(x, b)
  {
    EndsLieTogether(x, a, b);
  }

  /** A variable that is sent off: its receiver still points to the sender. */
  lemma MoveSends(net: Network, from: nat, to: nat, vs: set<SsvId>, id: nat, v: SsvId)
    requires WellFormed(net) && Enabled(net, Move(from, to, vs, id)) && Settled(net, v, from) && v in vs
    ensures WellFormed(Next(net, Move(from, to, vs, id))) && Flying(Next(net, Move(from, to, vs, id)), v, id)
  {
    StepKeepsWellFormed(net, Move(from, to, vs, id));
    var after := Next(net, Move(from, to, vs, id));
    hide PortTo, AllRoutesClps;
    forall x: nat | x < |net.tables|
      ensures !Holds(after, v, x) && Points(after, v, x, Aim(after.flying[id], x))
    {
      assert Holds(net, v, x) <==> x == from;
      assert Points(net, v, x, from);
      if x != from && x != to {
        PortsAcrossEdge(x, from, to);
      }
    }
    forall i ensures Carries(after, v, i) <==> i == id {
      assert !Carries(net, v, i);
    }
  }

  ghost predicate SameAt(net: Network, after: Network, v: SsvId, x: nat)
    requires WellFormed(net) && WellFormed(after) && x < |net.tables| == |after.tables|
  {
    && (v in after.held[x] <==> v in net.held[x])
    && (v in after.tables[x].toVariable <==> v in net.tables[x].toVariable)
    && (v in net.tables[x].toVariable ==> after.tables[x].toVariable[v] == net.tables[x].toVariable[v])
  }

  /** Nothing about `v` differs between the two networks. */
  ghost predicate Unmoved(net: Network, after: Network, v: SsvId)
    requires WellFormed(net) && WellFormed(after)
  {
    && |after.tables| == |net.tables|
    && (forall x: nat :: x < |net.tables| ==> SameAt(net, after, v, x))
    && (forall id :: Carries(net, v, id) <==> Carries(after, v, id))
    && (forall id :: Carries(net, v, id) ==> after.flying[id] == net.flying[id])
  }

  lemma UnmovedStaysLocated(net: Network, after: Network, v: SsvId)
    requires WellFormed(net) && WellFormed(after) && Unmoved(net, after, v) && Located(net, v)
    ensures Located(after, v)
  {
    hide AllRoutesClps;
    forall x: nat | x < |net.tables| ensures Holds(after, v, x) <==> Holds(net, v, x) {
      assert SameAt(net, after, v, x);
    }
    forall x: nat, c: nat | x < |net.tables| ensures Points(net, v, x, c) <==> Points(after, v, x, c) {
      assert SameAt(net, after, v, x);
      hide PortTo;
    }
    hide PortTo, AllRoutesClps, Holds, Points, SameAt;
    if c :| Settled(net, v, c) {
      assert Settled(after, v, c);
    } else {
      var i :| Flying(net, v, i);
      assert Flying(after, v, i);
    }
  }

  /** The step does not carry `v`. */
  ghost predicate Passes(net: Network, s: Step, v: SsvId)
    requires WellFormed(net) && Enabled(net, s)
  {
    match s
    case Move(_, _, vs, _) => v !in vs
    case Arrive(id) => v !in net.flying[id].variables
    case Change(_, _, _) => true
  }

  lemma PassesBy(net: Network, s: Step, v: SsvId, x: nat)
    requires WellFormed(net) && Enabled(net, s) && WellFormed(Next(net, s)) && Passes(net, s, v)
    requires x < |net.tables| == |Next(net, s).tables|
    ensures SameAt(net, Next(net, s), v, x)
  {
    hide AllRoutesClps, PortTo, ReplayWrites;
  }

  lemma OthersStayLocated(net: Network, s: Step, v: SsvId)
    requires WellFormed(net) && Enabled(net, s) && Located(net, v) && Passes(net, s, v)
    ensures WellFormed(Next(net, s)) && Located(Next(net, s), v)
  {
    StepKeepsWellFormed(net, s);
    hide AllRoutesClps, Located, PortTo, ReplayWrites, SameAt;
    forall x: nat | x < |net.tables| ensures SameAt(net, Next(net, s), v, x) {
      PassesBy(net, s, v, x);
    }
    UnmovedStaysLocated(net, Next(net, s), v);
  }

  lemma ArriveDelivers(net: Network, id: nat, v: SsvId)
    requires WellFormed(net) && Enabled(net, Arrive(id)) && Flying(net, v, id)
    ensures WellFormed(Next(net, Arrive(id))) && Settled(Next(net, Arrive(id)), v, net.flying[id].destination)
  {
    StepKeepsWellFormed(net, Arrive(id));
    var after, d := Next(net, Arrive(id)), net.flying[id].destination;
    assert PortTo(d, d) == HERE;
    hide PortTo, AllRoutesClps, ReplayWrites;
    forall x: nat | x < |net.tables|
      ensures Holds(after, v, x) <==> x == d
      ensures Points(after, v, x, d)
    {
      assert !Holds(net, v, x);
      assert x != d ==> Points(net, v, x, Aim(net.flying[id], x));
    }
    forall i ensures !Carries(after, v, i) {
      assert Carries(net, v, i) ==> i == id;
    }
  }

  lemma HeldIsSettled(net: Network, v: SsvId, x: nat)
    requires WellFormed(net) && Located(net, v) && x < |net.tables| && Holds(net, v, x)
    ensures Settled(net, v, x)
  {
  }

  lemma CarriedIsFlying(net: Network, v: SsvId, id: nat)
    requires WellFormed(net) && Located(net, v) && Carries(net, v, id)
    ensures Flying(net, v, id)
  {
  }

  lemma StepKeepsLocated(net: Network, s: Step, v: SsvId)
    requires WellFormed(net) && Enabled(net, s) && Located(net, v)
    ensures WellFormed(Next(net, s)) && Located(Next(net, s), v)
  {
    hide PortTo, AllRoutesClps;
    if s.Move? && v in s.vs {
      HeldIsSettled(net, v, s.from);
      MoveSends(net, s.from, s.to, s.vs, s.id, v);
    } else if s.Arrive? && v in net.flying[s.id].variables {
      CarriedIsFlying(net, v, s.id);
      ArriveDelivers(net, s.id, v);
    } else {
      OthersStayLocated(net, s, v);
    }
  }

  ghost predicate AllEnabled(net: Network, steps: seq<Step>)
    requires WellFormed(net)
    decreases |steps|
  {
    steps == [] ||
    (Enabled(net, steps[0]) &&
     (StepKeepsWellFormed(net, steps[0]);
      AllEnabled(Next(net, steps[0]), steps[1..])))
  }

  ghost function Run(net: Network, steps: seq<Step>): Network
    requires WellFormed(net) && AllEnabled(net, steps)
    decreases |steps|
  {
    if steps == [] then net
    else
      StepKeepsWellFormed(net, steps[0]);
      Run(Next(net, steps[0]), steps[1..])
  }

  /** After any number of moves every variable is at one place and every arrow leads there. */
  lemma {:induction false} ArrowsOverRuns(net: Network, steps: seq<Step>, v: SsvId)
    requires WellFormed(net) && AllEnabled(net, steps) && Located(net, v)
    ensures WellFormed(Run(net, steps)) && Located(Run(net, steps), v)
    ensures |Run(net, steps).tables| == |net.tables|
    decreases |steps|
  {
    if steps != [] {
      StepKeepsWellFormed(net, steps[0]);
      StepKeepsLocated(net, steps[0], v);
      ArrowsOverRuns(Next(net, steps[0]), steps[1..], v);
    }
  }

  /** The tables as the CLPs build them, with every variable where it was placed. */
  lemma InitiallyLocated(net: Network, placement: seq<(nat, seq<SsvId>)>, v: SsvId)
    requires WellFormed(net) && net.flying == map[]
    requires forall x: nat :: x < |net.tables| ==> RoutesVariables(net.tables[x].toVariable, placement, x)
    requires forall x: nat :: x < |net.tables| ==> (Holds(net, v, x) <==> Host(placement, v) == Some(x))
    requires Host(placement, v).Some? && Host(placement, v).value < |net.tables|
    ensures Located(net, v)
  {
    var c := Host(placement, v).value;
    hide PortTo, AllRoutesClps, Host;
    forall x: nat | x < |net.tables| ensures Points(net, v, x, c) {
      assert RoutesVariables(net.tables[x].toVariable, placement, x);
    }
    assert Settled(net, v, c);
  }

  // ---- Requests while variables move ----

  lemma PointedHop(net: Network, v: SsvId, x: nat, c: nat)
    requires WellFormed(net) && x < |net.tables| && c < |net.tables| && Points(net, v, x, c)
    ensures VariableHops(net.tables, v)[x] == if x == c then Here else Forward(NextHop(x, c))
  {
    PortsLeadTo(net.tables, x, c);
  }

  /** A request reaches a settled variable in exactly the tree distance, wherever earlier moves have put it. */
  lemma RequestReachesVariable(net: Network, v: SsvId, c: nat, at: nat, k: nat)
    requires WellFormed(net) && Settled(net, v, c) && at < |net.tables| && k <= Dist(at, c)
    ensures var r := Trip(VariableHops(net.tables, v), at, k);
            r.Some? && r.value < |net.tables|
            && (k == Dist(at, c) <==> r.value == c) && (VariableHops(net.tables, v)[r.value].Here? <==> k == Dist(at, c))
  {
    var hops := VariableHops(net.tables, v);
    forall x: nat | x < |net.tables| ensures hops[x] == if x == c then Here else Forward(NextHop(x, c)) {
      assert Points(net, v, x, c);
      PointedHop(net, v, x, c);
    }
    hide NextHop, Dist, VariableHops;
    TripFollowsThePath(hops, at, c, k);
    PathStep(|net.tables|, at, c, k);
  }

  lemma EdgeHops(net: Network, v: SsvId, id: nat)
    requires WellFormed(net) && Flying(net, v, id)
    ensures var m := net.flying[id];
            && VariableHops(net.tables, v)[m.origin] == Forward(m.destination)
            && VariableHops(net.tables, v)[m.destination] == Forward(m.origin)
  {
    var m := net.flying[id];
    assert Points(net, v, m.origin, Aim(m, m.origin)) && Points(net, v, m.destination, Aim(m, m.destination));
    PointedHop(net, v, m.origin, m.destination);
    PointedHop(net, v, m.destination, m.origin);
    AdjacentIsNextHop(m.origin, m.destination);
    AdjacentIsNextHop(m.destination, m.origin);
  }

  lemma {:induction false} TripBounces(hops: seq<Decision>, at: nat, a: nat, b: nat, k: nat)
    requires at < |hops| && a < |hops| && b < |hops| && LeadTo(hops, b)
    requires hops[a] == Forward(b) && hops[b] == Forward(a)
    ensures Trip(hops, at, Dist(at, b) + k) == Some(if k % 2 == 0 then b else a)
  {
    hide NextHop, Dist, LeadTo;
    if k == 0 {
      TripFollowsThePath(hops, at, b, Dist(at, b));
    } else {
      TripBounces(hops, at, a, b, k - 1);
    }
  }

  /** While the variable is under way, a request goes to the receiver and then back and forth on that edge:
      it is neither lost nor processed at a CLP without the variable. */
  lemma RequestWaitsOnTheEdge(net: Network, v: SsvId, id: nat, at: nat, k: nat)
    requires WellFormed(net) && Flying(net, v, id) && at < |net.tables|
    ensures var m := net.flying[id];
            Trip(VariableHops(net.tables, v), at, Dist(at, m.destination) + k) ==
            Some(if k % 2 == 0 then m.destination else m.origin)
  {
    hide NextHop, Dist, AllRoutesClps, VariableHop, PortTo, Points;
    var hops, m := VariableHops(net.tables, v), net.flying[id];
    EdgeHops(net, v, id);
    forall x: nat | x < |net.tables| && x != m.destination ensures hops[x] == Forward(NextHop(x, m.destination)) {
      assert Points(net, v, x, Aim(m, x));
      PointedHop(net, v, x, m.destination);
    }
    hide VariableHops;
    TripBounces(hops, at, m.origin, m.destination, k);
  }

  // ---- The history a variable takes along ----

  ghost predicate SameHistory(l: Timeline, first: Timeline) {
    Good(l) && TiesOrdered(l) && forall t :: Lookup(l, t) == Lookup(first, t)
  }

  /** The variable, held or under way, still has its first history. */
  ghost predicate Unaltered(net: Network, v: SsvId, first: Timeline)
    requires WellFormed(net)
  {
    && (forall x: nat :: x < |net.tables| && Holds(net, v, x) ==> SameHistory(net.held[x][v], first))
    && (forall id :: Carries(net, v, id) ==> SameHistory(net.flying[id].variables[v], first))
  }

  lemma ReplayKeepsHistory(l: Timeline, first: Timeline)
    requires SameHistory(l, first)
    ensures SameHistory(ReplayWrites([], l), first)
  {
    hide Good, Lookup, ReplayWrites;
    StrippedIsGood(l);
    ReplayRebuildsIff(l);
    forall t ensures Lookup(Stripped(l), t) == Lookup(first, t) {
      StrippedLookups(l, t);
    }
    forall i | 0 < i < |l| ensures TieOrdered(Stripped(l), i) {
      assert TieOrdered(l, i);
    }
  }

  lemma HeldKeepsHistory(net: Network, s: Step, v: SsvId, first: Timeline, x: nat)
    requires WellFormed(net) && Enabled(net, s) && WellFormed(Next(net, s)) && Located(net, v) && Unaltered(net, v, first)
    requires (s.Change? ==> s.v != v) && x < |net.tables| == |Next(net, s).tables| && Holds(Next(net, s), v, x)
    ensures SameHistory(Next(net, s).held[x][v], first)
  {
    hide AllRoutesClps, SameHistory, ReplayWrites, Points;
    if s.Arrive? && x == net.flying[s.id].destination && v in net.flying[s.id].variables {
      assert Carries(net, v, s.id);
      ReplayKeepsHistory(net.flying[s.id].variables[v], first);
    } else {
      assert Holds(net, v, x);
    }
  }

  lemma CarriedKeepsHistory(net: Network, s: Step, v: SsvId, first: Timeline, id: nat)
    requires WellFormed(net) && Enabled(net, s) && WellFormed(Next(net, s)) && Unaltered(net, v, first)
    requires Carries(Next(net, s), v, id)
    ensures SameHistory(Next(net, s).flying[id].variables[v], first)
  {
    hide AllRoutesClps, SameHistory, ReplayWrites, Points;
    if s.Move? && id == s.id {
      assert Holds(net, v, s.from);
    } else {
      assert Carries(net, v, id);
    }
  }

  lemma StepKeepsHistory(net: Network, s: Step, v: SsvId, first: Timeline)
    requires WellFormed(net) && Enabled(net, s) && Located(net, v) && Unaltered(net, v, first)
    requires s.Change? ==> s.v != v
    ensures WellFormed(Next(net, s)) && Unaltered(Next(net, s), v, first)
  {
    StepKeepsWellFormed(net, s);
    hide AllRoutesClps, SameHistory, Next, Located, Holds, Carries;
    forall x: nat | x < |net.tables| && Holds(Next(net, s), v, x) ensures SameHistory(Next(net, s).held[x][v], first) {
      HeldKeepsHistory(net, s, v, first, x);
    }
    forall id | Carries(Next(net, s), v, id) ensures SameHistory(Next(net, s).flying[id].variables[v], first) {
      CarriedKeepsHistory(net, s, v, first, id);
    }
  }

  /** However often a variable has moved, it answers every lookup as before the first move. */
  lemma {:induction false} MovesKeepHistory(net: Network, steps: seq<Step>, v: SsvId, first: Timeline)
    requires WellFormed(net) && AllEnabled(net, steps) && Located(net, v) && Unaltered(net, v, first)
    requires forall s :: s in steps && s.Change? ==> s.v != v
    ensures WellFormed(Run(net, steps)) && Located(Run(net, steps), v) && Unaltered(Run(net, steps), v, first)
    decreases |steps|
  {
    hide AllRoutesClps, Unaltered, Located;
    if steps != [] {
      StepKeepsWellFormed(net, steps[0]);
      StepKeepsLocated(net, steps[0], v);
      StepKeepsHistory(net, steps[0], v, first);
      MovesKeepHistory(Next(net, steps[0]), steps[1..], v, first);
    }
  }
}
