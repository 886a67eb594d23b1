/** A request for a variable hops from CLP to CLP while variables move: every hop goes by the tables as they are then. */
module Requests {
  import opened Arrows
  import opened RouteTables
  import opened Routers
  import opened Timelines
  import opened Trees

  /** Where the request is, the CLP that has processed it, or a CLP that had to exit over it. */
  datatype Place = At(rank: nat) | Processed(rank: nat) | Lost(rank: nat)

  /** A step of the network, or one hop of the request. */
  datatype Event = Moves(step: Step) | Hops

  datatype Journey = Journey(net: Network, place: Place)

  ghost predicate Possible(j: Journey, e: Event)
    requires WellFormed(j.net)
  {
    match e
    case Moves(s) => Enabled(j.net, s)
    case Hops => j.place.At? && j.place.rank < |j.net.tables|
  }

  ghost function Hopped(net: Network, v: SsvId, rank: nat): Place
    requires rank < |net.tables|
  {
    match VariableHops(net.tables, v)[rank]
    case Here => Processed(rank)
    case Forward(r) => At(r)
    case Exits => Lost(rank)
  }

  ghost function After(j: Journey, v: SsvId, e: Event): (r: Journey)
    requires WellFormed(j.net) && Possible(j, e)
    ensures WellFormed(r.net) && |r.net.tables| == |j.net.tables|
  {
    match e
    case Moves(s) => StepKeepsWellFormed(j.net, s); j.(net := Next(j.net, s))
    case Hops => j.(place := Hopped(j.net, v, j.place.rank))
  }

  /** The variable is somewhere, and the request at a CLP or done. */
  ghost predicate Fits(j: Journey, v: SsvId) {
    WellFormed(j.net) && Located(j.net, v) && j.place.rank < |j.net.tables| && !j.place.Lost?
  }

  /** A hop leads to a CLP that exists, and only the CLP that holds the variable processes the request. */
  lemma HopFits(net: Network, v: SsvId, rank: nat)
    requires WellFormed(net) && Located(net, v) && rank < |net.tables|
    ensures var p := Hopped(net, v, rank);
            p.rank < |net.tables| && !p.Lost? && (p.Processed? <==> Holds(net, v, rank))
  {
    var target: nat :| target < |net.tables| && Points(net, v, rank, target) && (Holds(net, v, rank) <==> rank == target) by {
      if c :| Settled(net, v, c) {
        assert Points(net, v, rank, c);
      } else {
        var id :| Flying(net, v, id);
        var m := net.flying[id];
        assert Points(net, v, rank, Aim(m, rank)) && !Holds(net, v, rank) && Adjacent(m.origin, m.destination);
        assert rank == m.destination ==> m.origin != rank by {
          AdjacentIsNextHop(m.origin, m.destination);
        }
      }
    }
    PointedHop(net, v, rank, target);
    if rank != target {
      PathStaysInTree(|net.tables|, rank, target);
    }
  }

  lemma EventFits(j: Journey, v: SsvId, e: Event)
    requires Fits(j, v) && Possible(j, e)
    ensures Fits(After(j, v, e), v)
  {
    match e {
      case Moves(s) => StepKeepsLocated(j.net, s, v);
      case Hops => HopFits(j.net, v, j.place.rank);
    }
  }

  ghost predicate AllPossible(j: Journey, v: SsvId, events: seq<Event>)
    requires WellFormed(j.net)
    decreases |events|
  {
    events == [] || (Possible(j, events[0]) && AllPossible(After(j, v, events[0]), v, events[1..]))
  }

  ghost function Run(j: Journey, v: SsvId, events: seq<Event>): (r: Journey)
    requires WellFormed(j.net) && AllPossible(j, v, events)
    ensures WellFormed(r.net) && |r.net.tables| == |j.net.tables|
    decreases |events|
  {
    if events == [] then j else Run(After(j, v, events[0]), v, events[1..])
  }

  /** Whenever the request is processed, the CLP holds the variable at that moment. */
  ghost predicate ProcessedWhereHeld(j: Journey, v: SsvId, events: seq<Event>)
    requires WellFormed(j.net) && AllPossible(j, v, events)
    decreases |events|
  {
    events == [] ||
    (var r := After(j, v, events[0]);
     && (events[0].Hops? && r.place.Processed? ==> Holds(j.net, v, r.place.rank))
     && ProcessedWhereHeld(r, v, events[1..]))
  }

  /** However hops and moves alternate, the request is at one CLP until a CLP that holds the variable processes it. */
  lemma {:induction false} RequestIsNeverLost(j: Journey, v: SsvId, events: seq<Event>)
    requires Fits(j, v) && AllPossible(j, v, events)
    ensures Fits(Run(j, v, events), v) && ProcessedWhereHeld(j, v, events)
    decreases |events|
  {
    assert WellFormed(j.net);
    hide Fits, Possible, Hopped;
    if events != [] {
      EventFits(j, v, events[0]);
      if events[0].Hops? {
        HopIsRight(j, v);
      }
      RequestIsNeverLost(After(j, v, events[0]), v, events[1..]);
    }
  }

  lemma HopIsRight(j: Journey, v: SsvId)
    requires Fits(j, v) && Possible(j, Hops)
    ensures var r := After(j, v, Hops);
            r.net == j.net && (r.place.Processed? ==> r.place.rank == j.place.rank && Holds(j.net, v, r.place.rank))
  {
    HopFits(j.net, v, j.place.rank);
  }

  function HopsOnly(k: nat): seq<Event> {
    seq(k, _ => Hops)
  }

  /** Once the variable has come to rest the request is processed after its distance, with one more hop to take it in. */
  lemma {:induction false} RequestIsDelivered(j: Journey, v: SsvId, c: nat)
    requires WellFormed(j.net) && Settled(j.net, v, c) && j.place.At? && j.place.rank < |j.net.tables|
    ensures AllPossible(j, v, HopsOnly(Dist(j.place.rank, c) + 1))
    ensures Run(j, v, HopsOnly(Dist(j.place.rank, c) + 1)) == j.(place := Processed(c))
    decreases Dist(j.place.rank, c)
  {
    var rank, k := j.place.rank, Dist(j.place.rank, c);
    assert Points(j.net, v, rank, c);
    PointedHop(j.net, v, rank, c);
    assert HopsOnly(k + 1)[0] == Hops && HopsOnly(k + 1)[1..] == HopsOnly(k);
    var next := After(j, v, Hops);
    if rank == c {
      DistIsZero(c);
      assert HopsOnly(0) == [];
    } else {
      NextHopIsCloser(rank, c);
      PathStaysInTree(|j.net.tables|, rank, c);
      assert next == j.(place := At(NextHop(rank, c)));
      hide Dist, NextHop, Settled, VariableHops;
      RequestIsDelivered(next, v, c);
    }
  }

  lemma DistIsZero(c: nat)
    ensures Dist(c, c) == 0
  {
  }

  /** From any start and through any run: never lost, processed at the right place only, and delivered once moves stop. */
  lemma RequestArrivesThroughMoves(j: Journey, v: SsvId, events: seq<Event>)
    requires Fits(j, v) && AllPossible(j, v, events)
    ensures var r := Run(j, v, events);
            && Fits(r, v) && ProcessedWhereHeld(j, v, events)
            && (r.place.At? ==> forall c: nat :: Settled(r.net, v, c) ==>
                  var hops := HopsOnly(Dist(r.place.rank, c) + 1);
                  AllPossible(r, v, hops) && Run(r, v, hops).place == Processed(c))
  {
    RequestIsNeverLost(j, v, events);
    var r := Run(j, v, events);
    if r.place.At? {
      forall c: nat | Settled(r.net, v, c)
        ensures var hops := HopsOnly(Dist(r.place.rank, c) + 1);
                AllPossible(r, v, hops) && Run(r, v, hops).place == Processed(c)
      {
        hide AllPossible, Run, Settled, Dist;
        RequestIsDelivered(r, v, c);
      }
    }
  }
}
