/** One range query at one CLP: on first sight it is read here and passed on, later its replies are gathered. */
module RangeQueries {
  import opened RangeTrackers
  import opened Routers
  import opened RouteTables
  import opened Timelines

  datatype RangeQuery = RangeQuery(origin: nat, destination: nat, identifier: nat, agentRank: nat, hops: nat, values: Values)

  /** What the CLP finds when it first sees the query: the ports with a range period at its time, the ports
      whose range overlaps the query, and the variables of its own that the query matches. */
  datatype Sight = Sight(periods: set<Direction>, overlaps: set<Direction>, local: Values)

  /** No query goes through a port to an ALP, nor up from the root. */
  predicate IsTarget(rank: nat, n: nat, origin: Direction, d: Direction) {
    && d != origin && IsPort(d)
    && !(rank >= n / 2 && (d == LEFT || d == RIGHT))
    && !(rank == 0 && d == UP)
  }

  predicate IsForwarded(rank: nat, n: nat, origin: Direction, sight: Sight, d: Direction) {
    IsTarget(rank, n, origin, d) && d != HERE && d in sight.periods && d in sight.overlaps
  }

  /** A port stays open while its answer is awaited, and for ever if it has no range period. */
  function StatusAfter(rank: nat, n: nat, origin: Direction, sight: Sight, d: Direction): ScanStatus {
    if d == origin then AVOID_SCAN
    else if IsTarget(rank, n, origin, d) && (d !in sight.periods || IsForwarded(rank, n, origin, sight, d)) then NOT_SCANNED
    else SCANNED
  }

  function LocalRead(sight: Sight): Values {
    if HERE in sight.periods && HERE in sight.overlaps then sight.local else map[]
  }

  function EntryAfter(rank: nat, n: nat, origin: Direction, hops: nat, values: Values, sight: Sight): Entry {
    Entry(origin, hops, Insert(values, LocalRead(sight)),
          map d: Direction | IsPort(d) :: StatusAfter(rank, n, origin, sight, d))
  }

  /** The message passed on through a port. */
  function Passed(rank: nat, n: nat, t: Routes, origin: Direction, sight: Sight, m: RangeQuery, d: Direction): seq<RangeQuery> {
    if IsForwarded(rank, n, origin, sight, d) && d in t.atPort
    then [m.(origin := rank, destination := t.atPort[d], hops := 0, values := map[])]
    else []
  }

  function Forwarded(rank: nat, n: nat, t: Routes, origin: Direction, sight: Sight, m: RangeQuery, ports: seq<Direction>): seq<RangeQuery> {
    if ports == [] then []
    else Forwarded(rank, n, t, origin, sight, m, ports[..|ports| - 1]) + Passed(rank, n, t, origin, sight, m, ports[|ports| - 1])
  }

  /** All ports but the one the query came through. */
  function OtherPorts(origin: Direction): seq<Direction> {
    Outstanding(Fresh(origin, 0, map[]), 4)
  }

  /** What is left of the entry, and the messages sent. */
  datatype Outcome = Outcome(entry: Option<Entry>, sent: seq<RangeQuery>)

  /** With no port open the collected values go back where the query came from. */
  function Completed(rank: nat, t: Routes, e: Entry, sent: seq<RangeQuery>, m: RangeQuery): Outcome {
    if Outstanding(e, 4) == [] && e.origin in t.atPort
    then Outcome(None, sent + [m.(origin := rank, destination := t.atPort[e.origin], hops := e.hops, values := e.values)])
    else Outcome(Some(e), sent)
  }

  function FirstSeen(rank: nat, n: nat, t: Routes, m: RangeQuery, sight: Sight): Outcome
    requires m.agentRank in t.toRank
  {
    var origin := t.toRank[m.agentRank];
    Completed(rank, t, EntryAfter(rank, n, origin, m.hops, m.values, sight), Forwarded(rank, n, t, origin, sight, m, OtherPorts(origin)), m)
  }

  function Replied(rank: nat, t: Routes, e: Entry, m: RangeQuery): Outcome
    requires m.origin in t.toRank
  {
    Completed(rank, t, Entry(e.origin, e.hops + m.hops, Insert(e.values, m.values), e.status[t.toRank[m.origin] := SCANNED]), [], m)
  }

  function Handled(rank: nat, n: nat, t: Routes, entry: Option<Entry>, m: RangeQuery, sight: Sight): Outcome
    requires m.agentRank in t.toRank && m.origin in t.toRank
  {
    if entry == None then FirstSeen(rank, n, t, m, sight) else Replied(rank, t, entry.value, m)
  }

  function Lookup(entries: map<nat, Entry>, q: nat): Option<Entry> {
    if q in entries then Some(entries[q]) else None
  }

  function Update(entries: map<nat, Entry>, q: nat, e: Option<Entry>): map<nat, Entry> {
    if e == None then entries - {q} else entries[q := e.value]
  }

  /** The entry in the loop over the open ports, when some of them are done. */
  function EntryAt(rank: nat, n: nat, origin: Direction, hops: nat, values: Values, sight: Sight, done: seq<Direction>): Entry {
    Entry(origin, hops, if HERE in done then Insert(values, LocalRead(sight)) else values,
          map d: Direction | IsPort(d) ::
            if d == origin then AVOID_SCAN else if d in done then StatusAfter(rank, n, origin, sight, d) else NOT_SCANNED)
  }

  /** What one turn of the loop does to the entry. */
  function Scanned(e: Entry, rank: nat, n: nat, origin: Direction, sight: Sight, d: Direction): Entry {
    if IsTarget(rank, n, origin, d) && (d !in sight.periods || (d in sight.overlaps && d != HERE)) then e
    else e.(status := e.status[d := SCANNED], values := Insert(e.values, if d == HERE then LocalRead(sight) else map[]))
  }

  /** A port closes at once if no CLP is behind it, or if its range is here or does not overlap; only an
      overlapping range of this CLP is read. */
  lemma ScannedIs(e: Entry, rank: nat, n: nat, origin: Direction, sight: Sight, d: Direction)
    requires d != origin && IsPort(d)
    ensures Scanned(e, rank, n, origin, sight, d) == e.(
              values := if d == HERE && HERE in sight.periods && HERE in sight.overlaps then Insert(e.values, sight.local) else e.values,
              status := if (rank >= n / 2 && (d == LEFT || d == RIGHT)) || (rank == 0 && d == UP) ||
                           (d in sight.periods && (d == HERE || d !in sight.overlaps))
                        then e.status[d := SCANNED] else e.status)
  {
    assert Insert(e.values, map[]) == e.values;
  }

  lemma ScanStep(rank: nat, n: nat, origin: Direction, hops: nat, values: Values, sight: Sight, done: seq<Direction>, d: Direction)
    requires d != origin && IsPort(d) && d !in done
    ensures Scanned(EntryAt(rank, n, origin, hops, values, sight, done), rank, n, origin, sight, d) ==
            EntryAt(rank, n, origin, hops, values, sight, done + [d])
  {
    var e := Scanned(EntryAt(rank, n, origin, hops, values, sight, done), rank, n, origin, sight, d);
    var f := EntryAt(rank, n, origin, hops, values, sight, done + [d]);
    ScanStepValues(rank, n, origin, hops, values, sight, done, d);
    hide IsTarget, LocalRead, Insert;
    assert e.status == f.status;
  }

  lemma ScanStepValues(rank: nat, n: nat, origin: Direction, hops: nat, values: Values, sight: Sight, done: seq<Direction>, d: Direction)
    requires d != origin && IsPort(d) && d !in done
    ensures Scanned(EntryAt(rank, n, origin, hops, values, sight, done), rank, n, origin, sight, d).values ==
            EntryAt(rank, n, origin, hops, values, sight, done + [d]).values
  {
    assert Insert(values, map[]) == values && Insert(Insert(values, LocalRead(sight)), map[]) == Insert(values, LocalRead(sight));
    hide Insert, StatusAfter;
  }

  lemma OtherPortsAre(origin: Direction)
    ensures forall d :: d in OtherPorts(origin) <==> IsPort(d) && d != origin
  {
    var e := Fresh(origin, 0, map[]);
    assert forall d :: IsPort(d) ==> StatusOf(e, d) == if d == origin then AVOID_SCAN else NOT_SCANNED;
    assert forall d :: IsPort(d) <==> Index(d) < 4;
    hide Outstanding, StatusOf, Fresh, Index, IsPort;
    forall d ensures d in OtherPorts(origin) <==> IsPort(d) && d != origin {
      OutstandingPorts(e, 4, d);
    }
  }

  lemma ScanStart(rank: nat, n: nat, origin: Direction, hops: nat, values: Values, sight: Sight)
    ensures EntryAt(rank, n, origin, hops, values, sight, []) == Fresh(origin, hops, values)
  {
    hide StatusAfter, LocalRead, Insert;
    assert EntryAt(rank, n, origin, hops, values, sight, []).status == Fresh(origin, hops, values).status;
  }

  lemma OriginIsAvoided(rank: nat, n: nat, origin: Direction, sight: Sight)
    ensures StatusAfter(rank, n, origin, sight, origin) == AVOID_SCAN
  {
  }

  lemma ScanDone(rank: nat, n: nat, origin: Direction, hops: nat, values: Values, sight: Sight)
    requires origin != HERE
    ensures EntryAt(rank, n, origin, hops, values, sight, OtherPorts(origin)) == EntryAfter(rank, n, origin, hops, values, sight)
  {
    hide StatusAfter, LocalRead, OtherPorts, Insert;
    OtherPortsAre(origin);
    OriginIsAvoided(rank, n, origin, sight);
    assert EntryAt(rank, n, origin, hops, values, sight, OtherPorts(origin)).status ==
           EntryAfter(rank, n, origin, hops, values, sight).status;
  }

  /** The entry in terms of what was found: what it holds, and which ports it waits for. */
  lemma EntryAfterIs(rank: nat, n: nat, origin: Direction, hops: nat, values: Values, sight: Sight)
    ensures var e := EntryAfter(rank, n, origin, hops, values, sight);
            && (forall v :: v in e.values <==> v in values || (HERE in sight.periods && HERE in sight.overlaps && v in sight.local))
            && (forall v :: v in e.values ==> e.values[v] == if v in values then values[v] else sight.local[v])
            && (forall d :: StatusOf(e, d) == NOT_SCANNED <==>
                  && d != DIRECTION_SIZE && d != origin
                  && !(rank >= n / 2 && (d == LEFT || d == RIGHT)) && !(rank == 0 && d == UP)
                  && (d !in sight.periods || (d != HERE && d in sight.overlaps)))
  {
  }

  /** The query goes once through every such port that overlaps. */
  lemma {:induction false} ForwardedIs(rank: nat, n: nat, t: Routes, origin: Direction, sight: Sight, m: RangeQuery, ports: seq<Direction>, x: RangeQuery)
    requires forall d :: d in ports ==> IsPort(d) && d != origin
    ensures x in Forwarded(rank, n, t, origin, sight, m, ports) <==>
            exists d :: d in ports && d != HERE && d in sight.periods && d in sight.overlaps && d in t.atPort &&
                        !(rank >= n / 2 && (d == LEFT || d == RIGHT)) && !(rank == 0 && d == UP) &&
                        x == m.(origin := rank, destination := t.atPort[d], hops := 0, values := map[])
  {
    if ports != [] {
      var init, last := ports[..|ports| - 1], ports[|ports| - 1];
      ForwardedIs(rank, n, t, origin, sight, m, init, x);
      assert ports == init + [last] && last in ports;
    }
  }

  lemma AllForwarded(rank: nat, n: nat, t: Routes, origin: Direction, sight: Sight, m: RangeQuery, x: RangeQuery)
    ensures x in Forwarded(rank, n, t, origin, sight, m, OtherPorts(origin)) <==> exists d ::
              && d != DIRECTION_SIZE && d != origin && d != HERE && d in sight.periods && d in sight.overlaps && d in t.atPort
              && !(rank >= n / 2 && (d == LEFT || d == RIGHT)) && !(rank == 0 && d == UP)
              && x == m.(origin := rank, destination := t.atPort[d], hops := 0, values := map[])
  {
    OtherPortsAre(origin);
    hide Forwarded, OtherPorts;
    ForwardedIs(rank, n, t, origin, sight, m, OtherPorts(origin), x);
  }

  lemma InsertNothing(values: Values)
    ensures Insert(values, map[]) == values
  {
  }

  lemma ForwardNone(rank: nat, n: nat, t: Routes, origin: Direction, sight: Sight, m: RangeQuery)
    ensures Forwarded(rank, n, t, origin, sight, m, []) == []
  {
  }

  lemma ForwardStep(rank: nat, n: nat, t: Routes, origin: Direction, sight: Sight, m: RangeQuery, ports: seq<Direction>, i: nat)
    requires i < |ports|
    ensures ports[..i + 1] == ports[..i] + [ports[i]]
    ensures Forwarded(rank, n, t, origin, sight, m, ports[..i + 1]) ==
            Forwarded(rank, n, t, origin, sight, m, ports[..i]) + Passed(rank, n, t, origin, sight, m, ports[i])
  {
    assert ports[..i + 1][..i] == ports[..i];
  }

  lemma SamePorts(origin: Direction, hops: nat, values: Values)
    ensures Outstanding(Fresh(origin, hops, values), 4) == OtherPorts(origin)
  {
    SameStatusSamePorts(Fresh(origin, hops, values), Fresh(origin, 0, map[]), 4);
  }

  lemma {:induction false} SameStatusSamePorts(e: Entry, f: Entry, i: nat)
    requires e.status == f.status && i <= 4
    ensures Outstanding(e, i) == Outstanding(f, i)
  {
    if i > 0 {
      SameStatusSamePorts(e, f, i - 1);
    }
  }

  lemma PortsDiffer(origin: Direction, i: nat)
    requires i < |OtherPorts(origin)|
    ensures OtherPorts(origin)[i] !in OtherPorts(origin)[..i]
  {
    OutstandingIncreases(Fresh(origin, 0, map[]), 4, i);
  }

  lemma {:induction false} OutstandingIncreases(e: Entry, k: nat, i: nat)
    requires k <= 4 && i < |Outstanding(e, k)|
    ensures Outstanding(e, k)[i] !in Outstanding(e, k)[..i]
  {
    if i < |Outstanding(e, k - 1)| {
      OutstandingIncreases(e, k - 1, i);
      assert Outstanding(e, k)[..i] == Outstanding(e, k - 1)[..i];
    } else {
      assert Outstanding(e, k)[..i] == Outstanding(e, k - 1);
      OutstandingPorts(e, k - 1, PORTS[k - 1]);
    }
  }

  /** The loop over the open ports after `i` turns: the entry, and what was sent. */
  ghost predicate Scanning(before: map<nat, Entry>, view: map<nat, Entry>, sent: seq<RangeQuery>, rank: nat, n: nat,
                           t: Routes, origin: Direction, sight: Sight, m: RangeQuery, i: nat) {
    && i <= |OtherPorts(origin)|
    && view == before[m.identifier := EntryAt(rank, n, origin, m.hops, m.values, sight, OtherPorts(origin)[..i])]
    && sent == Forwarded(rank, n, t, origin, sight, m, OtherPorts(origin)[..i])
  }

  lemma ScanningStarts(before: map<nat, Entry>, rank: nat, n: nat, t: Routes, origin: Direction, sight: Sight, m: RangeQuery)
    ensures Scanning(before, before[m.identifier := Fresh(origin, m.hops, m.values)], [], rank, n, t, origin, sight, m, 0)
  {
    ScanStart(rank, n, origin, m.hops, m.values, sight);
    ForwardNone(rank, n, t, origin, sight, m);
    hide EntryAt, Fresh, Forwarded;
    assert OtherPorts(origin)[..0] == [];
  }

  lemma UpdateTwice(entries: map<nat, Entry>, q: nat, e: Entry, f: Entry)
    ensures entries[q := e][q := f] == entries[q := f]
  {
  }

  lemma ScanningStep(before: map<nat, Entry>, view: map<nat, Entry>, sent: seq<RangeQuery>, rank: nat, n: nat,
                     t: Routes, origin: Direction, sight: Sight, m: RangeQuery, i: nat)
    requires i < |OtherPorts(origin)| && Scanning(before, view, sent, rank, n, t, origin, sight, m, i)
    ensures m.identifier in view && IsPort(OtherPorts(origin)[i]) && OtherPorts(origin)[i] != origin
    ensures var d := OtherPorts(origin)[i];
            Scanning(before, view[m.identifier := Scanned(view[m.identifier], rank, n, origin, sight, d)],
                     sent + Passed(rank, n, t, origin, sight, m, d), rank, n, t, origin, sight, m, i + 1)
  {
    var ports := OtherPorts(origin);
    OtherPortsAre(origin);
    assert ports[i] in ports;
    PortsDiffer(origin, i);
    ScanStep(rank, n, origin, m.hops, m.values, sight, ports[..i], ports[i]);
    ForwardStep(rank, n, t, origin, sight, m, ports, i);
    hide EntryAt, Scanned, Forwarded, OtherPorts, IsPort;
    UpdateTwice(before, m.identifier, EntryAt(rank, n, origin, m.hops, m.values, sight, ports[..i]),
                EntryAt(rank, n, origin, m.hops, m.values, sight, ports[..i + 1]));
  }

  lemma ScanningEnds(before: map<nat, Entry>, view: map<nat, Entry>, sent: seq<RangeQuery>, rank: nat, n: nat,
                     t: Routes, origin: Direction, sight: Sight, m: RangeQuery)
    requires origin != HERE && Scanning(before, view, sent, rank, n, t, origin, sight, m, |OtherPorts(origin)|)
    ensures view == before[m.identifier := EntryAfter(rank, n, origin, m.hops, m.values, sight)]
    ensures sent == Forwarded(rank, n, t, origin, sight, m, OtherPorts(origin))
  {
    ScanDone(rank, n, origin, m.hops, m.values, sight);
    hide EntryAt, EntryAfter, Forwarded;
    assert OtherPorts(origin)[..|OtherPorts(origin)|] == OtherPorts(origin);
  }

  class RangeQueryHandler {
    const rank: nat
    const clps: nat
    const routeTable: RouteTable
    const tracker: RangeTracker

    constructor (rank: nat, clps: nat, routeTable: RouteTable, tracker: RangeTracker)
      ensures this.rank == rank && this.clps == clps && this.routeTable == routeTable && this.tracker == tracker
    {
      this.rank, this.clps, this.routeTable, this.tracker := rank, clps, routeTable, tracker;
    }

    ghost predicate Valid()
      reads tracker
    {
      tracker.Valid() && routeTable !in tracker.Repr
    }

    /** The route table knows every rank; the port of the agent leads somewhere. */
    ghost predicate CanRoute(m: RangeQuery)
      reads routeTable
    {
      var t := routeTable.View();
      && m.agentRank in t.toRank && m.origin in t.toRank && t.toRank[m.agentRank] != HERE && IsPort(t.toRank[m.agentRank])
      && t.toRank[m.agentRank] in t.atPort
      && forall d :: IsTarget(rank, clps, t.toRank[m.agentRank], d) && d != HERE ==> d in t.atPort
    }

    method FirstSight(m: RangeQuery, sight: Sight) returns (sent: seq<RangeQuery>)
      requires Valid() && CanRoute(m) && m.identifier !in tracker.View()
      modifies tracker, tracker.Repr
      ensures Valid() && fresh(tracker.Repr - old(tracker.Repr))
      ensures var origin := routeTable.View().toRank[m.agentRank];
              && tracker.View() == old(tracker.View())[m.identifier := EntryAfter(rank, clps, origin, m.hops, m.values, sight)]
              && sent == Forwarded(rank, clps, routeTable.View(), origin, sight, m, OtherPorts(origin))
      ensures var e := tracker.View()[m.identifier];
              && (forall v :: v in e.values <==> v in m.values || (HERE in sight.periods && HERE in sight.overlaps && v in sight.local))
              && (forall v :: v in e.values ==> e.values[v] == if v in m.values then m.values[v] else sight.local[v])
              && (forall d :: StatusOf(e, d) == NOT_SCANNED <==>
                    && d != DIRECTION_SIZE && d != routeTable.View().toRank[m.agentRank]
                    && !(rank >= clps / 2 && (d == LEFT || d == RIGHT)) && !(rank == 0 && d == UP)
                    && (d !in sight.periods || (d != HERE && d in sight.overlaps)))
      ensures forall x :: x in sent <==> exists d ::
                && d != DIRECTION_SIZE && d != routeTable.View().toRank[m.agentRank]
                && d != HERE && d in sight.periods && d in sight.overlaps && d in routeTable.View().atPort
                && !(rank >= clps / 2 && (d == LEFT || d == RIGHT)) && !(rank == 0 && d == UP)
                && x == m.(origin := rank, destination := routeTable.View().atPort[d], hops := 0, values := map[])
    {
      hide EntryAt, EntryAfter, Scanned, Forwarded, OtherPorts, Scanning, Outstanding, Fresh, RangeTracker.Valid, RangeTracker.View;
      var origin := routeTable.GetDirectionFromRank(m.agentRank);
      var incoming := origin.value;
      tracker.CreateEntry(m.identifier, m.values, incoming, m.hops);
      var ports := tracker.GetOutstandingPorts(m.identifier);
      sent := [];
      ghost var t, before := routeTable.View(), old(tracker.View());
      SamePorts(incoming, m.hops, m.values);
      ScanningStarts(before, rank, clps, t, incoming, sight, m);
      for i := 0 to |ports|
        invariant Valid() && fresh(tracker.Repr - old(tracker.Repr))
        invariant Scanning(before, tracker.View(), sent, rank, clps, t, incoming, sight, m, i)
      {
        ScanningStep(before, tracker.View(), sent, rank, clps, t, incoming, sight, m, i);
        ScannedIs(tracker.View()[m.identifier], rank, clps, incoming, sight, ports[i]);
        var more := ScanPort(m, sight, incoming, ports[i]);
        sent := sent + more;
      }
      ScanningEnds(before, tracker.View(), sent, rank, clps, t, incoming, sight, m);
      EntryAfterIs(rank, clps, incoming, m.hops, m.values, sight);
      forall x { AllForwarded(rank, clps, t, incoming, sight, m, x); }
    }

    /** One turn of the loop over the open ports. */
    method ScanPort(m: RangeQuery, sight: Sight, incoming: Direction, port: Direction) returns (sent: seq<RangeQuery>)
      requires Valid() && CanRoute(m) && m.identifier in tracker.View()
      requires incoming == routeTable.View().toRank[m.agentRank] && port != incoming && IsPort(port)
      modifies tracker.Repr - {tracker}
      ensures Valid() && tracker.Repr == old(tracker.Repr)
      ensures var e := old(tracker.View())[m.identifier];
              tracker.View() == old(tracker.View())[m.identifier := e.(
                values := if port == HERE && HERE in sight.periods && HERE in sight.overlaps then Insert(e.values, sight.local) else e.values,
                status := if (rank >= clps / 2 && (port == LEFT || port == RIGHT)) || (rank == 0 && port == UP) ||
                             (port in sight.periods && (port == HERE || port !in sight.overlaps))
                          then e.status[port := SCANNED] else e.status)]
      ensures sent == Passed(rank, clps, routeTable.View(), incoming, sight, m, port)
    {
      sent := [];
      var scanned, values: Values := true, map[];
      ghost var e := tracker.View()[m.identifier];
      hide IsPort, Insert, RangeTracker.Valid, RangeTracker.View;
      InsertNothing(e.values);
      if port == incoming || (rank >= clps / 2 && (port == LEFT || port == RIGHT)) || (rank == 0 && port == UP) {
      } else if port !in sight.periods {
        scanned := false;
      } else if port in sight.overlaps {
        if port == HERE {
          values := sight.local;
        } else {
          var destination := routeTable.GetRankFromDirection(port);
          sent := [m.(origin := rank, destination := destination.value, hops := 0, values := map[])];
          scanned := false;
        }
      }
      if scanned {
        ClosePort(m.identifier, port, values);
      } else {
        assert tracker.View()[m.identifier := e] == tracker.View();
      }
    }

    /** The port is scanned, with the values found there. */
    method ClosePort(q: nat, port: Direction, values: Values)
      requires Valid() && q in tracker.View()
      modifies tracker.Repr - {tracker}
      ensures Valid() && tracker.Repr == old(tracker.Repr)
      ensures var e := old(tracker.View())[q];
              tracker.View() == old(tracker.View())[q := e.(status := e.status[port := SCANNED], values := Insert(e.values, values))]
    {
      hide Insert, RangeTracker.Valid, RangeTracker.View;
      tracker.SetPortToScanned(q, port);
      tracker.AddToSSVValueMap(q, values);
    }

    /** A reply closes its port and adds its hops and values. */
    method Reply(m: RangeQuery)
      requires Valid() && m.origin in routeTable.View().toRank && m.identifier in tracker.View()
      modifies tracker.Repr - {tracker}
      ensures Valid() && tracker.Repr == old(tracker.Repr)
      ensures var e := old(tracker.View())[m.identifier];
              tracker.View() == old(tracker.View())[m.identifier := Entry(e.origin, e.hops + m.hops, Insert(e.values, m.values),
                e.status[routeTable.View().toRank[m.origin] := SCANNED])]
    {
      hide RangeTracker.Valid, RangeTracker.View, Insert;
      var port := routeTable.GetDirectionFromRank(m.origin);
      tracker.SetPortToScanned(m.identifier, port.value);
      tracker.IncreaseNumberOfHops(m.identifier, m.hops);
      tracker.AddToSSVValueMap(m.identifier, m.values);
    }

    /** The whole handler: a query without an entry is new, one with an entry is a reply. */
    method ProcessRangeQuery(m: RangeQuery, sight: Sight) returns (sent: seq<RangeQuery>)
      requires Valid() && CanRoute(m)
      requires m.identifier in tracker.View() ==> tracker.View()[m.identifier].origin in routeTable.View().atPort
      modifies tracker, tracker.Repr
      ensures Valid() && fresh(tracker.Repr - old(tracker.Repr))
      ensures var outcome := Handled(rank, clps, routeTable.View(), Lookup(old(tracker.View()), m.identifier), m, sight);
              && tracker.View() == Update(old(tracker.View()), m.identifier, outcome.entry)
              && sent == outcome.sent
    {
      hide RangeTracker.Valid, RangeTracker.View, Insert, StatusAfter, Forwarded, OtherPorts, Outstanding;
      var seen := tracker.HasEntry(m.identifier);
      if !seen {
        sent := FirstSight(m, sight);
      } else {
        Reply(m);
        sent := [];
      }
      var ports := tracker.GetOutstandingPorts(m.identifier);
      if ports == [] {
        var hops := tracker.GetNumberOfHops(m.identifier);
        var values := tracker.GetCollectedSSVValueMap(m.identifier);
        var port := tracker.DeleteEntry(m.identifier);
        var destination := routeTable.GetRankFromDirection(port);
        sent := sent + [m.(origin := rank, destination := destination.value, hops := hops, values := values)];
      }
    }
  }
}
