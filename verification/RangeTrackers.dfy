/** What a CLP keeps of the range queries that pass through it. */
module RangeTrackers {
  import opened RouteTables
  import opened Timelines
  import opened WritePeriods

  datatype ScanStatus = AVOID_SCAN | NOT_SCANNED | SCANNED

  type Values = map<SsvId, Point>

  /** One query at one CLP: where it came from, the state of the ports, and what was collected. */
  datatype Entry = Entry(origin: Direction, hops: nat, values: Values, status: map<Direction, ScanStatus>)

  predicate IsPort(d: Direction) {
    d != DIRECTION_SIZE
  }

  const PORTS: seq<Direction> := [HERE, UP, LEFT, RIGHT]

  /** The entry a CLP starts with. */
  function Fresh(origin: Direction, hops: nat, values: Values): Entry {
    Entry(origin, hops, values, map d: Direction | IsPort(d) :: if d == origin then AVOID_SCAN else NOT_SCANNED)
  }

  /** `insert` keeps the value that is there already. */
  function Insert(kept: Values, more: Values): Values {
    more + kept
  }

  function StatusOf(e: Entry, d: Direction): ScanStatus {
    if d in e.status then e.status[d] else AVOID_SCAN
  }

  function Outstanding(e: Entry, i: nat): seq<Direction>
    requires i <= 4
  {
    if i == 0 then []
    else Outstanding(e, i - 1) + if StatusOf(e, PORTS[i - 1]) == NOT_SCANNED then [PORTS[i - 1]] else []
  }

  lemma {:induction false} OutstandingPorts(e: Entry, i: nat, d: Direction)
    requires i <= 4
    ensures d in Outstanding(e, i) <==> IsPort(d) && Index(d) < i && StatusOf(e, d) == NOT_SCANNED
  {
    if i > 0 {
      OutstandingPorts(e, i - 1, d);
    }
  }

  class RQPortScanStatus {
    var originPort: Direction
    var numberOfHops: nat
    var ssvValueMap: Values
    var portScanStatus: map<Direction, ScanStatus>

    ghost function View(): Entry
      reads this
    {
      Entry(originPort, numberOfHops, ssvValueMap, portScanStatus)
    }

    constructor (origin: Direction, hops: nat, values: Values)
      ensures View() == Fresh(origin, hops, values)
      ensures originPort == origin && numberOfHops == hops && ssvValueMap == values
      ensures forall d :: d in portScanStatus <==> d != DIRECTION_SIZE
      ensures forall d :: d in portScanStatus ==> portScanStatus[d] == if d == origin then AVOID_SCAN else NOT_SCANNED
    {
      originPort, numberOfHops, ssvValueMap := origin, hops, values;
      portScanStatus := map[];
      new;
      for port := 0 to |PORTS|
        invariant originPort == origin && numberOfHops == hops && ssvValueMap == values
        invariant portScanStatus == map d: Direction | IsPort(d) && Index(d) < port :: if d == origin then AVOID_SCAN else NOT_SCANNED
      {
        portScanStatus := portScanStatus[PORTS[port] := if PORTS[port] == originPort then AVOID_SCAN else NOT_SCANNED];
      }
    }

    method SetScanStatus(port: Direction, status: ScanStatus)
      modifies this
      ensures View() == old(View()).(status := old(View()).status[port := status])
    {
      portScanStatus := portScanStatus[port := status];
    }

    method AddToSSVValueMap(values: Values)
      modifies this
      ensures View() == old(View()).(values := Insert(old(View()).values, values))
      ensures forall v: SsvId :: v in ssvValueMap <==> v in old(ssvValueMap) || v in values
      ensures forall v: SsvId :: v in ssvValueMap ==>
                ssvValueMap[v] == if v in old(ssvValueMap) then old(ssvValueMap)[v] else values[v]
    {
      var todo: set<SsvId> := values.Keys;
      while todo != {}
        invariant todo <= values.Keys
        invariant ssvValueMap.Keys == old(ssvValueMap).Keys + (values.Keys - todo)
        invariant forall v: SsvId :: v in ssvValueMap ==>
                    ssvValueMap[v] == if v in old(ssvValueMap) then old(ssvValueMap)[v] else values[v]
        invariant originPort == old(originPort) && numberOfHops == old(numberOfHops) && portScanStatus == old(portScanStatus)
        decreases todo
      {
        var v: SsvId :| v in todo;
        todo := todo - {v};
        if v !in ssvValueMap {
          ssvValueMap := ssvValueMap[v := values[v]];
        }
      }
    }

    method IncreaseNumberOfHops(hops: nat)
      modifies this
      ensures View() == old(View()).(hops := old(View()).hops + hops)
    {
      numberOfHops := numberOfHops + hops;
    }
  }

  class RangeTracker {
    var queries: map<nat, RQPortScanStatus>
    ghost var Repr: set<object>

    /** No two queries share their state. */
    ghost predicate Valid()
      reads this
    {
      && this in Repr
      && (forall q :: q in queries ==> queries[q] in Repr && queries[q] as object != this)
      && (forall q, r :: q in queries && r in queries && q != r ==> queries[q] != queries[r])
    }

    ghost function View(): map<nat, Entry>
      reads this, Repr
      requires Valid()
    {
      map q | q in queries :: queries[q].View()
    }

    constructor ()
      ensures Valid() && View() == map[] && fresh(Repr)
    {
      queries := map[];
      Repr := {this};
    }

    method HasEntry(q: nat) returns (has: bool)
      requires Valid()
      ensures has <==> q in View()
    {
      return q in queries;
    }

    /** A query that has an entry keeps it. */
    method CreateEntry(q: nat, values: Values, port: Direction, hops: nat)
      requires Valid()
      modifies this
      ensures Valid() && fresh(Repr - old(Repr))
      ensures View() == if q in old(View()) then old(View()) else old(View())[q := Fresh(port, hops, values)]
    {
      var e := new RQPortScanStatus(port, hops, values);
      if q !in queries {
        queries := queries[q := e];
        Repr := Repr + {e};
      }
    }

    /** The port of the deleted entry, HERE when there was none. */
    method DeleteEntry(q: nat) returns (port: Direction)
      requires Valid()
      modifies this
      ensures Valid() && Repr == old(Repr)
      ensures port == if q in old(View()) then old(View())[q].origin else HERE
      ensures View() == old(View()) - {q}
    {
      if q in queries {
        port := queries[q].originPort;
        queries := queries - {q};
      } else {
        port := HERE;
      }
    }

    method IncreaseNumberOfHops(q: nat, hops: nat)
      requires Valid()
      modifies Repr - {this}
      ensures Valid() && Repr == old(Repr)
      ensures View() == if q in old(View()) then old(View())[q := old(View())[q].(hops := old(View())[q].hops + hops)] else old(View())
    {
      if q in queries {
        queries[q].IncreaseNumberOfHops(hops);
      }
    }

    method SetPortToScanned(q: nat, port: Direction)
      requires Valid()
      modifies Repr - {this}
      ensures Valid() && Repr == old(Repr)
      ensures View() == if q in old(View())
                        then old(View())[q := old(View())[q].(status := old(View())[q].status[port := SCANNED])] else old(View())
    {
      if q in queries {
        queries[q].SetScanStatus(port, SCANNED);
      }
    }

    method AddToSSVValueMap(q: nat, values: Values)
      requires Valid()
      modifies Repr - {this}
      ensures Valid() && Repr == old(Repr)
      ensures View() == if q in old(View())
                        then old(View())[q := old(View())[q].(values := Insert(old(View())[q].values, values))] else old(View())
    {
      if q in queries {
        queries[q].AddToSSVValueMap(values);
      }
    }

    method GetOutstandingPorts(q: nat) returns (ports: seq<Direction>)
      requires Valid()
      ensures ports == if q in View() then Outstanding(View()[q], 4) else []
    {
      ports := [];
      if q in queries {
        for port := 0 to |PORTS|
          invariant ports == Outstanding(View()[q], port)
        {
          var status := queries[q].portScanStatus;
          if PORTS[port] in status && status[PORTS[port]] == NOT_SCANNED {
            ports := ports + [PORTS[port]];
          }
        }
      }
    }

    method GetNumberOfHops(q: nat) returns (hops: nat)
      requires Valid()
      ensures hops == if q in View() then View()[q].hops else 0
    {
      return if q in queries then queries[q].numberOfHops else 0;
    }

    method GetCollectedSSVValueMap(q: nat) returns (values: Values)
      requires Valid()
      ensures values == if q in View() then View()[q].values else map[]
    {
      return if q in queries then queries[q].ssvValueMap else map[];
    }
  }
}
