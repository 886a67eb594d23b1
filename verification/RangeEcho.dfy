/** One range query in the whole tree: it spreads from the CLP of its ALP, the replies come back the same
    way, and whatever the order of the messages the ALP gets one answer with everything that was read. */
module RangeEcho {
  import opened RangeQueries
  import opened RangeTrackers
  import opened Routers
  import opened RouteTables
  import opened Timelines
  import opened Trees
  import opened WritePeriods

  /** The tables of all CLPs, the CLP of each ALP, the ALP that asks and the identifier of the query. */
  datatype Net = Net(tables: seq<Routes>, homes: seq<nat>, alp: nat, q: nat) {
    function Clps(): nat {
      |tables|
    }

    function Agent(): nat {
      |tables| + alp
    }

    function Home(): nat
      requires alp < |homes|
    {
      homes[alp]
    }
  }

  /** With an odd number of CLPs every CLP below half has two children and the others have none. */
  ghost predicate WellRouted(net: Net) {
    && net.Clps() % 2 == 1
    && net.alp < |net.homes| && net.Home() < net.Clps()
    && AllRoutesClps(net.tables)
    && forall c: nat :: c < net.Clps() ==> RoutesAlps(net.tables[c], net.Clps(), net.homes, c)
  }

  /** The entries of the query at the CLPs, messages on their way, the answers at the ALP, and what every
      visited CLP found when it first saw the query. */
  datatype Echo = Echo(entries: map<nat, Entry>, flying: multiset<RangeQuery>, answers: seq<RangeQuery>, log: map<nat, Sight>)

  /** The port through which the query comes to `c`. */
  function OriginPort(net: Net, c: nat): Direction
    requires c < net.Clps()
  {
    if net.Agent() in net.tables[c].toRank then net.tables[c].toRank[net.Agent()] else DIRECTION_SIZE
  }

  /** The next CLP towards the ALP. */
  function Back(net: Net, c: nat): nat
    requires net.alp < |net.homes| && c != net.Home()
  {
    NextHop(c, net.Home())
  }

  lemma OriginPorts(net: Net, c: nat)
    requires WellRouted(net) && c < net.Clps()
    ensures var d := OriginPort(net, c);
            && net.Agent() in net.tables[c].toRank && net.tables[c].toRank[net.Agent()] == d
            && d != HERE && IsPort(d) && d in net.tables[c].atPort
            && net.tables[c].atPort[d] == if c == net.Home() then net.Agent() else Back(net, c)
    ensures c != net.Home() ==> Back(net, c) < net.Clps() && OriginPort(net, c) == PortTo(c, net.Home())
  {
    assert RoutesAlps(net.tables[c], net.Clps(), net.homes, c);
    assert RoutesAlp(net.tables[c], net.Agent(), net.homes[net.alp], c);
    if c != net.Home() {
      PortsLeadTo(net.tables, c, net.Home());
      PathStaysInTree(net.Clps(), c, net.Home());
      assert PortTo(c, net.Home()) in net.tables[c].atPort;
    }
  }

  lemma NeighbourPorts(net: Net, c: nat, f: nat)
    requires WellRouted(net) && c < net.Clps() && f < net.Clps() && Adjacent(c, f)
    ensures PortTo(c, f) == if f == 2 * c + 1 then LEFT else if f == 2 * c + 2 then RIGHT else UP
    ensures PortTo(c, f) in net.tables[c].atPort && net.tables[c].atPort[PortTo(c, f)] == f
    ensures f in net.tables[c].toRank && net.tables[c].toRank[f] == PortTo(c, f)
  {
    AdjacentIsNextHop(c, f);
    PortsLeadTo(net.tables, c, f);
    assert RoutesClps(net.tables[c], net.Clps(), c);
  }

  /** The neighbour in the place of a port. */
  function Behind(c: nat, d: Direction): int {
    if d == UP then (c - 1) / 2 else if d == LEFT then 2 * c + 1 else 2 * c + 2
  }

  /** Whatever the incoming port, a target port but HERE has the place of a CLP. */
  ghost predicate TargetsAreClps(n: nat) {
    forall c: nat, o, d :: c < n && IsTarget(c, n, o, d) && d != HERE ==> 0 <= Behind(c, d) < n
  }

  /** That is so exactly if the number of CLPs is odd: otherwise one CLP has a single child and still waits for two. */
  lemma TargetsAreClpsIff(n: nat)
    requires n > 0
    ensures TargetsAreClps(n) <==> n % 2 == 1
  {
    if n % 2 == 0 {
      assert IsTarget(n / 2 - 1, n, LEFT, RIGHT) && Behind(n / 2 - 1, RIGHT) == n;
    }
  }

  /** Every target port but HERE leads away from the ALP to a CLP. */
  lemma TargetPort(net: Net, c: nat, d: Direction)
    requires WellRouted(net) && c < net.Clps() && IsTarget(c, net.Clps(), OriginPort(net, c), d) && d != HERE
    ensures d in net.tables[c].atPort
    ensures var f := net.tables[c].atPort[d];
            f < net.Clps() && f != net.Home() && Back(net, f) == c && PortTo(c, f) == d
  {
    var f := if d == UP then (c - 1) / 2 else if d == LEFT then 2 * c + 1 else 2 * c + 2;
    assert Adjacent(c, f);
    NeighbourPorts(net, c, f);
    OriginPorts(net, c);
    EdgeSplits(c, f, net.Home());
    hide Under, Dist;
  }

  /** And every CLP whose way to the ALP starts with `c` is behind such a port. */
  lemma ChildPort(net: Net, f: nat)
    requires WellRouted(net) && f < net.Clps() && f != net.Home()
    ensures var c := Back(net, f);
            && c < net.Clps()
            && IsTarget(c, net.Clps(), OriginPort(net, c), PortTo(c, f)) && PortTo(c, f) != HERE
            && PortTo(c, f) in net.tables[c].atPort && net.tables[c].atPort[PortTo(c, f)] == f
            && f in net.tables[c].toRank && net.tables[c].toRank[f] == PortTo(c, f)
  {
    var c := Back(net, f);
    NextHopIsCloser(f, net.Home());
    PathStaysInTree(net.Clps(), f, net.Home());
    NeighbourPorts(net, c, f);
    OriginPorts(net, c);
    EdgeSplits(f, c, net.Home());
    if c != net.Home() {
      assert NextHop(c, net.Home()) != f;
    }
  }

  // ---- Steps ----

  /** The query as its ALP sends it, and as a CLP passes it on. */
  function QueryTo(net: Net, c: nat): RangeQuery
    requires net.alp < |net.homes|
  {
    RangeQuery(if c == net.Home() then net.Agent() else Back(net, c), c, net.q, net.Agent(), 0, map[])
  }

  ghost function Start(net: Net): Echo
    requires WellRouted(net)
  {
    Echo(map[], multiset{QueryTo(net, net.Home())}, [], map[])
  }

  /** Any message under way may arrive next; its CLP then finds what `sight` says. */
  datatype Step = Step(m: RangeQuery, sight: Sight)

  ghost predicate Enabled(net: Net, e: Echo, s: Step) {
    && s.m in e.flying && s.m.destination < net.Clps()
    && s.m.agentRank in net.tables[s.m.destination].toRank && s.m.origin in net.tables[s.m.destination].toRank
  }

  ghost function OutcomeOf(net: Net, e: Echo, s: Step): Outcome
    requires Enabled(net, e, s)
  {
    var c := s.m.destination;
    Handled(c, net.Clps(), net.tables[c], RangeQueries.Lookup(e.entries, c), s.m.(hops := s.m.hops + 1), s.sight)
  }

  function ToClps(net: Net, sent: seq<RangeQuery>): multiset<RangeQuery> {
    if sent == [] then multiset{}
    else
      var m := sent[|sent| - 1];
      ToClps(net, sent[..|sent| - 1]) + if m.destination < net.Clps() then multiset{m} else multiset{}
  }

  function ToAlps(net: Net, sent: seq<RangeQuery>): seq<RangeQuery> {
    if sent == [] then []
    else
      var m := sent[|sent| - 1];
      ToAlps(net, sent[..|sent| - 1]) + if m.destination < net.Clps() then [] else [m]
  }

  ghost function Next(net: Net, e: Echo, s: Step): Echo
    requires Enabled(net, e, s)
  {
    var c, out := s.m.destination, OutcomeOf(net, e, s);
    Echo(Update(e.entries, c, out.entry),
         e.flying - multiset{s.m} + ToClps(net, out.sent),
         e.answers + ToAlps(net, out.sent),
         if c in e.entries then e.log else e.log[c := s.sight])
  }

  // ---- Where the query stands at each CLP ----

  datatype Stage = Unasked | Asked | Active | Answering(reply: RangeQuery) | Done

  function MessageOf(net: Net, c: nat, stage: Stage): Option<RangeQuery>
    requires net.alp < |net.homes|
  {
    match stage
    case Asked => Some(QueryTo(net, c))
    case Answering(reply) => Some(reply)
    case _ => None
  }

  function Slots(net: Net, stages: seq<Stage>): seq<Option<RangeQuery>>
    requires net.alp < |net.homes|
  {
    seq(|stages|, c requires 0 <= c < |stages| => MessageOf(net, c, stages[c]))
  }

  function AsBag<T>(m: Option<T>): multiset<T> {
    if m.Some? then multiset{m.value} else multiset{}
  }

  function Bag<T>(slots: seq<Option<T>>): multiset<T> {
    if slots == [] then multiset{} else Bag(slots[..|slots| - 1]) + AsBag(slots[|slots| - 1])
  }

  lemma {:induction false} BagContains<T>(slots: seq<Option<T>>, m: T)
    ensures m in Bag(slots) <==> Some(m) in slots
  {
    if slots != [] {
      var init := slots[..|slots| - 1];
      BagContains(init, m);
      assert slots == init + [slots[|slots| - 1]];
    }
  }

  lemma BagUnroll<T>(slots: seq<Option<T>>, last: Option<T>)
    ensures Bag(slots + [last]) == Bag(slots) + AsBag(last)
  {
    assert (slots + [last])[..|slots|] == slots;
  }

  lemma {:induction false} BagUpdate<T>(slots: seq<Option<T>>, c: nat, o: Option<T>)
    requires c < |slots|
    ensures Bag(slots[c := o]) + AsBag(slots[c]) == Bag(slots) + AsBag(o)
  {
    hide Bag, AsBag;
    var n := |slots| - 1;
    var init, last := slots[..n], slots[n];
    BagUnroll(init, last);
    assert slots == init + [last];
    if c == n {
      BagUnroll(init, o);
      assert slots[c := o] == init + [o];
      BagCommutes(Bag(init), AsBag(o), AsBag(last));
    } else {
      BagUpdate(init, c, o);
      BagUnroll(init[c := o], last);
      assert slots[c := o] == init[c := o] + [last];
      BagShuffle(Bag(init[c := o]), Bag(init), AsBag(slots[c]), AsBag(o), AsBag(last));
    }
  }

  lemma BagCommutes<T>(a: multiset<T>, b: multiset<T>, c: multiset<T>)
    ensures a + b + c == a + c + b
  {
  }

  lemma BagShuffle<T>(a: multiset<T>, b: multiset<T>, x: multiset<T>, y: multiset<T>, z: multiset<T>)
    requires a + x == b + y
    ensures (a + z) + x == (b + z) + y
  {
    forall m ensures ((a + z) + x)[m] == ((b + z) + y)[m] {
      assert (a + x)[m] == (b + y)[m];
    }
  }

  lemma BagEmpty<T>(a: multiset<T>)
    ensures a + multiset{} == a && multiset{} + a == a
  {
  }

  lemma BagAssociative<T>(a: multiset<T>, b: multiset<T>, c: multiset<T>)
    ensures a + b + c == a + (b + c)
  {
  }

  lemma BagSwap<T>(a: multiset<T>, b: multiset<T>, m: T, z: multiset<T>)
    requires a + multiset{m} == b + z && m in b
    ensures a == b - multiset{m} + z
  {
    forall k ensures a[k] == (b - multiset{m} + z)[k] {
      assert (a + multiset{m})[k] == (b + z)[k];
    }
  }

  /** The messages that the stages stand for. */
  function Messages(net: Net, stages: seq<Stage>): multiset<RangeQuery>
    requires net.alp < |net.homes|
  {
    Bag(Slots(net, stages))
  }

  lemma MessagesUpdate(net: Net, stages: seq<Stage>, c: nat, stage: Stage)
    requires net.alp < |net.homes| && c < |stages|
    ensures Messages(net, stages[c := stage]) + AsBag(MessageOf(net, c, stages[c])) ==
            Messages(net, stages) + AsBag(MessageOf(net, c, stage))
  {
    BagUpdate(Slots(net, stages), c, MessageOf(net, c, stage));
    hide Bag, AsBag, MessageOf;
    assert Slots(net, stages[c := stage]) == Slots(net, stages)[c := MessageOf(net, c, stage)];
  }

  // ---- Passing the query on ----

  ghost predicate IsQueryOf(net: Net, m: RangeQuery) {
    m.identifier == net.q && m.agentRank == net.Agent()
  }

  /** `x` is behind a port of `c` through which the query is passed on. */
  ghost predicate IsChild(net: Net, c: nat, sight: Sight, x: nat)
    requires WellRouted(net) && c < net.Clps()
  {
    x < net.Clps() && x != net.Home() && Back(net, x) == c &&
    IsForwarded(c, net.Clps(), OriginPort(net, c), sight, PortTo(c, x))
  }

  lemma ForwardedPort(net: Net, c: nat, sight: Sight, d: Direction)
    requires WellRouted(net) && c < net.Clps() && IsForwarded(c, net.Clps(), OriginPort(net, c), sight, d)
    ensures d in net.tables[c].atPort
    ensures IsChild(net, c, sight, net.tables[c].atPort[d]) && PortTo(c, net.tables[c].atPort[d]) == d
  {
    TargetPort(net, c, d);
  }

  /** The stages when the query has been passed on through some of the ports. */
  ghost function AskThrough(net: Net, stages: seq<Stage>, c: nat, sight: Sight, ports: seq<Direction>): (r: seq<Stage>)
    requires WellRouted(net) && c < net.Clps() == |stages|
    ensures |r| == |stages|
  {
    if ports == [] then stages
    else
      var d := ports[|ports| - 1];
      var before := AskThrough(net, stages, c, sight, ports[..|ports| - 1]);
      if IsForwarded(c, net.Clps(), OriginPort(net, c), sight, d) then
        ForwardedPort(net, c, sight, d);
        before[net.tables[c].atPort[d] := Asked]
      else before
  }

  lemma {:induction false} AskThroughAt(net: Net, stages: seq<Stage>, c: nat, sight: Sight, ports: seq<Direction>, x: nat)
    requires WellRouted(net) && c < net.Clps() == |stages| && x < |stages|
    ensures AskThrough(net, stages, c, sight, ports)[x] ==
            if IsChild(net, c, sight, x) && PortTo(c, x) in ports then Asked else stages[x]
  {
    if ports != [] {
      var d, init := ports[|ports| - 1], ports[..|ports| - 1];
      AskThroughAt(net, stages, c, sight, init, x);
      assert ports == init + [d];
      if IsForwarded(c, net.Clps(), OriginPort(net, c), sight, d) {
        ForwardedPort(net, c, sight, d);
      }
      if IsChild(net, c, sight, x) {
        ChildPort(net, x);
      }
      hide IsForwarded, PortTo, OriginPort, AllRoutesClps;
    }
  }

  lemma PassedIsQuery(net: Net, c: nat, sight: Sight, m: RangeQuery, d: Direction)
    requires WellRouted(net) && c < net.Clps() && IsQueryOf(net, m)
    requires IsForwarded(c, net.Clps(), OriginPort(net, c), sight, d)
    ensures d in net.tables[c].atPort && IsChild(net, c, sight, net.tables[c].atPort[d])
    ensures Passed(c, net.Clps(), net.tables[c], OriginPort(net, c), sight, m, d) == [QueryTo(net, net.tables[c].atPort[d])]
  {
    ForwardedPort(net, c, sight, d);
  }

  lemma ToClpsAdd(net: Net, sent: seq<RangeQuery>, m: RangeQuery)
    ensures ToClps(net, sent + [m]) == ToClps(net, sent) + if m.destination < net.Clps() then multiset{m} else multiset{}
    ensures ToAlps(net, sent + [m]) == ToAlps(net, sent) + if m.destination < net.Clps() then [] else [m]
  {
    assert (sent + [m])[..|sent|] == sent;
  }

  lemma AskOneMore(net: Net, stages: seq<Stage>, c: nat, sight: Sight, ports: seq<Direction>)
    requires WellRouted(net) && c < net.Clps() == |stages| && ports != []
    requires IsForwarded(c, net.Clps(), OriginPort(net, c), sight, ports[|ports| - 1]) && ports[|ports| - 1] !in ports[..|ports| - 1]
    requires ports[|ports| - 1] in net.tables[c].atPort
    requires forall x: nat :: x < |stages| && IsChild(net, c, sight, x) ==> stages[x] == Unasked
    ensures var f := net.tables[c].atPort[ports[|ports| - 1]];
            Messages(net, AskThrough(net, stages, c, sight, ports)) ==
            Messages(net, AskThrough(net, stages, c, sight, ports[..|ports| - 1])) + multiset{QueryTo(net, f)}
  {
    var d, init := ports[|ports| - 1], ports[..|ports| - 1];
    ForwardedPort(net, c, sight, d);
    var f := net.tables[c].atPort[d];
    AskThroughAt(net, stages, c, sight, init, f);
    MessagesUpdate(net, AskThrough(net, stages, c, sight, init), f, Asked);
  }

  lemma {:induction false} AskThroughMessages(net: Net, stages: seq<Stage>, c: nat, sight: Sight, m: RangeQuery, ports: seq<Direction>)
    requires WellRouted(net) && c < net.Clps() == |stages| && IsQueryOf(net, m)
    requires forall x: nat :: x < |stages| && IsChild(net, c, sight, x) ==> stages[x] == Unasked
    requires forall i :: 0 <= i < |ports| ==> ports[i] !in ports[..i]
    ensures Messages(net, AskThrough(net, stages, c, sight, ports)) ==
            Messages(net, stages) + ToClps(net, Forwarded(c, net.Clps(), net.tables[c], OriginPort(net, c), sight, m, ports))
    ensures ToAlps(net, Forwarded(c, net.Clps(), net.tables[c], OriginPort(net, c), sight, m, ports)) == []
  {
    if ports != [] {
      var d, init := ports[|ports| - 1], ports[..|ports| - 1];
      var n, t, o := net.Clps(), net.tables[c], OriginPort(net, c);
      forall i | 0 <= i < |init| ensures init[i] !in init[..i] {
        assert init[..i] == ports[..i];
      }
      AskThroughMessages(net, stages, c, sight, m, init);
      var sent := Forwarded(c, n, t, o, sight, m, init);
      if IsForwarded(c, n, o, sight, d) {
        PassedIsQuery(net, c, sight, m, d);
        AskOneMore(net, stages, c, sight, ports);
        ToClpsAdd(net, sent, QueryTo(net, t.atPort[d]));
        assert t.atPort[d] < n;
        BagAssociative(Messages(net, stages), ToClps(net, sent), multiset{QueryTo(net, t.atPort[d])});
      } else {
        assert Passed(c, n, t, o, sight, m, d) == [] && sent + [] == sent;
      }
      hide IsForwarded, OriginPort, IsChild, Messages, ToClps, ToAlps, Passed, AllRoutesClps, QueryTo;
    }
  }

  // ---- What every step keeps ----

  predicate IsPending(stage: Stage) {
    stage.Asked? || stage.Active? || stage.Answering?
  }

  /** The CLP has seen the query. */
  predicate IsVisited(stage: Stage) {
    stage.Active? || stage.Answering? || stage.Done?
  }

  /** A port is open if it can never close, or as long as the CLP behind it has not replied. */
  ghost predicate PortIsOpen(net: Net, stages: seq<Stage>, c: nat, sight: Sight, d: Direction)
    requires WellRouted(net) && c < net.Clps() == |stages|
  {
    IsTarget(c, net.Clps(), OriginPort(net, c), d) &&
    (d !in sight.periods ||
     (IsForwarded(c, net.Clps(), OriginPort(net, c), sight, d) &&
      (ForwardedPort(net, c, sight, d);
       IsPending(stages[net.tables[c].atPort[d]]))))
  }

  ghost predicate EntryFits(net: Net, e: Echo, stages: seq<Stage>, c: nat)
    requires WellRouted(net) && c < net.Clps() == |stages|
  {
    && c in e.entries && c in e.log
    && e.entries[c].origin == OriginPort(net, c)
    && forall d :: IsPort(d) ==>
         d in e.entries[c].status && (e.entries[c].status[d] == NOT_SCANNED <==> PortIsOpen(net, stages, c, e.log[c], d))
  }

  /** The query is passed to a CLP exactly when the CLP before it does so, and that one waits for the reply. */
  ghost predicate AskedFits(net: Net, e: Echo, stages: seq<Stage>, x: nat)
    requires WellRouted(net) && x < net.Clps() == |stages| && x != net.Home() && Back(net, x) < net.Clps()
  {
    var c := Back(net, x);
    && (stages[x] != Unasked <==> c in e.log && IsChild(net, c, e.log[c], x))
    && (IsPending(stages[x]) ==> stages[c].Active?)
  }

  ghost predicate ReplyFits(net: Net, stages: seq<Stage>, c: nat)
    requires WellRouted(net) && c < net.Clps() == |stages|
  {
    stages[c].Answering? ==>
      var m := stages[c].reply;
      c != net.Home() && m.origin == c && m.destination == Back(net, c) && IsQueryOf(net, m)
  }

  /** The CLP had a range period at the time of the query on every port through which it may have to pass it. */
  ghost predicate IsComplete(net: Net, c: nat, sight: Sight)
    requires WellRouted(net) && c < net.Clps()
  {
    forall d :: IsTarget(c, net.Clps(), OriginPort(net, c), d) ==> d in sight.periods
  }

  /** A CLP with such a port missing never sends its reply. */
  ghost predicate StageFits(net: Net, e: Echo, stages: seq<Stage>, c: nat)
    requires WellRouted(net) && c < net.Clps() == |stages|
  {
    && (c in e.entries <==> stages[c].Active?)
    && (c in e.log <==> IsVisited(stages[c]))
    && (stages[c].Active? ==> EntryFits(net, e, stages, c))
    && (c != net.Home() ==> Back(net, c) < net.Clps() && AskedFits(net, e, stages, c))
    && ReplyFits(net, stages, c)
    && (c in e.log && !IsComplete(net, c, e.log[c]) ==> stages[c].Active?)
  }

  ghost predicate Fits(net: Net, e: Echo, stages: seq<Stage>)
    requires WellRouted(net)
  {
    && |stages| == net.Clps()
    && e.flying == Messages(net, stages)
    && (forall c :: c in e.entries || c in e.log ==> c < net.Clps())
    && (forall c: nat :: c < net.Clps() ==> StageFits(net, e, stages, c))
    && stages[net.Home()] != Unasked
    && |e.answers| == (if stages[net.Home()].Done? then 1 else 0)
    && (e.answers != [] ==> IsQueryOf(net, e.answers[0]) && e.answers[0].destination == net.Agent())
  }

  lemma StartFits(net: Net) returns (stages: seq<Stage>)
    requires WellRouted(net)
    ensures Fits(net, Start(net), stages)
  {
    stages := seq(net.Clps(), _ => Unasked)[net.Home() := Asked];
    StartMessages(net, stages);
    hide Messages, StageFits, AllRoutesClps;
    forall c: nat | c < net.Clps() ensures StageFits(net, Start(net), stages, c) {
      StartStageFits(net, stages, c);
    }
  }

  lemma StartStageFits(net: Net, stages: seq<Stage>, c: nat)
    requires WellRouted(net) && c < net.Clps() && stages == seq(net.Clps(), _ => Unasked)[net.Home() := Asked]
    ensures StageFits(net, Start(net), stages, c)
  {
    hide Messages, AllRoutesClps, OriginPort, NextHop, PortIsOpen, IsChild, IsComplete;
    if c != net.Home() {
      ChildPort(net, c);
    }
  }

  lemma StartMessages(net: Net, stages: seq<Stage>)
    requires WellRouted(net) && stages == seq(net.Clps(), _ => Unasked)[net.Home() := Asked]
    ensures Messages(net, stages) == multiset{QueryTo(net, net.Home())}
  {
    var none := stages[net.Home() := Unasked];
    NoMessages(net, none);
    MessagesUpdate(net, none, net.Home(), Asked);
    assert none[net.Home() := Asked] == stages && none[net.Home()] == Unasked;
    assert AsBag(MessageOf(net, net.Home(), Unasked)) == multiset{};
    assert AsBag(MessageOf(net, net.Home(), Asked)) == multiset{QueryTo(net, net.Home())};
    hide Messages, MessageOf, AsBag, QueryTo;
    BagEmpty(Messages(net, stages));
    BagEmpty(multiset{QueryTo(net, net.Home())});
  }

  lemma NoMessages(net: Net, stages: seq<Stage>)
    requires net.alp < |net.homes| && forall c :: 0 <= c < |stages| ==> MessageOf(net, c, stages[c]) == None
    ensures Messages(net, stages) == multiset{}
  {
    forall m ensures m !in Messages(net, stages) {
      BagContains(Slots(net, stages), m);
    }
  }

  // ---- A CLP sees the query ----

  /** The state when `c` has made its entry and passed the query on. */
  ghost function Visited(net: Net, e: Echo, c: nat, m: RangeQuery, sight: Sight): Echo
    requires WellRouted(net) && c < net.Clps()
  {
    var n, o := net.Clps(), OriginPort(net, c);
    Echo(e.entries[c := EntryAfter(c, n, o, m.hops, m.values, sight)],
         e.flying - multiset{QueryTo(net, c)} + ToClps(net, Forwarded(c, n, net.tables[c], o, sight, m, OtherPorts(o))),
         e.answers, e.log[c := sight])
  }

  ghost function VisitedStages(net: Net, stages: seq<Stage>, c: nat, sight: Sight): (r: seq<Stage>)
    requires WellRouted(net) && c < net.Clps() == |stages|
    ensures |r| == |stages|
  {
    AskThrough(net, stages, c, sight, OtherPorts(OriginPort(net, c)))[c := Active]
  }

  /** Nothing behind a CLP that has not seen the query has been asked. */
  lemma NotAskedBefore(net: Net, e: Echo, stages: seq<Stage>, c: nat, sight: Sight)
    requires WellRouted(net) && Fits(net, e, stages) && c < net.Clps() && stages[c].Asked?
    ensures forall x: nat :: x < |stages| && IsChild(net, c, sight, x) ==> stages[x] == Unasked && x != c
    ensures c !in e.entries && c !in e.log
  {
    assert StageFits(net, e, stages, c);
    forall x: nat | x < |stages| && IsChild(net, c, sight, x) ensures stages[x] == Unasked && x != c {
      assert StageFits(net, e, stages, x);
      NextHopIsCloser(x, net.Home());
    }
  }

  lemma VisitedStagesAt(net: Net, stages: seq<Stage>, c: nat, sight: Sight, x: nat)
    requires WellRouted(net) && c < net.Clps() == |stages| && x < |stages|
    ensures VisitedStages(net, stages, c, sight)[x] ==
            if x == c then Active else if IsChild(net, c, sight, x) then Asked else stages[x]
  {
    var o := OriginPort(net, c);
    AskThroughAt(net, stages, c, sight, OtherPorts(o), x);
    OtherPortsAre(o);
    if IsChild(net, c, sight, x) {
      ChildPort(net, x);
    }
  }

  lemma AskedMessages(net: Net, e: Echo, stages: seq<Stage>, c: nat, m: RangeQuery, sight: Sight)
    requires WellRouted(net) && Fits(net, e, stages) && c < net.Clps() && stages[c].Asked? && IsQueryOf(net, m)
    ensures var o := OriginPort(net, c);
            var asked := AskThrough(net, stages, c, sight, OtherPorts(o));
            var sent := Forwarded(c, net.Clps(), net.tables[c], o, sight, m, OtherPorts(o));
            Messages(net, asked) == e.flying + ToClps(net, sent) && asked[c].Asked? && ToAlps(net, sent) == []
  {
    var o := OriginPort(net, c);
    NotAskedBefore(net, e, stages, c, sight);
    forall i | 0 <= i < |OtherPorts(o)| ensures OtherPorts(o)[i] !in OtherPorts(o)[..i] {
      PortsDiffer(o, i);
    }
    AskThroughMessages(net, stages, c, sight, m, OtherPorts(o));
    AskThroughAt(net, stages, c, sight, OtherPorts(o), c);
  }

  lemma VisitedMessages(net: Net, e: Echo, stages: seq<Stage>, c: nat, m: RangeQuery, sight: Sight)
    requires WellRouted(net) && Fits(net, e, stages) && c < net.Clps() && stages[c].Asked? && IsQueryOf(net, m)
    ensures Visited(net, e, c, m, sight).flying == Messages(net, VisitedStages(net, stages, c, sight))
  {
    hide IsComplete, EntryFits, PortIsOpen, ReplyFits, Messages, AllRoutesClps, OriginPort, NextHop, IsForwarded, EntryAfter, Forwarded, ToClps, AskThrough, OtherPorts;
    var o := OriginPort(net, c);
    AskedMessages(net, e, stages, c, m, sight);
    MessageIsFlying(net, stages, c);
    var asked := AskThrough(net, stages, c, sight, OtherPorts(o));
    var more := ToClps(net, Forwarded(c, net.Clps(), net.tables[c], o, sight, m, OtherPorts(o)));
    MessagesUpdate(net, asked, c, Active);
    assert AsBag(MessageOf(net, c, Active)) == multiset{} && AsBag(MessageOf(net, c, Asked)) == multiset{QueryTo(net, c)};
    hide StageFits, AsBag, MessageOf;
    BagEmpty(Messages(net, asked));
    BagSwap(Messages(net, VisitedStages(net, stages, c, sight)), e.flying, QueryTo(net, c), more);
  }

  lemma MessageIsFlying(net: Net, stages: seq<Stage>, c: nat)
    requires net.alp < |net.homes| && c < |stages| && MessageOf(net, c, stages[c]).Some?
    ensures MessageOf(net, c, stages[c]).value in Messages(net, stages)
  {
    BagContains(Slots(net, stages), MessageOf(net, c, stages[c]).value);
    assert Slots(net, stages)[c] == MessageOf(net, c, stages[c]);
  }

  lemma FlyingHasStage(net: Net, stages: seq<Stage>, m: RangeQuery)
    requires net.alp < |net.homes| && m in Messages(net, stages)
    ensures exists c: nat :: c < |stages| && MessageOf(net, c, stages[c]) == Some(m)
  {
    BagContains(Slots(net, stages), m);
    var c :| 0 <= c < |stages| && Slots(net, stages)[c] == Some(m);
  }

  /** The entry of a CLP fits as long as nothing changes there or about the CLPs behind its ports. */
  lemma EntryStillFits(net: Net, e: Echo, stages: seq<Stage>, after: Echo, later: seq<Stage>, x: nat)
    requires WellRouted(net) && x < net.Clps() == |stages| == |later| && EntryFits(net, e, stages, x)
    requires x in after.entries && after.entries[x] == e.entries[x] && x in after.log && after.log[x] == e.log[x]
    requires forall f: nat :: f < net.Clps() && f != net.Home() && Back(net, f) == x ==>
               (IsPending(later[f]) <==> IsPending(stages[f]))
    ensures EntryFits(net, after, later, x)
  {
    forall d | IsPort(d) ensures PortIsOpen(net, later, x, e.log[x], d) <==> PortIsOpen(net, stages, x, e.log[x], d) {
      if IsForwarded(x, net.Clps(), OriginPort(net, x), e.log[x], d) {
        ForwardedPort(net, x, e.log[x], d);
      }
    }
    hide PortIsOpen;
  }

  lemma VisitedEntryFits(net: Net, e: Echo, stages: seq<Stage>, c: nat, m: RangeQuery, sight: Sight)
    requires WellRouted(net) && c < net.Clps() == |stages|
    ensures EntryFits(net, Visited(net, e, c, m, sight), VisitedStages(net, stages, c, sight), c)
  {
    var o, later := OriginPort(net, c), VisitedStages(net, stages, c, sight);
    forall d | IsPort(d)
      ensures StatusAfter(c, net.Clps(), o, sight, d) == NOT_SCANNED <==> PortIsOpen(net, later, c, sight, d)
    {
      if IsForwarded(c, net.Clps(), o, sight, d) {
        ForwardedPort(net, c, sight, d);
        VisitedStagesAt(net, stages, c, sight, net.tables[c].atPort[d]);
      }
      hide OriginPort, VisitedStages;
    }
    hide StatusAfter, PortIsOpen;
  }

  lemma BackIsCloser(net: Net, x: nat)
    requires WellRouted(net) && x < net.Clps() && x != net.Home()
    ensures Back(net, x) < net.Clps() && Back(net, x) != x
    ensures Back(net, x) != net.Home() ==> Back(net, Back(net, x)) != x
  {
    ChildPort(net, x);
    NextHopIsCloser(x, net.Home());
    if Back(net, x) != net.Home() {
      NextHopIsCloser(Back(net, x), net.Home());
    }
  }

  lemma VisitedAskedFits(net: Net, e: Echo, stages: seq<Stage>, c: nat, m: RangeQuery, sight: Sight, x: nat)
    requires WellRouted(net) && Fits(net, e, stages) && c < net.Clps() && stages[c].Asked?
    requires x < net.Clps() && x != net.Home() && Back(net, x) < net.Clps()
    ensures AskedFits(net, Visited(net, e, c, m, sight), VisitedStages(net, stages, c, sight), x)
  {
    hide IsComplete, EntryFits, PortIsOpen, ReplyFits, Messages, AllRoutesClps, OriginPort, NextHop, IsForwarded, EntryAfter, Forwarded, ToClps, AskThrough, VisitedStages, OtherPorts;
    NotAskedBefore(net, e, stages, c, sight);
    BackIsCloser(net, x);
    VisitedStagesAt(net, stages, c, sight, x);
    VisitedStagesAt(net, stages, c, sight, Back(net, x));
    assert StageFits(net, e, stages, x) && StageFits(net, e, stages, Back(net, x)) && StageFits(net, e, stages, c);
  }

  lemma VisitedOthersFit(net: Net, e: Echo, stages: seq<Stage>, c: nat, m: RangeQuery, sight: Sight, x: nat)
    requires WellRouted(net) && Fits(net, e, stages) && c < net.Clps() && stages[c].Asked? && x < net.Clps()
    ensures VisitedStages(net, stages, c, sight)[x].Active? ==>
              EntryFits(net, Visited(net, e, c, m, sight), VisitedStages(net, stages, c, sight), x)
  {
    var after, later := Visited(net, e, c, m, sight), VisitedStages(net, stages, c, sight);
    NotAskedBefore(net, e, stages, c, sight);
    VisitedStagesAt(net, stages, c, sight, x);
    if x == c {
      VisitedEntryFits(net, e, stages, c, m, sight);
    } else if later[x].Active? {
      assert StageFits(net, e, stages, x);
      forall f: nat | f < net.Clps() && f != net.Home() && Back(net, f) == x
        ensures IsPending(later[f]) <==> IsPending(stages[f])
      {
        VisitedStagesAt(net, stages, c, sight, f);
      }
      hide EntryFits, VisitedStages, OriginPort;
      EntryStillFits(net, e, stages, after, later, x);
    }
  }

  lemma VisitedStageFits(net: Net, e: Echo, stages: seq<Stage>, c: nat, m: RangeQuery, sight: Sight, x: nat)
    requires WellRouted(net) && Fits(net, e, stages) && c < net.Clps() && stages[c].Asked? && x < net.Clps()
    ensures StageFits(net, Visited(net, e, c, m, sight), VisitedStages(net, stages, c, sight), x)
  {
    hide IsComplete, EntryFits, PortIsOpen, Messages, AllRoutesClps, OriginPort, NextHop, IsForwarded, EntryAfter, Forwarded, ToClps, AskThrough, VisitedStages, OtherPorts;
    var after, later := Visited(net, e, c, m, sight), VisitedStages(net, stages, c, sight);
    NotAskedBefore(net, e, stages, c, sight);
    VisitedStagesAt(net, stages, c, sight, x);
    VisitedOthersFit(net, e, stages, c, m, sight, x);
    if x != net.Home() {
      BackIsCloser(net, x);
      VisitedAskedFits(net, e, stages, c, m, sight, x);
    }
    assert StageFits(net, e, stages, x);
    hide AskedFits, IsChild;
  }

  lemma VisitFits(net: Net, e: Echo, stages: seq<Stage>, c: nat, m: RangeQuery, sight: Sight)
    requires WellRouted(net) && Fits(net, e, stages) && c < net.Clps() && stages[c].Asked? && IsQueryOf(net, m)
    ensures Fits(net, Visited(net, e, c, m, sight), VisitedStages(net, stages, c, sight))
  {
    hide IsComplete, EntryFits, PortIsOpen, ReplyFits, Messages, AllRoutesClps, OriginPort, NextHop, IsForwarded, EntryAfter, Forwarded, ToClps, AskThrough, VisitedStages, OtherPorts;
    var after, later := Visited(net, e, c, m, sight), VisitedStages(net, stages, c, sight);
    VisitedMessages(net, e, stages, c, m, sight);
    NotAskedBefore(net, e, stages, c, sight);
    VisitedStagesAt(net, stages, c, sight, net.Home());
    assert StageFits(net, e, stages, c);
    hide StageFits, IsChild;
    forall x: nat | x < net.Clps() ensures StageFits(net, after, later, x) {
      VisitedStageFits(net, e, stages, c, m, sight, x);
    }
  }

  // ---- A CLP gets a reply ----

  /** The state when the reply of `f` has been entered. */
  ghost function Gathered(net: Net, e: Echo, c: nat, f: nat, m: RangeQuery, hops: nat): Echo
    requires WellRouted(net) && c < net.Clps() && c in e.entries
  {
    var entry := e.entries[c];
    e.(entries := e.entries[c := Entry(entry.origin, entry.hops + hops, Insert(entry.values, m.values), entry.status[PortTo(c, f) := SCANNED])],
       flying := e.flying - multiset{m})
  }

  lemma GatheredEntryFits(net: Net, e: Echo, stages: seq<Stage>, f: nat, hops: nat)
    requires WellRouted(net) && Fits(net, e, stages) && f < net.Clps() && stages[f].Answering?
    ensures f != net.Home() && Back(net, f) < net.Clps() && Back(net, f) in e.entries
    ensures EntryFits(net, Gathered(net, e, Back(net, f), f, stages[f].reply, hops), stages[f := Done], Back(net, f))
  {
    hide Messages, AllRoutesClps, OriginPort, NextHop, Under, Dist;
    assert StageFits(net, e, stages, f);
    BackIsCloser(net, f);
    var c := Back(net, f);
    assert StageFits(net, e, stages, c);
    ChildPort(net, f);
    var after, later := Gathered(net, e, c, f, stages[f].reply, hops), stages[f := Done];
    assert EntryFits(net, e, stages, c) && IsChild(net, c, e.log[c], f);
    forall d | IsPort(d)
      ensures d in after.entries[c].status
      ensures after.entries[c].status[d] == NOT_SCANNED <==> PortIsOpen(net, later, c, e.log[c], d)
    {
      if IsForwarded(c, net.Clps(), OriginPort(net, c), e.log[c], d) {
        ForwardedPort(net, c, e.log[c], d);
      }
      hide IsTarget, PortTo, StageFits;
    }
  }

  lemma GatheredStageFits(net: Net, e: Echo, stages: seq<Stage>, f: nat, hops: nat, x: nat)
    requires WellRouted(net) && Fits(net, e, stages) && f < net.Clps() && stages[f].Answering? && x < net.Clps()
    requires f != net.Home() && Back(net, f) < net.Clps() && Back(net, f) in e.entries
    ensures StageFits(net, Gathered(net, e, Back(net, f), f, stages[f].reply, hops), stages[f := Done], x)
  {
    hide IsComplete, EntryFits, PortIsOpen, IsChild, Messages, AllRoutesClps, OriginPort, NextHop, Insert;
    var c := Back(net, f);
    var after, later := Gathered(net, e, c, f, stages[f].reply, hops), stages[f := Done];
    BackIsCloser(net, f);
    GatheredEntryFits(net, e, stages, f, hops);
    assert StageFits(net, e, stages, x) && StageFits(net, e, stages, f) && StageFits(net, e, stages, c);
    if x != c && x != f && stages[x].Active? {
      EntryStillFits(net, e, stages, after, later, x);
    }
    if x != net.Home() {
      BackIsCloser(net, x);
      assert StageFits(net, e, stages, Back(net, x));
    }
  }

  lemma GatheredMessages(net: Net, e: Echo, stages: seq<Stage>, f: nat)
    requires WellRouted(net) && Fits(net, e, stages) && f < net.Clps() && stages[f].Answering?
    ensures e.flying - multiset{stages[f].reply} == Messages(net, stages[f := Done])
  {
    hide StageFits, Insert, EntryFits, AllRoutesClps;
    var m := stages[f].reply;
    MessageIsFlying(net, stages, f);
    MessagesUpdate(net, stages, f, Done);
    assert AsBag(MessageOf(net, f, Done)) == multiset{} && AsBag(MessageOf(net, f, stages[f])) == multiset{m};
    hide Messages, AsBag, MessageOf;
    BagSwap(Messages(net, stages[f := Done]), e.flying, m, multiset{});
    BagEmpty(e.flying - multiset{m});
  }

  lemma GatherFits(net: Net, e: Echo, stages: seq<Stage>, f: nat, hops: nat)
    requires WellRouted(net) && Fits(net, e, stages) && f < net.Clps() && stages[f].Answering?
    ensures f != net.Home() && Back(net, f) < net.Clps() && Back(net, f) in e.entries
    ensures Fits(net, Gathered(net, e, Back(net, f), f, stages[f].reply, hops), stages[f := Done])
  {
    GatheredEntryFits(net, e, stages, f, hops);
    GatheredMessages(net, e, stages, f);
    hide Messages, StageFits, Insert, EntryFits, AllRoutesClps;
    var after, later := Gathered(net, e, Back(net, f), f, stages[f].reply, hops), stages[f := Done];
    forall x: nat | x < net.Clps() ensures StageFits(net, after, later, x) {
      GatheredStageFits(net, e, stages, f, hops, x);
    }
  }

  // ---- A CLP has no open port left ----

  function ReplyOf(net: Net, entry: Entry, c: nat, m: RangeQuery): RangeQuery
    requires net.alp < |net.homes|
  {
    m.(origin := c, destination := if c == net.Home() then net.Agent() else Back(net, c), hops := entry.hops, values := entry.values)
  }

  /** The state when the collected values have been sent back. */
  ghost function Closed(net: Net, e: Echo, c: nat, m: RangeQuery): Echo
    requires WellRouted(net) && c in e.entries
  {
    var r := ReplyOf(net, e.entries[c], c, m);
    if c == net.Home() then e.(entries := e.entries - {c}, answers := e.answers + [r])
    else e.(entries := e.entries - {c}, flying := e.flying + multiset{r})
  }

  ghost function ClosedStages(net: Net, e: Echo, stages: seq<Stage>, c: nat, m: RangeQuery): seq<Stage>
    requires WellRouted(net) && c in e.entries && c < |stages|
  {
    stages[c := if c == net.Home() then Done else Answering(ReplyOf(net, e.entries[c], c, m))]
  }

  lemma NothingPending(net: Net, e: Echo, stages: seq<Stage>, c: nat, x: nat)
    requires WellRouted(net) && Fits(net, e, stages) && c < net.Clps() && c in e.entries && Outstanding(e.entries[c], 4) == []
    requires x < net.Clps() && x != net.Home() && Back(net, x) == c
    ensures !IsPending(stages[x])
  {
    hide Messages, AllRoutesClps, NextHop, Outstanding, OriginPort;
    assert StageFits(net, e, stages, c) && StageFits(net, e, stages, x);
    if IsPending(stages[x]) {
      ChildPort(net, x);
      var d := PortTo(c, x);
      assert IsChild(net, c, e.log[c], x);
      assert PortIsOpen(net, stages, c, e.log[c], d);
      OutstandingPorts(e.entries[c], 4, d);
    }
  }

  lemma ClosedIsComplete(net: Net, e: Echo, stages: seq<Stage>, c: nat)
    requires WellRouted(net) && Fits(net, e, stages) && c < net.Clps() && c in e.entries && Outstanding(e.entries[c], 4) == []
    ensures c in e.log && IsComplete(net, c, e.log[c])
  {
    hide Messages, AllRoutesClps, NextHop, Outstanding, OriginPort;
    assert StageFits(net, e, stages, c);
    forall d | IsTarget(c, net.Clps(), OriginPort(net, c), d) ensures d in e.log[c].periods {
      OutstandingPorts(e.entries[c], 4, d);
      assert PortIsOpen(net, stages, c, e.log[c], d) || d in e.log[c].periods;
    }
  }

  lemma ClosedStageFits(net: Net, e: Echo, stages: seq<Stage>, c: nat, m: RangeQuery, x: nat)
    requires WellRouted(net) && Fits(net, e, stages) && c < net.Clps() && c in e.entries && Outstanding(e.entries[c], 4) == []
    requires x < net.Clps() && IsQueryOf(net, m)
    ensures StageFits(net, Closed(net, e, c, m), ClosedStages(net, e, stages, c, m), x)
  {
    hide IsComplete, EntryFits, PortIsOpen, IsChild, Messages, AllRoutesClps, OriginPort, NextHop, Outstanding;
    var after, later := Closed(net, e, c, m), ClosedStages(net, e, stages, c, m);
    ClosedIsComplete(net, e, stages, c);
    assert StageFits(net, e, stages, x) && StageFits(net, e, stages, c);
    if x != c && stages[x].Active? {
      EntryStillFits(net, e, stages, after, later, x);
    }
    if x != net.Home() {
      BackIsCloser(net, x);
      assert StageFits(net, e, stages, Back(net, x));
      if Back(net, x) == c {
        NothingPending(net, e, stages, c, x);
      }
    }
  }

  lemma CloseFits(net: Net, e: Echo, stages: seq<Stage>, c: nat, m: RangeQuery)
    requires WellRouted(net) && Fits(net, e, stages) && c < net.Clps() && c in e.entries && Outstanding(e.entries[c], 4) == []
    requires IsQueryOf(net, m)
    ensures Fits(net, Closed(net, e, c, m), ClosedStages(net, e, stages, c, m))
  {
    hide EntryFits, Outstanding, AllRoutesClps, Messages, AskedFits, ReplyFits, Bag;
    assert StageFits(net, e, stages, c);
    var r := ReplyOf(net, e.entries[c], c, m);
    var stage := if c == net.Home() then Done else Answering(r);
    MessagesUpdate(net, stages, c, stage);
    assert AsBag(MessageOf(net, c, Active)) == multiset{};
    assert AsBag(MessageOf(net, c, stage)) == if c == net.Home() then multiset{} else multiset{r};
    hide AsBag, MessageOf, StageFits;
    BagEmpty(Messages(net, stages[c := stage]));
    BagEmpty(Messages(net, stages));
    forall x: nat | x < net.Clps() ensures StageFits(net, Closed(net, e, c, m), ClosedStages(net, e, stages, c, m), x) {
      ClosedStageFits(net, e, stages, c, m, x);
    }
  }

  // ---- The values on their way ----

  /** The values of the query that rest with a CLP: in its entry, in its reply, or for the first CLP in the answer. */
  ghost function Held(net: Net, e: Echo, stages: seq<Stage>, c: nat): Values
    requires net.alp < |net.homes| && c < |stages|
  {
    match stages[c]
    case Active => if c in e.entries then e.entries[c].values else map[]
    case Answering(reply) => reply.values
    case Done => if c == net.Home() && e.answers != [] then e.answers[0].values else map[]
    case _ => map[]
  }

  /** Some visited CLP read this value of the variable. */
  ghost predicate WasRead(log: map<nat, Sight>, v: SsvId, p: Point) {
    exists x :: x in log && v in LocalRead(log[x]) && LocalRead(log[x])[v] == p
  }

  ghost predicate IsHeld(net: Net, e: Echo, stages: seq<Stage>, v: SsvId)
    requires net.alp < |net.homes|
  {
    exists c: nat :: c < |stages| && v in Held(net, e, stages, c)
  }

  /** Nothing that was read is lost, and nothing is held that was not read. */
  ghost predicate ValuesFit(net: Net, e: Echo, stages: seq<Stage>)
    requires net.alp < |net.homes|
  {
    && (forall x, v :: x in e.log && v in LocalRead(e.log[x]) ==> IsHeld(net, e, stages, v))
    && (forall c: nat, v :: c < |stages| && v in Held(net, e, stages, c) ==> WasRead(e.log, v, Held(net, e, stages, c)[v]))
  }

  /** Values that only move from CLP to CLP still fit. */
  lemma ValuesMove(net: Net, e: Echo, stages: seq<Stage>, after: Echo, later: seq<Stage>)
    requires net.alp < |net.homes| && ValuesFit(net, e, stages) && after.log == e.log
    requires forall c: nat, v :: c < |stages| && v in Held(net, e, stages, c) ==> IsHeld(net, after, later, v)
    requires forall c: nat, v :: c < |later| && v in Held(net, after, later, c) ==>
               exists b: nat :: b < |stages| && v in Held(net, e, stages, b) && Held(net, e, stages, b)[v] == Held(net, after, later, c)[v]
    ensures ValuesFit(net, after, later)
  {
    hide Held, LocalRead;
    forall x, v | x in after.log && v in LocalRead(after.log[x]) ensures IsHeld(net, after, later, v) {
      assert IsHeld(net, e, stages, v);
    }
  }

  lemma GatheredHeld(net: Net, e: Echo, stages: seq<Stage>, c: nat, f: nat, hops: nat, b: nat)
    requires WellRouted(net) && b < |stages| && c < net.Clps() && f < |stages| && c < |stages| && c != f && f != net.Home()
    requires stages[c].Active? && c in e.entries && stages[f].Answering?
    ensures Held(net, Gathered(net, e, c, f, stages[f].reply, hops), stages[f := Done], b) ==
            if b == c then Insert(Held(net, e, stages, c), Held(net, e, stages, f)) else if b == f then map[] else Held(net, e, stages, b)
  {
    hide AllRoutesClps, PortTo;
  }

  lemma GatherValues(net: Net, e: Echo, stages: seq<Stage>, c: nat, f: nat, hops: nat)
    requires WellRouted(net) && ValuesFit(net, e, stages) && c < net.Clps() && f < |stages| && c < |stages| && c != f && f != net.Home()
    requires stages[c].Active? && c in e.entries && stages[f].Answering?
    ensures ValuesFit(net, Gathered(net, e, c, f, stages[f].reply, hops), stages[f := Done])
  {
    var after, later := Gathered(net, e, c, f, stages[f].reply, hops), stages[f := Done];
    assert after.log == e.log;
    hide Held, Gathered, ValuesFit, AllRoutesClps;
    forall b: nat, v | b < |stages| && v in Held(net, e, stages, b) ensures IsHeld(net, after, later, v) {
      var d := if b == f then c else b;
      GatheredHeld(net, e, stages, c, f, hops, d);
      assert v in Held(net, after, later, d);
    }
    forall b: nat, v | b < |later| && v in Held(net, after, later, b)
      ensures exists d: nat :: d < |stages| && v in Held(net, e, stages, d) && Held(net, e, stages, d)[v] == Held(net, after, later, b)[v]
    {
      GatheredHeld(net, e, stages, c, f, hops, b);
      assert v in Held(net, e, stages, if b == c && v !in Held(net, e, stages, c) then f else b);
    }
    ValuesMove(net, e, stages, after, later);
  }

  lemma ClosedHeld(net: Net, e: Echo, stages: seq<Stage>, c: nat, m: RangeQuery, b: nat)
    requires WellRouted(net) && c in e.entries && c < |stages| && b < |stages| && stages[c].Active?
    requires c == net.Home() ==> e.answers == []
    ensures |ClosedStages(net, e, stages, c, m)| == |stages|
    ensures Held(net, Closed(net, e, c, m), ClosedStages(net, e, stages, c, m), b) == Held(net, e, stages, b)
  {
    hide AllRoutesClps;
  }

  lemma CloseValues(net: Net, e: Echo, stages: seq<Stage>, c: nat, m: RangeQuery)
    requires WellRouted(net) && c in e.entries && c < |stages| && stages[c].Active? && ValuesFit(net, e, stages)
    requires c == net.Home() ==> e.answers == []
    ensures ValuesFit(net, Closed(net, e, c, m), ClosedStages(net, e, stages, c, m))
  {
    var after, later := Closed(net, e, c, m), ClosedStages(net, e, stages, c, m);
    assert after.log == e.log;
    hide Held, Closed, ClosedStages, AllRoutesClps, ValuesFit;
    ClosedHeld(net, e, stages, c, m, c);
    forall b: nat, v | b < |stages| && v in Held(net, e, stages, b) ensures IsHeld(net, after, later, v) {
      ClosedHeld(net, e, stages, c, m, b);
      assert v in Held(net, after, later, b);
    }
    forall b: nat, v | b < |later| && v in Held(net, after, later, b)
      ensures v in Held(net, e, stages, b) && Held(net, e, stages, b)[v] == Held(net, after, later, b)[v]
    {
      ClosedHeld(net, e, stages, c, m, b);
    }
    ValuesMove(net, e, stages, after, later);
  }

  lemma VisitedHeld(net: Net, e: Echo, stages: seq<Stage>, c: nat, m: RangeQuery, sight: Sight, b: nat)
    requires WellRouted(net) && c < net.Clps() == |stages| && b < |stages| && m.values == map[]
    requires forall x: nat :: x < |stages| && IsChild(net, c, sight, x) ==> stages[x] == Unasked
    ensures Held(net, Visited(net, e, c, m, sight), VisitedStages(net, stages, c, sight), b) ==
            if b == c then LocalRead(sight) else Held(net, e, stages, b)
  {
    hide AllRoutesClps, IsChild, OriginPort, Forwarded, ToClps, VisitedStages, OtherPorts, StatusAfter;
    VisitedStagesAt(net, stages, c, sight, b);
    assert Insert(map[], LocalRead(sight)) == LocalRead(sight);
  }

  lemma VisitValues(net: Net, e: Echo, stages: seq<Stage>, c: nat, m: RangeQuery, sight: Sight)
    requires WellRouted(net) && ValuesFit(net, e, stages) && c < net.Clps() == |stages| && stages[c].Asked? && c !in e.log
    requires m.values == map[]
    requires forall x: nat :: x < |stages| && IsChild(net, c, sight, x) ==> stages[x] == Unasked
    ensures ValuesFit(net, Visited(net, e, c, m, sight), VisitedStages(net, stages, c, sight))
  {
    var after, later := Visited(net, e, c, m, sight), VisitedStages(net, stages, c, sight);
    assert after.log == e.log[c := sight] && Held(net, e, stages, c) == map[];
    hide AllRoutesClps, IsChild, VisitedStages, Held, Visited, LocalRead;
    forall x, v | x in after.log && v in LocalRead(after.log[x]) ensures IsHeld(net, after, later, v) {
      if x == c {
        VisitedHeld(net, e, stages, c, m, sight, c);
        assert v in Held(net, after, later, c);
      } else {
        assert IsHeld(net, e, stages, v);
        var b: nat :| b < |stages| && v in Held(net, e, stages, b);
        VisitedHeld(net, e, stages, c, m, sight, b);
        assert v in Held(net, after, later, b);
      }
    }
    forall b: nat, v | b < |later| && v in Held(net, after, later, b) ensures WasRead(after.log, v, Held(net, after, later, b)[v]) {
      VisitedHeld(net, e, stages, c, m, sight, b);
      if b == c {
        assert v in LocalRead(after.log[c]);
      } else {
        assert WasRead(e.log, v, Held(net, e, stages, b)[v]);
        var x :| x in e.log && v in LocalRead(e.log[x]) && LocalRead(e.log[x])[v] == Held(net, e, stages, b)[v];
        assert x in after.log && after.log[x] == e.log[x];
      }
    }
  }

  // ---- The hops counted ----

  /** The hops that rest with a CLP: in its entry, in its reply, or for the first CLP in the answer. */
  ghost function HopsAt(net: Net, e: Echo, stages: seq<Stage>, c: nat): nat
    requires net.alp < |net.homes| && c < |stages|
  {
    match stages[c]
    case Active => if c in e.entries then e.entries[c].hops else 0
    case Answering(reply) => reply.hops
    case Done => if c == net.Home() && e.answers != [] then e.answers[0].hops else 0
    case _ => 0
  }

  ghost function HopsOf(net: Net, e: Echo, stages: seq<Stage>, k: nat): nat
    requires net.alp < |net.homes| && k <= |stages|
  {
    if k == 0 then 0 else HopsOf(net, e, stages, k - 1) + HopsAt(net, e, stages, k - 1)
  }

  lemma {:induction false} NoHops(net: Net, e: Echo, stages: seq<Stage>, k: nat)
    requires net.alp < |net.homes| && k <= |stages| && e.entries == map[] && e.answers == []
    requires forall c: nat :: c < |stages| ==> !stages[c].Answering?
    ensures HopsOf(net, e, stages, k) == 0
  {
    if k > 0 {
      NoHops(net, e, stages, k - 1);
    }
  }

  /** `c` gets `x` hops and `f` gives `y` away. */
  lemma {:induction false} HopsShift(net: Net, e: Echo, stages: seq<Stage>, after: Echo, later: seq<Stage>, c: nat, x: nat, f: nat, y: nat, k: nat)
    requires net.alp < |net.homes| && k <= |stages| == |later|
    requires forall b: nat :: b < k ==>
               HopsAt(net, after, later, b) == HopsAt(net, e, stages, b) + (if b == c then x else 0) - (if b == f then y else 0)
    ensures HopsOf(net, after, later, k) == HopsOf(net, e, stages, k) + (if c < k then x else 0) - (if f < k then y else 0)
  {
    hide HopsAt;
    if k > 0 {
      HopsShift(net, e, stages, after, later, c, x, f, y, k - 1);
    }
  }

  lemma GatherHops(net: Net, e: Echo, stages: seq<Stage>, c: nat, f: nat, hops: nat)
    requires WellRouted(net) && |stages| == net.Clps() && c < net.Clps() && f < |stages| && c != f && f != net.Home()
    requires stages[c].Active? && c in e.entries && stages[f].Answering?
    ensures HopsOf(net, Gathered(net, e, c, f, stages[f].reply, hops), stages[f := Done], net.Clps()) ==
            HopsOf(net, e, stages, net.Clps()) + hops - stages[f].reply.hops
  {
    hide AllRoutesClps, PortTo, Insert, HopsOf;
    HopsShift(net, e, stages, Gathered(net, e, c, f, stages[f].reply, hops), stages[f := Done], c, hops, f, stages[f].reply.hops, net.Clps());
  }

  lemma CloseHops(net: Net, e: Echo, stages: seq<Stage>, c: nat, m: RangeQuery)
    requires WellRouted(net) && c in e.entries && c < |stages| == net.Clps() && stages[c].Active?
    requires c == net.Home() ==> e.answers == []
    ensures |ClosedStages(net, e, stages, c, m)| == |stages|
    ensures HopsOf(net, Closed(net, e, c, m), ClosedStages(net, e, stages, c, m), net.Clps()) == HopsOf(net, e, stages, net.Clps())
  {
    hide AllRoutesClps, HopsOf, NextHop;
    HopsShift(net, e, stages, Closed(net, e, c, m), ClosedStages(net, e, stages, c, m), c, 0, c, 0, net.Clps());
  }

  lemma VisitedHops(net: Net, e: Echo, stages: seq<Stage>, c: nat, m: RangeQuery, sight: Sight, b: nat)
    requires WellRouted(net) && c < net.Clps() == |stages| && b < |stages| && stages[c].Asked?
    requires forall x: nat :: x < |stages| && IsChild(net, c, sight, x) ==> stages[x] == Unasked
    ensures HopsAt(net, Visited(net, e, c, m, sight), VisitedStages(net, stages, c, sight), b) ==
            HopsAt(net, e, stages, b) + if b == c then m.hops else 0
  {
    hide AllRoutesClps, IsChild, OriginPort, Forwarded, ToClps, VisitedStages, OtherPorts, StatusAfter, Insert, LocalRead;
    VisitedStagesAt(net, stages, c, sight, b);
  }

  lemma VisitHops(net: Net, e: Echo, stages: seq<Stage>, c: nat, m: RangeQuery, sight: Sight)
    requires WellRouted(net) && c < net.Clps() == |stages| && stages[c].Asked?
    requires forall x: nat :: x < |stages| && IsChild(net, c, sight, x) ==> stages[x] == Unasked
    ensures HopsOf(net, Visited(net, e, c, m, sight), VisitedStages(net, stages, c, sight), net.Clps()) ==
            HopsOf(net, e, stages, net.Clps()) + m.hops
  {
    hide AllRoutesClps, IsChild, VisitedStages, HopsAt, HopsOf, Visited;
    var after, later := Visited(net, e, c, m, sight), VisitedStages(net, stages, c, sight);
    forall b: nat | b < net.Clps() ensures HopsAt(net, after, later, b) == HopsAt(net, e, stages, b) + if b == c then m.hops else 0 {
      VisitedHops(net, e, stages, c, m, sight, b);
    }
    HopsShift(net, e, stages, after, later, c, m.hops, c, 0, net.Clps());
  }

  // ---- A whole step ----

  /** No entry waits without an open port. */
  ghost predicate AllOpen(e: Echo) {
    forall c :: c in e.entries ==> Outstanding(e.entries[c], 4) != []
  }

  /** Every message under way can arrive: at a CLP whose table knows where it comes from. */
  lemma MessagesCanArrive(net: Net, e: Echo, stages: seq<Stage>, s: Step) returns (c: nat)
    requires WellRouted(net) && Fits(net, e, stages) && s.m in e.flying
    ensures c < |stages| == net.Clps() && MessageOf(net, c, stages[c]) == Some(s.m)
    ensures Enabled(net, e, s) && IsQueryOf(net, s.m)
    ensures s.m.destination == if stages[c].Asked? then c else if c == net.Home() then 0 else Back(net, c)
    ensures stages[c].Answering? ==> c != net.Home() && net.tables[s.m.destination].toRank[c] == PortTo(s.m.destination, c)
    ensures net.tables[s.m.destination].toRank[s.m.agentRank] == OriginPort(net, s.m.destination)
  {
    FlyingHasStage(net, stages, s.m);
    c :| 0 <= c < |stages| && MessageOf(net, c, stages[c]) == Some(s.m);
    hide EntryFits, PortIsOpen, IsChild, Messages, AllRoutesClps, NextHop, OriginPort;
    assert StageFits(net, e, stages, c);
    OriginPorts(net, c);
    if c != net.Home() {
      ChildPort(net, c);
      OriginPorts(net, Back(net, c));
      OriginKnowsBack(net, c);
    }
  }

  lemma OriginKnowsBack(net: Net, c: nat)
    requires WellRouted(net) && c < net.Clps() && c != net.Home() && Back(net, c) < net.Clps()
    ensures Back(net, c) in net.tables[c].toRank
  {
    assert RoutesClps(net.tables[c], net.Clps(), c);
  }

  lemma ReplaceThenRemove(entries: map<nat, Entry>, c: nat, entry: Entry)
    ensures entries[c := entry] - {c} == entries - {c}
  {
  }

  /** What the messages of one outcome add to those under way and to the answers. */
  lemma AddSent(net: Net, flying: multiset<RangeQuery>, answers: seq<RangeQuery>, sent: seq<RangeQuery>, r: RangeQuery)
    requires ToAlps(net, sent) == []
    ensures answers + ToAlps(net, sent) == answers
    ensures answers + ToAlps(net, sent + [r]) == if r.destination < net.Clps() then answers else answers + [r]
    ensures flying + ToClps(net, sent + [r]) ==
            if r.destination < net.Clps() then flying + ToClps(net, sent) + multiset{r} else flying + ToClps(net, sent)
  {
    ToClpsAdd(net, sent, r);
    hide ToClps, ToAlps;
    BagAssociative(flying, ToClps(net, sent), multiset{r});
    BagEmpty(ToClps(net, sent));
    assert [] + [r] == [r] && answers + [] == answers;
  }

  lemma OutcomeOfVisit(net: Net, e: Echo, c: nat, s: Step)
    requires WellRouted(net) && c < net.Clps() && s.m == QueryTo(net, c) && Enabled(net, e, s) && c !in e.entries
    ensures var m := s.m.(hops := s.m.hops + 1);
            var o := OriginPort(net, c);
            var entry := EntryAfter(c, net.Clps(), o, m.hops, m.values, s.sight);
            var sent := Forwarded(c, net.Clps(), net.tables[c], o, s.sight, m, OtherPorts(o));
            && (Outstanding(entry, 4) == [] ==> OutcomeOf(net, e, s) == Outcome(None, sent + [ReplyOf(net, entry, c, m)]))
            && (Outstanding(entry, 4) != [] ==> OutcomeOf(net, e, s) == Outcome(Some(entry), sent))
  {
    OriginPorts(net, c);
    hide StatusAfter, OtherPorts, Outstanding, Forwarded, AllRoutesClps, RoutesAlps, OriginPort, Insert;
  }

  lemma NextOfVisit(net: Net, e: Echo, c: nat, s: Step)
    requires WellRouted(net) && c < net.Clps() && s.m == QueryTo(net, c) && Enabled(net, e, s) && c !in e.entries
    requires c != net.Home() ==> Back(net, c) < net.Clps()
    requires var o := OriginPort(net, c);
             ToAlps(net, Forwarded(c, net.Clps(), net.tables[c], o, s.sight, s.m.(hops := s.m.hops + 1), OtherPorts(o))) == []
    ensures var m := s.m.(hops := s.m.hops + 1);
            var mid := Visited(net, e, c, m, s.sight);
            Next(net, e, s) == if Outstanding(mid.entries[c], 4) == [] then Closed(net, mid, c, m) else mid
  {
    hide EntryAfter, OtherPorts, Outstanding, Forwarded, AllRoutesClps, OriginPort, RoutesAlps, OutcomeOf, ToClps, ToAlps;
    OutcomeOfVisit(net, e, c, s);
    var m := s.m.(hops := s.m.hops + 1);
    var n, t, o := net.Clps(), net.tables[c], OriginPort(net, c);
    var entry := EntryAfter(c, n, o, m.hops, m.values, s.sight);
    var sent := Forwarded(c, n, t, o, s.sight, m, OtherPorts(o));
    ReplaceThenRemove(e.entries, c, entry);
    AddSent(net, e.flying - multiset{s.m}, e.answers, sent, ReplyOf(net, entry, c, m));
  }

  lemma OutcomeOfReply(net: Net, e: Echo, c: nat, f: nat, s: Step)
    requires WellRouted(net) && c < net.Clps() && Enabled(net, e, s) && c in e.entries && e.entries[c].origin == OriginPort(net, c)
    requires s.m.destination == c && s.m.origin == f && net.tables[c].toRank[f] == PortTo(c, f)
    ensures var m := s.m.(hops := s.m.hops + 1);
            var entry := Gathered(net, e, c, f, s.m, m.hops).entries[c];
            && (Outstanding(entry, 4) == [] ==> OutcomeOf(net, e, s) == Outcome(None, [] + [ReplyOf(net, entry, c, m)]))
            && (Outstanding(entry, 4) != [] ==> OutcomeOf(net, e, s) == Outcome(Some(entry), []))
  {
    OriginPorts(net, c);
    hide Outstanding, AllRoutesClps, OriginPort, RoutesAlps, PortTo, Insert;
  }

  lemma NextOfReply(net: Net, e: Echo, c: nat, f: nat, s: Step)
    requires WellRouted(net) && c < net.Clps() && Enabled(net, e, s) && c in e.entries && e.entries[c].origin == OriginPort(net, c)
    requires s.m.destination == c && s.m.origin == f && net.tables[c].toRank[f] == PortTo(c, f)
    requires c != net.Home() ==> Back(net, c) < net.Clps()
    ensures var m := s.m.(hops := s.m.hops + 1);
            var mid := Gathered(net, e, c, f, s.m, m.hops);
            Next(net, e, s) == if Outstanding(mid.entries[c], 4) == [] then Closed(net, mid, c, m) else mid
  {
    ToNothing(net);
    hide Outstanding, AllRoutesClps, OriginPort, RoutesAlps, ToClps, ToAlps, PortTo, Insert, OutcomeOf;
    OutcomeOfReply(net, e, c, f, s);
    var m := s.m.(hops := s.m.hops + 1);
    var entry := Gathered(net, e, c, f, s.m, m.hops).entries[c];
    BagEmpty(e.flying - multiset{s.m});
    ReplaceThenRemove(e.entries, c, entry);
    AddSent(net, e.flying - multiset{s.m}, e.answers, [], ReplyOf(net, entry, c, m));
  }

  lemma ToNothing(net: Net)
    ensures ToAlps(net, []) == [] && ToClps(net, []) == multiset{}
  {
  }

  ghost predicate Sound(net: Net, e: Echo, stages: seq<Stage>)
    requires WellRouted(net)
  {
    Fits(net, e, stages) && AllOpen(e) && ValuesFit(net, e, stages)
  }

  /** Steps are counted down by the CLPs not visited yet, the entries and the messages under way. */
  ghost function Measure(net: Net, e: Echo): int {
    6 * (net.Clps() - |e.log|) + 2 * |e.entries| + |e.flying|
  }

  lemma ClosedMeasure(net: Net, e: Echo, c: nat, m: RangeQuery)
    requires WellRouted(net) && c in e.entries
    ensures Measure(net, Closed(net, e, c, m)) < Measure(net, e)
  {
    assert (e.entries - {c}).Keys == e.entries.Keys - {c};
    assert |(e.entries - {c}).Keys| == |e.entries.Keys| - 1;
    assert |(e.entries - {c}).Keys| == |e.entries - {c}| && |e.entries.Keys| == |e.entries|;
  }

  lemma GatheredMeasure(net: Net, e: Echo, c: nat, f: nat, m: RangeQuery, hops: nat)
    requires WellRouted(net) && c < net.Clps() && c in e.entries && m in e.flying
    ensures Measure(net, Gathered(net, e, c, f, m, hops)) < Measure(net, e)
  {
    var after := Gathered(net, e, c, f, m, hops);
    assert after.entries.Keys == e.entries.Keys;
    assert |after.entries.Keys| == |after.entries| && |e.entries.Keys| == |e.entries|;
  }

  lemma {:induction false} FewMessages(net: Net, sent: seq<RangeQuery>)
    ensures |ToClps(net, sent)| <= |sent|
  {
    if sent != [] {
      FewMessages(net, sent[..|sent| - 1]);
    }
  }

  lemma {:induction false} FewForwarded(c: nat, n: nat, t: Routes, o: Direction, sight: Sight, m: RangeQuery, ports: seq<Direction>)
    ensures |Forwarded(c, n, t, o, sight, m, ports)| <= |ports|
  {
    if ports != [] {
      FewForwarded(c, n, t, o, sight, m, ports[..|ports| - 1]);
    }
  }

  lemma {:induction false} FewOutstanding(entry: Entry, i: nat)
    requires i <= 4
    ensures |Outstanding(entry, i)| <= i
  {
    if i > 0 {
      FewOutstanding(entry, i - 1);
    }
  }

  lemma OneMore<T>(entries: map<nat, T>, c: nat, x: T)
    requires c !in entries
    ensures |entries[c := x]| == |entries| + 1
  {
    assert entries[c := x].Keys == entries.Keys + {c};
    assert |entries[c := x].Keys| == |entries[c := x]| && |entries.Keys| == |entries|;
  }

  lemma VisitedMeasure(net: Net, e: Echo, c: nat, m: RangeQuery, sight: Sight)
    requires WellRouted(net) && c < net.Clps() && c !in e.entries && c !in e.log && QueryTo(net, c) in e.flying
    ensures Measure(net, Visited(net, e, c, m, sight)) < Measure(net, e)
  {
    hide AllRoutesClps, OriginPort, EntryAfter, Forwarded, ToClps, OtherPorts;
    var n, t, o := net.Clps(), net.tables[c], OriginPort(net, c);
    var sent := Forwarded(c, n, t, o, sight, m, OtherPorts(o));
    FewForwarded(c, n, t, o, sight, m, OtherPorts(o));
    FewPorts(o);
    FewMessages(net, sent);
    OneMore(e.entries, c, EntryAfter(c, n, o, m.hops, m.values, sight));
    OneMore(e.log, c, sight);
  }

  lemma FewPorts(o: Direction)
    ensures |OtherPorts(o)| <= 4
  {
    FewOutstanding(Fresh(o, 0, map[]), 4);
  }

  /** The step ends with the values sent back if no port is open any more. */
  lemma CloseIfDone(net: Net, e: Echo, mid: Echo, stages: seq<Stage>, c: nat, m: RangeQuery, next: Echo) returns (later: seq<Stage>)
    requires WellRouted(net) && Fits(net, mid, stages) && c < net.Clps() && c in mid.entries && IsQueryOf(net, m)
    requires ValuesFit(net, mid, stages) && Measure(net, mid) < Measure(net, e)
    requires AllOpen(e) && mid.entries == e.entries[c := mid.entries[c]]
    requires next == if Outstanding(mid.entries[c], 4) == [] then Closed(net, mid, c, m) else mid
    ensures Sound(net, next, later) && Measure(net, next) < Measure(net, e)
    ensures HopsOf(net, next, later, net.Clps()) == HopsOf(net, mid, stages, net.Clps())
  {
    hide AllRoutesClps, EntryFits, AskedFits, ReplyFits, IsComplete, Messages, Outstanding, ValuesFit, Measure, HopsOf;
    later := stages;
    if Outstanding(mid.entries[c], 4) == [] {
      assert StageFits(net, mid, stages, c);
      CloseFits(net, mid, stages, c, m);
      CloseValues(net, mid, stages, c, m);
      CloseHops(net, mid, stages, c, m);
      ClosedMeasure(net, mid, c, m);
      later := ClosedStages(net, mid, stages, c, m);
    }
  }

  lemma VisitStep(net: Net, e: Echo, stages: seq<Stage>, c: nat, s: Step)
    requires WellRouted(net) && Fits(net, e, stages) && c < net.Clps() && stages[c].Asked?
    requires s.m == QueryTo(net, c) && Enabled(net, e, s)
    ensures c !in e.log && c !in e.entries
    ensures var m := s.m.(hops := s.m.hops + 1);
            var mid := Visited(net, e, c, m, s.sight);
            Next(net, e, s) == if Outstanding(mid.entries[c], 4) == [] then Closed(net, mid, c, m) else mid
  {
    hide AllRoutesClps, NextHop, OriginPort, EntryAfter, Forwarded, ToClps, ToAlps, OtherPorts, Outstanding, RoutesAlps,
         AskThrough, Messages, StageFits, Next, Visited, Closed;
    AskedMessages(net, e, stages, c, s.m.(hops := s.m.hops + 1), s.sight);
    NotAskedBefore(net, e, stages, c, s.sight);
    OriginPorts(net, c);
    NextOfVisit(net, e, c, s);
  }

  /** The first arrival of the query at a CLP. */
  lemma AskedStep(net: Net, e: Echo, stages: seq<Stage>, c: nat, s: Step) returns (later: seq<Stage>)
    requires WellRouted(net) && Sound(net, e, stages) && c < net.Clps() == |stages| && stages[c].Asked?
    requires s.m == QueryTo(net, c) && s.m in e.flying && Enabled(net, e, s)
    ensures Sound(net, Next(net, e, s), later) && Measure(net, Next(net, e, s)) < Measure(net, e)
    ensures HopsOf(net, Next(net, e, s), later, net.Clps()) == HopsOf(net, e, stages, net.Clps()) + 1
    ensures c !in e.log && c !in e.entries
  {
    var m := s.m.(hops := s.m.hops + 1);
    hide Fits, ValuesFit, AllRoutesClps, NextHop, OriginPort, VisitedStages, EntryAfter, Forwarded, ToClps, OtherPorts, Outstanding,
         AllOpen, Next, Closed, Measure, HopsOf;
    VisitFits(net, e, stages, c, m, s.sight);
    VisitStep(net, e, stages, c, s);
    NotAskedBefore(net, e, stages, c, s.sight);
    VisitValues(net, e, stages, c, m, s.sight);
    VisitHops(net, e, stages, c, m, s.sight);
    VisitedMeasure(net, e, c, m, s.sight);
    later := CloseIfDone(net, e, Visited(net, e, c, m, s.sight), VisitedStages(net, stages, c, s.sight), c, m, Next(net, e, s));
  }

  /** The arrival of a reply. */
  lemma AnsweringStep(net: Net, e: Echo, stages: seq<Stage>, f: nat, s: Step) returns (later: seq<Stage>)
    requires WellRouted(net) && Sound(net, e, stages) && f < net.Clps() == |stages| && stages[f] == Answering(s.m)
    requires s.m in e.flying && Enabled(net, e, s) && IsQueryOf(net, s.m)
    requires f != net.Home() && s.m.destination == Back(net, f) && net.tables[s.m.destination].toRank[f] == PortTo(s.m.destination, f)
    ensures Sound(net, Next(net, e, s), later) && Measure(net, Next(net, e, s)) < Measure(net, e)
    ensures HopsOf(net, Next(net, e, s), later, net.Clps()) == HopsOf(net, e, stages, net.Clps()) + 1
    ensures s.m.destination in e.entries && s.m.destination in e.log
  {
    var m, c := s.m.(hops := s.m.hops + 1), s.m.destination;
    hide PortIsOpen, IsChild, Messages, AllRoutesClps, NextHop, OriginPort, Outstanding, RoutesAlps, PortTo, Insert, AllOpen, Next,
         Closed, ValuesFit, Measure, HopsOf;
    assert StageFits(net, e, stages, f);
    GatherFits(net, e, stages, f, m.hops);
    assert StageFits(net, e, stages, c);
    OriginPorts(net, c);
    hide StageFits, EntryFits, Fits;
    NextOfReply(net, e, c, f, s);
    GatherValues(net, e, stages, c, f, m.hops);
    GatherHops(net, e, stages, c, f, m.hops);
    GatheredMeasure(net, e, c, f, s.m, m.hops);
    later := CloseIfDone(net, e, Gathered(net, e, c, f, s.m, m.hops), stages[f := Done], c, m, Next(net, e, s));
  }

  /** Any message may arrive next, every arrival is one step closer to the end, and a message at a CLP
      without an entry is the first to come there. */
  lemma StepIsSound(net: Net, e: Echo, stages: seq<Stage>, s: Step) returns (later: seq<Stage>)
    requires WellRouted(net) && Sound(net, e, stages) && s.m in e.flying
    ensures Enabled(net, e, s)
    ensures Sound(net, Next(net, e, s), later) && Measure(net, Next(net, e, s)) < Measure(net, e)
    ensures HopsOf(net, Next(net, e, s), later, net.Clps()) == HopsOf(net, e, stages, net.Clps()) + 1
    ensures s.m.destination in e.entries <==> s.m.destination in e.log
  {
    hide Fits, AllOpen, ValuesFit, Next, OriginPort, WellRouted, Measure, HopsOf;
    var c := MessagesCanArrive(net, e, stages, s);
    if stages[c].Asked? {
      later := AskedStep(net, e, stages, c, s);
    } else {
      later := AnsweringStep(net, e, stages, c, s);
    }
  }
}
