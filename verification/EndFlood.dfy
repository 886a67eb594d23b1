/** The messages by which ALPs tell every CLP that they have ended. */
module EndFlood {
  import opened Trees

  datatype EndMessage = EndMessage(origin: nat, destination: nat, sender: nat)

  /** What a CLP passes on: a message from one neighbour goes to the others. A message from elsewhere at a CLP
      with children keeps its destination in one of its two copies. */
  function PassedOn(rank: nat, n: nat, m: EndMessage): seq<EndMessage> {
    var left, right := 2 * rank + 1, 2 * rank + 2;
    if rank != 0 && rank < n / 2 then
      var parent := (rank + 1) / 2 - 1;
      var one := if m.origin == left then right else if m.origin == right || m.origin == parent then left else m.destination;
      var two := if m.origin == parent then right else parent;
      [EndMessage(rank, one, m.sender), EndMessage(rank, two, m.sender)]
    else if rank != 0 then
      var parent := (rank + 1) / 2 - 1;
      if m.origin != parent then [EndMessage(rank, parent, m.sender)] else []
    else if rank < n / 2 then
      [EndMessage(rank, if m.origin == left then right else left, m.sender)]
    else []
  }

  /** What CLPs tell each other stays among the CLPs. */
  ghost predicate StaysAmongClps(n: nat) {
    forall m: EndMessage, p ::
      (m.destination < n && m.origin < n && Adjacent(m.destination, m.origin) && p in PassedOn(m.destination, n, m)) ==>
        p.destination < n
  }

  /** It does exactly if their number is odd: otherwise one CLP has a single child and sends to the first ALP as well. */
  lemma StaysAmongClpsIff(n: nat)
    requires n > 0
    ensures StaysAmongClps(n) <==> n % 2 == 1
  {
    if n % 2 == 0 {
      var m := EndMessage(n - 1, n / 2 - 1, n);
      var p := EndMessage(n / 2 - 1, n, n);
      assert PassedOn(m.destination, n, m)[0] == p;
      assert Adjacent(m.destination, m.origin) && p in PassedOn(m.destination, n, m);
    }
  }

  /** The message of an ALP goes on to all neighbours of its CLP exactly if that has no children. */
  lemma StartsEverywhereIff(n: nat, m: EndMessage)
    requires n % 2 == 1 && m.destination < n <= m.origin
    ensures (forall c: nat :: c < n && Adjacent(m.destination, c) ==>
               exists p :: p in PassedOn(m.destination, n, m) && p.destination == c) <==> m.destination >= n / 2
  {
    var rank, sent := m.destination, PassedOn(m.destination, n, m);
    if rank >= n / 2 {
      forall c: nat | c < n && Adjacent(rank, c) ensures exists p :: p in sent && p.destination == c {
        assert sent[0] in sent && sent[0].destination == c;
      }
    } else {
      assert 2 * rank + 2 < n && Adjacent(rank, 2 * rank + 2);
      assert forall p :: p in sent ==> p.destination != 2 * rank + 2;
    }
  }

  class EndHandler {
    const rank: nat
    const clps: nat
    const received: array<bool>
    var processed: bool

    constructor (rank: nat, clps: nat, alps: nat)
      ensures this.rank == rank && this.clps == clps && fresh(received) && received.Length == alps && !processed
      ensures forall i :: 0 <= i < alps ==> !received[i]
    {
      this.rank, this.clps, this.processed := rank, clps, false;
      received := new bool[alps](_ => false);
    }

    method AllEndMessagesReceived() returns (all: bool)
      ensures all <==> forall i :: 0 <= i < received.Length ==> received[i]
    {
      for i := 0 to received.Length
        invariant forall j :: 0 <= j < i ==> received[j]
      {
        if !received[i] {
          return false;
        }
      }
      return true;
    }

    /** The root remembers the sender, and asks for a new round once it has heard from all. */
    method ProcessEnd(m: EndMessage) returns (sent: seq<EndMessage>, requestsGvt: bool)
      requires clps <= m.sender < clps + received.Length
      modifies this`processed, received
      ensures sent == PassedOn(rank, clps, m)
      ensures rank != 0 ==> received[..] == old(received[..]) && processed && !requestsGvt
      ensures rank == 0 ==>
                && received[..] == old(received[..])[m.sender - clps := true]
                && (requestsGvt <==> !old(processed) && forall i :: 0 <= i < received.Length ==> received[i])
                && (processed <==> old(processed) || forall i :: 0 <= i < received.Length ==> received[i])
    {
      sent, requestsGvt := [], false;
      var left, right := 2 * rank + 1, 2 * rank + 2;
      if rank != 0 && rank < clps / 2 {
        processed := true;
        var parent := (rank + 1) / 2 - 1;
        var one, two := m.destination, parent;
        if m.origin == left {
          one := right;
        } else if m.origin == right {
          one := left;
        } else if m.origin == parent {
          one, two := left, right;
        }
        sent := [EndMessage(rank, one, m.sender), EndMessage(rank, two, m.sender)];
      } else if rank != 0 {
        processed := true;
        var parent := (rank + 1) / 2 - 1;
        if m.origin != parent {
          sent := [EndMessage(rank, parent, m.sender)];
        }
      } else {
        received[m.sender - clps] := true;
        var all := AllEndMessagesReceived();
        if all {
          requestsGvt := !processed;
          processed := true;
        }
        if rank < clps / 2 {
          sent := [EndMessage(rank, if m.origin == left then right else left, m.sender)];
        }
      }
    }
  }

  // ---- The flood ----

  /** CLPs, an odd number, and the CLP of each ALP, which has no children. */
  datatype Net = Net(n: nat, homes: seq<nat>)

  ghost predicate WellFormed(net: Net) {
    net.n % 2 == 1 && forall a :: 0 <= a < |net.homes| ==> net.n / 2 <= net.homes[a] < net.n
  }

  datatype Receipt = Receipt(clp: nat, alp: nat)

  /** Messages under way, receipts so far, and the ALPs that have ended. */
  datatype Flood = Flood(flying: seq<EndMessage>, log: seq<Receipt>, ended: set<nat>)

  datatype Event = Ends(alp: nat) | Arrives(k: nat)

  ghost predicate Possible(net: Net, f: Flood, e: Event) {
    match e
    case Ends(alp) => alp < |net.homes| && alp !in f.ended
    case Arrives(k) => k < |f.flying|
  }

  /** An ending ALP sends one message to its CLP. */
  ghost function After(net: Net, f: Flood, e: Event): Flood
    requires Possible(net, f, e)
  {
    match e
    case Ends(a) =>
      Flood(f.flying + [EndMessage(net.n + a, net.homes[a], net.n + a)], f.log, f.ended + {a})
    case Arrives(k) =>
      var m := f.flying[k];
      Flood(f.flying[..k] + f.flying[k + 1..] + PassedOn(m.destination, net.n, m),
            f.log + [Receipt(m.destination, if m.sender >= net.n then m.sender - net.n else 0)], f.ended)
  }

  predicate IsTo(net: Net, m: EndMessage, c: nat, a: nat) {
    m.destination == c && m.sender == net.n + a
  }

  function ToClp(net: Net, flying: seq<EndMessage>, c: nat, a: nat): nat {
    if flying == [] then 0
    else ToClp(net, flying[..|flying| - 1], c, a) + if IsTo(net, flying[|flying| - 1], c, a) then 1 else 0
  }

  function Receipts(log: seq<Receipt>, c: nat, a: nat): nat {
    if log == [] then 0 else Receipts(log[..|log| - 1], c, a) + if log[|log| - 1] == Receipt(c, a) then 1 else 0
  }

  /** From where the message of `a` reaches `c`. */
  function Source(net: Net, c: nat, a: nat): nat
    requires a < |net.homes|
  {
    if c == net.homes[a] then net.n + a else NextHop(c, net.homes[a])
  }

  /** What has reached a CLP or is on its way there is what the CLP before it has passed on. */
  ghost predicate Balanced(net: Net, f: Flood, c: nat, a: nat)
    requires a < |net.homes|
  {
    ToClp(net, f.flying, c, a) + Receipts(f.log, c, a) ==
    if c == net.homes[a] then (if a in f.ended then 1 else 0) else Receipts(f.log, NextHop(c, net.homes[a]), a)
  }

  ghost predicate MessageFits(net: Net, m: EndMessage) {
    && m.destination < net.n && net.n <= m.sender < net.n + |net.homes|
    && m.origin == Source(net, m.destination, m.sender - net.n)
  }

  ghost predicate Fits(net: Net, f: Flood) {
    && (forall m :: m in f.flying ==> MessageFits(net, m))
    && (forall r :: r in f.log ==> r.clp < net.n && r.alp < |net.homes|)
    && (forall a :: a in f.ended ==> a < |net.homes|)
    && (forall c: nat, a: nat :: c < net.n && a < |net.homes| ==> Balanced(net, f, c, a))
  }

  lemma {:induction false} ToClpAppend(net: Net, x: seq<EndMessage>, y: seq<EndMessage>, c: nat, a: nat)
    ensures ToClp(net, x + y, c, a) == ToClp(net, x, c, a) + ToClp(net, y, c, a)
  {
    if y == [] {
      assert x + y == x;
    } else {
      assert (x + y)[..|x + y| - 1] == x + y[..|y| - 1];
      ToClpAppend(net, x, y[..|y| - 1], c, a);
    }
  }

  lemma ToClpOne(net: Net, m: EndMessage, c: nat, a: nat)
    ensures ToClp(net, [m], c, a) == if IsTo(net, m, c, a) then 1 else 0
  {
    assert [m][..0] == [];
  }

  lemma ToClpWithout(net: Net, x: seq<EndMessage>, k: nat, c: nat, a: nat)
    requires k < |x|
    ensures ToClp(net, x, c, a) == ToClp(net, x[..k] + x[k + 1..], c, a) + if IsTo(net, x[k], c, a) then 1 else 0
  {
    assert x == x[..k] + [x[k]] + x[k + 1..];
    ToClpAppend(net, x[..k] + [x[k]], x[k + 1..], c, a);
    ToClpAppend(net, x[..k], [x[k]], c, a);
    ToClpAppend(net, x[..k], x[k + 1..], c, a);
    ToClpOne(net, x[k], c, a);
  }

  /** The neighbours a message does not come from are those behind the CLP, seen from the sender. */
  lemma NeighboursBehind(net: Net, m: EndMessage, c: nat)
    requires WellFormed(net) && MessageFits(net, m) && c < net.n
    ensures var h := net.homes[m.sender - net.n];
            c != h && NextHop(c, h) == m.destination <==> Adjacent(m.destination, c) && c != m.origin
  {
    var r, h := m.destination, net.homes[m.sender - net.n];
    if Adjacent(r, c) {
      EdgeSplits(r, c, h);
    } else if c != h {
      NextHopIsCloser(c, h);
    }
  }

  /** A message goes once to every neighbour but the one it comes from, and nowhere else. */
  lemma PassedOnToOthers(net: Net, m: EndMessage, c: nat)
    requires WellFormed(net) && MessageFits(net, m)
    ensures var sent := PassedOn(m.destination, net.n, m);
            && (forall p :: p in sent ==> p.origin == m.destination && p.sender == m.sender && p.destination < net.n &&
                                          Adjacent(m.destination, p.destination) && p.destination != m.origin)
            && (c < net.n && Adjacent(m.destination, c) && c != m.origin ==>
                  EndMessage(m.destination, c, m.sender) in sent)
            && |sent| <= 2 && (|sent| == 2 ==> sent[0] != sent[1])
  {
    var r, h := m.destination, net.homes[m.sender - net.n];
    assert m.origin == Source(net, r, m.sender - net.n);
    if r != h {
      NextHopIsCloser(r, h);
      PathStaysInTree(net.n, r, h);
    }
    hide NextHop, Dist, Under;
  }

  /** A CLP passes a message on once to every CLP behind it and to nobody else. */
  lemma PassedOnFits(net: Net, m: EndMessage, c: nat, a: nat)
    requires WellFormed(net) && MessageFits(net, m) && c < net.n && a < |net.homes|
    ensures ToClp(net, PassedOn(m.destination, net.n, m), c, a) ==
            if m.sender == net.n + a && c != net.homes[a] && NextHop(c, net.homes[a]) == m.destination then 1 else 0
    ensures forall p :: p in PassedOn(m.destination, net.n, m) ==> MessageFits(net, p)
  {
    hide NextHop, Dist, Under, PassedOn, Adjacent;
    var r, sent := m.destination, PassedOn(m.destination, net.n, m);
    PassedOnToOthers(net, m, c);
    NeighboursBehind(net, m, c);
    forall p | p in sent ensures MessageFits(net, p) {
      NeighboursBehind(net, m, p.destination);
    }
    if |sent| == 2 {
      assert sent == [sent[0]] + [sent[1]] && sent[0] in sent && sent[1] in sent;
      ToClpAppend(net, [sent[0]], [sent[1]], c, a);
      ToClpOne(net, sent[0], c, a);
      ToClpOne(net, sent[1], c, a);
    } else if |sent| == 1 {
      assert sent == [sent[0]] && sent[0] in sent;
      ToClpOne(net, sent[0], c, a);
    }
  }

  lemma ReceiptsAdd(log: seq<Receipt>, r: Receipt, c: nat, a: nat)
    ensures Receipts(log + [r], c, a) == Receipts(log, c, a) + if r == Receipt(c, a) then 1 else 0
  {
    assert (log + [r])[..|log|] == log;
  }

  lemma EndsFits(net: Net, f: Flood, b: nat)
    requires WellFormed(net) && Fits(net, f) && Possible(net, f, Ends(b))
    ensures Fits(net, After(net, f, Ends(b)))
  {
    var m := EndMessage(net.n + b, net.homes[b], net.n + b);
    var after := After(net, f, Ends(b));
    forall c: nat, a: nat | c < net.n && a < |net.homes| ensures Balanced(net, after, c, a) {
      assert Balanced(net, f, c, a);
      ToClpAppend(net, f.flying, [m], c, a);
      ToClpOne(net, m, c, a);
      hide ToClp, Receipts, NextHop;
    }
  }

  lemma ArrivesFits(net: Net, f: Flood, k: nat)
    requires WellFormed(net) && Fits(net, f) && Possible(net, f, Arrives(k))
    ensures Fits(net, After(net, f, Arrives(k)))
  {
    var m := f.flying[k];
    var rest, sent := f.flying[..k] + f.flying[k + 1..], PassedOn(m.destination, net.n, m);
    var after := After(net, f, Arrives(k));
    assert m in f.flying && after.flying == rest + sent;
    PassedOnFits(net, m, 0, m.sender - net.n);
    forall p | p in after.flying ensures MessageFits(net, p) {
      assert p in f.flying || p in sent;
    }
    forall c: nat, a: nat | c < net.n && a < |net.homes| ensures Balanced(net, after, c, a) {
      ArrivalBalanced(net, f, k, c, a);
    }
    hide Balanced, MessageFits, PassedOn;
  }

  lemma ArrivalBalanced(net: Net, f: Flood, k: nat, c: nat, a: nat)
    requires WellFormed(net) && Fits(net, f) && Possible(net, f, Arrives(k)) && c < net.n && a < |net.homes|
    ensures Balanced(net, After(net, f, Arrives(k)), c, a)
  {
    var m := f.flying[k];
    var rest, sent := f.flying[..k] + f.flying[k + 1..], PassedOn(m.destination, net.n, m);
    assert m in f.flying && MessageFits(net, m) && Balanced(net, f, c, a);
    hide Fits, Dist;
    ToClpAppend(net, rest, sent, c, a);
    ToClpWithout(net, f.flying, k, c, a);
    PassedOnFits(net, m, c, a);
    var r := Receipt(m.destination, m.sender - net.n);
    ReceiptsAdd(f.log, r, c, a);
    if c != net.homes[a] {
      ReceiptsAdd(f.log, r, NextHop(c, net.homes[a]), a);
      NextHopIsCloser(c, net.homes[a]);
    }
    hide ToClp, Receipts, NextHop, PassedOn, MessageFits;
  }

  // ---- Whole runs ----

  ghost predicate IsRun(net: Net, f: Flood, events: seq<Event>)
    decreases |events|
  {
    events == [] || (Possible(net, f, events[0]) && IsRun(net, After(net, f, events[0]), events[1..]))
  }

  ghost function Run(net: Net, f: Flood, events: seq<Event>): Flood
    requires IsRun(net, f, events)
    decreases |events|
  {
    if events == [] then f else Run(net, After(net, f, events[0]), events[1..])
  }

  lemma {:induction false} RunFits(net: Net, f: Flood, events: seq<Event>)
    requires WellFormed(net) && Fits(net, f) && IsRun(net, f, events)
    ensures Fits(net, Run(net, f, events))
    ensures |Run(net, f, events).log| + |Run(net, f, events).ended| == |f.log| + |f.ended| + |events|
    decreases |events|
  {
    hide Fits, WellFormed;
    if events != [] {
      if events[0].Ends? {
        EndsFits(net, f, events[0].alp);
      } else {
        ArrivesFits(net, f, events[0].k);
      }
      RunFits(net, After(net, f, events[0]), events[1..]);
    }
  }

  /** No CLP has got the message of an ALP more often than once, and none before that ALP has ended. */
  lemma {:induction false} AtMostOnce(net: Net, f: Flood, c: nat, a: nat)
    requires WellFormed(net) && Fits(net, f) && c < net.n && a < |net.homes|
    ensures ToClp(net, f.flying, c, a) + Receipts(f.log, c, a) <= 1
    ensures a !in f.ended ==> Receipts(f.log, c, a) == 0
    decreases Dist(c, net.homes[a])
  {
    assert Balanced(net, f, c, a);
    if c != net.homes[a] {
      NextHopIsCloser(c, net.homes[a]);
      PathStaysInTree(net.n, c, net.homes[a]);
      hide Fits, NextHop, Dist;
      AtMostOnce(net, f, NextHop(c, net.homes[a]), a);
    }
  }

  /** With no message under way every CLP has got the message of every ended ALP. */
  lemma {:induction false} ReachesAll(net: Net, f: Flood, c: nat, a: nat)
    requires WellFormed(net) && Fits(net, f) && f.flying == [] && c < net.n && a in f.ended
    ensures Receipts(f.log, c, a) == 1
    decreases Dist(c, net.homes[a])
  {
    assert Balanced(net, f, c, a);
    if c != net.homes[a] {
      NextHopIsCloser(c, net.homes[a]);
      PathStaysInTree(net.n, c, net.homes[a]);
      hide Fits, NextHop, Dist;
      ReachesAll(net, f, NextHop(c, net.homes[a]), a);
    }
  }

  /** The flags of the root, true for the senders it has heard from. */
  function RootFlags(net: Net, log: seq<Receipt>): seq<bool> {
    seq(|net.homes|, a requires 0 <= a < |net.homes| => Receipts(log, 0, a) > 0)
  }

  /** They change as its handler changes them. */
  lemma RootFlagsStep(net: Net, log: seq<Receipt>, r: Receipt)
    requires r.alp < |net.homes|
    ensures RootFlags(net, log + [r]) == if r.clp == 0 then RootFlags(net, log)[r.alp := true] else RootFlags(net, log)
  {
    var before, after := RootFlags(net, log), RootFlags(net, log + [r]);
    forall a: nat | a < |net.homes| ensures after[a] == if r.clp == 0 && a == r.alp then true else before[a] {
      ReceiptsAdd(log, r, 0, a);
    }
  }

  lemma {:induction false} ReceiptsCount(log: seq<Receipt>, i: nat, j: nat)
    requires i < j < |log| && log[i] == log[j]
    ensures Receipts(log, log[i].clp, log[i].alp) >= 2
  {
    var n := |log| - 1;
    if j == n {
      ReceiptsInclude(log[..n], i);
    } else {
      ReceiptsCount(log[..n], i, j);
    }
  }

  lemma {:induction false} ReceiptsInclude(log: seq<Receipt>, i: nat)
    requires i < |log|
    ensures Receipts(log, log[i].clp, log[i].alp) >= 1
  {
    if i < |log| - 1 {
      ReceiptsInclude(log[..|log| - 1], i);
    }
  }

  lemma {:induction false} RowOf(c: nat, alps: nat) returns (row: set<Receipt>)
    ensures |row| == alps && forall r :: r in row <==> r.clp == c && r.alp < alps
  {
    row := {};
    if alps > 0 {
      row := RowOf(c, alps - 1);
      row := row + {Receipt(c, alps - 1)};
    }
  }

  lemma {:induction false} AllReceipts(n: nat, alps: nat) returns (all: set<Receipt>)
    ensures |all| == n * alps && forall r :: r in all <==> r.clp < n && r.alp < alps
  {
    all := {};
    if n > 0 {
      all := AllReceipts(n - 1, alps);
      var row := RowOf(n - 1, alps);
      assert all !! row && |all + row| == |all| + |row|;
      all := all + row;
    }
  }

  lemma {:induction false} DistinctAreFew(log: seq<Receipt>, all: set<Receipt>)
    requires forall i, j :: 0 <= i < j < |log| ==> log[i] != log[j]
    requires forall r :: r in log ==> r in all
    ensures |log| <= |all|
  {
    if log != [] {
      var n := |log| - 1;
      DistinctAreFew(log[..n], all - {log[n]});
    }
  }

  lemma LogIsBounded(net: Net, f: Flood)
    requires WellFormed(net) && Fits(net, f)
    ensures forall i, j :: 0 <= i < j < |f.log| ==> f.log[i] != f.log[j]
    ensures |f.log| <= net.n * |net.homes|
  {
    forall i, j | 0 <= i < j < |f.log| ensures f.log[i] != f.log[j] {
      if f.log[i] == f.log[j] {
        ReceiptsCount(f.log, i, j);
        assert f.log[i] in f.log;
        AtMostOnce(net, f, f.log[i].clp, f.log[i].alp);
      }
    }
    var all := AllReceipts(net.n, |net.homes|);
    DistinctAreFew(f.log, all);
  }

  /** Whatever the order of endings and arrivals: no CLP gets the message of an ALP twice, the flood stops
      within as many arrivals as there are pairs of a CLP and an ALP, and once nothing is under way every CLP
      has got the message of every ended ALP. So the flags of the root are all set only if all ALPs have
      ended, and they are all set once the messages of all have gone round. */
  lemma FloodReachesEveryClpOnce(net: Net, events: seq<Event>)
    requires WellFormed(net) && net.n > 0 && IsRun(net, Flood([], [], {}), events)
    ensures var f := Run(net, Flood([], [], {}), events);
            && (forall i, j :: 0 <= i < j < |f.log| ==> f.log[i] != f.log[j])
            && |events| - |f.ended| == |f.log| <= net.n * |net.homes|
            && (f.flying == [] ==> forall c: nat, a :: c < net.n && a in f.ended ==> Receipts(f.log, c, a) == 1)
            && (forall a: nat :: a < |net.homes| && RootFlags(net, f.log)[a] ==> a in f.ended)
            && (f.flying == [] ==> forall a: nat :: a < |net.homes| && a in f.ended ==> RootFlags(net, f.log)[a])
  {
    var start := Flood([], [], {});
    forall c: nat, a: nat | c < net.n && a < |net.homes| ensures Balanced(net, start, c, a) {
    }
    RunFits(net, start, events);
    var f := Run(net, start, events);
    LogIsBounded(net, f);
    forall a: nat | a < |net.homes| && a !in f.ended ensures Receipts(f.log, 0, a) == 0 {
      AtMostOnce(net, f, 0, a);
    }
    if f.flying == [] {
      forall c: nat, a | c < net.n && a in f.ended ensures Receipts(f.log, c, a) == 1 {
        ReachesAll(net, f, c, a);
      }
    }
    hide Receipts, Fits, Run;
  }
}
