/** Global virtual time: one round of the ring with its first cut, over LPs that send and consume messages. */
module Gvt {
  import opened Timelines
  import opened WritePeriods

  datatype Colour = WHITE | RED

  /** The part of an LP the rounds look at. A CLP has the greatest time as its local virtual time. */
  datatype Lp = Lp(colour: Colour, counters: map<nat, int>, redTime: nat, lvt: nat)

  datatype Simulation = Simulation(destination: nat, time: nat, colour: Colour)

  datatype Cut = FIRST | SECOND

  /** The message of a round, on its way to `destination`. */
  datatype Control = Control(destination: nat, minimumTime: nat, redTime: nat, cut: Cut, counts: map<nat, int>)

  function Min(a: nat, b: nat): nat {
    if a < b then a else b
  }

  // ---- What an LP does with its counters ----

  /** A missing entry counts as -1 when a cut reads it. */
  function Counter(counters: map<nat, int>, j: nat): int {
    if j in counters then counters[j] else -1
  }

  /** But an increment or decrement starts from 0. */
  function Sum0(lp: Lp, j: nat): int {
    if j in lp.counters then lp.counters[j] else 0
  }

  function AfterSend(lp: Lp, destination: nat, time: nat): Lp {
    if lp.colour == WHITE then lp.(counters := lp.counters[destination := Sum0(lp, destination) + 1])
    else lp.(redTime := Min(lp.redTime, time))
  }

  function AfterReceive(lp: Lp, rank: nat, m: Simulation): Lp {
    if m.colour == WHITE then lp.(counters := lp.counters[rank := Sum0(lp, rank) - 1]) else lp
  }

  // ---- The first cut ----

  function CountsAfter(counters: map<nat, int>, n: nat, counts: map<nat, int>): map<nat, int> {
    counts + map j: nat | j < n :: Counter(counts, j) + Counter(counters, j)
  }

  function ControlAfter(lp: Lp, n: nat, c: Control): Control {
    c.(minimumTime := Min(lp.lvt, c.minimumTime), counts := CountsAfter(lp.counters, n, c.counts))
  }

  function AfterCut(lp: Lp): Lp {
    lp.(colour := RED, redTime := LONG_MAX)
  }

  /** The starter looks at the ranks it has counters for. */
  predicate TransientsRemain(counters: map<nat, int>, counts: map<nat, int>) {
    exists j :: j in counters && j in counts && counts[j] > 0
  }

  function Announced(c: Control): nat {
    if c.minimumTime < c.redTime then c.minimumTime else c.redTime
  }

  function Zeros(n: nat): (counts: map<nat, int>)
    ensures forall j: nat :: j in counts <==> j < n
    ensures forall j: nat :: j in counts ==> counts[j] == 0
  {
    if n == 0 then map[] else Zeros(n - 1)[n - 1 := 0]
  }

  function FirstControl(n: nat): Control
    requires n > 0
  {
    Control(1 % n, LONG_MAX, LONG_MAX, FIRST, Zeros(n))
  }

  // ---- LPs and messages under way ----

  /** A message that a handler has queued and nobody has stamped yet. */
  datatype Emission = Emission(destination: nat, time: nat)

  /** All LPs and their send queues, the simulation messages under way, and for each LP how many white messages it has
      consumed while it was red. A message counts as queued until it is stamped and under way. */
  datatype World = World(lps: seq<Lp>, queues: seq<seq<Emission>>, flying: seq<Simulation>, late: seq<nat>)

  /** The main thread of LP `rank` consumes message number `consumed` or none, moves the local virtual time and leaves
      `queue` behind. Its send thread stamps the first message of the queue and sends it. Or its colour changes, as cuts
      and announcements do. */
  datatype Step =
    | Act(rank: nat, consumed: Option<nat>, lvt: nat, queue: seq<Emission>)
    | Send(rank: nat)
    | Recolour(rank: nat, colour: Colour)

  ghost predicate WellFormed(w: World) {
    && |w.late| == |w.lps| == |w.queues|
    && (forall k :: 0 <= k < |w.flying| ==> w.flying[k].destination < |w.lps|)
    && forall i, e :: 0 <= i < |w.queues| && e in w.queues[i] ==> e.destination < |w.lps| && e.destination != i
  }

  /** A handler does not fall below the local virtual time and the message it consumes, nor does it queue anything
      below; it may take messages out of the queue. Messages go to other LPs. */
  ghost predicate Enabled(w: World, s: Step)
    requires WellFormed(w)
  {
    && s.rank < |w.lps|
    && (s.Act? ==>
          && (s.consumed.Some? ==> s.consumed.value < |w.flying| && w.flying[s.consumed.value].destination == s.rank)
          && s.lvt >= Floor(w, s)
          && forall e :: e in s.queue && e !in w.queues[s.rank] ==>
               e.destination < |w.lps| && e.destination != s.rank && e.time >= Floor(w, s))
    && (s.Send? ==> w.queues[s.rank] != [])
  }

  ghost function Floor(w: World, s: Step): nat
    requires s.rank < |w.lps|
  {
    if s.Act? && s.consumed.Some? && s.consumed.value < |w.flying| then Min(w.lps[s.rank].lvt, w.flying[s.consumed.value].time)
    else w.lps[s.rank].lvt
  }

  function SendOne(w: World, i: nat, e: Emission): World
    requires i < |w.lps|
  {
    w.(lps := w.lps[i := AfterSend(w.lps[i], e.destination, e.time)],
       flying := w.flying + [Simulation(e.destination, e.time, w.lps[i].colour)])
  }

  function Without<T>(s: seq<T>, k: nat): seq<T>
    requires k < |s|
  {
    s[..k] + s[k + 1..]
  }

  ghost function Consume(w: World, i: nat, k: nat): World
    requires i < |w.lps| == |w.late| && k < |w.flying|
  {
    var m := w.flying[k];
    w.(lps := w.lps[i := AfterReceive(w.lps[i], i, m)], flying := Without(w.flying, k),
       late := if m.colour == WHITE && w.lps[i].colour == RED then w.late[i := w.late[i] + 1] else w.late)
  }

  function SetLvt(w: World, i: nat, lvt: nat): World
    requires i < |w.lps|
  {
    w.(lps := w.lps[i := w.lps[i].(lvt := lvt)])
  }

  function SetQueue(w: World, i: nat, queue: seq<Emission>): World
    requires i < |w.queues|
  {
    w.(queues := w.queues[i := queue])
  }

  ghost function Next(w: World, s: Step): World
    requires WellFormed(w) && Enabled(w, s)
  {
    match s
    case Act(rank, consumed, lvt, queue) =>
      SetQueue(SetLvt(if consumed.Some? then Consume(w, rank, consumed.value) else w, rank, lvt), rank, queue)
    case Send(rank) =>
      SetQueue(SendOne(w, rank, w.queues[rank][0]), rank, w.queues[rank][1..])
    case Recolour(rank, colour) =>
      w.(lps := w.lps[rank := w.lps[rank].(colour := colour)])
  }

  // ---- White messages are counted ----

  function WhiteTo(flying: seq<Simulation>, j: nat): nat {
    if flying == [] then 0
    else WhiteTo(flying[..|flying| - 1], j) +
         if flying[|flying| - 1] == Simulation(j, flying[|flying| - 1].time, WHITE) then 1 else 0
  }

  function Total(lps: seq<Lp>, j: nat): int {
    if lps == [] then 0 else Total(lps[..|lps| - 1], j) + Sum0(lps[|lps| - 1], j)
  }

  /** For every rank the counters of all LPs add up to the white messages under way to it. */
  ghost predicate Counted(w: World) {
    forall j: nat :: Total(w.lps, j) == WhiteTo(w.flying, j)
  }

  lemma {:induction false} WhiteToAppend(a: seq<Simulation>, b: seq<Simulation>, j: nat)
    ensures WhiteTo(a + b, j) == WhiteTo(a, j) + WhiteTo(b, j)
  {
    if b == [] {
      assert a + b == a;
    } else {
      assert (a + b)[..|a + b| - 1] == a + b[..|b| - 1];
      WhiteToAppend(a, b[..|b| - 1], j);
    }
  }

  lemma WhiteToOne(m: Simulation, j: nat)
    ensures WhiteTo([m], j) == if m.colour == WHITE && m.destination == j then 1 else 0
  {
    assert [m][..0] == [];
  }

  lemma WhiteToWithout(flying: seq<Simulation>, k: nat, j: nat)
    requires k < |flying|
    ensures WhiteTo(flying, j) == WhiteTo(Without(flying, k), j) + if flying[k].colour == WHITE && flying[k].destination == j then 1 else 0
  {
    assert flying == flying[..k] + [flying[k]] + flying[k + 1..];
    WhiteToAppend(flying[..k] + [flying[k]], flying[k + 1..], j);
    WhiteToAppend(flying[..k], [flying[k]], j);
    WhiteToAppend(flying[..k], flying[k + 1..], j);
    WhiteToOne(flying[k], j);
  }

  lemma {:induction false} TotalUpdate(lps: seq<Lp>, i: nat, lp: Lp, j: nat)
    requires i < |lps|
    ensures Total(lps[i := lp], j) == Total(lps, j) - Sum0(lps[i], j) + Sum0(lp, j)
  {
    var n := |lps| - 1;
    if i == n {
      assert lps[i := lp][..n] == lps[..n];
    } else {
      assert lps[i := lp][..n] == lps[..n][i := lp];
      TotalUpdate(lps[..n], i, lp, j);
    }
  }

  lemma SendOneCounted(w: World, i: nat, e: Emission)
    requires i < |w.lps| && Counted(w)
    ensures Counted(SendOne(w, i, e))
  {
    forall j: nat ensures Total(SendOne(w, i, e).lps, j) == WhiteTo(SendOne(w, i, e).flying, j) {
      TotalUpdate(w.lps, i, AfterSend(w.lps[i], e.destination, e.time), j);
      WhiteToAppend(w.flying, [Simulation(e.destination, e.time, w.lps[i].colour)], j);
      WhiteToOne(Simulation(e.destination, e.time, w.lps[i].colour), j);
      hide Total, WhiteTo;
    }
  }

  lemma ConsumeCounted(w: World, i: nat, k: nat)
    requires i < |w.lps| == |w.late| && k < |w.flying| && w.flying[k].destination == i && Counted(w)
    ensures Counted(Consume(w, i, k))
  {
    forall j: nat ensures Total(Consume(w, i, k).lps, j) == WhiteTo(Consume(w, i, k).flying, j) {
      TotalUpdate(w.lps, i, AfterReceive(w.lps[i], i, w.flying[k]), j);
      WhiteToWithout(w.flying, k, j);
      hide Total, WhiteTo;
    }
  }

  lemma SameCountersCounted(w: World, i: nat, lp: Lp)
    requires i < |w.lps| && Counted(w) && lp.counters == w.lps[i].counters
    ensures Counted(w.(lps := w.lps[i := lp]))
  {
    forall j: nat ensures Total(w.lps[i := lp], j) == WhiteTo(w.flying, j) {
      TotalUpdate(w.lps, i, lp, j);
    }
  }

  lemma StepCounted(w: World, s: Step)
    requires WellFormed(w) && Enabled(w, s) && Counted(w)
    ensures Counted(Next(w, s))
  {
    match s
    case Act(rank, consumed, lvt, queue) =>
      var mid := w;
      if consumed.Some? {
        ConsumeCounted(w, rank, consumed.value);
        mid := Consume(w, rank, consumed.value);
      }
      SameCountersCounted(mid, rank, mid.lps[rank].(lvt := lvt));
    case Send(rank) =>
      SendOneCounted(w, rank, w.queues[rank][0]);
    case Recolour(rank, colour) =>
      SameCountersCounted(w, rank, w.lps[rank].(colour := colour));
  }

  lemma StepKeepsWellFormed(w: World, s: Step)
    requires WellFormed(w) && Enabled(w, s)
    ensures WellFormed(Next(w, s)) && |Next(w, s).lps| == |w.lps|
  {
    if s.Send? {
      assert w.queues[s.rank][0] in w.queues[s.rank];
    }
  }

  ghost predicate AllEnabled(w: World, steps: seq<Step>)
    requires WellFormed(w)
    decreases |steps|
  {
    steps == [] ||
    (Enabled(w, steps[0]) && (StepKeepsWellFormed(w, steps[0]); AllEnabled(Next(w, steps[0]), steps[1..])))
  }

  ghost function Run(w: World, steps: seq<Step>): World
    requires WellFormed(w) && AllEnabled(w, steps)
    decreases |steps|
  {
    if steps == [] then w
    else
      StepKeepsWellFormed(w, steps[0]);
      Run(Next(w, steps[0]), steps[1..])
  }

  /** Over every run, whatever the LPs do and however their colours change, the counters for a rank add up to
      the white messages sent to it and not consumed yet. */
  lemma {:induction false} WhiteMessagesStayCounted(w: World, steps: seq<Step>)
    requires WellFormed(w) && Counted(w) && AllEnabled(w, steps)
    ensures Counted(Run(w, steps))
    decreases |steps|
  {
    hide Counted, WellFormed, Enabled, Next;
    if steps != [] {
      StepKeepsWellFormed(w, steps[0]);
      StepCounted(w, steps[0]);
      WhiteMessagesStayCounted(Next(w, steps[0]), steps[1..]);
    }
  }
}
