/** A round that ends at the first cut: what its vector counts, and that the announced time is safe if every cut finds
    the queue of its LP empty. */
module GvtRounds {
  import opened Gvt
  import opened WritePeriods

  datatype Phase =
    | Ring(control: Control, missing: seq<nat>)
    | SecondRing(control: Control)
    | Agreed(gvt: nat)

  /** `missing[j]` counts the LPs that had no counter for `j` when the cut passed them. */
  datatype Round = Round(world: World, phase: Phase)

  datatype Event = Work(step: Step) | CutPasses

  /** All LPs white, no red message under way, and the control message sent to the next LP of the ring. */
  ghost predicate Begins(r: Round) {
    var w := r.world;
    && |w.lps| > 0 && WellFormed(w) && Counted(w)
    && (forall i :: 0 <= i < |w.lps| ==> w.lps[i].colour == WHITE && w.late[i] == 0)
    && (forall k :: 0 <= k < |w.flying| ==> w.flying[k].colour == WHITE)
    && r.phase == Ring(FirstControl(|w.lps|), seq(|w.lps|, _ => 0))
  }

  /** Within the ring colours change at the cut only; later they may change in any way. */
  ghost predicate Possible(r: Round, e: Event) {
    match e
    case Work(s) => WellFormed(r.world) && Gvt.Enabled(r.world, s) && (s.Recolour? ==> r.phase.Agreed?)
    case CutPasses =>
      r.phase.Ring? && r.phase.control.destination < |r.world.lps| == |r.phase.missing| && |r.world.lps| > 0
  }

  /** A cut finds no message that waits to be stamped. */
  ghost predicate IsDrained(r: Round, e: Event) {
    e.CutPasses? && r.phase.Ring? && r.phase.control.destination < |r.world.queues| ==>
      r.world.queues[r.phase.control.destination] == []
  }

  function MissingAfter(missing: seq<nat>, lp: Lp): seq<nat> {
    seq(|missing|, j requires 0 <= j < |missing| => missing[j] + if j in lp.counters then 0 else 1)
  }

  /** The cut at the LP the control message has reached; the starter ends the round or goes on to the second cut. */
  ghost function Passed(r: Round): Round
    requires Possible(r, CutPasses)
  {
    var w, n, h := r.world, |r.world.lps|, r.phase.control.destination;
    var lp := w.lps[h];
    var c := ControlAfter(lp, n, r.phase.control);
    if h != 0 then
      Round(w.(lps := w.lps[h := AfterCut(lp)]), Ring(c.(destination := (h + 1) % n), MissingAfter(r.phase.missing, lp)))
    else if TransientsRemain(lp.counters, c.counts) then
      Round(w.(lps := w.lps[0 := AfterCut(lp)]), SecondRing(c.(destination := 1 % n, cut := SECOND)))
    else
      Round(w.(lps := w.lps[0 := AfterCut(lp).(colour := WHITE)]), Agreed(Announced(c)))
  }

  ghost function After(r: Round, e: Event): Round
    requires Possible(r, e)
  {
    match e
    case Work(s) => r.(world := Gvt.Next(r.world, s))
    case CutPasses => Passed(r)
  }

  // ---- What a step changes ----

  /** The step of LP `i` leaves the other LPs and the colours alone, sends from the queue only, and queues nothing below
      `floor`. */
  ghost predicate Acts(w: World, after: World, i: nat, floor: nat)
    requires i < |w.lps| == |w.queues|
  {
    && |after.lps| == |w.lps| && |after.late| == |w.late| && |after.queues| == |w.queues|
    && (forall x :: 0 <= x < |w.lps| && x != i ==> after.lps[x] == w.lps[x] && after.queues[x] == w.queues[x])
    && after.lps[i].colour == w.lps[i].colour && after.lps[i].lvt >= floor
    && w.lps[i].counters.Keys <= after.lps[i].counters.Keys
    && (forall m :: m in after.flying ==>
          m in w.flying || (m.colour == w.lps[i].colour && Emission(m.destination, m.time) in w.queues[i]))
    && forall e :: e in after.queues[i] ==> e in w.queues[i] || e.time >= floor
  }

  /** What the counters of LP `i` and its late messages say about `j`. */
  function Weight(w: World, i: nat, j: nat): int
    requires i < |w.lps| == |w.late|
  {
    Sum0(w.lps[i], j) + if i == j then w.late[i] else 0
  }

  lemma ConsumeActs(w: World, i: nat, k: nat)
    requires WellFormed(w) && i < |w.lps| && k < |w.flying| && w.flying[k].destination == i
    ensures var after, floor := Consume(w, i, k), Min(w.lps[i].lvt, w.flying[k].time);
            && WellFormed(after) && Acts(w, after, i, floor) && after.queues == w.queues
            && (forall x :: 0 <= x < |w.late| && x != i ==> after.late[x] == w.late[x]) && after.late[i] >= w.late[i]
            && (w.lps[i].colour == RED && after.late[i] == w.late[i] ==> w.flying[k].colour == RED)
            && (w.lps[i].colour == WHITE ==> after.late == w.late)
            && (w.lps[i].colour == RED ==> forall j: nat :: Weight(after, i, j) == Weight(w, i, j))
  {
    var after := Consume(w, i, k);
    forall x | 0 <= x < |after.flying| ensures after.flying[x] in w.flying {
      assert after.flying[x] == w.flying[if x < k then x else x + 1];
    }
  }

  /** A step of a main or a send thread: the counters of a red LP and its late messages keep their sum. */
  lemma StepActs(w: World, s: Step)
    requires WellFormed(w) && Gvt.Enabled(w, s) && !s.Recolour?
    ensures var after, i := Gvt.Next(w, s), s.rank;
            && WellFormed(after) && Acts(w, after, i, Floor(w, s))
            && (forall x :: 0 <= x < |w.late| && x != i ==> after.late[x] == w.late[x]) && after.late[i] >= w.late[i]
            && (w.lps[i].colour == RED && after.late[i] == w.late[i] && s.Act? && s.consumed.Some? ==>
                  w.flying[s.consumed.value].colour == RED)
            && (w.lps[i].colour == WHITE ==> after.late == w.late)
            && (w.lps[i].colour == RED ==> forall j: nat :: Weight(after, i, j) == Weight(w, i, j))
  {
    StepKeepsWellFormed(w, s);
    if s.Act? && s.consumed.Some? {
      ConsumeActs(w, s.rank, s.consumed.value);
    }
    if s.Send? {
      assert w.queues[s.rank][0] in w.queues[s.rank];
    }
  }

  // ---- The ring ----

  /** The cut has passed LP `i` when the control message is on its way to `h`. */
  predicate IsCut(h: nat, i: nat) {
    i != 0 && (h == 0 || i < h)
  }

  /** The weights of the first `k` LPs that the cut has passed. */
  function CutWeight(w: World, h: nat, k: nat, j: nat): int
    requires k <= |w.lps| == |w.late|
  {
    if k == 0 then 0 else CutWeight(w, h, k - 1, j) + if IsCut(h, k - 1) then Weight(w, k - 1, j) else 0
  }

  lemma {:induction false} SameCutWeight(w: World, h: nat, after: World, h': nat, k: nat, j: nat)
    requires k <= |w.lps| == |w.late| == |after.lps| == |after.late|
    requires forall i: nat :: i < k ==> (IsCut(h, i) <==> IsCut(h', i)) && (IsCut(h, i) ==> Weight(w, i, j) == Weight(after, i, j))
    ensures CutWeight(w, h, k, j) == CutWeight(after, h', k, j)
  {
    if k > 0 {
      assert IsCut(h, k - 1) <==> IsCut(h', k - 1);
      SameCutWeight(w, h, after, h', k - 1, j);
    }
  }

  /** The vector: counters at their cuts are the weights now, less the counters that were missing. */
  ghost predicate VectorFits(w: World, c: Control, missing: seq<nat>)
    requires |w.lps| == |w.late|
  {
    forall j: nat :: j < |missing| ==> j in c.counts && c.counts[j] == CutWeight(w, c.destination, |w.lps|, j) - missing[j]
  }

  /** As long as no red LP has consumed a white message, nothing behind the cut is below its minimum. */
  ghost predicate BehindIsAbove(w: World, h: nat, minimum: nat) {
    (forall i :: 0 <= i < |w.late| ==> w.late[i] == 0) ==>
    && (forall i: nat :: i < |w.lps| && IsCut(h, i) ==> w.lps[i].lvt >= minimum)
    && (forall i: nat, e :: i < |w.queues| && IsCut(h, i) && e in w.queues[i] ==> e.time >= minimum)
    && (forall m :: m in w.flying && m.colour == RED ==> m.time >= minimum)
  }

  ghost predicate RingFits(w: World, c: Control, missing: seq<nat>) {
    && |w.lps| > 0 && WellFormed(w) && Counted(w)
    && c.destination < |w.lps| == |missing| && c.redTime == LONG_MAX && c.minimumTime <= LONG_MAX
    && (forall i: nat :: i < |w.lps| ==> w.lps[i].colour == if IsCut(c.destination, i) then RED else WHITE)
    && (forall i: nat :: i < |w.lps| && w.late[i] > 0 ==> IsCut(c.destination, i))
    && VectorFits(w, c, missing)
  }

  lemma BeginFits(r: Round)
    requires Begins(r)
    ensures RingFits(r.world, r.phase.control, r.phase.missing)
    ensures BehindIsAbove(r.world, r.phase.control.destination, r.phase.control.minimumTime)
  {
    var w, c := r.world, r.phase.control;
    forall j: nat | j < |w.lps| ensures CutWeight(w, c.destination, |w.lps|, j) == 0 {
      NothingCut(w, c.destination, |w.lps|, j);
    }
    forall i: nat | i < |w.lps| ensures !IsCut(c.destination, i) {
    }
  }

  lemma {:induction false} NothingCut(w: World, h: nat, k: nat, j: nat)
    requires k <= |w.lps| == |w.late| && (h == 1 || |w.lps| == 1)
    ensures CutWeight(w, h, k, j) == 0
  {
    if k > 0 {
      NothingCut(w, h, k - 1, j);
    }
  }

  lemma WorkFits(w: World, c: Control, missing: seq<nat>, s: Step)
    requires RingFits(w, c, missing) && Gvt.Enabled(w, s) && !s.Recolour?
    ensures RingFits(Gvt.Next(w, s), c, missing)
  {
    StepActs(w, s);
    StepCounted(w, s);
    var after, h := Gvt.Next(w, s), c.destination;
    hide Counted, Gvt.Next;
    assert VectorFits(after, c, missing) by {
      forall j: nat | j < |missing| ensures CutWeight(after, h, |w.lps|, j) == CutWeight(w, h, |w.lps|, j) {
        forall x: nat | x < |w.lps| && IsCut(h, x) ensures Weight(w, x, j) == Weight(after, x, j) {
        }
        SameCutWeight(w, h, after, h, |w.lps|, j);
      }
    }
  }

  lemma WorkStaysAbove(w: World, c: Control, missing: seq<nat>, s: Step)
    requires RingFits(w, c, missing) && Gvt.Enabled(w, s) && !s.Recolour?
    requires BehindIsAbove(w, c.destination, c.minimumTime)
    ensures BehindIsAbove(Gvt.Next(w, s), c.destination, c.minimumTime)
  {
    StepActs(w, s);
    var after, i, h := Gvt.Next(w, s), s.rank, c.destination;
    hide Counted, Gvt.Next, VectorFits, CutWeight, Weight;
    if forall x :: 0 <= x < |after.late| ==> after.late[x] == 0 {
      forall x | 0 <= x < |w.late| ensures w.late[x] == 0 {
        assert after.late[x] == 0;
      }
      if IsCut(h, i) {
        assert Floor(w, s) >= c.minimumTime;
      }
    }
  }

  lemma {:induction false} OneMoreCut(w: World, h: nat, after: World, h': nat, k: nat, j: nat)
    requires k <= |w.lps| == |w.late| == |after.lps| == |after.late| && 0 < h < |w.lps|
    requires forall i: nat :: i < |w.lps| ==> (IsCut(h', i) <==> IsCut(h, i) || i == h)
    requires forall i: nat :: i < |w.lps| && i != h ==> Weight(w, i, j) == Weight(after, i, j)
    ensures CutWeight(after, h', k, j) == CutWeight(w, h, k, j) + if h < k then Weight(after, h, j) else 0
  {
    if k > 0 {
      OneMoreCut(w, h, after, h', k - 1, j);
      assert IsCut(h', k - 1) <==> IsCut(h, k - 1) || k - 1 == h;
    }
  }

  lemma NextIsCut(n: nat, h: nat, i: nat)
    requires 0 < h < n && i < n
    ensures IsCut((h + 1) % n, i) <==> IsCut(h, i) || i == h
  {
    assert h + 1 < n ==> (h + 1) % n == h + 1;
    assert h + 1 == n ==> (h + 1) % n == 0;
  }

  lemma CutVectorFits(w: World, c: Control, missing: seq<nat>, after: World)
    requires 0 < c.destination < |w.lps| == |w.late| == |missing| && VectorFits(w, c, missing) && w.late[c.destination] == 0
    requires after == w.(lps := w.lps[c.destination := AfterCut(w.lps[c.destination])])
    ensures var n, lp := |w.lps|, w.lps[c.destination];
            VectorFits(after, ControlAfter(lp, n, c).(destination := (c.destination + 1) % n), MissingAfter(missing, lp))
  {
    var h, n, lp := c.destination, |w.lps|, w.lps[c.destination];
    var h' := (h + 1) % n;
    var counts, missed := CountsAfter(lp.counters, n, c.counts), MissingAfter(missing, lp);
    forall j: nat | j < n ensures j in counts && counts[j] == CutWeight(after, h', n, j) - missed[j] {
      forall i: nat | i < n ensures IsCut(h', i) <==> IsCut(h, i) || i == h {
        NextIsCut(n, h, i);
      }
      OneMoreCut(w, h, after, h', n, j);
      hide CutWeight;
    }
  }

  lemma CutFits(r: Round)
    requires r.phase.Ring? && RingFits(r.world, r.phase.control, r.phase.missing) && r.phase.control.destination != 0
    ensures Possible(r, CutPasses)
    ensures var a := Passed(r); a.phase.Ring? && RingFits(a.world, a.phase.control, a.phase.missing)
  {
    var w, c, missing := r.world, r.phase.control, r.phase.missing;
    var h, n, lp := c.destination, |w.lps|, w.lps[c.destination];
    var a := Passed(r);
    SameCountersCounted(w, h, AfterCut(lp));
    assert w.late[h] == 0;
    CutVectorFits(w, c, missing, a.world);
    hide Counted, VectorFits;
    forall i: nat | i < n ensures IsCut(a.phase.control.destination, i) <==> IsCut(h, i) || i == h {
      NextIsCut(n, h, i);
    }
    hide CountsAfter, MissingAfter, IsCut;
  }

  /** A cut that finds the queue empty leaves nothing below its minimum behind. */
  lemma CutStaysAbove(r: Round)
    requires r.phase.Ring? && RingFits(r.world, r.phase.control, r.phase.missing) && r.phase.control.destination != 0
    requires BehindIsAbove(r.world, r.phase.control.destination, r.phase.control.minimumTime)
    requires r.world.queues[r.phase.control.destination] == []
    ensures var a := Passed(r); BehindIsAbove(a.world, a.phase.control.destination, a.phase.control.minimumTime)
  {
    var w, h, a := r.world, r.phase.control.destination, Passed(r);
    forall i: nat | i < |w.lps| ensures IsCut(a.phase.control.destination, i) <==> IsCut(h, i) || i == h {
      NextIsCut(|w.lps|, h, i);
    }
    hide RingFits, CountsAfter, MissingAfter, IsCut;
  }

  lemma {:induction false} AllWeights(w: World, k: nat, j: nat)
    requires k <= |w.lps| == |w.late|
    ensures CutWeight(w, 0, k, j) + (if k > 0 then Weight(w, 0, j) else 0) == Total(w.lps[..k], j) + if j < k then w.late[j] else 0
  {
    if k > 0 {
      AllWeights(w, k - 1, j);
      assert w.lps[..k][..k - 1] == w.lps[..k - 1];
    }
  }

  /** When the ring is complete the vector counts, for every rank, the white messages still under way to it
      and those it consumed behind its cut, less the LPs that had no counter for it. */
  lemma FirstCutVector(r: Round, j: nat)
    requires r.phase.Ring? && RingFits(r.world, r.phase.control, r.phase.missing) && r.phase.control.destination == 0
    requires j < |r.world.lps|
    ensures var w, lp := r.world, r.world.lps[0];
            var counts := ControlAfter(lp, |w.lps|, r.phase.control).counts;
            j in counts && counts[j] + MissingAfter(r.phase.missing, lp)[j] == WhiteTo(w.flying, j) + w.late[j]
  {
    var w := r.world;
    AllWeights(w, |w.lps|, j);
    assert w.lps[..|w.lps|] == w.lps;
    assert w.late[0] == 0;
  }

  ghost predicate AllAtLeast(w: World, gvt: nat) {
    && (forall i :: 0 <= i < |w.lps| ==> w.lps[i].lvt >= gvt)
    && (forall m :: m in w.flying ==> m.time >= gvt)
    && (forall i, e :: 0 <= i < |w.queues| && e in w.queues[i] ==> e.time >= gvt)
  }

  /** Every LP has a counter for every rank. */
  ghost predicate CountersComplete(w: World) {
    forall i: nat, j: nat :: i < |w.lps| && j < |w.lps| ==> j in w.lps[i].counters
  }

  /** The round ends at the first cut exactly if no rank the starter has counters for has more white messages
      under way or consumed behind its cut than there were counters missing for it. */
  lemma EndsAtFirstCutIff(r: Round)
    requires r.phase.Ring? && RingFits(r.world, r.phase.control, r.phase.missing) && r.phase.control.destination == 0
    requires forall j :: j in r.phase.control.counts ==> j < |r.world.lps|
    ensures var w, lp := r.world, r.world.lps[0];
            Passed(r).phase.Agreed? <==>
            forall j: nat :: j < |w.lps| && j in lp.counters ==>
              WhiteTo(w.flying, j) + w.late[j] <= MissingAfter(r.phase.missing, lp)[j]
  {
    var w, lp := r.world, r.world.lps[0];
    var counts := ControlAfter(lp, |w.lps|, r.phase.control).counts;
    forall j: nat | j < |w.lps|
      ensures j in counts && counts[j] + MissingAfter(r.phase.missing, lp)[j] == WhiteTo(w.flying, j) + w.late[j]
    {
      FirstCutVector(r, j);
    }
    hide RingFits, WhiteTo;
    if !TransientsRemain(lp.counters, counts) {
      forall j: nat | j < |w.lps| && j in lp.counters
        ensures WhiteTo(w.flying, j) + w.late[j] <= MissingAfter(r.phase.missing, lp)[j]
      {
        assert counts[j] <= 0;
      }
    }
  }

  lemma {:induction false} NoWhite(flying: seq<Simulation>, m: Simulation)
    requires m in flying && m.colour == WHITE
    ensures WhiteTo(flying, m.destination) > 0
  {
    var n := |flying| - 1;
    if flying[n] != m {
      assert flying == flying[..n] + [flying[n]];
      NoWhite(flying[..n], m);
    }
  }

  /** The ring is complete, no LP lacked a counter, and the starter announces a time. */
  ghost predicate Announces(r: Round) {
    && r.phase.Ring? && RingFits(r.world, r.phase.control, r.phase.missing) && r.phase.control.destination == 0
    && CountersComplete(r.world) && (forall j :: 0 <= j < |r.phase.missing| ==> r.phase.missing[j] == 0)
    && (forall j :: j in r.phase.control.counts ==> j < |r.world.lps|)
    && Passed(r).phase.Agreed?
  }

  lemma AllAreRed(w: World)
    requires WellFormed(w) && forall j: nat :: j < |w.lps| ==> WhiteTo(w.flying, j) == 0
    ensures forall m :: m in w.flying ==> m.colour == RED
  {
    forall m | m in w.flying ensures m.colour == RED {
      if m.colour == WHITE {
        NoWhite(w.flying, m);
      }
    }
  }

  /** Then no white message crosses the cut: none is under way, and none was consumed by a red LP. */
  lemma NoWhiteCrossesTheCut(r: Round)
    requires Announces(r)
    ensures forall j: nat :: j < |r.world.lps| ==> WhiteTo(r.world.flying, j) == 0 && r.world.late[j] == 0
    ensures forall m :: m in r.world.flying ==> m.colour == RED
  {
    var w := r.world;
    EndsAtFirstCutIff(r);
    assert WellFormed(w) && |w.late| == |w.lps|;
    hide RingFits, Counted, WhiteTo, CutWeight;
    assert forall j: nat :: j < |w.lps| ==> MissingAfter(r.phase.missing, w.lps[0])[j] == 0;
    AllAreRed(w);
  }

  /** If no white message crosses the cut and the starter's queue is empty, the announced time is at most every local
      virtual time and every message queued or under way. */
  lemma NothingCrossesIsSafe(r: Round)
    requires r.phase.Ring? && RingFits(r.world, r.phase.control, r.phase.missing) && r.phase.control.destination == 0
    requires forall j: nat :: j < |r.world.lps| ==> WhiteTo(r.world.flying, j) == 0 && r.world.late[j] == 0
    requires Passed(r).phase.Agreed? && IsDrained(r, CutPasses) && BehindIsAbove(r.world, 0, r.phase.control.minimumTime)
    ensures AllAtLeast(Passed(r).world, Passed(r).phase.gvt)
  {
    AllAreRed(r.world);
    assert forall i: nat :: 0 < i < |r.world.lps| ==> IsCut(0, i);
    hide RingFits, Counted, WhiteTo, CutWeight, MissingAfter, CountersComplete;
  }

  /** And the announced time is at most every local virtual time and every message queued or under way. */
  lemma AnnouncedIsSafe(r: Round)
    requires Announces(r) && IsDrained(r, CutPasses) && BehindIsAbove(r.world, 0, r.phase.control.minimumTime)
    ensures AllAtLeast(Passed(r).world, Passed(r).phase.gvt)
  {
    NoWhiteCrossesTheCut(r);
    NothingCrossesIsSafe(r);
  }

  // ---- Whole runs ----

  ghost predicate RoundFits(r: Round) {
    match r.phase
    case Ring(c, missing) =>
      && RingFits(r.world, c, missing) && CountersComplete(r.world) && BehindIsAbove(r.world, c.destination, c.minimumTime)
      && (forall j :: j in c.counts ==> j < |r.world.lps|)
      && (forall j :: 0 <= j < |missing| ==> missing[j] == 0)
    case SecondRing(_) => true
    case Agreed(gvt) => AllAtLeast(r.world, gvt)
  }

  lemma WorkKeepsComplete(w: World, s: Step)
    requires WellFormed(w) && Gvt.Enabled(w, s) && !s.Recolour? && CountersComplete(w)
    ensures CountersComplete(Gvt.Next(w, s))
  {
    StepActs(w, s);
    var after := Gvt.Next(w, s);
    hide Gvt.Next;
    forall i: nat, j: nat | i < |w.lps| && j < |w.lps| ensures j in after.lps[i].counters {
      assert j in w.lps[i].counters;
    }
  }

  lemma AgreedStaysSafe(w: World, s: Step, gvt: nat)
    requires WellFormed(w) && Gvt.Enabled(w, s) && AllAtLeast(w, gvt)
    ensures AllAtLeast(Gvt.Next(w, s), gvt)
  {
    if !s.Recolour? {
      StepActs(w, s);
      assert s.Act? && s.consumed.Some? ==> w.flying[s.consumed.value] in w.flying;
      assert Floor(w, s) >= gvt;
    }
  }

  lemma EventFits(r: Round, e: Event)
    requires Possible(r, e) && RoundFits(r) && IsDrained(r, e)
    ensures RoundFits(After(r, e))
  {
    match e {
      case Work(s) =>
        if r.phase.Ring? {
          WorkFits(r.world, r.phase.control, r.phase.missing, s);
          WorkStaysAbove(r.world, r.phase.control, r.phase.missing, s);
          WorkKeepsComplete(r.world, s);
          StepKeepsWellFormed(r.world, s);
          hide RingFits, BehindIsAbove, CountersComplete, Gvt.Next;
        } else if r.phase.Agreed? {
          AgreedStaysSafe(r.world, s, r.phase.gvt);
        }
      case CutPasses =>
        if r.phase.control.destination != 0 {
          CutFits(r);
          CutStaysAbove(r);
          hide RingFits, BehindIsAbove;
        } else if Passed(r).phase.Agreed? {
          AnnouncedIsSafe(r);
          hide RingFits, BehindIsAbove;
        }
    }
  }

  ghost predicate AllPossible(r: Round, events: seq<Event>)
    decreases |events|
  {
    events == [] || (Possible(r, events[0]) && AllPossible(After(r, events[0]), events[1..]))
  }

  ghost function Run(r: Round, events: seq<Event>): Round
    requires AllPossible(r, events)
    decreases |events|
  {
    if events == [] then r else Run(After(r, events[0]), events[1..])
  }

  /** Every cut of the run finds the queue of its LP empty. */
  ghost predicate AllDrained(r: Round, events: seq<Event>)
    requires AllPossible(r, events)
    decreases |events|
  {
    events == [] || (IsDrained(r, events[0]) && AllDrained(After(r, events[0]), events[1..]))
  }

  lemma {:induction false} RunFits(r: Round, events: seq<Event>)
    requires AllPossible(r, events) && AllDrained(r, events) && RoundFits(r)
    ensures RoundFits(Run(r, events))
    decreases |events|
  {
    hide RoundFits, After, Possible, IsDrained;
    if events != [] {
      EventFits(r, events[0]);
      RunFits(After(r, events[0]), events[1..]);
    }
  }

  /** Whatever the LPs do while the control message goes round, a time announced at the first cut is at most every local
      virtual time and every message queued or under way, then and ever after, if the cuts found the queues empty. */
  lemma AnnouncedTimeStaysSafe(r: Round, events: seq<Event>)
    requires Begins(r) && CountersComplete(r.world) && AllPossible(r, events) && AllDrained(r, events)
    ensures Run(r, events).phase.Agreed? ==> AllAtLeast(Run(r, events).world, Run(r, events).phase.gvt)
  {
    BeginFits(r);
    RunFits(r, events);
  }

  // ---- The announced time is the least one found ----

  /** An LP and its local virtual time when the cut passed it. */
  datatype Found = Found(rank: nat, lvt: nat)

  ghost function Findings(r: Round, events: seq<Event>): seq<Found>
    requires AllPossible(r, events)
    decreases |events|
  {
    if events == [] then []
    else if events[0].CutPasses? then
      var h := r.phase.control.destination;
      [Found(h, r.world.lps[h].lvt)] + Findings(After(r, events[0]), events[1..])
    else Findings(After(r, events[0]), events[1..])
  }

  /** Behind the ring no cut passes and an announced time stays. */
  lemma {:induction false} RingIsOver(r: Round, events: seq<Event>)
    requires AllPossible(r, events) && !r.phase.Ring?
    ensures Run(r, events).phase == r.phase && Findings(r, events) == []
    decreases |events|
  {
    if events != [] {
      RingIsOver(After(r, events[0]), events[1..]);
    }
  }

  /** `gvt` is the least of `limit` and the times found. */
  ghost predicate IsLeast(gvt: nat, limit: nat, found: seq<Found>) {
    && gvt <= limit && (forall f :: f in found ==> gvt <= f.lvt)
    && (gvt == limit || exists f :: f in found && f.lvt == gvt)
  }

  /** The cut passes the LPs from `h` on and the starter last. */
  ghost predicate EachOnce(found: seq<Found>, h: nat, n: nat) {
    && |found| == (if h == 0 then 1 else n - h + 1)
    && forall k :: 0 <= k < |found| ==> found[k].rank == if k == |found| - 1 then 0 else h + k
  }

  lemma LeastOfMore(gvt: nat, limit: nat, f: Found, rest: seq<Found>)
    requires IsLeast(gvt, if f.lvt < limit then f.lvt else limit, rest)
    ensures IsLeast(gvt, limit, [f] + rest)
  {
    assert forall x :: x in [f] + rest <==> x == f || x in rest;
  }

  lemma OnceMore(h: nat, n: nat, f: Found, rest: seq<Found>)
    requires 0 < h < n && f.rank == h && EachOnce(rest, (h + 1) % n, n)
    ensures EachOnce([f] + rest, h, n)
  {
    assert h + 1 < n ==> (h + 1) % n == h + 1;
    assert h + 1 == n ==> (h + 1) % n == 0;
  }

  /** What the cut at one LP adds. */
  lemma LeastWithCut(r: Round, gvt: nat, found: seq<Found>)
    requires Possible(r, CutPasses) && WellFormed(r.world)
    requires var h := r.phase.control.destination;
             if h == 0 then Passed(r).phase == Agreed(gvt) && found == [] && r.phase.control.redTime == LONG_MAX
             else Passed(r).phase.Ring? && IsLeast(gvt, Passed(r).phase.control.minimumTime, found) &&
                  EachOnce(found, Passed(r).phase.control.destination, |r.world.lps|)
    requires r.phase.control.minimumTime <= LONG_MAX
    ensures var h := r.phase.control.destination;
            var f := Found(h, r.world.lps[h].lvt);
            IsLeast(gvt, r.phase.control.minimumTime, [f] + found) && EachOnce([f] + found, h, |r.world.lps|)
  {
    var h := r.phase.control.destination;
    var f := Found(h, r.world.lps[h].lvt);
    LeastOfMore(gvt, r.phase.control.minimumTime, f, found);
    if h != 0 {
      hide IsLeast, EachOnce, CountsAfter, MissingAfter;
      OnceMore(h, |r.world.lps|, f, found);
    }
  }

  lemma {:induction false} LeastInRing(r: Round, events: seq<Event>)
    requires AllPossible(r, events) && r.phase.Ring? && WellFormed(r.world) && r.phase.control.redTime == LONG_MAX
    requires r.phase.control.minimumTime <= LONG_MAX && r.phase.control.destination < |r.world.lps|
    requires Run(r, events).phase.Agreed?
    ensures IsLeast(Run(r, events).phase.gvt, r.phase.control.minimumTime, Findings(r, events))
    ensures EachOnce(Findings(r, events), r.phase.control.destination, |r.world.lps|)
    decreases |events|
  {
    hide IsLeast, EachOnce, CountsAfter, MissingAfter;
    var next, rest := After(r, events[0]), events[1..];
    match events[0] {
      case Work(s) =>
        StepKeepsWellFormed(r.world, s);
        hide Gvt.Next, WellFormed;
        LeastInRing(next, rest);
      case CutPasses =>
        if r.phase.control.destination == 0 {
          RingIsOver(next, rest);
        } else {
          LeastInRing(next, rest);
        }
        LeastWithCut(r, Run(next, rest).phase.gvt, Findings(next, rest));
    }
  }

  /** A round that ends at the first cut announces the least local virtual time that its cuts found, each LP being cut
      once and the starter last, or the greatest signed number if all are later. */
  lemma AnnouncedIsTheLeastFound(r: Round, events: seq<Event>)
    requires Begins(r) && AllPossible(r, events) && Run(r, events).phase.Agreed?
    ensures var gvt, found, n := Run(r, events).phase.gvt, Findings(r, events), |r.world.lps|;
            && gvt <= LONG_MAX && (forall f :: f in found ==> gvt <= f.lvt)
            && (gvt == LONG_MAX || exists f :: f in found && f.lvt == gvt)
            && |found| == n && forall k :: 0 <= k < n ==> found[k].rank == if k == n - 1 then 0 else k + 1
  {
    hide Begins, Run, Findings, AllPossible, WellFormed;
    BeginsWithTheNext(r);
    LeastInRing(r, events);
  }

  lemma BeginsWithTheNext(r: Round)
    requires Begins(r)
    ensures r.phase.Ring? && WellFormed(r.world) && |r.world.lps| > 0
    ensures var c := r.phase.control;
            c.redTime == LONG_MAX == c.minimumTime && c.destination == if |r.world.lps| == 1 then 0 else 1
  {
  }
}
