/** What a round needs: every announced time is safe exactly if the LPs have enough counters and cuts find the send
    queues empty. The program provides neither. */
module GvtCounters {
  import opened Gvt
  import opened GvtRounds
  import opened Timelines
  import opened WritePeriods

  /** The ranks that each LP has counters for. */
  ghost predicate HasKeys(w: World, keys: seq<set<nat>>) {
    |keys| == |w.lps| && forall i :: 0 <= i < |keys| ==> w.lps[i].counters.Keys == keys[i]
  }

  /** An LP only counts down for itself, as every white send asserts; what it consumed while red is added back. */
  ghost predicate OwnCountsFit(w: World) {
    |w.late| == |w.lps| && forall i: nat :: i < |w.lps| ==> Sum0(w.lps[i], i) + w.late[i] <= 0
  }

  ghost predicate Starts(r: Round, keys: seq<set<nat>>) {
    Begins(r) && HasKeys(r.world, keys) && OwnCountsFit(r.world)
  }

  ghost predicate IsSafe(r: Round) {
    r.phase.Agreed? ==> AllAtLeast(r.world, r.phase.gvt)
  }

  /** Whatever round starts with these key sets, and whatever the LPs do, the announced time is safe; `drained` says
      that a cut waits until the queue of its LP is empty. */
  ghost predicate AlwaysSafe(keys: seq<set<nat>>, drained: bool) {
    forall r, events :: Starts(r, keys) && AllPossible(r, events) && (drained ==> AllDrained(r, events)) ==>
      IsSafe(GvtRounds.Run(r, events))
  }

  /** Every LP has a counter for every rank; of two LPs each needs one for itself only. */
  ghost predicate EnoughKeys(keys: seq<set<nat>>) {
    forall i: nat, j: nat :: i < |keys| && j < |keys| && (|keys| > 2 || i == j) ==> j in keys[i]
  }

  // ---- Enough counters ----

  lemma WorkKeepsOwnCounts(w: World, s: Step)
    requires WellFormed(w) && Gvt.Enabled(w, s) && !s.Recolour? && OwnCountsFit(w)
    ensures OwnCountsFit(Gvt.Next(w, s))
  {
    StepActs(w, s);
    if s.Send? {
      assert w.queues[s.rank][0] in w.queues[s.rank];
    }
  }

  /** A red LP gets a new counter for itself at most. */
  lemma WorkKeepsRedKeys(w: World, s: Step, x: nat, j: nat)
    requires WellFormed(w) && Gvt.Enabled(w, s) && !s.Recolour? && x < |w.lps| && w.lps[x].colour == RED && x != j
    ensures |Gvt.Next(w, s).lps| == |w.lps| && (j in Gvt.Next(w, s).lps[x].counters <==> j in w.lps[x].counters)
  {
    StepActs(w, s);
  }

  /** Two LPs with counters for themselves: LP 1 has none for LP 0 only if it has sent it no white message. */
  ghost predicate TwoFit(r: Round) {
    match r.phase
    case Ring(c, missing) =>
      && RingFits(r.world, c, missing) && BehindIsAbove(r.world, c.destination, c.minimumTime)
      && OwnCountsFit(r.world) && |r.world.lps| == 2
      && (forall j :: j in c.counts ==> j < 2)
      && 0 in r.world.lps[0].counters && 1 in r.world.lps[1].counters
      && missing[1] == 0 && (c.destination == 1 || 0 in r.world.lps[1].counters ==> missing[0] == 0)
    case SecondRing(_) => true
    case Agreed(gvt) => AllAtLeast(r.world, gvt)
  }

  lemma TwoWork(r: Round, s: Step)
    requires Possible(r, Work(s)) && TwoFit(r)
    ensures TwoFit(After(r, Work(s)))
  {
    if r.phase.Ring? {
      WorkFits(r.world, r.phase.control, r.phase.missing, s);
      WorkStaysAbove(r.world, r.phase.control, r.phase.missing, s);
      WorkKeepsOwnCounts(r.world, s);
      StepActs(r.world, s);
      if r.phase.control.destination == 0 {
        WorkKeepsRedKeys(r.world, s, 1, 0);
      }
      hide RingFits, BehindIsAbove, OwnCountsFit, Gvt.Next;
    } else if r.phase.Agreed? {
      AgreedStaysSafe(r.world, s, r.phase.gvt);
    }
  }

  /** What is under way to a rank, or late, is what the weights of the two LPs add up to. */
  lemma TwoWeights(w: World, c: Control, missing: seq<nat>, j: nat)
    requires RingFits(w, c, missing) && c.destination == 0 && |w.lps| == 2 && j < 2
    ensures Weight(w, 0, j) + Weight(w, 1, j) == WhiteTo(w.flying, j) + w.late[j]
  {
    AllWeights(w, 2, j);
    assert w.lps[..2] == w.lps;
    assert !IsCut(0, 0) && IsCut(0, 1);
    assert CutWeight(w, 0, 1, j) == CutWeight(w, 0, 0, j) + 0;
    assert CutWeight(w, 0, 2, j) == CutWeight(w, 0, 1, j) + Weight(w, 1, j);
  }

  lemma TwoEnd(r: Round)
    requires r.phase.Ring? && TwoFit(r) && r.phase.control.destination == 0 && Passed(r).phase.Agreed?
    requires IsDrained(r, CutPasses)
    ensures AllAtLeast(Passed(r).world, Passed(r).phase.gvt)
  {
    var w, c, missing := r.world, r.phase.control, r.phase.missing;
    EndsAtFirstCutIff(r);
    TwoWeights(w, c, missing, 0);
    TwoWeights(w, c, missing, 1);
    assert Sum0(w.lps[0], 0) + w.late[0] <= 0 && Sum0(w.lps[1], 1) + w.late[1] <= 0;
    hide RingFits, BehindIsAbove, WhiteTo, OwnCountsFit, AllAtLeast;
    assert WhiteTo(w.flying, 0) == 0 && w.late[0] == 0;
    assert WhiteTo(w.flying, 1) == 0 && w.late[1] == 0;
    NothingCrossesIsSafe(r);
  }

  lemma TwoStep(r: Round, e: Event)
    requires Possible(r, e) && TwoFit(r) && IsDrained(r, e)
    ensures TwoFit(After(r, e))
  {
    match e {
      case Work(s) => TwoWork(r, s);
      case CutPasses =>
        if r.phase.control.destination != 0 {
          GvtRounds.CutFits(r);
          CutStaysAbove(r);
          hide RingFits, BehindIsAbove;
        } else if Passed(r).phase.Agreed? {
          TwoEnd(r);
          hide RingFits, BehindIsAbove;
        }
    }
  }

  lemma {:induction false} TwoRun(r: Round, events: seq<Event>)
    requires AllPossible(r, events) && AllDrained(r, events) && TwoFit(r)
    ensures TwoFit(GvtRounds.Run(r, events))
    decreases |events|
  {
    hide TwoFit, After, Possible, IsDrained;
    if events != [] {
      TwoStep(r, events[0]);
      TwoRun(After(r, events[0]), events[1..]);
    }
  }

  lemma EnoughIsSafe(keys: seq<set<nat>>, r: Round, events: seq<Event>)
    requires |keys| >= 2 && EnoughKeys(keys) && Starts(r, keys) && AllPossible(r, events) && AllDrained(r, events)
    ensures IsSafe(GvtRounds.Run(r, events))
  {
    if |keys| > 2 {
      AnnouncedTimeStaysSafe(r, events);
    } else {
      BeginFits(r);
      hide RingFits, BehindIsAbove;
      TwoRun(r, events);
    }
  }

  // ---- A missing counter, or a message that waits to be stamped ----

  /** Some message for time 5 is under way or queued. */
  ghost predicate HasEarly(w: World) {
    || (exists m :: m in w.flying && m.time == 5)
    || exists x, e :: 0 <= x < |w.queues| && e in w.queues[x] && e.time == 5
  }

  /** Everybody stands at 10 or later, and the vector will not show the early message: no white message is under way but
      one to `j` at most, for which LP `i` has no counter. */
  ghost predicate IsOverlooked(r: Round, i: nat, j: nat) {
    && r.phase.Ring? && RingFits(r.world, r.phase.control, r.phase.missing)
    && var w, c := r.world, r.phase.control;
    && i < |w.lps| && j < |w.lps| && HasEarly(w)
    && (forall k: nat :: k < |w.lps| ==> WhiteTo(w.flying, k) <= if k == j && j !in w.lps[i].counters then 1 else 0)
    && (forall x :: 0 <= x < |w.late| ==> w.late[x] == 0)
    && (forall x :: 0 <= x < |w.lps| ==> w.lps[x].lvt >= 10) && c.minimumTime >= 10
    && (forall k :: k in c.counts ==> k < |w.lps|)
    && (j !in w.lps[i].counters && IsCut(c.destination, i) ==> r.phase.missing[j] > 0)
  }

  lemma CutStaysOverlooked(r: Round, i: nat, j: nat)
    requires IsOverlooked(r, i, j) && r.phase.control.destination != 0
    ensures Possible(r, CutPasses) && IsOverlooked(Passed(r), i, j)
  {
    GvtRounds.CutFits(r);
    NextIsCut(|r.world.lps|, r.phase.control.destination, i);
    hide RingFits, WhiteTo, HasEarly;
    assert HasEarly(Passed(r).world) by {
      SameEarly(r.world, Passed(r).world);
    }
  }

  lemma SameEarly(w: World, after: World)
    requires HasEarly(w) && after.flying == w.flying && after.queues == w.queues
    ensures HasEarly(after)
  {
  }

  lemma EarlyIsUnsafe(w: World, gvt: nat)
    requires HasEarly(w) && gvt >= 10
    ensures !AllAtLeast(w, gvt)
  {
  }

  lemma OverlookedIsMissed(r: Round, i: nat, j: nat)
    requires IsOverlooked(r, i, j) && r.phase.control.destination == 0
    ensures Possible(r, CutPasses) && !IsSafe(Passed(r))
  {
    var w, lp := r.world, r.world.lps[0];
    EndsAtFirstCutIff(r);
    hide RingFits, CountsAfter, HasEarly, AllAtLeast, WhiteTo;
    SameEarly(w, Passed(r).world);
    assert Passed(r).phase.gvt >= 10;
    EarlyIsUnsafe(Passed(r).world, Passed(r).phase.gvt);
  }

  ghost predicate NothingQueued(w: World) {
    forall x :: 0 <= x < |w.queues| ==> w.queues[x] == []
  }

  lemma RunCons(r: Round, e: Event, rest: seq<Event>)
    requires Possible(r, e) && AllPossible(After(r, e), rest)
    ensures AllPossible(r, [e] + rest) && GvtRounds.Run(r, [e] + rest) == GvtRounds.Run(After(r, e), rest)
    ensures IsDrained(r, e) && AllDrained(After(r, e), rest) ==> AllDrained(r, [e] + rest)
  {
    hide Possible, After, IsDrained;
    assert ([e] + rest)[1..] == rest;
  }

  /** The round ends without having seen that message. */
  lemma {:induction false} OverlookedRun(r: Round, i: nat, j: nat) returns (events: seq<Event>)
    requires IsOverlooked(r, i, j)
    ensures AllPossible(r, events) && !IsSafe(GvtRounds.Run(r, events))
    ensures NothingQueued(r.world) ==> AllDrained(r, events)
    decreases if r.phase.control.destination == 0 then 0 else |r.world.lps| - r.phase.control.destination
  {
    if r.phase.control.destination == 0 {
      OverlookedIsMissed(r, i, j);
      QueuesStay(r);
      hide *;
      RunCons(r, CutPasses, []);
      events := [CutPasses] + [];
    } else {
      CutStaysOverlooked(r, i, j);
      CutMovesOn(r);
      QueuesStay(r);
      hide *;
      var rest := OverlookedRun(After(r, CutPasses), i, j);
      RunCons(r, CutPasses, rest);
      events := [CutPasses] + rest;
    }
  }

  lemma QueuesStay(r: Round)
    requires Possible(r, CutPasses)
    ensures NothingQueued(r.world) ==> IsDrained(r, CutPasses) && NothingQueued(After(r, CutPasses).world)
    ensures AllPossible(After(r, CutPasses), []) && AllDrained(After(r, CutPasses), [])
  {
  }

  lemma CutMovesOn(r: Round)
    requires Possible(r, CutPasses) && r.phase.control.destination != 0
    ensures var a, n, h := After(r, CutPasses), |r.world.lps|, r.phase.control.destination;
            a.phase.Ring? && |a.world.lps| == n && a.phase.control.destination == if h + 1 == n then 0 else h + 1
  {
    var n, h := |r.world.lps|, r.phase.control.destination;
    assert h + 1 < n ==> (h + 1) % n == h + 1;
  }

  /** All counters at zero, everybody at 10, and one message of LP `s` queued. */
  function Quiet(keys: seq<set<nat>>, s: nat, j: nat): Round
    requires |keys| > 0
  {
    var lps := seq(|keys|, x requires 0 <= x < |keys| => Lp(WHITE, map k | k in keys[x] :: 0, ULONG_MAX, 10));
    var queues := seq(|keys|, x => if x == s then [Emission(j, 5)] else []);
    Round(World(lps, queues, [], seq(|keys|, _ => 0)), Ring(FirstControl(|keys|), seq(|keys|, _ => 0)))
  }

  lemma {:induction false} NothingCounted(lps: seq<Lp>, j: nat)
    requires forall x :: 0 <= x < |lps| ==> Sum0(lps[x], j) == 0
    ensures Total(lps, j) == 0
  {
    if lps != [] {
      NothingCounted(lps[..|lps| - 1], j);
    }
  }

  lemma QuietStarts(keys: seq<set<nat>>, s: nat, j: nat)
    requires s < |keys| && j < |keys| && s != j
    ensures Starts(Quiet(keys, s, j), keys)
  {
    var w := Quiet(keys, s, j).world;
    forall k: nat ensures Total(w.lps, k) == WhiteTo(w.flying, k) {
      NothingCounted(w.lps, k);
    }
  }

  /** The queued message is overlooked as long as it is not sent. */
  lemma QueuedIsOverlooked(keys: seq<set<nat>>)
    requires |keys| >= 2
    ensures IsOverlooked(Quiet(keys, 1, 0), 0, 0)
  {
    var r := Quiet(keys, 1, 0);
    QuietStarts(keys, 1, 0);
    BeginFits(r);
    assert Emission(0, 5) in r.world.queues[1];
    hide RingFits, Starts;
  }

  lemma QueuedIsUnsafe(keys: seq<set<nat>>)
    requires |keys| >= 2
    ensures !AlwaysSafe(keys, false)
  {
    var r := Quiet(keys, 1, 0);
    QuietStarts(keys, 1, 0);
    QueuedIsOverlooked(keys);
    var events := OverlookedRun(r, 0, 0);
    hide Starts, IsSafe, IsOverlooked, Quiet;
    assert AllPossible(r, events) && !IsSafe(GvtRounds.Run(r, events));
  }

  lemma SentWorld(keys: seq<set<nat>>, s: nat, j: nat)
    requires j < |keys| && s < |keys| && s != j
    ensures var r := Quiet(keys, s, j);
            && Possible(r, Work(Send(s))) && RingFits(After(r, Work(Send(s))).world, r.phase.control, r.phase.missing)
            && var w := After(r, Work(Send(s))).world;
               && w.flying == [Simulation(j, 5, WHITE)] && NothingQueued(w) && w.late == r.world.late && |w.lps| == |keys|
               && (forall x :: 0 <= x < |w.lps| ==> w.lps[x].lvt == 10)
               && forall x :: 0 <= x < |w.lps| && x != s ==> w.lps[x].counters.Keys == keys[x]
  {
    var r := Quiet(keys, s, j);
    QuietStarts(keys, s, j);
    BeginFits(r);
    WorkFits(r.world, r.phase.control, r.phase.missing, Send(s));
    hide RingFits, BehindIsAbove, Starts;
  }

  /** Sent in white before the cut, it is overlooked if some LP has no counter for its receiver. */
  lemma SentIsOverlooked(keys: seq<set<nat>>, i: nat, j: nat, s: nat)
    requires i < |keys| && j < |keys| && s < |keys| && s != i && s != j && j !in keys[i]
    ensures Possible(Quiet(keys, s, j), Work(Send(s)))
    ensures var after := After(Quiet(keys, s, j), Work(Send(s))); IsOverlooked(after, i, j) && NothingQueued(after.world)
  {
    SentWorld(keys, s, j);
    var after := After(Quiet(keys, s, j), Work(Send(s)));
    var w := after.world;
    assert w.flying[0] in w.flying && j !in w.lps[i].counters.Keys;
    assert after.phase == Ring(FirstControl(|keys|), seq(|keys|, _ => 0)) && w.late == seq(|keys|, _ => 0);
    hide RingFits, After, Quiet, NothingQueued;
    forall k: nat | k < |keys| ensures WhiteTo(w.flying, k) <= if k == j then 1 else 0 {
      WhiteToOne(Simulation(j, 5, WHITE), k);
    }
    assert !IsCut(after.phase.control.destination, i) || |keys| == 1;
  }

  /** A third LP sends such a message. */
  lemma MissingIsUnsafe(keys: seq<set<nat>>, i: nat, j: nat, s: nat)
    requires i < |keys| && j < |keys| && s < |keys| && s != i && s != j && j !in keys[i]
    ensures !AlwaysSafe(keys, true)
  {
    var r, first := Quiet(keys, s, j), Work(Send(s));
    QuietStarts(keys, s, j);
    SentIsOverlooked(keys, i, j, s);
    var rest := OverlookedRun(After(r, first), i, j);
    RunCons(r, first, rest);
    assert IsDrained(r, first);
    hide Starts, IsSafe, Possible, After, IsOverlooked, Quiet, IsDrained, NothingQueued;
    assert AllPossible(r, [first] + rest) && AllDrained(r, [first] + rest) && !IsSafe(GvtRounds.Run(r, [first] + rest));
  }

  /** Every time announced at the first cut is safe if and only if every LP starts the round with a counter for every
      rank (of two LPs each needs one for itself only) and the cuts wait for the send queues. */
  lemma SafeIffEnoughCounters(keys: seq<set<nat>>, drained: bool)
    requires |keys| >= 2
    ensures AlwaysSafe(keys, drained) <==> EnoughKeys(keys) && drained
  {
    if !drained {
      QueuedIsUnsafe(keys);
    } else if EnoughKeys(keys) {
      forall r, events | Starts(r, keys) && AllPossible(r, events) && AllDrained(r, events)
        ensures IsSafe(GvtRounds.Run(r, events))
      {
        EnoughIsSafe(keys, r, events);
      }
    } else {
      var i: nat, j: nat :| i < |keys| && j < |keys| && (|keys| > 2 || i == j) && j !in keys[i];
      var s := if i != 0 && j != 0 then 0 else if i != 1 && j != 1 then 1 else 2;
      MissingIsUnsafe(keys, i, j, s);
    }
  }
}
