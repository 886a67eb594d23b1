/** Two runs of the program that announce a time while a rollback to an earlier one is on its way. */
module GvtExamples {
  import opened Gvt
  import opened GvtCounters
  import opened GvtRounds
  import opened Timelines
  import opened WritePeriods

  // ---- The program starts without counters ----

  /** A CLP of rank 0 and two ALPs, all white. */
  function Trio(c0: map<nat, int>, c1: map<nat, int>, c2: map<nat, int>, t1: nat, t2: nat, queues: seq<seq<Emission>>,
                flying: seq<Simulation>): World {
    World([Lp(WHITE, c0, ULONG_MAX, ULONG_MAX), Lp(WHITE, c1, ULONG_MAX, t1), Lp(WHITE, c2, ULONG_MAX, t2)],
          queues, flying, [0, 0, 0])
  }

  /** ALP 1 reads at 7 and goes on to 10 with the response; ALP 2 writes at 5, the CLP answers it and rolls ALP 1 back;
      ALP 2 goes on to 10 with its response. */
  function Straggler(): seq<Step> {
    [Act(1, None, 7, [Emission(0, 7)]), Send(1),
     Act(0, Some(0), ULONG_MAX, [Emission(1, 7)]), Send(0),
     Act(1, Some(0), 10, []),
     Act(2, None, 5, [Emission(0, 5)]), Send(2),
     Act(0, Some(0), ULONG_MAX, [Emission(2, 5), Emission(1, 5)]), Send(0), Send(0),
     Act(2, Some(0), 10, [])]
  }

  /** The program as it starts, without a counter, and after each of these steps; in the end the rollback is under way
      and ALP 2 has no counter for ALP 1. */
  function Stage(k: nat): World {
    if k == 0 then Trio(map[], map[], map[], 0, 0, [[], [], []], [])
    else if k == 1 then Trio(map[], map[], map[], 7, 0, [[], [Emission(0, 7)], []], [])
    else if k == 2 then Trio(map[], map[0 := 1], map[], 7, 0, [[], [], []], [Simulation(0, 7, WHITE)])
    else if k == 3 then Trio(map[0 := -1], map[0 := 1], map[], 7, 0, [[Emission(1, 7)], [], []], [])
    else if k == 4 then Trio(map[0 := -1, 1 := 1], map[0 := 1], map[], 7, 0, [[], [], []], [Simulation(1, 7, WHITE)])
    else if k == 5 then Trio(map[0 := -1, 1 := 1], map[0 := 1, 1 := -1], map[], 10, 0, [[], [], []], [])
    else if k == 6 then Trio(map[0 := -1, 1 := 1], map[0 := 1, 1 := -1], map[], 10, 5, [[], [], [Emission(0, 5)]], [])
    else if k == 7 then Trio(map[0 := -1, 1 := 1], map[0 := 1, 1 := -1], map[0 := 1], 10, 5, [[], [], []],
                             [Simulation(0, 5, WHITE)])
    else if k == 8 then Trio(map[0 := -2, 1 := 1], map[0 := 1, 1 := -1], map[0 := 1], 10, 5,
                             [[Emission(2, 5), Emission(1, 5)], [], []], [])
    else if k == 9 then Trio(map[0 := -2, 1 := 1, 2 := 1], map[0 := 1, 1 := -1], map[0 := 1], 10, 5,
                             [[Emission(1, 5)], [], []], [Simulation(2, 5, WHITE)])
    else if k == 10 then Trio(map[0 := -2, 1 := 2, 2 := 1], map[0 := 1, 1 := -1], map[0 := 1], 10, 5, [[], [], []],
                              [Simulation(2, 5, WHITE), Simulation(1, 5, WHITE)])
    else Trio(map[0 := -2, 1 := 2, 2 := 1], map[0 := 1, 1 := -1], map[0 := 1, 2 := -1], 10, 10, [[], [], []],
              [Simulation(1, 5, WHITE)])
  }

  lemma CountersUpdated()
    ensures map[0 := -1][1 := 1] == map[0 := -1, 1 := 1]
    ensures map[0 := 1][1 := -1] == map[0 := 1, 1 := -1]
    ensures map[0 := -1, 1 := 1][0 := -2] == map[0 := -2, 1 := 1]
    ensures map[0 := -2, 1 := 1][2 := 1] == map[0 := -2, 1 := 1, 2 := 1]
    ensures map[0 := -2, 1 := 1, 2 := 1][1 := 2] == map[0 := -2, 1 := 2, 2 := 1]
    ensures map[0 := 1][2 := -1] == map[0 := 1, 2 := -1]
  {
  }

  /** A white LP consumes the first message under way. */
  lemma FirstConsumed(w: World, rank: nat, lvt: nat, queue: seq<Emission>)
    requires WellFormed(w) && Gvt.Enabled(w, Act(rank, Some(0), lvt, queue))
    requires w.flying[0].colour == WHITE == w.lps[rank].colour
    ensures var lp := w.lps[rank];
            Gvt.Next(w, Act(rank, Some(0), lvt, queue)) ==
            World(w.lps[rank := Lp(WHITE, lp.counters[rank := Sum0(lp, rank) - 1], lp.redTime, lvt)], w.queues[rank := queue],
                  w.flying[1..], w.late)
  {
    assert Without(w.flying, 0) == w.flying[1..];
  }

  /** A white LP sends the first message of its queue. */
  lemma FirstSent(w: World, rank: nat)
    requires WellFormed(w) && Gvt.Enabled(w, Send(rank)) && w.lps[rank].colour == WHITE
    ensures var lp, e := w.lps[rank], w.queues[rank][0];
            Gvt.Next(w, Send(rank)) ==
            World(w.lps[rank := lp.(counters := lp.counters[e.destination := Sum0(lp, e.destination) + 1])],
                  w.queues[rank := w.queues[rank][1..]], w.flying + [Simulation(e.destination, e.time, WHITE)], w.late)
  {
  }

  lemma StageIsReady(k: nat)
    requires k < 11
    ensures WellFormed(Stage(k)) && Gvt.Enabled(Stage(k), Straggler()[k])
  {
  }

  lemma Queues(k: nat)
    requires k == 0 || k == 5
    requires WellFormed(Stage(k)) && Gvt.Enabled(Stage(k), Straggler()[k])
    ensures Gvt.Next(Stage(k), Straggler()[k]) == Stage(k + 1)
  {
  }

  lemma Sends(k: nat)
    requires k == 1 || k == 3 || k == 6 || k == 8 || k == 9
    requires WellFormed(Stage(k)) && Gvt.Enabled(Stage(k), Straggler()[k])
    ensures Gvt.Next(Stage(k), Straggler()[k]) == Stage(k + 1)
  {
    hide Gvt.Next, Gvt.Enabled, WellFormed;
    var w, s, next := Stage(k), Straggler()[k], Stage(k + 1);
    FirstSent(w, s.rank);
    assert w.queues[s.rank][1..] == if k == 8 then [Emission(1, 5)] else [];
    CountersUpdated();
    assert Gvt.Next(w, s).queues == next.queues && Gvt.Next(w, s).lps == next.lps;
  }

  lemma Consumes(k: nat)
    requires k == 2 || k == 4 || k == 7 || k == 10
    requires WellFormed(Stage(k)) && Gvt.Enabled(Stage(k), Straggler()[k])
    ensures Gvt.Next(Stage(k), Straggler()[k]) == Stage(k + 1)
  {
    hide Gvt.Next, Gvt.Enabled, WellFormed;
    var w, s, next := Stage(k), Straggler()[k], Stage(k + 1);
    FirstConsumed(w, s.rank, s.lvt, s.queue);
    CountersUpdated();
    assert Gvt.Next(w, s).queues == next.queues && Gvt.Next(w, s).lps == next.lps;
  }

  lemma StageStep(k: nat)
    requires k < 11
    ensures WellFormed(Stage(k)) && Gvt.Enabled(Stage(k), Straggler()[k])
    ensures Gvt.Next(Stage(k), Straggler()[k]) == Stage(k + 1)
  {
    hide *;
    StageIsReady(k);
    if k == 0 || k == 5 {
      Queues(k);
    } else if k == 2 || k == 4 || k == 7 || k == 10 {
      Consumes(k);
    } else {
      Sends(k);
    }
  }

  lemma {:induction false} FromStage(k: nat)
    requires k <= 11
    ensures WellFormed(Stage(k)) && AllEnabled(Stage(k), Straggler()[k..]) && Gvt.Run(Stage(k), Straggler()[k..]) == Stage(11)
    decreases 11 - k
  {
    if k < 11 {
      hide Gvt.Next, Gvt.Enabled, WellFormed, Stage;
      StageStep(k);
      FromStage(k + 1);
      assert Straggler()[k..][0] == Straggler()[k] && Straggler()[k..][1..] == Straggler()[k + 1..];
    } else {
      assert Straggler()[k..] == [];
    }
  }

  lemma AllStages()
    ensures WellFormed(Stage(0)) && AllEnabled(Stage(0), Straggler()) && Gvt.Run(Stage(0), Straggler()) == Stage(11)
  {
    FromStage(0);
    hide *;
    assert Straggler()[0..] == Straggler();
  }

  lemma StartCounted()
    ensures Counted(Stage(0)) && forall i :: 0 <= i < |Stage(0).lps| ==> Stage(0).lps[i].counters == map[]
  {
    forall j: nat ensures Total(Stage(0).lps, j) == 0 {
      NothingCounted(Stage(0).lps, j);
    }
  }

  lemma RollbackCounted()
    ensures Counted(Stage(11))
  {
    AllStages();
    StartCounted();
    hide *;
    WhiteMessagesStayCounted(Stage(0), Straggler());
  }

  function RollbackRound(): Round {
    Round(Stage(11), Ring(FirstControl(3), seq(3, _ => 0)))
  }

  /** With these steps behind it, a round can start. */
  lemma RollbackBegins()
    ensures Begins(RollbackRound())
  {
    RollbackCounted();
    hide Counted;
  }

  lemma RollbackIsOverlooked()
    ensures IsOverlooked(RollbackRound(), 2, 1) && NothingQueued(RollbackRound().world)
  {
    var r := RollbackRound();
    RollbackBegins();
    BeginFits(r);
    assert r.world.flying[0] in r.world.flying;
    hide RingFits, BehindIsAbove, Begins;
    forall k: nat ensures WhiteTo(r.world.flying, k) == if k == 1 then 1 else 0 {
      WhiteToOne(Simulation(1, 5, WHITE), k);
    }
    hide WhiteTo;
  }

  /** The program starts without counters and comes, by one straggler, to a round that announces a time while a
      rollback to an earlier time is under way, although all cuts find the queues empty. */
  lemma MissingCounterBreaksSafety() returns (events: seq<Event>)
    ensures forall i :: 0 <= i < |Stage(0).lps| ==> Stage(0).lps[i].counters == map[]
    ensures WellFormed(Stage(0)) && AllEnabled(Stage(0), Straggler())
    ensures RollbackRound().world == Gvt.Run(Stage(0), Straggler()) && Begins(RollbackRound())
    ensures AllPossible(RollbackRound(), events) && AllDrained(RollbackRound(), events)
    ensures !IsSafe(GvtRounds.Run(RollbackRound(), events))
  {
    StartCounted();
    AllStages();
    RollbackBegins();
    RollbackIsOverlooked();
    assert RollbackRound().world == Stage(11);
    hide *;
    events := OverlookedRun(RollbackRound(), 2, 1);
  }

  // ---- A cut passes a CLP that has a rollback queued ----

  function Zero(): map<nat, int> {
    map[0 := 0, 1 := 0, 2 := 0, 3 := 0]
  }

  /** Two CLPs and two ALPs with a counter for every rank; CLP 1 has the given state, ALP 2 writes and ALP 3 stands at 10. */
  function Quartet(clp: Lp, c2: map<nat, int>, t2: nat, queue: seq<Emission>, flying: seq<Simulation>): World {
    World([Lp(WHITE, Zero(), ULONG_MAX, ULONG_MAX), clp, Lp(WHITE, c2, ULONG_MAX, t2), Lp(WHITE, Zero(), ULONG_MAX, 10)],
          [[], queue, [], []], flying, [0, 0, 0, 0])
  }

  /** The write of ALP 2 at 5 is under way to CLP 1 when the round starts. */
  function Written(): World {
    Quartet(Lp(WHITE, Zero(), ULONG_MAX, ULONG_MAX), Zero()[1 := 1], 5, [], [Simulation(1, 5, WHITE)])
  }

  /** CLP 1 has queued the response and a rollback of ALP 3. */
  function Handled(): World {
    Quartet(Lp(WHITE, Zero()[1 := -1], ULONG_MAX, ULONG_MAX), Zero()[1 := 1], 5, [Emission(2, 5), Emission(3, 5)], [])
  }

  /** The response has left in white, and the cut passes CLP 1 with the rollback still queued. */
  function Answered(colour: Colour, redTime: nat): World {
    Quartet(Lp(colour, Zero()[1 := -1][2 := 1], redTime, ULONG_MAX), Zero()[1 := 1], 5, [Emission(3, 5)],
            [Simulation(2, 5, WHITE)])
  }

  /** The rollback leaves in red. */
  function RolledBack(): World {
    Quartet(Lp(RED, Zero()[1 := -1][2 := 1], 5, ULONG_MAX), Zero()[1 := 1], 5, [],
            [Simulation(2, 5, WHITE), Simulation(3, 5, RED)])
  }

  /** And ALP 2 goes on to 10 with the response. */
  function MovedOn(): World {
    Quartet(Lp(RED, Zero()[1 := -1][2 := 1], 5, ULONG_MAX), Zero()[1 := 1][2 := -1], 10, [], [Simulation(3, 5, RED)])
  }

  const HANDLE: Step := Act(1, Some(0), ULONG_MAX, [Emission(2, 5), Emission(3, 5)])
  const MOVE_ON: Step := Act(2, Some(0), 10, [])

  function Before(): Round {
    Round(Written(), Ring(FirstControl(4), seq(4, _ => 0)))
  }

  lemma TotalOfFour(lps: seq<Lp>, j: nat)
    requires |lps| == 4
    ensures Total(lps, j) == Sum0(lps[0], j) + Sum0(lps[1], j) + Sum0(lps[2], j) + Sum0(lps[3], j)
  {
    assert lps[..3][..2] == lps[..2] && lps[..2][..1] == lps[..1] && lps[..1][..0] == [];
    assert Total(lps[..1], j) == Total(lps[..1][..0], j) + Sum0(lps[0], j);
    assert Total(lps[..2], j) == Total(lps[..1], j) + Sum0(lps[1], j);
    assert Total(lps[..3], j) == Total(lps[..2], j) + Sum0(lps[2], j);
  }

  lemma BeforeBegins()
    ensures Begins(Before()) && CountersComplete(Before().world)
  {
    var w := Written();
    forall j: nat ensures Total(w.lps, j) == WhiteTo(w.flying, j) {
      TotalOfFour(w.lps, j);
      WhiteToOne(Simulation(1, 5, WHITE), j);
    }
    hide Total, WhiteTo;
  }

  lemma WriteIsHandled()
    ensures WellFormed(Written()) && Gvt.Enabled(Written(), HANDLE) && Gvt.Next(Written(), HANDLE) == Handled()
  {
    assert Without(Written().flying, 0) == [];
  }

  lemma ResponseLeaves()
    ensures WellFormed(Handled()) && Gvt.Enabled(Handled(), Send(1))
    ensures Gvt.Next(Handled(), Send(1)) == Answered(WHITE, ULONG_MAX)
  {
    assert Handled().queues[1][1..] == [Emission(3, 5)];
  }

  lemma RollbackLeaves()
    ensures WellFormed(Answered(RED, LONG_MAX)) && Gvt.Enabled(Answered(RED, LONG_MAX), Send(1))
    ensures Gvt.Next(Answered(RED, LONG_MAX), Send(1)) == RolledBack()
  {
    assert Answered(RED, LONG_MAX).queues[1][1..] == [];
  }

  lemma WriterMovesOn()
    ensures WellFormed(RolledBack()) && Gvt.Enabled(RolledBack(), MOVE_ON) && Gvt.Next(RolledBack(), MOVE_ON) == MovedOn()
  {
    assert Without(RolledBack().flying, 0) == [Simulation(3, 5, RED)];
    assert Gvt.Enabled(RolledBack(), MOVE_ON);
  }

  /** The cut at CLP 1 sees the greatest time, and nothing of the queue. */
  lemma CutPassesTheQueue()
    ensures var r := Round(Answered(WHITE, ULONG_MAX), Before().phase);
            && Possible(r, CutPasses) && r.phase.Ring? && After(r, CutPasses).world == Answered(RED, LONG_MAX)
            && After(r, CutPasses) == Passed(r) && After(r, CutPasses).phase.Ring? && After(r, CutPasses).phase.control.destination == 2
            && After(r, CutPasses).phase.control.minimumTime == LONG_MAX
            && (forall k :: k in After(r, CutPasses).phase.control.counts ==> k < 4)
            && !IsDrained(r, CutPasses)
  {
  }

  lemma WorkTo(r: Round, s: Step, after: World)
    requires r.phase.Ring? && RingFits(r.world, r.phase.control, r.phase.missing) && !s.Recolour?
    requires WellFormed(r.world) && Gvt.Enabled(r.world, s) && Gvt.Next(r.world, s) == after
    ensures Possible(r, Work(s)) && After(r, Work(s)) == r.(world := after)
    ensures RingFits(after, r.phase.control, r.phase.missing)
  {
    WorkFits(r.world, r.phase.control, r.phase.missing, s);
    hide RingFits, Gvt.Next, Gvt.Enabled, WellFormed;
  }

  /** Up to the cut at CLP 1. */
  lemma ToTheCut()
    ensures Possible(Before(), Work(HANDLE))
    ensures var r := After(Before(), Work(HANDLE));
            && Possible(r, Work(Send(1)))
            && After(r, Work(Send(1))) == Before().(world := Answered(WHITE, ULONG_MAX))
    ensures RingFits(Answered(WHITE, ULONG_MAX), Before().phase.control, Before().phase.missing)
  {
    BeforeBegins();
    BeginFits(Before());
    WriteIsHandled();
    ResponseLeaves();
    assert Before().world == Written() && !HANDLE.Recolour?;
    hide *;
    WorkTo(Before(), HANDLE, Handled());
    WorkTo(Before().(world := Handled()), Send(1), Answered(WHITE, ULONG_MAX));
  }

  /** From that cut on. */
  lemma FromTheCut(cut: Round)
    requires cut.phase.Ring? && RingFits(cut.world, cut.phase.control, cut.phase.missing)
    requires cut.world == Answered(RED, LONG_MAX)
    ensures Possible(cut, Work(Send(1)))
    ensures var r := After(cut, Work(Send(1)));
            Possible(r, Work(MOVE_ON)) && After(r, Work(MOVE_ON)) == cut.(world := MovedOn())
    ensures RingFits(MovedOn(), cut.phase.control, cut.phase.missing)
  {
    RollbackLeaves();
    WriterMovesOn();
    assert !MOVE_ON.Recolour?;
    hide *;
    WorkTo(cut, Send(1), RolledBack());
    WorkTo(cut.(world := RolledBack()), MOVE_ON, MovedOn());
  }

  lemma MovedOnIsOverlooked(r: Round)
    requires r.world == MovedOn() && r.phase.Ring? && RingFits(r.world, r.phase.control, r.phase.missing)
    requires r.phase.control.minimumTime >= 10 && forall k :: k in r.phase.control.counts ==> k < 4
    ensures IsOverlooked(r, 0, 0)
  {
    var w := r.world;
    assert w.flying[0] in w.flying && w.flying[0].time == 5;
    hide RingFits;
    forall k: nat ensures WhiteTo(w.flying, k) == 0 {
      WhiteToOne(Simulation(3, 5, RED), k);
    }
    hide WhiteTo;
  }

  lemma AfterTheCut(cut: Round) returns (events: seq<Event>)
    requires cut.phase.Ring? && RingFits(cut.world, cut.phase.control, cut.phase.missing)
    requires cut.world == Answered(RED, LONG_MAX) && cut.phase.control.minimumTime >= 10
    requires forall k :: k in cut.phase.control.counts ==> k < 4
    ensures AllPossible(cut, events) && !IsSafe(GvtRounds.Run(cut, events))
  {
    hide *;
    FromTheCut(cut);
    MovedOnIsOverlooked(cut.(world := MovedOn()));
    var rest := OverlookedRun(cut.(world := MovedOn()), 0, 0);
    RunCons(After(cut, Work(Send(1))), Work(MOVE_ON), rest);
    RunCons(cut, Work(Send(1)), [Work(MOVE_ON)] + rest);
    events := [Work(Send(1))] + ([Work(MOVE_ON)] + rest);
  }

  lemma FromTheWaitingCut() returns (events: seq<Event>)
    ensures AllPossible(Before().(world := Answered(WHITE, ULONG_MAX)), events)
    ensures !IsSafe(GvtRounds.Run(Before().(world := Answered(WHITE, ULONG_MAX)), events))
  {
    var waiting := Before().(world := Answered(WHITE, ULONG_MAX));
    ToTheCut();
    CutPassesTheQueue();
    GvtRounds.CutFits(waiting);
    assert waiting == Round(Answered(WHITE, ULONG_MAX), Before().phase);
    hide *;
    var rest := AfterTheCut(After(waiting, CutPasses));
    RunCons(waiting, CutPasses, rest);
    events := [CutPasses] + rest;
  }

  /** Every LP has a counter for every rank, and the cut passes CLP 1 between the response and the rollback of one write:
      the rollback to 5 leaves in red, the writer goes on, and the round announces a time of at least 10. */
  lemma QueuedRollbackBreaksSafety() returns (events: seq<Event>)
    ensures Begins(Before()) && CountersComplete(Before().world)
    ensures AllPossible(Before(), events) && !AllDrained(Before(), events)
    ensures !IsSafe(GvtRounds.Run(Before(), events))
  {
    BeforeBegins();
    ToTheCut();
    hide *;
    var rest := FromTheWaitingCut();
    RunCons(After(Before(), Work(HANDLE)), Work(Send(1)), rest);
    RunCons(Before(), Work(HANDLE), [Work(Send(1))] + rest);
    events := [Work(HANDLE)] + ([Work(Send(1))] + rest);
    if AllDrained(Before(), events) {
      DrainedIsSafe(Before(), events);
    }
  }

  lemma DrainedIsSafe(r: Round, events: seq<Event>)
    requires Begins(r) && CountersComplete(r.world) && AllPossible(r, events) && AllDrained(r, events)
    ensures IsSafe(GvtRounds.Run(r, events))
  {
    AnnouncedTimeStaysSafe(r, events);
  }
}
