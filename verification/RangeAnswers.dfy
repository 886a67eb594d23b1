/** Whole runs of a range query: what the ALP gets, and that the query leaves nothing behind. */
module RangeAnswers {
  import opened RangeEcho
  import opened RangeQueries
  import opened RangeTrackers
  import opened RouteTables
  import opened Routers
  import opened Trees

  ghost predicate IsRun(net: Net, e: Echo, steps: seq<Step>)
    requires WellRouted(net)
    decreases |steps|
  {
    steps == [] || (Enabled(net, e, steps[0]) && IsRun(net, Next(net, e, steps[0]), steps[1..]))
  }

  ghost function Run(net: Net, e: Echo, steps: seq<Step>): Echo
    requires WellRouted(net) && IsRun(net, e, steps)
    decreases |steps|
  {
    if steps == [] then e else Run(net, Next(net, e, steps[0]), steps[1..])
  }

  /** A message that finds no entry is the first to come to its CLP. */
  ghost predicate VisitsOnce(net: Net, e: Echo, steps: seq<Step>)
    requires WellRouted(net) && IsRun(net, e, steps)
    decreases |steps|
  {
    steps == [] ||
    ((steps[0].m.destination !in e.entries ==> steps[0].m.destination !in e.log) &&
     VisitsOnce(net, Next(net, e, steps[0]), steps[1..]))
  }

  lemma StartIsSound(net: Net) returns (stages: seq<Stage>)
    requires WellRouted(net)
    ensures Sound(net, Start(net), stages) && HopsOf(net, Start(net), stages, net.Clps()) == 0
  {
    stages := StartFits(net);
    var e := Start(net);
    forall c: nat | c < |stages| ensures !stages[c].Answering? && Held(net, e, stages, c) == map[] {
      assert StageFits(net, e, stages, c);
      if stages[c].Answering? {
        MessageIsFlying(net, stages, c);
        hide Messages;
      }
    }
    hide Fits, AllRoutesClps, HopsOf;
    NoHops(net, e, stages, net.Clps());
  }

  lemma {:induction false} RunIsSound(net: Net, e: Echo, stages: seq<Stage>, steps: seq<Step>) returns (later: seq<Stage>)
    requires WellRouted(net) && Sound(net, e, stages) && IsRun(net, e, steps)
    ensures Sound(net, Run(net, e, steps), later) && VisitsOnce(net, e, steps)
    ensures Measure(net, Run(net, e, steps)) + |steps| <= Measure(net, e)
    ensures HopsOf(net, Run(net, e, steps), later, net.Clps()) == HopsOf(net, e, stages, net.Clps()) + |steps|
    decreases |steps|
  {
    hide Sound, Next, Measure, WellRouted, HopsOf;
    if steps == [] {
      later := stages;
    } else {
      var mid := StepIsSound(net, e, stages, steps[0]);
      later := RunIsSound(net, Next(net, e, steps[0]), mid, steps[1..]);
    }
  }

  // ---- At the end ----

  /** A CLP that still waits keeps every CLP before it waiting. */
  lemma {:induction false} HomeWaits(net: Net, e: Echo, stages: seq<Stage>, f: nat)
    requires WellRouted(net) && Fits(net, e, stages) && f < net.Clps() && IsPending(stages[f])
    ensures IsPending(stages[net.Home()])
    decreases Dist(f, net.Home())
  {
    if f != net.Home() {
      NextHopIsCloser(f, net.Home());
      assert StageFits(net, e, stages, f);
      hide EntryFits, ReplyFits, IsComplete, Messages, AllRoutesClps, NextHop, Dist;
      HomeWaits(net, e, stages, Back(net, f));
    }
  }

  lemma {:induction false} DistIsBounded(a: nat, b: nat)
    ensures Dist(a, b) <= a + b
    decreases a + b
  {
    if a > b {
      DistIsBounded(Parent(a), b);
    } else if a < b {
      DistIsBounded(a, Parent(b));
    }
  }

  /** With no message under way and every port known, no CLP waits: one that did would wait for another
      further from the ALP. */
  lemma {:induction false} NobodyWaits(net: Net, e: Echo, stages: seq<Stage>, c: nat)
    requires WellRouted(net) && Fits(net, e, stages) && AllOpen(e) && e.flying == multiset{} && c < net.Clps()
    requires forall x: nat :: x in e.log ==> IsComplete(net, x, e.log[x])
    ensures !stages[c].Active?
    decreases 2 * net.Clps() - Dist(c, net.Home())
  {
    if stages[c].Active? {
      DistIsBounded(c, net.Home());
      var f := WaitsFor(net, e, stages, c);
      NextHopIsCloser(f, net.Home());
      if stages[f].Active? {
        DistIsBounded(f, net.Home());
        NobodyWaits(net, e, stages, f);
      } else {
        MessageIsFlying(net, stages, f);
      }
    }
  }

  lemma WaitsFor(net: Net, e: Echo, stages: seq<Stage>, c: nat) returns (f: nat)
    requires WellRouted(net) && Fits(net, e, stages) && AllOpen(e) && c < net.Clps() && stages[c].Active?
    requires c in e.log ==> IsComplete(net, c, e.log[c])
    ensures f < net.Clps() && f != net.Home() && Back(net, f) == c && IsPending(stages[f])
  {
    hide Messages, AllRoutesClps, NextHop, Outstanding, OriginPort;
    assert StageFits(net, e, stages, c);
    var d := Outstanding(e.entries[c], 4)[0];
    OutstandingPorts(e.entries[c], 4, d);
    assert PortIsOpen(net, stages, c, e.log[c], d);
    ForwardedPort(net, c, e.log[c], d);
    f := net.tables[c].atPort[d];
  }

  /** Every visited CLP had a range period for its own variables and on each port to a CLP further from the ALP. */
  ghost predicate AllComplete(net: Net, e: Echo)
    requires WellRouted(net)
  {
    forall c: nat :: c in e.log ==>
      HERE in e.log[c].periods &&
      forall f: nat :: f < net.Clps() && f != net.Home() && Back(net, f) == c ==> PortTo(c, f) in e.log[c].periods
  }

  /** Exactly the CLPs reached from the ALP through ports whose range overlaps have been visited. */
  ghost predicate ReachedExactly(net: Net, e: Echo)
    requires WellRouted(net)
  {
    && (forall c :: c in e.log ==> c < net.Clps())
    && net.Home() in e.log
    && forall f: nat :: f < net.Clps() && f != net.Home() ==>
         var c := Back(net, f);
         (f in e.log <==> c in e.log && PortTo(c, f) in e.log[c].periods && PortTo(c, f) in e.log[c].overlaps)
  }

  /** The answer holds every variable that a visited CLP found among its own where its own range overlaps,
      each with a value found there, and nothing else. */
  ghost predicate AnswersReads(log: map<nat, Sight>, answer: Values) {
    && (forall v :: v in answer <==> exists x :: x in log && HERE in log[x].periods && HERE in log[x].overlaps && v in log[x].local)
    && (forall v :: v in answer ==>
          exists x :: x in log && HERE in log[x].periods && HERE in log[x].overlaps && v in log[x].local && log[x].local[v] == answer[v])
  }

  /** Nothing of the query is left. */
  ghost predicate NothingLeft(e: Echo) {
    e.entries == map[] && e.flying == multiset{}
  }

  lemma AnsweredIsTheEnd(net: Net, e: Echo, stages: seq<Stage>)
    requires WellRouted(net) && Sound(net, e, stages) && e.answers != []
    ensures forall c: nat :: c < net.Clps() ==> !IsPending(stages[c])
    ensures NothingLeft(e)
  {
    assert StageFits(net, e, stages, net.Home());
    forall c: nat | c < net.Clps() ensures !IsPending(stages[c]) && c !in e.entries {
      assert StageFits(net, e, stages, c);
      hide EntryFits, ReplyFits, IsComplete, Messages, AllRoutesClps, NextHop, AskedFits;
      if IsPending(stages[c]) {
        HomeWaits(net, e, stages, c);
      }
    }
    assert e.entries.Keys == {};
    NoMessages(net, stages);
  }

  lemma AnswerHoldsWhatWasRead(net: Net, e: Echo, stages: seq<Stage>)
    requires WellRouted(net) && Sound(net, e, stages) && e.answers != []
    ensures forall x, v :: x in e.log && v in LocalRead(e.log[x]) ==> v in e.answers[0].values
    ensures forall v :: v in e.answers[0].values ==> WasRead(e.log, v, e.answers[0].values[v])
  {
    AnsweredIsTheEnd(net, e, stages);
    var home := net.Home();
    assert stages[home].Done?;
    hide Messages, AllRoutesClps, LocalRead, StageFits;
    forall c: nat | c < |stages| ensures Held(net, e, stages, c) == if c == home then e.answers[0].values else map[] {
      assert !IsPending(stages[c]);
    }
    hide Held;
    forall x, v | x in e.log && v in LocalRead(e.log[x]) ensures v in e.answers[0].values {
      assert IsHeld(net, e, stages, v);
    }
    forall v | v in e.answers[0].values ensures WasRead(e.log, v, e.answers[0].values[v]) {
      assert v in Held(net, e, stages, home);
    }
  }

  /** All hops of the run are in the answer. */
  lemma AnswerHoldsTheHops(net: Net, e: Echo, stages: seq<Stage>)
    requires WellRouted(net) && Sound(net, e, stages) && e.answers != []
    ensures e.answers[0].hops == HopsOf(net, e, stages, net.Clps())
  {
    AnsweredIsTheEnd(net, e, stages);
    var home := net.Home();
    assert stages[home].Done?;
    hide Messages, AllRoutesClps, LocalRead, StageFits;
    forall c: nat | c < |stages| ensures HopsAt(net, e, stages, c) == if c == home then e.answers[0].hops else 0 {
      assert !IsPending(stages[c]);
    }
    hide HopsAt;
    OnlyHops(net, e, stages, home, net.Clps());
  }

  lemma {:induction false} OnlyHops(net: Net, e: Echo, stages: seq<Stage>, home: nat, k: nat)
    requires net.alp < |net.homes| && home < |stages| && k <= |stages|
    requires forall c: nat :: c < |stages| && c != home ==> HopsAt(net, e, stages, c) == 0
    ensures HopsOf(net, e, stages, k) == if home < k then HopsAt(net, e, stages, home) else 0
  {
    if k > 0 {
      OnlyHops(net, e, stages, home, k - 1);
    }
  }

  lemma AnswerHoldsTheReads(net: Net, e: Echo, stages: seq<Stage>)
    requires WellRouted(net) && Sound(net, e, stages) && e.answers != []
    ensures AnswersReads(e.log, e.answers[0].values)
  {
    AnswerHoldsWhatWasRead(net, e, stages);
    hide Sound, WellRouted;
    var answer := e.answers[0].values;
    forall x | x in e.log
      ensures forall v :: v in LocalRead(e.log[x]) <==> HERE in e.log[x].periods && HERE in e.log[x].overlaps && v in e.log[x].local
      ensures forall v :: v in LocalRead(e.log[x]) ==> LocalRead(e.log[x])[v] == e.log[x].local[v]
    {
    }
    hide LocalRead;
    forall v | v in answer
      ensures exists x :: x in e.log && HERE in e.log[x].periods && HERE in e.log[x].overlaps && v in e.log[x].local && e.log[x].local[v] == answer[v]
    {
      assert WasRead(e.log, v, answer[v]);
    }
  }

  /** The ports of a complete CLP: HERE, and those to the CLPs behind it. */
  lemma CompleteIff(net: Net, c: nat, sight: Sight)
    requires WellRouted(net) && c < net.Clps()
    ensures IsComplete(net, c, sight) <==>
            HERE in sight.periods &&
            forall f: nat :: f < net.Clps() && f != net.Home() && Back(net, f) == c ==> PortTo(c, f) in sight.periods
  {
    OriginPorts(net, c);
    assert IsTarget(c, net.Clps(), OriginPort(net, c), HERE);
    hide IsTarget, OriginPort, NextHop, AllRoutesClps, PortTo;
    forall f: nat | f < net.Clps() && f != net.Home() && Back(net, f) == c
      ensures IsTarget(c, net.Clps(), OriginPort(net, c), PortTo(c, f))
    {
      ChildPort(net, f);
    }
    forall d | IsTarget(c, net.Clps(), OriginPort(net, c), d) && d != HERE
      ensures exists f: nat :: f < net.Clps() && f != net.Home() && Back(net, f) == c && PortTo(c, f) == d
    {
      TargetPort(net, c, d);
    }
  }

  lemma ChildIff(net: Net, f: nat, sight: Sight)
    requires WellRouted(net) && f < net.Clps() && f != net.Home() && Back(net, f) < net.Clps()
    ensures var c := Back(net, f);
            IsChild(net, c, sight, f) <==> PortTo(c, f) in sight.periods && PortTo(c, f) in sight.overlaps
  {
    ChildPort(net, f);
    hide IsTarget, OriginPort, NextHop, AllRoutesClps, PortTo;
  }

  lemma AnsweredReachedExactly(net: Net, e: Echo, stages: seq<Stage>)
    requires WellRouted(net) && Sound(net, e, stages) && e.answers != []
    ensures ReachedExactly(net, e) && AllComplete(net, e)
  {
    AnsweredIsTheEnd(net, e, stages);
    hide Messages, AllRoutesClps, NextHop, EntryFits, IsChild, IsComplete, ReplyFits, PortTo, ValuesFit;
    assert StageFits(net, e, stages, net.Home());
    forall f: nat | f < net.Clps() && f != net.Home()
      ensures var c := Back(net, f);
              (f in e.log <==> c in e.log && PortTo(c, f) in e.log[c].periods && PortTo(c, f) in e.log[c].overlaps)
    {
      assert StageFits(net, e, stages, f) && !IsPending(stages[f]);
      var c := Back(net, f);
      if c in e.log {
        ChildIff(net, f, e.log[c]);
      }
    }
    forall c: nat | c < net.Clps() && c in e.log ensures IsComplete(net, c, e.log[c]) {
      assert StageFits(net, e, stages, c) && !IsPending(stages[c]);
    }
    hide StageFits;
    AllCompleteIff(net, e);
  }

  lemma AllCompleteIff(net: Net, e: Echo)
    requires WellRouted(net) && forall c :: c in e.log ==> c < net.Clps()
    ensures AllComplete(net, e) <==> forall c: nat :: c < net.Clps() && c in e.log ==> IsComplete(net, c, e.log[c])
  {
    hide IsComplete, AllRoutesClps, NextHop, PortTo;
    forall c: nat | c < net.Clps() && c in e.log
      ensures IsComplete(net, c, e.log[c]) <==>
              HERE in e.log[c].periods &&
              forall f: nat :: f < net.Clps() && f != net.Home() && Back(net, f) == c ==> PortTo(c, f) in e.log[c].periods
    {
      CompleteIff(net, c, e.log[c]);
    }
  }

  lemma CompleteIsAnswered(net: Net, e: Echo, stages: seq<Stage>)
    requires WellRouted(net) && Sound(net, e, stages) && e.flying == multiset{} && AllComplete(net, e)
    ensures |e.answers| == 1
  {
    var home := net.Home();
    AllCompleteIff(net, e);
    assert StageFits(net, e, stages, home);
    NobodyWaits(net, e, stages, home);
    if stages[home].Asked? || stages[home].Answering? {
      MessageIsFlying(net, stages, home);
    }
  }

  lemma {:induction false} Below(n: nat) returns (s: set<nat>)
    ensures |s| == n && forall x: nat :: x in s <==> x < n
  {
    if n == 0 {
      s := {};
    } else {
      s := Below(n - 1);
      s := s + {n - 1};
    }
  }

  lemma {:induction false} FewerThan(s: set<nat>, t: set<nat>)
    requires s <= t
    ensures |s| <= |t|
  {
    if s != {} {
      var x :| x in s;
      FewerThan(s - {x}, t - {x});
    }
  }

  lemma MeasureIsNatural(net: Net, e: Echo, stages: seq<Stage>)
    requires WellRouted(net) && Sound(net, e, stages)
    ensures Measure(net, e) >= 0
  {
    var all := Below(net.Clps());
    FewerThan(e.log.Keys, all);
    assert |e.log.Keys| == |e.log|;
  }

  /** Whatever the order in which messages arrive and whatever the CLPs find: every run ends, no CLP is
      visited twice, and the ALP gets at most one answer. When the last message has arrived the ALP has its
      answer exactly if every visited CLP had a range period on each of its target ports. With the answer
      nothing of the query is left anywhere, the answer holds exactly what was read at the CLPs reached
      through overlapping ports, and its hops are the messages that arrived at CLPs. */
  lemma QueryIsAnswered(net: Net, steps: seq<Step>)
    requires WellRouted(net) && IsRun(net, Start(net), steps)
    ensures |steps| <= 6 * net.Clps() + 1
    ensures VisitsOnce(net, Start(net), steps)
    ensures var e := Run(net, Start(net), steps);
            && |e.answers| <= 1
            && (e.flying == multiset{} ==> (|e.answers| == 1 <==> AllComplete(net, e)))
            && (|e.answers| == 1 ==>
                  IsQueryOf(net, e.answers[0]) && e.answers[0].destination == net.Agent() &&
                  NothingLeft(e) && ReachedExactly(net, e) && AnswersReads(e.log, e.answers[0].values) &&
                  e.answers[0].hops == |steps|)
  {
    var stages := StartIsSound(net);
    var later := RunIsSound(net, Start(net), stages, steps);
    var e := Run(net, Start(net), steps);
    MeasureIsNatural(net, e, later);
    if e.answers != [] {
      AnsweredIsTheEnd(net, e, later);
      AnswerHoldsTheReads(net, e, later);
      AnswerHoldsTheHops(net, e, later);
      AnsweredReachedExactly(net, e, later);
    } else if e.flying == multiset{} && AllComplete(net, e) {
      CompleteIsAnswered(net, e, later);
    }
    hide AllRoutesClps, AnswersReads, ReachedExactly, AllComplete, StageFits, Messages, Next, HopsOf;
  }

  /** As long as a message is under way the run can go on, with any of them and whatever its CLP finds. */
  lemma RunCanGoOn(net: Net, steps: seq<Step>, s: Step)
    requires WellRouted(net) && IsRun(net, Start(net), steps) && s.m in Run(net, Start(net), steps).flying
    ensures Enabled(net, Run(net, Start(net), steps), s)
  {
    var stages := StartIsSound(net);
    var later := RunIsSound(net, Start(net), stages, steps);
    later := StepIsSound(net, Run(net, Start(net), steps), later, s);
  }
}
