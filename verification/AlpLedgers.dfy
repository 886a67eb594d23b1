/** What an ALP has sent, what it still remembers, and what it has taken back. */
module AlpLedgers {
  import opened AlpRollbacks
  import opened Filters
  import opened LpIds
  import opened Timelines
  import opened WritePeriods
  import Histories
  import ReadLedger

  // ---- One rollback ----

  lemma {:induction false} AntisMatch(undone: seq<Message>, gvt: nat)
    requires forall m :: m in undone ==> IsRequest(m) && m.time >= gvt
    ensures |Antis(undone, gvt)| == |undone|
    ensures forall i :: 0 <= i < |undone| ==> IsRequest(undone[i]) && Antis(undone, gvt)[i] == Anti(undone[i])
  {
    if undone != [] {
      var n := |undone| - 1;
      AntisMatch(undone[..n], gvt);
      assert undone[n] in undone;
      forall i | 0 <= i < |undone| ensures IsRequest(undone[i]) && Antis(undone, gvt)[i] == Anti(undone[i]) {
        assert undone[i] in undone;
        if i < n {
          assert undone[..n][i] == undone[i];
        }
      }
    }
  }

  /** What a rollback of the agent to `t` undoes: its reads and range queries from `t` on, and its writes after `t`. */
  predicate TakesBack(agent: LpId, t: nat, m: Message) {
    || ((m.ReadRequest? || m.RangeRequest?) && m.agent == agent && t <= m.time)
    || (m.WriteRequest? && m.agent == agent && t < m.time)
  }

  /** The anti-message has the kind of its request, and names the same agent, time and variable or range. */
  predicate Answers(anti: Message, m: Message) {
    || (m.ReadRequest? && anti.AntiRead? && anti.agent == m.agent && anti.time == m.time && anti.variable == m.variable)
    || (m.WriteRequest? && anti.AntiWrite? && anti.agent == m.agent && anti.time == m.time && anti.variable == m.variable)
    || (m.RangeRequest? && anti.AntiRange? && anti.agent == m.agent && anti.time == m.time &&
        anti.low == m.low && anti.high == m.high && anti.id == m.id)
  }

  /** A rollback to `t`, no earlier than the global virtual time, splits what was sent into the kept requests
      and, one to one and in order, the requests that anti-messages go out for. What it undoes is neither
      remembered nor still to be sent, and everything else is. */
  lemma RollbackSplitsTheSendList(sendList: seq<Message>, queue: seq<Message>, agent: LpId, t: nat, gvt: nat)
    requires gvt <= t && forall m :: m in sendList ==> IsRequest(m)
    ensures var kept, undone := Filter(sendList, Kept(agent, t)), Filter(sendList, Undone(agent, t));
            var waiting, antis := Filter(queue, Kept(agent, t)), Antis(undone, gvt);
            && multiset(sendList) == multiset(kept) + multiset(undone)
            && (forall m :: m in kept <==> m in sendList && !TakesBack(agent, t, m))
            && (forall m :: m in undone <==> m in sendList && TakesBack(agent, t, m))
            && (forall m :: m in waiting <==> m in queue && !TakesBack(agent, t, m))
            && |antis| == |undone|
            && (forall i :: 0 <= i < |undone| ==> Answers(antis[i], undone[i]))
  {
    var kept, undone := Filter(sendList, Kept(agent, t)), Filter(sendList, Undone(agent, t));
    FilterPartition(sendList, Kept(agent, t), Undone(agent, t));
    FilterMembers(sendList, Kept(agent, t));
    FilterMembers(sendList, Undone(agent, t));
    FilterMembers(queue, Kept(agent, t));
    AntisMatch(undone, gvt);
  }

  // ---- What the anti-messages do to a shared variable ----

  /** What the CLP of the variable carries out for the message. */
  function CarriedOut(m: Message): Option<ReadLedger.Request> {
    match m
    case ReadRequest(agent, time, _, _) => Some(ReadLedger.ReadRequest(agent, time))
    case WriteRequest(agent, time, _, value, _) => Some(ReadLedger.WriteRequest(agent, value, time))
    case AntiRead(agent, time, _) => Some(ReadLedger.AntiRead(agent, time))
    case AntiWrite(agent, time, _) => Some(ReadLedger.AntiWrite(agent, time))
    case _ => None
  }

  /** The anti-message of an undone read leaves every read of the variable but this one. */
  lemma AntiMessageUndoesTheRead(undone: seq<Message>, gvt: nat, k: nat, l: Timeline)
    requires (forall m :: m in undone ==> IsRequest(m) && m.time >= gvt) && k < |undone| && undone[k].ReadRequest?
    requires Good(l)
    ensures |Antis(undone, gvt)| == |undone|
    ensures var m, anti := undone[k], Antis(undone, gvt)[k];
            && anti.AntiRead? && anti.variable == m.variable && CarriedOut(anti).Some?
            && Recorded(ReadLedger.Apply(l, CarriedOut(anti).value).after) == Recorded(l)[Access(m.agent, m.time) := 0]
  {
    hide *;
    AntiOfARead(undone, gvt, k);
    AntiReadIsApplied(l, undone[k].agent, undone[k].time);
    ReadLedger.AntiReadTakesNoOther(l, undone[k].agent, undone[k].time);
  }

  lemma AntiReadIsApplied(l: Timeline, agent: LpId, t: nat)
    ensures ReadLedger.Apply(l, ReadLedger.AntiRead(agent, t)) == ReadRollbackEffect(l, agent, t)
  {
    hide ReadRollbackEffect;
  }

  lemma AntiOfARead(undone: seq<Message>, gvt: nat, k: nat)
    requires (forall m :: m in undone ==> IsRequest(m) && m.time >= gvt) && k < |undone| && undone[k].ReadRequest?
    ensures |Antis(undone, gvt)| == |undone|
    ensures var m, anti := undone[k], Antis(undone, gvt)[k];
            anti.AntiRead? && anti.variable == m.variable && CarriedOut(anti) == Some(ReadLedger.AntiRead(m.agent, m.time))
  {
    AntisMatch(undone, gvt);
  }

  lemma AntiOfAWrite(undone: seq<Message>, gvt: nat, k: nat)
    requires (forall m :: m in undone ==> IsRequest(m) && m.time >= gvt) && k < |undone| && undone[k].WriteRequest?
    ensures |Antis(undone, gvt)| == |undone|
    ensures var m, anti := undone[k], Antis(undone, gvt)[k];
            && anti.AntiWrite? && anti.variable == m.variable
            && CarriedOut(m) == Some(ReadLedger.WriteRequest(m.agent, m.value, m.time))
            && CarriedOut(anti) == Some(ReadLedger.AntiWrite(m.agent, m.time))
  {
    AntisMatch(undone, gvt);
  }

  /** With the anti-message of an undone write every lookup of the variable answers as if there had been no
      write, whatever came before, in between and afterwards. */
  lemma AntiMessageUndoesTheWrite(undone: seq<Message>, gvt: nat, k: nat, l: Timeline, base: nat,
                                  a: seq<ReadLedger.Request>, b: seq<ReadLedger.Request>, c: seq<ReadLedger.Request>, time: nat)
    requires (forall m :: m in undone ==> IsRequest(m) && m.time >= gvt) && k < |undone| && undone[k].WriteRequest?
    requires Good(l) && Histories.Based(l, base)
    requires var m := undone[k];
             var w, u := ReadLedger.WriteRequest(m.agent, m.value, m.time), ReadLedger.AntiWrite(m.agent, m.time);
             && Histories.FreshTimes(Histories.Live(l), base, a + [w] + b + [u] + c)
             && Histories.FreshTimes(Histories.Live(l), base, a + b + c)
             && Histories.Untouched(a + b, m.time) && m.time !in Histories.Live(l)
    ensures |Antis(undone, gvt)| == |undone|
    ensures var m, anti := undone[k], Antis(undone, gvt)[k];
            && anti.AntiWrite? && anti.variable == m.variable && CarriedOut(m).Some? && CarriedOut(anti).Some?
            && Histories.Lookup(ReadLedger.Run(l, a + [CarriedOut(m).value] + b + [CarriedOut(anti).value] + c), time) ==
               Histories.Lookup(ReadLedger.Run(l, a + b + c), time)
  {
    hide *;
    var m := undone[k];
    AntiOfAWrite(undone, gvt, k);
    Histories.UndoneWriteLeavesNoTrace(l, base, a, b, c, m.agent, m.value, m.time, time);
  }

  /** The agent ends at the greatest time of its history that is at most `t`, and the history stays one. */
  lemma TakenBackToTheGreatest(h: seq<nat>, lvt: nat, after: seq<nat>, t: nat)
    requires IsHistory(h, lvt) && IsTakenBack(h, after, t)
    ensures var now := after[|after| - 1];
            && IsHistory(after, now) && now in h && now <= t
            && forall x :: x in h && x <= t ==> x <= now
  {
    var now := after[|after| - 1];
    forall x | x in h && x <= t ensures x <= now {
      var i :| 0 <= i < |h| && h[i] == x;
      assert i < |after|;
      assert h[i] <= h[|after| - 1] && h[|after| - 1] == now;
    }
    forall i, j | 0 <= i <= j < |after| ensures after[i] <= after[j] {
      assert h[i] <= h[j] && h[i] == after[i] && h[j] == after[j];
    }
  }

  // ---- Every request and its anti-message over whole runs ----

  /** What is remembered, what waits, what has gone out, and what was forgotten without an anti-message. */
  datatype Desk = Desk(sendList: seq<Message>, queue: seq<Message>, wire: seq<Message>, forgotten: seq<Message>, gvt: nat)

  datatype Step =
    | Issue(m: Message)
    | Send
    | Rollback(agent: LpId, t: nat)
    | Collect(gvt: nat)
    | WriteFailed(k: nat)

  ghost predicate Enabled(d: Desk, s: Step) {
    match s
    case Issue(m) => IsRequest(m)
    case Send => d.queue != []
    case Rollback(_, _) => true
    case Collect(_) => true
    case WriteFailed(k) => k < |d.sendList|
  }

  function Old(t: nat): Message -> bool {
    m => !(IsRequest(m) && m.time >= t)
  }

  ghost function After(d: Desk, s: Step): Desk
    requires Enabled(d, s)
  {
    match s
    case Issue(m) => d.(queue := d.queue + [m])
    case Send =>
      d.(queue := d.queue[1..], wire := d.wire + [d.queue[0]],
         sendList := d.sendList + if IsRequest(d.queue[0]) then [d.queue[0]] else [])
    case Rollback(agent, t) =>
      var undone := Filter(d.sendList, Undone(agent, t));
      d.(sendList := Filter(d.sendList, Kept(agent, t)),
         queue := Filter(d.queue, Kept(agent, t)) + Antis(undone, d.gvt),
         forgotten := d.forgotten + Filter(undone, Old(d.gvt)))
    case Collect(t) =>
      d.(gvt := t, sendList := Filter(d.sendList, Recent(t)), forgotten := d.forgotten + Filter(d.sendList, Old(t)))
    case WriteFailed(k) =>
      d.(sendList := d.sendList[..k] + d.sendList[k + 1..], forgotten := d.forgotten + [d.sendList[k]])
  }

  /** Requests whose anti-message is `x`. */
  function RequestFor(x: Message): Message -> bool {
    m => IsRequest(m) && Anti(m) == x
  }

  function Is(x: Message): Message -> bool {
    m => m == x
  }

  function Requests(s: seq<Message>, x: Message): nat {
    |Filter(s, RequestFor(x))|
  }

  function Copies(s: seq<Message>, x: Message): nat {
    |Filter(s, Is(x))|
  }

  /** Of every kind, the requests gone out are those remembered, those forgotten and those an anti-message has
      gone out or waits for. */
  ghost predicate Balanced(d: Desk, x: Message) {
    Requests(d.wire, x) == Copies(d.wire, x) + Copies(d.queue, x) + Requests(d.sendList, x) + Requests(d.forgotten, x)
  }

  ghost predicate Fits(d: Desk) {
    && (forall m :: m in d.sendList ==> IsRequest(m))
    && (forall x :: !IsRequest(x) && !x.Other? ==> Balanced(d, x))
  }

  lemma {:induction false} FilterSplit<T>(s: seq<T>, p: T -> bool, notP: T -> bool, q: T -> bool)
    requires forall m :: m in s ==> (notP(m) <==> !p(m))
    ensures |Filter(s, q)| == |Filter(Filter(s, p), q)| + |Filter(Filter(s, notP), q)|
  {
    if s != [] {
      FilterSplit(s[1..], p, notP, q);
      assert s[0] in s;
      FilterAppend(if p(s[0]) then [s[0]] else [], Filter(s[1..], p), q);
      FilterAppend(if notP(s[0]) then [s[0]] else [], Filter(s[1..], notP), q);
    }
  }

  lemma RequestsSplit(s: seq<Message>, p: Message -> bool, notP: Message -> bool, x: Message)
    requires forall m :: m in s ==> (notP(m) <==> !p(m))
    ensures Requests(s, x) == Requests(Filter(s, p), x) + Requests(Filter(s, notP), x)
  {
    FilterSplit(s, p, notP, RequestFor(x));
  }

  lemma RequestsAppend(s: seq<Message>, t: seq<Message>, x: Message)
    ensures Requests(s + t, x) == Requests(s, x) + Requests(t, x)
    ensures Copies(s + t, x) == Copies(s, x) + Copies(t, x)
  {
    FilterAppend(s, t, RequestFor(x));
    FilterAppend(s, t, Is(x));
  }

  lemma OneMessage(m: Message, x: Message, p: Message -> bool)
    ensures Requests([m], x) == if IsRequest(m) && Anti(m) == x then 1 else 0
    ensures Copies([m], x) == if m == x then 1 else 0
    ensures Filter([m], p) == if p(m) then [m] else []
  {
    FilterOne(m, RequestFor(x));
    FilterOne(m, Is(x));
    FilterOne(m, p);
  }

  lemma FilterOne<T>(m: T, p: T -> bool)
    ensures Filter([m], p) == if p(m) then [m] else []
  {
    assert [m][1..] == [];
  }

  lemma NoMessage(x: Message)
    ensures Requests([], x) == 0 && Copies([], x) == 0
  {
  }

  /** One anti-message for every undone request that is not forgotten. */
  lemma {:induction false} AntisCount(undone: seq<Message>, gvt: nat, x: Message)
    requires forall m :: m in undone ==> IsRequest(m)
    ensures Copies(Antis(undone, gvt), x) + Requests(Filter(undone, Old(gvt)), x) == Requests(undone, x)
  {
    if undone != [] {
      var n := |undone| - 1;
      var init, m := undone[..n], undone[n];
      AntisCount(init, gvt, x);
      assert undone == init + [m] && m in undone;
      FilterAppend(init, [m], Old(gvt));
      RequestsAppend(init, [m], x);
      RequestsAppend(Filter(init, Old(gvt)), Filter([m], Old(gvt)), x);
      RequestsAppend(Antis(init, gvt), if m.time >= gvt then [Anti(m)] else [], x);
      OneMessage(m, x, Old(gvt));
      OneMessage(Anti(m), x, Old(gvt));
      NoMessage(x);
      hide Requests, Copies, Filter;
    }
  }

  lemma NoCopies(s: seq<Message>, agent: LpId, t: nat, x: Message)
    requires !IsRequest(x)
    ensures Copies(Filter(s, Kept(agent, t)), x) == Copies(s, x)
  {
    FilterCompose(s, Kept(agent, t), Is(x), Is(x));
  }

  lemma StepBalanced(d: Desk, s: Step, x: Message)
    requires Enabled(d, s) && Balanced(d, x) && !IsRequest(x) && forall m :: m in d.sendList ==> IsRequest(m)
    ensures Balanced(After(d, s), x)
  {
    NoMessage(x);
    hide Requests, Copies, Filter, Antis;
    match s
    case Issue(m) =>
      RequestsAppend(d.queue, [m], x);
      OneMessage(m, x, Old(0));
    case Send =>
      var m := d.queue[0];
      assert d.queue == [m] + d.queue[1..];
      RequestsAppend([m], d.queue[1..], x);
      RequestsAppend(d.wire, [m], x);
      RequestsAppend(d.sendList, if IsRequest(m) then [m] else [], x);
      OneMessage(m, x, Old(0));
    case Rollback(agent, t) =>
      var undone := Filter(d.sendList, Undone(agent, t));
      FilterMembers(d.sendList, Undone(agent, t));
      RequestsSplit(d.sendList, Kept(agent, t), Undone(agent, t), x);
      AntisCount(undone, d.gvt, x);
      NoCopies(d.queue, agent, t, x);
      RequestsAppend(Filter(d.queue, Kept(agent, t)), Antis(undone, d.gvt), x);
      RequestsAppend(d.forgotten, Filter(undone, Old(d.gvt)), x);
    case Collect(t) =>
      RequestsSplit(d.sendList, Recent(t), Old(t), x);
      RequestsAppend(d.forgotten, Filter(d.sendList, Old(t)), x);
    case WriteFailed(k) =>
      var a, m, b := d.sendList[..k], d.sendList[k], d.sendList[k + 1..];
      assert d.sendList == a + [m] + b;
      RequestsAppend(a + [m], b, x);
      RequestsAppend(a, [m], x);
      RequestsAppend(a, b, x);
      RequestsAppend(d.forgotten, [m], x);
  }

  lemma StepFits(d: Desk, s: Step)
    requires Enabled(d, s) && Fits(d)
    ensures Fits(After(d, s))
  {
    forall x: Message | !IsRequest(x) && !x.Other? ensures Balanced(After(d, s), x) {
      StepBalanced(d, s, x);
    }
    if s.Rollback? {
      FilterMembers(d.sendList, Kept(s.agent, s.t));
    } else if s.Collect? {
      FilterMembers(d.sendList, Recent(s.gvt));
    }
    hide Balanced, Antis;
  }

  ghost predicate AllEnabled(d: Desk, steps: seq<Step>)
    decreases |steps|
  {
    steps == [] || (Enabled(d, steps[0]) && AllEnabled(After(d, steps[0]), steps[1..]))
  }

  ghost function Run(d: Desk, steps: seq<Step>): Desk
    requires AllEnabled(d, steps)
    decreases |steps|
  {
    if steps == [] then d else Run(After(d, steps[0]), steps[1..])
  }

  lemma {:induction false} RunFits(d: Desk, steps: seq<Step>)
    requires AllEnabled(d, steps) && Fits(d)
    ensures Fits(Run(d, steps))
    decreases |steps|
  {
    hide Fits, After, Enabled;
    if steps != [] {
      StepFits(d, steps[0]);
      RunFits(After(d, steps[0]), steps[1..]);
    }
  }

  /** At every moment of every run, no more anti-messages of a kind have gone out than requests, and once
      nothing waits the requests not taken back are exactly those remembered and those forgotten. */
  lemma AntisNeverOutrunRequests(steps: seq<Step>, startTime: nat, x: Message)
    requires AllEnabled(Desk([], [], [], [], startTime), steps) && !IsRequest(x) && !x.Other?
    ensures var d := Run(Desk([], [], [], [], startTime), steps);
            && Copies(d.wire, x) <= Requests(d.wire, x)
            && (d.queue == [] ==> Requests(d.wire, x) - Copies(d.wire, x) == Requests(d.sendList, x) + Requests(d.forgotten, x))
  {
    RunFits(Desk([], [], [], [], startTime), steps);
    assert Balanced(Run(Desk([], [], [], [], startTime), steps), x);
  }
}
