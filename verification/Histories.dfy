/** The write-period list refines a plain history: a map from write time to the value and agent
    current from then on. What a lookup returns depends on the history alone. */
module Histories {
  import opened LpIds
  import opened Filters
  import opened WritePeriods
  import opened Timelines
  import opened ReadLedger

  datatype Version = Version(value: Value, agent: LpId)

  type History = map<nat, Version>

  datatype Bound = Until(time: nat) | Forever

  /** What a lookup tells: the value, its writer, and when it stops being current. */
  datatype Reading = Reading(version: Version, bound: Bound)

  function BoundOf(end: nat): Bound {
    if end >= LONG_MAX then Forever else Until(end)
  }

  function Lookup(l: Timeline, t: nat): Option<Reading> {
    var k := Find(l, t);
    if k < 0 then None else Some(Reading(Version(l[k].value, l[k].agent), BoundOf(l[k].end)))
  }

  /** The writes of a list by start time; of several at one time the last one counts. */
  function Live(l: Timeline): History {
    if |l| == 0 then map[]
    else var p := l[|l| - 1]; Live(l[..|l| - 1])[p.start := Version(p.value, p.agent)]
  }

  // ---- What a history answers, independently of any list ----

  /** `k` is the time of the latest write at or before `t`. */
  ghost predicate Latest(h: History, t: nat, k: nat) {
    k in h && k <= t && forall j :: j in h && j <= t ==> j <= k
  }

  /** `b` is the time of the first write after `t`. */
  ghost predicate Next(h: History, t: nat, b: Bound) {
    match b
    case Forever => forall j :: j in h ==> j <= t
    case Until(n) => n in h && n > t && forall j :: j in h && j > t ==> n <= j
  }

  ghost predicate Answers(h: History, t: nat, r: Option<Reading>) {
    match r
    case None => forall k :: k in h ==> k > t
    case Some(reading) => Next(h, t, reading.bound) && exists k :: Latest(h, t, k) && h[k] == reading.version
  }

  lemma AnswersAreUnique(h: History, t: nat, r1: Option<Reading>, r2: Option<Reading>)
    requires Answers(h, t, r1) && Answers(h, t, r2)
    ensures r1 == r2
  {
    if r1.Some? && r2.Some? {
      var k1 :| Latest(h, t, k1) && h[k1] == r1.value.version;
      var k2 :| Latest(h, t, k2) && h[k2] == r2.value.version;
      assert k1 <= k2 && k2 <= k1;
      match (r1.value.bound, r2.value.bound) {
        case (Until(a), Until(b)) => assert a <= b && b <= a;
        case _ =>
      }
    }
  }

  lemma {:induction false} LiveKeys(l: Timeline, t: nat)
    ensures t in Live(l) <==> exists i :: 0 <= i < |l| && l[i].start == t
  {
    if |l| > 0 {
      LiveKeys(l[..|l| - 1], t);
      if exists i :: 0 <= i < |l| && l[i].start == t {
        var i :| 0 <= i < |l| && l[i].start == t;
        assert i < |l| - 1 ==> l[..|l| - 1][i].start == t;
      }
    }
  }

  /** The version live at a start time is that of the last period that starts then. */
  lemma {:induction false} LiveIsLast(l: Timeline, k: nat)
    requires k < |l| && forall i :: k < i < |l| ==> l[i].start != l[k].start
    ensures l[k].start in Live(l) && Live(l)[l[k].start] == Version(l[k].value, l[k].agent)
  {
    if k < |l| - 1 {
      assert l[|l| - 1].start != l[k].start;
      LiveIsLast(l[..|l| - 1], k);
    }
  }

  /** A lookup in a list that meets the invariant is the answer of its history: the latest live
      write at or before `t`, current until the next live write. */
  lemma LookupAnswersHistory(l: Timeline, t: nat)
    requires Good(l)
    ensures Answers(Live(l), t, Lookup(l, t))
  {
    forall j ensures j in Live(l) <==> exists i :: 0 <= i < |l| && l[i].start == j { LiveKeys(l, j); }
    var k := Find(l, t);
    if k >= 0 {
      LiveIsLast(l, k);
      forall j | j in Live(l) && j <= t ensures j <= l[k].start {
        var i :| 0 <= i < |l| && l[i].start == j;
        StartsAreOrdered(l, i, k);
      }
      assert Latest(Live(l), t, l[k].start);
      NextLive(l, t, k);
    }
  }

  lemma NextLive(l: Timeline, t: nat, k: nat)
    requires Good(l) && Find(l, t) == k
    ensures Next(Live(l), t, BoundOf(l[k].end))
  {
    forall j ensures j in Live(l) <==> exists i :: 0 <= i < |l| && l[i].start == j { LiveKeys(l, j); }
    if k + 1 < |l| {
      assert Joined(l, k + 1) && Fits(l[k + 1]);
      var n := l[k + 1].start;
      forall j | j in Live(l) && j > t ensures n <= j {
        var i :| 0 <= i < |l| && l[i].start == j;
        if i <= k {
          StartsAreOrdered(l, i, k);
        } else {
          StartsAreOrdered(l, k + 1, i);
        }
      }
    } else {
      forall j | j in Live(l) ensures j <= t {
        var i :| 0 <= i < |l| && l[i].start == j;
        StartsAreOrdered(l, i, k);
      }
    }
  }

  /** Two lists with one history cannot be told apart by any lookup. */
  lemma SameHistorySameLookups(l1: Timeline, l2: Timeline, t: nat)
    requires Good(l1) && Good(l2) && Live(l1) == Live(l2)
    ensures Lookup(l1, t) == Lookup(l2, t)
  {
    LookupAnswersHistory(l1, t);
    LookupAnswersHistory(l2, t);
    AnswersAreUnique(Live(l1), t, Lookup(l1, t), Lookup(l2, t));
  }

  // ---- Each request as a change of the history ----

  lemma {:induction false} LiveAppend(a: Timeline, b: Timeline)
    ensures Live(a + b) == Live(a) + Live(b)
  {
    if |b| == 0 {
      assert a + b == a;
    } else {
      var n := |a + b| - 1;
      assert (a + b)[..n] == a + b[..|b| - 1];
      LiveAppend(a, b[..|b| - 1]);
    }
  }

  /** Changing reads or end times leaves the history alone. */
  lemma {:induction false} LiveIgnoresReads(l1: Timeline, l2: Timeline)
    requires |l1| == |l2|
    requires forall i :: 0 <= i < |l1| ==>
      l1[i].start == l2[i].start && l1[i].value == l2[i].value && l1[i].agent == l2[i].agent
    ensures Live(l1) == Live(l2)
  {
    if |l1| > 0 {
      LiveIgnoresReads(l1[..|l1| - 1], l2[..|l2| - 1]);
    }
  }

  lemma LiveSnoc(l: Timeline, k: nat)
    requires k < |l|
    ensures Live(l[..k + 1]) == Live(l[..k])[l[k].start := Version(l[k].value, l[k].agent)]
  {
    assert l[..k + 1][..k] == l[..k];
  }

  lemma LiveAround(l: Timeline, k: nat)
    requires k < |l|
    ensures Live(l) == Live(l[..k]) + map[l[k].start := Version(l[k].value, l[k].agent)] + Live(l[k + 1..])
  {
    hide Live;
    assert l == l[..k + 1] + l[k + 1..];
    LiveAppend(l[..k + 1], l[k + 1..]);
    LiveSnoc(l, k);
  }

  lemma LiveAbsent(l: Timeline, t: nat)
    requires forall i :: 0 <= i < |l| ==> l[i].start != t
    ensures t !in Live(l)
  {
    LiveKeys(l, t);
  }

  lemma MapInsert(a: History, b: History, k: nat, v: Version)
    requires k !in b
    ensures a + map[k := v] + b == (a + b)[k := v]
  {
  }

  lemma MapDrop(a: History, b: History, k: nat, v: Version)
    requires k !in a && k !in b
    ensures (a + map[k := v] + b) - {k} == a + b
  {
  }

  lemma MapHidden(a: History, b: History, k: nat, v: Version)
    requires k in b
    ensures a + map[k := v] + b == a + b
  {
  }

  lemma LiveOfInserted(l: Timeline, k: nat, agent: LpId, v: Value, t: nat)
    requires k < |l|
    ensures Live(Inserted(l, k, agent, v, t)) == Live(l[..k + 1]) + map[t := Version(v, agent)] + Live(l[k + 1..])
  {
    hide Filter;
    var head := l[..k] + [Shortened(l[k], t)];
    var r := Inserted(l, k, agent, v, t);
    LiveAround(r, k + 1);
    assert r[..k + 1] == head && r[k + 2..] == l[k + 1..];
    LiveIgnoresReads(head, l[..k + 1]);
  }

  lemma WriteAddsToHistory(l: Timeline, agent: LpId, v: Value, t: nat)
    requires Good(l) && !Rejected(l, agent, t)
    ensures Live(WriteEffect(l, agent, v, t).after) == Live(l)[t := Version(v, agent)]
  {
    var k := Find(l, t);
    if l == [] {
      assert [NewPeriod(v, t, agent)][..0] == [];
    } else {
      LiveOfInserted(l, k, agent, v, t);
      assert l == l[..k + 1] + l[k + 1..];
      LiveAppend(l[..k + 1], l[k + 1..]);
      LiveAbsent(l[k + 1..], t);
      MapInsert(Live(l[..k + 1]), Live(l[k + 1..]), t, Version(v, agent));
    }
  }

  lemma LiveOfRemoved(l: Timeline, k: nat)
    requires k < |l|
    ensures Live(Removed(l, k)) == Live(l[..k]) + Live(l[k + 1..])
  {
    hide Filter;
    var r := Removed(l, k);
    if |l| == 1 || k == 0 {
      assert l[..k] == [] && r == l[k + 1..];
    } else {
      LiveIgnoresReads(r[..k], l[..k]);
      assert r == r[..k] + l[k + 1..];
      LiveAppend(r[..k], l[k + 1..]);
    }
  }

  /** Removing period `k` takes its time out of the history if no other period starts then. */
  lemma RemovalTakesFromHistory(l: Timeline, k: nat)
    requires k < |l| && forall i :: 0 <= i < |l| && i != k ==> l[i].start != l[k].start
    ensures Live(Removed(l, k)) == Live(l) - {l[k].start}
  {
    LiveOfRemoved(l, k);
    LiveAround(l, k);
    LiveAbsent(l[..k], l[k].start);
    LiveAbsent(l[k + 1..], l[k].start);
    MapDrop(Live(l[..k]), Live(l[k + 1..]), l[k].start, Version(l[k].value, l[k].agent));
  }

  /** Removing a period that is not the last of its time changes nothing a lookup sees. */
  lemma HiddenRemovalKeepsHistory(l: Timeline, k: nat, m: nat)
    requires k < m < |l| && l[m].start == l[k].start
    ensures Live(Removed(l, k)) == Live(l)
  {
    LiveOfRemoved(l, k);
    LiveAround(l, k);
    LiveKeys(l[k + 1..], l[k].start);
    assert l[k + 1..][m - (k + 1)].start == l[k].start;
    MapHidden(Live(l[..k]), Live(l[k + 1..]), l[k].start, Version(l[k].value, l[k].agent));
  }

  /** An anti-write cancels the write that is live at its time exactly when that write is the only
      one at that time and its agent does not differ in both fields from the sender; in every
      other case the history stays as it was. */
  lemma AntiWriteCancelsExactly(l: Timeline, agent: LpId, t: nat)
    requires Good(l) && t in Live(l)
    ensures var after := Live(WriteRollbackEffect(l, agent, t).after);
      && (after == Live(l) - {t} <==> Find(l, t) == FindExact(l, t) && !l[FindExact(l, t)].agent.Differs(agent))
      && (after == Live(l) - {t} || after == Live(l))
  {
    LiveKeys(l, t);
    var j :| 0 <= j < |l| && l[j].start == t;
    var first, last := FindExact(l, t), Find(l, t);
    assert first <= j <= last;
    StartsAreOrdered(l, j, last);
    if !l[first].agent.Differs(agent) {
      if first == last {
        RemovalTakesFromHistory(l, first);
      } else {
        HiddenRemovalKeepsHistory(l, first, last);
      }
    }
  }

  /** An agent that shares just one field with the writer takes the write back as well. */
  lemma RelativeCancelsTheWrite(v: Value, w: Value)
    ensures
      var l := [NewPeriod(v, 0, LpId(0, 0)).(end := 5), NewPeriod(w, 5, LpId(701, 7))];
      && Good(l) && Live(l) == map[0 := Version(v, LpId(0, 0)), 5 := Version(w, LpId(701, 7))]
      && Live(WriteRollbackEffect(l, LpId(702, 7), 5).after) == map[0 := Version(v, LpId(0, 0))]
      && Live(WriteRollbackEffect(l, LpId(701, 8), 5).after) == map[0 := Version(v, LpId(0, 0))]
  {
    var l := [NewPeriod(v, 0, LpId(0, 0)).(end := 5), NewPeriod(w, 5, LpId(701, 7))];
    TwoWrites(v, w);
    assert l[1..][0].start == 5;
    assert Find(l, 5) == 1 && FindExact(l, 5) == 1;
    hide Live, Good, Find, FindExact, WriteRollbackEffect;
    AntiWriteCancelsExactly(l, LpId(702, 7), 5);
    AntiWriteCancelsExactly(l, LpId(701, 8), 5);
  }

  lemma TwoWrites(v: Value, w: Value)
    ensures
      var l := [NewPeriod(v, 0, LpId(0, 0)).(end := 5), NewPeriod(w, 5, LpId(701, 7))];
      Good(l) && Live(l) == map[0 := Version(v, LpId(0, 0)), 5 := Version(w, LpId(701, 7))]
  {
    var l := [NewPeriod(v, 0, LpId(0, 0)).(end := 5), NewPeriod(w, 5, LpId(701, 7))];
    assert l[..1] == [l[0]] && l[..1][..0] == [];
    assert Live(l[..1]) == Live(l[..1][..0])[0 := Version(v, LpId(0, 0))];
  }

  /** The winner of two writes at one time cannot take its write back: the anti-write meets the
      loser's empty period and is ignored. */
  lemma ContestedWriteCannotBeTakenBack(v: Value, w: Value)
    ensures
      var a, b := LpId(7, 7), LpId(8, 8);
      var l := WriteEffect([NewPeriod(v, 0, LpId(0, 0))], a, v, 5).after;
      var m := WriteEffect(l, b, w, 5).after;
      && Lookup(m, 5) == Some(Reading(Version(w, b), Forever))
      && WriteRollbackEffect(m, b, 5).after == m
  {
    ContestedWrites(v, w);
    hide WriteEffect;
    var m := [NewPeriod(v, 0, LpId(0, 0)).(end := 5), NewPeriod(v, 5, LpId(7, 7)).(end := 5), NewPeriod(w, 5, LpId(8, 8))];
    assert Find(m, 5) == 2;
    assert m[1..][0].start == 5;
    assert FindExact(m, 5) == 1;
  }

  lemma ContestedWrites(v: Value, w: Value)
    ensures
      var a, b := LpId(7, 7), LpId(8, 8);
      var base, first := NewPeriod(v, 0, LpId(0, 0)).(end := 5), NewPeriod(v, 5, a);
      var l := WriteEffect([NewPeriod(v, 0, LpId(0, 0))], a, v, 5).after;
      l == [base, first] && WriteEffect(l, b, w, 5).after == [base, first.(end := 5), NewPeriod(w, 5, b)]
  {
    var base, first := NewPeriod(v, 0, LpId(0, 0)), NewPeriod(v, 5, LpId(7, 7));
    assert Find([base], 5) == 0;
    assert WriteEffect([base], LpId(7, 7), v, 5).after == [base.(end := 5), first];
    assert Find([base.(end := 5), first], 5) == 1;
  }

  // ---- Runs ----

  function Replay(h: History, qs: seq<Request>): History
    decreases |qs|
  {
    if |qs| == 0 then h else Replay(Change(h, qs[0]), qs[1..])
  }

  function Change(h: History, q: Request): History {
    match q
    case WriteRequest(agent, v, t) => h[t := Version(v, agent)]
    case AntiWrite(agent, t) => if t in h && !h[t].agent.Differs(agent) then h - {t} else h
    case _ => h
  }

  /** The list starts with a base period and holds at most one write per time. */
  ghost predicate Based(l: Timeline, base: nat) {
    l != [] && l[0].start == base && DistinctStarts(l)
  }

  predicate DistinctStarts(l: Timeline) {
    forall i, j :: 0 <= i < j < |l| ==> l[i].start != l[j].start
  }

  /** No write repeats a time of the history, and writes and anti-writes come after the base. */
  ghost predicate FreshTimes(h: History, base: nat, qs: seq<Request>)
    decreases |qs|
  {
    |qs| == 0 ||
    ( && !qs[0].Truncate?
      && (qs[0].WriteRequest? || qs[0].AntiWrite? ==> base < qs[0].time < LONG_MAX)
      && (qs[0].WriteRequest? ==> qs[0].time !in h)
      && qs[0].time < LONG_MAX
      && FreshTimes(Change(h, qs[0]), base, qs[1..]))
  }

  lemma ChangeRefines(l: Timeline, base: nat, q: Request)
    requires Good(l) && Based(l, base) && FreshTimes(Live(l), base, [q])
    ensures Good(Apply(l, q).after) && Based(Apply(l, q).after, base)
    ensures Live(Apply(l, q).after) == Change(Live(l), q)
  {
    ApplyKeepsGood(l, q);
    match q
    case WriteRequest(agent, v, t) => WriteRefines(l, base, agent, v, t);
    case AntiWrite(agent, t) => AntiWriteRefines(l, base, agent, t);
    case _ => ReadsKeepHistory(l, q);
  }

  lemma ReadsKeepHistory(l: Timeline, q: Request)
    requires q.ReadRequest? || q.AntiRead?
    ensures var r := Apply(l, q).after; Live(r) == Live(l) && |r| == |l| && forall i :: 0 <= i < |l| ==> r[i].start == l[i].start
  {
    hide Filter, Live;
    LiveIgnoresReads(Apply(l, q).after, l);
  }

  lemma WriteRefines(l: Timeline, base: nat, agent: LpId, v: Value, t: nat)
    requires Good(l) && Based(l, base) && base < t && t !in Live(l)
    ensures !Rejected(l, agent, t)
    ensures Live(WriteEffect(l, agent, v, t).after) == Live(l)[t := Version(v, agent)]
    ensures Based(WriteEffect(l, agent, v, t).after, base)
  {
    LiveKeys(l, t);
    WriteAddsToHistory(l, agent, v, t);
    WriteKeepsBased(l, base, agent, v, t);
  }

  lemma AntiWriteRefines(l: Timeline, base: nat, agent: LpId, t: nat)
    requires Good(l) && Based(l, base) && base < t
    ensures Live(WriteRollbackEffect(l, agent, t).after) == Change(Live(l), AntiWrite(agent, t))
    ensures Based(WriteRollbackEffect(l, agent, t).after, base)
  {
    LiveKeys(l, t);
    var k := FindExact(l, t);
    if k < |l| {
      LiveIsLast(l, k);
      if !l[k].agent.Differs(agent) {
        RemovalTakesFromHistory(l, k);
        RemovedKeepsBased(l, base, k);
      }
    }
  }

  lemma WriteKeepsBased(l: Timeline, base: nat, agent: LpId, v: Value, t: nat)
    requires Based(l, base) && base < t && forall i :: 0 <= i < |l| ==> l[i].start != t
    ensures Based(WriteEffect(l, agent, v, t).after, base)
  {
    var k := Find(l, t);
    var r := Inserted(l, k, agent, v, t);
    assert |r| == |l| + 1;
    forall i, j | 0 <= i < j < |r| ensures r[i].start != r[j].start {
      assert i <= k ==> r[i].start == l[i].start;
      assert j <= k ==> r[j].start == l[j].start;
      assert i > k + 1 ==> r[i].start == l[i - 1].start;
      assert j > k + 1 ==> r[j].start == l[j - 1].start;
    }
    assert r[0].start == l[0].start;
  }

  lemma RemovedKeepsBased(l: Timeline, base: nat, k: nat)
    requires Based(l, base) && 0 < k < |l|
    ensures Based(Removed(l, k), base)
  {
    var r := Removed(l, k);
    assert |r| == |l| - 1;
    forall i, j | 0 <= i < j < |r| ensures r[i].start != r[j].start {
      assert i < k ==> r[i].start == l[i].start;
      assert j < k ==> r[j].start == l[j].start;
      assert i >= k ==> r[i].start == l[i + 1].start;
      assert j >= k ==> r[j].start == l[j + 1].start;
    }
    assert r[0].start == l[0].start;
  }

  /** Any run of reads, writes and anti-messages changes the list as it changes the history. */
  lemma {:induction false} RunRefinesHistory(l: Timeline, base: nat, qs: seq<Request>)
    requires Good(l) && Based(l, base) && FreshTimes(Live(l), base, qs)
    ensures Good(Run(l, qs)) && Based(Run(l, qs), base)
    ensures Live(Run(l, qs)) == Replay(Live(l), qs)
    ensures forall t :: Answers(Replay(Live(l), qs), t, Lookup(Run(l, qs), t))
    decreases |qs|
  {
    if |qs| > 0 {
      ChangeRefines(l, base, qs[0]);
      RunRefinesHistory(Apply(l, qs[0]).after, base, qs[1..]);
    } else {
      forall t ensures Answers(Live(l), t, Lookup(l, t)) { LookupAnswersHistory(l, t); }
    }
  }

  // ---- Consequences over runs ----

  lemma {:induction false} ReplayAppend(h: History, a: seq<Request>, b: seq<Request>)
    ensures Replay(h, a + b) == Replay(Replay(h, a), b)
    decreases |a|
  {
    if |a| == 0 {
      assert a + b == b;
    } else {
      assert (a + b)[1..] == a[1..] + b;
      ReplayAppend(Change(h, a[0]), a[1..], b);
    }
  }

  /** No request of `qs` is a write or an anti-write at `t`. */
  predicate Untouched(qs: seq<Request>, t: nat) {
    forall q :: q in qs && (q.WriteRequest? || q.AntiWrite?) ==> q.time != t
  }

  lemma {:induction false} UntouchedCommutes(h: History, qs: seq<Request>, t: nat, v: Version)
    requires Untouched(qs, t) && t !in h
    ensures Replay(h[t := v], qs) == Replay(h, qs)[t := v] && t !in Replay(h, qs)
    decreases |qs|
  {
    if |qs| > 0 {
      assert qs[0] in qs;
      var g := Change(h, qs[0]);
      assert Change(h[t := v], qs[0]) == g[t := v];
      UntouchedCommutes(g, qs[1..], t, v);
    }
  }

  /** A write taken back by its anti-message leaves no trace: whatever was requested before,
      in between and afterwards, every lookup answers as if it had never been made. */
  lemma UndoneWriteLeavesNoTrace(l: Timeline, base: nat, a: seq<Request>, b: seq<Request>, c: seq<Request>,
                                 agent: LpId, v: Value, t: nat, time: nat)
    requires Good(l) && Based(l, base)
    requires FreshTimes(Live(l), base, a + [WriteRequest(agent, v, t)] + b + [AntiWrite(agent, t)] + c)
    requires FreshTimes(Live(l), base, a + b + c)
    requires Untouched(a + b, t) && t !in Live(l)
    ensures Lookup(Run(l, a + [WriteRequest(agent, v, t)] + b + [AntiWrite(agent, t)] + c), time)
         == Lookup(Run(l, a + b + c), time)
  {
    hide Filter;
    var h := Replay(Live(l), a);
    var w, u := WriteRequest(agent, v, t), AntiWrite(agent, t);
    var long, short := a + [w] + b + [u] + c, a + b + c;
    assert forall q :: q in a || q in b ==> q in a + b;
    UntouchedCommutes(Live(l), a, t, Version(v, agent));
    UntouchedCommutes(h, b, t, Version(v, agent));
    ReplayAppend(Live(l), a + [w] + b + [u], c);
    ReplayAppend(Live(l), a + [w] + b, [u]);
    ReplayAppend(Live(l), a + [w], b);
    ReplayAppend(Live(l), a, [w]);
    ReplayAppend(Live(l), a + b, c);
    ReplayAppend(Live(l), a, b);
    assert Replay(h, [w]) == h[t := Version(v, agent)];
    var g := Replay(h, b);
    assert Replay(g[t := Version(v, agent)], [u]) == g;
    RunRefinesHistory(l, base, long);
    RunRefinesHistory(l, base, short);
    SameHistorySameLookups(Run(l, long), Run(l, short), time);
  }

  predicate OnlyWrites(ws: seq<Request>) {
    forall i :: 0 <= i < |ws| ==> ws[i].WriteRequest?
  }

  predicate Holds(h: History, w: Request)
    requires w.WriteRequest?
  {
    w.time in h && h[w.time] == Version(w.value, w.agent)
  }

  /** After distinct-time writes the history holds each of them and, elsewhere, what it held. */
  lemma {:induction false} WritesAreHeld(h: History, base: nat, ws: seq<Request>)
    requires OnlyWrites(ws) && FreshTimes(h, base, ws)
    ensures forall w :: w in ws ==> Holds(Replay(h, ws), w) && w.time !in h
    ensures forall t :: t in h ==> t in Replay(h, ws) && Replay(h, ws)[t] == h[t]
    ensures forall t :: t in Replay(h, ws) ==> t in h || exists w :: w in ws && w.time == t
    decreases |ws|
  {
    if |ws| > 0 {
      var g := Change(h, ws[0]);
      WritesAreHeld(g, base, ws[1..]);
      forall w | w in ws ensures Holds(Replay(h, ws), w) && w.time !in h {
        if w != ws[0] {
          assert w in ws[1..];
        }
      }
      forall t | t in Replay(h, ws) ensures t in h || exists w :: w in ws && w.time == t {
        if t !in h && t != ws[0].time {
          var w :| w in ws[1..] && w.time == t;
          assert w in ws;
        }
      }
    }
  }

  /** Writes at distinct times give the same lookups in whatever order they arrive. */
  lemma ArrivalOrderIsIrrelevant(l: Timeline, base: nat, ws1: seq<Request>, ws2: seq<Request>, t: nat)
    requires Good(l) && Based(l, base) && OnlyWrites(ws1) && OnlyWrites(ws2)
    requires FreshTimes(Live(l), base, ws1) && FreshTimes(Live(l), base, ws2)
    requires forall w :: w in ws1 <==> w in ws2
    ensures Lookup(Run(l, ws1), t) == Lookup(Run(l, ws2), t)
  {
    hide Filter;
    WritesAreHeld(Live(l), base, ws1);
    WritesAreHeld(Live(l), base, ws2);
    assert Replay(Live(l), ws1) == Replay(Live(l), ws2);
    RunRefinesHistory(l, base, ws1);
    RunRefinesHistory(l, base, ws2);
    SameHistorySameLookups(Run(l, ws1), Run(l, ws2), t);
  }
}
