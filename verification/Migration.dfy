/** Moving a shared variable to another process: its periods are copied into a message, rolled
    back one by one at the source, and replayed as writes at the destination. */
module Migration {
  import opened LpIds
  import opened Filters
  import opened WritePeriods
  import opened Timelines
  import opened ReadLedger
  import opened Histories

  // ---- Destination ----

  function ReplayWrites(l: Timeline, copy: Timeline): Timeline
    decreases |copy|
  {
    if |copy| == 0 then l
    else ReplayWrites(WriteEffect(l, copy[0].agent, copy[0].value, copy[0].start).after, copy[1..])
  }

  function ReplayCharges(l: Timeline, copy: Timeline): seq<Access>
    decreases |copy|
  {
    if |copy| == 0 then []
    else
      var e := WriteEffect(l, copy[0].agent, copy[0].value, copy[0].start);
      e.chargedAt + ReplayCharges(e.after, copy[1..])
  }

  /** The periods as new ones: no reads, each ending where the next starts, the last one open. */
  function Stripped(l: Timeline): (r: Timeline)
    ensures |r| == |l|
  {
    seq(|l|, i requires 0 <= i < |l| =>
      Period(l[i].start, if i + 1 < |l| then l[i + 1].start else ULONG_MAX, l[i].value, l[i].agent, []))
  }

  predicate Sorted(l: Timeline) {
    forall i :: 0 <= i < |l| - 1 ==> l[i].start <= l[i + 1].start
  }

  /** No write is followed by one of a smaller agent at the same time. */
  predicate TiesOrdered(l: Timeline) {
    forall i :: 0 < i < |l| ==> TieOrdered(l, i)
  }

  predicate TieOrdered(l: Timeline, i: nat)
    requires 0 < i < |l|
  {
    l[i].start == l[i - 1].start ==> !l[i - 1].agent.Greater(l[i].agent)
  }

  /** Replaying the next period on top of the stripped earlier ones. */
  lemma ReplayStep(l: Timeline, i: nat)
    requires Sorted(l) && i < |l|
    ensures var e := WriteEffect(Stripped(l[..i]), l[i].agent, l[i].value, l[i].start);
      && e.chargedAt == []
      && (if i > 0 && !TieOrdered(l, i) then e.after == Stripped(l[..i]) else e.after == Stripped(l[..i + 1]))
  {
    var done := Stripped(l[..i]);
    if i > 0 {
      assert l[i - 1].start <= l[i - 1 + 1].start;
      assert done[i - 1].start == l[i - 1].start && done[i - 1].agent == l[i - 1].agent;
      FindIsUnique(done, l[i].start, i - 1);
      if TieOrdered(l, i) {
        var r := Inserted(done, i - 1, l[i].agent, l[i].value, l[i].start);
        InsertedAt(done, i - 1, l[i].agent, l[i].value, l[i].start);
        assert |r| == |Stripped(l[..i + 1])|;
        forall j | 0 <= j < |r| ensures r[j] == Stripped(l[..i + 1])[j] {
        }
      }
    } else {
      assert done == [];
    }
  }

  lemma {:induction false} ReplayFrom(l: Timeline, i: nat)
    requires Sorted(l) && TiesOrdered(l) && i <= |l|
    ensures ReplayWrites(Stripped(l[..i]), l[i..]) == Stripped(l)
    ensures ReplayCharges(Stripped(l[..i]), l[i..]) == []
    decreases |l| - i
  {
    if i < |l| {
      ReplayStep(l, i);
      assert i > 0 ==> TieOrdered(l, i);
      assert l[i..][1..] == l[i + 1..];
      ReplayFrom(l, i + 1);
    } else {
      assert l[..i] == l;
    }
  }

  lemma {:induction false} ReplayIsNoLonger(l: Timeline, copy: Timeline)
    ensures |ReplayWrites(l, copy)| <= |l| + |copy|
    decreases |copy|
  {
    if |copy| > 0 {
      var t, k := copy[0].start, Find(l, copy[0].start);
      if l != [] && !Rejected(l, copy[0].agent, t) {
        InsertedAt(l, k, copy[0].agent, copy[0].value, t);
      }
      ReplayIsNoLonger(WriteEffect(l, copy[0].agent, copy[0].value, t).after, copy[1..]);
    }
  }

  lemma {:induction false} ReplayLosesATie(l: Timeline, i: nat, j: nat)
    requires Sorted(l) && 0 < j < |l| && !TieOrdered(l, j)
    requires i <= j && forall m :: 0 < m < j ==> TieOrdered(l, m)
    ensures |ReplayWrites(Stripped(l[..i]), l[i..])| < |l|
    decreases j - i
  {
    ReplayStep(l, i);
    assert l[i..][1..] == l[i + 1..];
    if i < j {
      ReplayLosesATie(l, i + 1, j);
    } else {
      ReplayIsNoLonger(Stripped(l[..i]), l[i + 1..]);
    }
  }

  lemma {:induction false} FirstTie(l: Timeline, n: nat) returns (j: nat)
    requires n < |l| && 0 < n && !TieOrdered(l, n)
    ensures 0 < j < |l| && !TieOrdered(l, j) && forall m :: 0 < m < j ==> TieOrdered(l, m)
  {
    if m :| 0 < m < n && !TieOrdered(l, m) {
      j := FirstTie(l, m);
    } else {
      j := n;
    }
  }

  /** The destination rebuilds the source's list exactly when ties are ordered; a variable with
      distinct write times always qualifies. */
  lemma ReplayRebuildsIff(l: Timeline)
    requires Sorted(l)
    ensures ReplayWrites([], l) == Stripped(l) <==> TiesOrdered(l)
    ensures TiesOrdered(l) ==> ReplayCharges([], l) == []
  {
    assert l[..0] == [] && l[0..] == l && Stripped([]) == [];
    if TiesOrdered(l) {
      ReplayFrom(l, 0);
    } else {
      var n :| 0 < n < |l| && !TieOrdered(l, n);
      var j := FirstTie(l, n);
      ReplayLosesATie(l, 0, j);
    }
  }

  lemma StrippedIsGood(l: Timeline)
    requires Good(l)
    ensures Good(Stripped(l)) && Sorted(l)
  {
    var r := Stripped(l);
    forall i | 0 <= i < |l| - 1 ensures l[i].start <= l[i + 1].start { StartsAreOrdered(l, i, i + 1); }
    forall i | 0 <= i < |l| ensures Fits(r[i]) {
      assert Fits(l[i]);
      if i + 1 < |l| {
        assert l[i].start <= l[i + 1].start;
      }
    }
    forall i | 0 < i < |r| ensures Joined(r, i) {
    }
  }

  lemma StrippedLookups(l: Timeline, t: nat)
    requires Good(l)
    ensures Good(Stripped(l)) && Sorted(l)
    ensures Recorded(Stripped(l)) == multiset{}
    ensures Lookup(Stripped(l), t) == Lookup(l, t)
  {
    hide Good, Lookup, Live, Recorded;
    StrippedIsGood(l);
    LiveIgnoresReads(Stripped(l), l);
    SameHistorySameLookups(Stripped(l), l, t);
    NothingRecorded(Stripped(l));
  }

  lemma {:induction false} NothingRecorded(l: Timeline)
    requires forall i :: 0 <= i < |l| ==> l[i].served == []
    ensures Recorded(l) == multiset{}
  {
    if |l| > 0 {
      NothingRecorded(l[1..]);
    }
  }

  // ---- Reachable lists have ordered ties ----

  ghost predicate AllTiesOrdered(l: Timeline) {
    forall i, j :: 0 <= i < j < |l| && l[i].start == l[j].start ==> !l[i].agent.Greater(l[j].agent)
  }

  ghost function Writers(l: Timeline): iset<LpId> {
    iset i | 0 <= i < |l| :: l[i].agent
  }

  lemma WriteKeepsTies(l: Timeline, agent: LpId, v: Value, t: nat)
    requires Good(l) && AllTiesOrdered(l) && Chain(Writers(l) + iset{agent})
    ensures AllTiesOrdered(WriteEffect(l, agent, v, t).after)
    ensures Writers(WriteEffect(l, agent, v, t).after) <= Writers(l) + iset{agent}
  {
    hide Find, Filter, SpliceTwo, Chain;
    if l != [] && !Rejected(l, agent, t) {
      var k := Find(l, t);
      var r := Inserted(l, k, agent, v, t);
      InsertedAt(l, k, agent, v, t);
      forall i | 0 <= i < |r| ensures r[i].agent == agent || r[i].agent in Writers(l) {
        if i != k + 1 {
          assert r[i].agent == l[if i <= k then i else i - 1].agent;
        }
      }
      forall i, j | 0 <= i < j < |r| && r[i].start == r[j].start ensures !r[i].agent.Greater(r[j].agent) {
        if j == k + 1 {
          StartsAreOrdered(l, i, k);
          assert l[i].agent in Writers(l) && l[k].agent in Writers(l);
          AtMostIsTransitive(Writers(l) + iset{agent}, l[i].agent, l[k].agent, agent);
        } else if i == k + 1 {
          assert false;
        } else {
          var i', j' := if i <= k then i else i - 1, if j <= k then j else j - 1;
          assert l[i'].start == l[j'].start;
        }
      }
    }
  }

  lemma AtMostIsTransitive(ids: iset<LpId>, a: LpId, b: LpId, c: LpId)
    requires Chain(ids) && a in ids && b in ids && c in ids
    requires !a.Greater(b) && !b.Greater(c)
    ensures !a.Greater(c)
  {
  }

  lemma RemovedKeepsTies(l: Timeline, k: nat)
    requires AllTiesOrdered(l) && k < |l|
    ensures AllTiesOrdered(Removed(l, k)) && Writers(Removed(l, k)) <= Writers(l)
  {
    var r := Removed(l, k);
    if |l| > 1 && k > 0 {
      RemovedAt(l, k);
    }
    forall i | 0 <= i < |r| ensures r[i].agent in Writers(l) && r[i].start == l[if i < k then i else i + 1].start {
      assert r[i].agent == l[if i < k then i else i + 1].agent;
    }
    forall i, j | 0 <= i < j < |r| && r[i].start == r[j].start ensures !r[i].agent.Greater(r[j].agent) {
      var i', j' := if i < k then i else i + 1, if j < k then j else j + 1;
      assert l[i'].start == l[j'].start;
    }
  }

  /** How a truncated list lies in the original one. */
  lemma TruncatedStarts(l: Timeline, t: nat, k: nat, n: nat)
    requires Good(l) && t < LONG_MAX && Find(l, t) == k && n == FindExact(l[..k], t)
    ensures var r := Truncated(l, t);
      && n <= k && |r| == |l| - n
      && (forall i :: 0 <= i < |r| ==> r[i].agent == l[n + i].agent)
      && (forall i :: 0 <= i < |r| ==> r[i].start == if n + i <= k then t else l[n + i].start)
      && (forall i, j :: n <= i < j <= k ==> l[i].start == l[j].start)
      && (forall i :: k < i < |l| ==> l[i].start > t)
  {
    hide Filter, Splice, Find, FindExact, Good, Open;
    TruncationBorder(l, t, k);
    SpliceAt(l, n, k, CutAt(l[k], t));
    var r := Truncated(l, t);
    forall i | 0 <= i < |r| ensures r[i].agent == l[n + i].agent && r[i].start == if n + i <= k then t else l[n + i].start {
      assert i == k - n || r[i] == l[n + i];
    }
    assert n < k ==> l[k].start == t;
  }

  lemma TruncatedKeepsTies(l: Timeline, t: nat)
    requires Good(l) && AllTiesOrdered(l) && t < LONG_MAX
    ensures AllTiesOrdered(Truncated(l, t)) && Writers(Truncated(l, t)) <= Writers(l)
  {
    var k := Find(l, t);
    if k >= 0 {
      var n, r := FindExact(l[..k], t), Truncated(l, t);
      TruncatedStarts(l, t, k, n);
      hide Filter, Splice, Find, FindExact, Good, Truncated;
      forall i, j | 0 <= i < j < |r| && r[i].start == r[j].start ensures !r[i].agent.Greater(r[j].agent) {
        assert l[n + i].start == l[n + j].start;
      }
      forall i | 0 <= i < |r| ensures r[i].agent in Writers(l) {
        assert r[i].agent == l[n + i].agent;
      }
    }
  }

  ghost function WritersIn(qs: seq<Request>): iset<LpId> {
    iset q | q in qs && q.WriteRequest? :: q.agent
  }

  /** Among agents whose identifiers form a chain, every list a run reaches has ordered ties, so
      its migration preserves history. */
  lemma {:induction false} ReachableTiesAreOrdered(l: Timeline, qs: seq<Request>)
    requires Good(l) && Timely(qs) && AllTiesOrdered(l) && Chain(Writers(l) + WritersIn(qs))
    ensures Good(Run(l, qs)) && TiesOrdered(Run(l, qs))
    decreases |qs|
  {
    if |qs| > 0 {
      var q, r := qs[0], Apply(l, qs[0]).after;
      assert q in qs;
      ApplyKeepsGood(l, q);
      assert AllTiesOrdered(r) && Writers(r) <= Writers(l) + WritersIn(qs) by {
        StepKeepsTies(l, qs);
      }
      assert WritersIn(qs[1..]) <= WritersIn(qs);
      ReachableTiesAreOrdered(r, qs[1..]);
    }
  }

  lemma StepKeepsTies(l: Timeline, qs: seq<Request>)
    requires qs != [] && qs[0].time < LONG_MAX
    requires Good(l) && AllTiesOrdered(l) && Chain(Writers(l) + WritersIn(qs))
    ensures AllTiesOrdered(Apply(l, qs[0]).after)
    ensures Writers(Apply(l, qs[0]).after) <= Writers(l) + WritersIn(qs)
  {
    hide Find, FindExact, Splice, SpliceTwo, Merge, Filter, Good;
    match qs[0]
    case WriteRequest(agent, v, t) =>
      assert qs[0] in qs;
      assert iset{agent} <= WritersIn(qs);
      WriteKeepsTies(l, agent, v, t);
    case AntiWrite(agent, t) =>
      if Cancelled(l, agent, t) < |l| {
        RemovedKeepsTies(l, Cancelled(l, agent, t));
      }
    case Truncate(t) => TruncatedKeepsTies(l, t);
    case _ => SameShapeSameTies(l, Apply(l, qs[0]).after);
  }

  lemma SameShapeSameTies(l: Timeline, r: Timeline)
    requires AllTiesOrdered(l) && |r| == |l|
    requires forall i :: 0 <= i < |l| ==> r[i].start == l[i].start && r[i].agent == l[i].agent
    ensures AllTiesOrdered(r) && Writers(r) <= Writers(l)
  {
    forall i | 0 <= i < |r| ensures r[i].agent in Writers(l) {
      assert r[i].agent == l[i].agent;
    }
  }

  // ---- Source ----

  function RollbackAll(l: Timeline, copy: Timeline): Timeline
    decreases |copy|
  {
    if |copy| == 0 then l
    else RollbackAll(WriteRollbackEffect(l, copy[0].agent, copy[0].start).after, copy[1..])
  }

  function RollbackCharges(l: Timeline, copy: Timeline): seq<Access>
    decreases |copy|
  {
    if |copy| == 0 then []
    else
      var e := WriteRollbackEffect(l, copy[0].agent, copy[0].start);
      e.chargedAt + RollbackCharges(e.after, copy[1..])
  }

  /** Every read of the list, charged at the start of the period that served it. */
  function ChargesOf(l: Timeline): seq<Access> {
    if |l| == 0 then [] else At(l[0].served, l[0].start) + ChargesOf(l[1..])
  }

  /** Rolling back the copied periods in order takes away the first period each time, so the
      source ends empty and every read is charged, whatever the list. */
  lemma {:induction false} RollbackEmptiesTheSource(l: Timeline)
    ensures RollbackAll(l, l) == []
    ensures RollbackCharges(l, l) == ChargesOf(l)
  {
    if |l| > 0 {
      assert FindExact(l, l[0].start) == 0;
      assert Removed(l, 0) == l[1..];
      RollbackEmptiesTheSource(l[1..]);
    }
  }

  /** Each recorded read is charged to its reader at a time no later than the read. */
  lemma {:induction false} EveryReadIsCharged(l: Timeline, a: Access)
    requires Good(l) && a in Recorded(l)
    ensures exists c :: c in ChargesOf(l) && c.agent == a.agent && c.time <= a.time
  {
    if a in l[0].served {
      assert Fits(l[0]);
      var i :| 0 <= i < |l[0].served| && l[0].served[i] == a;
      assert At(l[0].served, l[0].start)[i] in ChargesOf(l);
    } else {
      SuffixIsGood(l, 1);
      EveryReadIsCharged(l[1..], a);
    }
  }

  /** Migration preserves history: after the copy is taken the source holds nothing, every reader
      was charged in time, and at the destination every lookup answers as before, with no reads. */
  lemma MigrationPreservesHistory(l: Timeline, t: nat)
    requires Good(l) && TiesOrdered(l)
    ensures RollbackAll(l, l) == []
    ensures forall a :: a in Recorded(l) ==>
      exists c :: c in RollbackCharges(l, l) && c.agent == a.agent && c.time <= a.time
    ensures Lookup(ReplayWrites([], l), t) == Lookup(l, t)
    ensures Recorded(ReplayWrites([], l)) == multiset{} && ReplayCharges([], l) == []
  {
    RollbackEmptiesTheSource(l);
    StrippedLookups(l, t);
    ReplayRebuildsIff(l);
    forall a | a in Recorded(l)
      ensures exists c :: c in RollbackCharges(l, l) && c.agent == a.agent && c.time <= a.time
    {
      EveryReadIsCharged(l, a);
    }
  }

  /** The reader was served by a period that starts before `t`. */
  ghost predicate ServedFromBefore(l: Timeline, reader: LpId, t: nat) {
    exists i, b :: 0 <= i < |l| && b in l[i].served && b.agent == reader && l[i].start < t
  }

  /** A charge stands for a read served by a period that starts at the time of the charge, and every read is charged. */
  lemma {:induction false} ChargesAreStarts(l: Timeline, c: Access)
    ensures c in ChargesOf(l) <==> exists i, b :: 0 <= i < |l| && b in l[i].served && b.agent == c.agent && l[i].start == c.time
  {
    if |l| > 0 {
      var first, rest := At(l[0].served, l[0].start), l[1..];
      ChargesAreStarts(rest, c);
      if c in first {
        var k :| 0 <= k < |first| && first[k] == c;
        assert l[0].served[k] in l[0].served;
      }
      if c in ChargesOf(rest) {
        var i, b :| 0 <= i < |rest| && b in rest[i].served && b.agent == c.agent && rest[i].start == c.time;
        assert b in l[i + 1].served;
      }
      if i, b :| 0 <= i < |l| && b in l[i].served && b.agent == c.agent && l[i].start == c.time {
        if i == 0 {
          var k :| 0 <= k < |l[0].served| && l[0].served[k] == b;
          assert first[k] == c;
        } else {
          assert b in rest[i - 1].served;
        }
      }
    }
  }

  ghost function Readers(l: Timeline): iset<LpId> {
    iset a | a in Recorded(l) :: a.agent
  }

  lemma ChargedAreReaders(l: Timeline)
    ensures forall c :: c in ChargesOf(l) ==> c.agent in Readers(l)
  {
    forall c | c in ChargesOf(l) ensures c.agent in Readers(l) {
      ChargesAreStarts(l, c);
      var i, b :| 0 <= i < |l| && b in l[i].served && b.agent == c.agent && l[i].start == c.time;
      RecordedAround(l, i, b);
    }
  }

  /** The entry of a reader is the earliest start of a period that served it. */
  lemma EntryIsFirstStart(l: Timeline, list: map<LpId, nat>, a: Access)
    requires Good(l) && a in Recorded(l) && Chain(Readers(l)) && Charged(map[], list, ChargesOf(l))
    ensures a.agent in list && (list[a.agent] < a.time <==> ServedFromBefore(l, a.agent, a.time))
  {
    EntryIsCharge(l, list, a);
    hide Good, Chain, Charged, ChargesOf, Readers, Recorded;
    ChargesAreStarts(l, Access(a.agent, list[a.agent]));
    if ServedFromBefore(l, a.agent, a.time) {
      var i, b :| 0 <= i < |l| && b in l[i].served && b.agent == a.agent && l[i].start < a.time;
      ChargesAreStarts(l, Access(a.agent, l[i].start));
    }
  }

  lemma EntryIsCharge(l: Timeline, list: map<LpId, nat>, a: Access)
    requires Good(l) && a in Recorded(l) && Chain(Readers(l)) && Charged(map[], list, ChargesOf(l))
    ensures a.agent in list && Access(a.agent, list[a.agent]) in ChargesOf(l)
    ensures forall c :: c in ChargesOf(l) && c.agent == a.agent ==> list[a.agent] <= c.time
  {
    hide *;
    EveryReadIsCharged(l, a);
    ChargedAreReaders(l);
    ReaderIsAmongReaders(l, a);
    EntriesAreAmong(list, ChargesOf(l), Readers(l), a.agent);
    ChargedOnAChain(map[], list, ChargesOf(l), a.agent);
  }

  lemma ReaderIsAmongReaders(l: Timeline, a: Access)
    requires a in Recorded(l)
    ensures a.agent in Readers(l)
  {
  }

  lemma MessageForEntry(sent: seq<RollbackMessage>, rank: nat, list: map<LpId, nat>, agent: LpId, t: nat)
    requires agent in list && forall m :: m in sent <==> IsRollback(m, rank, list, 1)
    ensures (exists m :: m in sent && m.agent == agent && m.time <= t) <==> list[agent] < t
  {
    var m := RollbackMessage(rank, agent.rank, list[agent] + 1, agent);
    assert IsRollback(m, rank, list, 1);
    assert m in sent;
  }

  /** Messages after a migration are stamped one later than the charge. The reader of a recorded read is told to go
      back far enough exactly if it was served, then or at another time, by a period that starts before that read. */
  lemma MigrationRollbackReachesReadIff(l: Timeline, list: map<LpId, nat>, sent: seq<RollbackMessage>, rank: nat, a: Access)
    requires Good(l) && a in Recorded(l) && Chain(Readers(l))
    requires Charged(map[], list, ChargesOf(l)) && forall m :: m in sent <==> IsRollback(m, rank, list, 1)
    ensures (exists m :: m in sent && m.agent == a.agent && m.time <= a.time) <==> ServedFromBefore(l, a.agent, a.time)
  {
    hide *;
    EntryIsFirstStart(l, list, a);
    MessageForEntry(sent, rank, list, a.agent, a.time);
  }

  function Old(v: Value): Period {
    Period(0, 5, v, LpId(0, 0), [])
  }

  function New(w: Value, served: seq<Access>): Period {
    Period(5, ULONG_MAX, w, LpId(7, 7), served)
  }

  /** A read at the very time of the write it saw is lost by a migration: its rollback message is
      stamped after it, and when the write is taken back at the destination, so that the older
      value is current again, nobody is charged. */
  lemma MigrationLosesReadAtWriteTime(v: Value, w: Value)
    ensures
      var reader := LpId(8, 8);
      var l := [Old(v), New(w, [Access(reader, 5)])];
      var undone := WriteRollbackEffect(ReplayWrites([], l), LpId(7, 7), 5);
      && Good(l) && TiesOrdered(l) && ChargesOf(l) == [Access(reader, 5)]
      && (forall m, rank :: IsRollback(m, rank, map[reader := 5], 1) ==> m.time > 5)
      && undone.chargedAt == [] && undone.after == [Old(v).(end := LONG_MAX)]
  {
    var reader := LpId(8, 8);
    var l := [Old(v), New(w, [Access(reader, 5)])];
    assert At(l[0].served, 0) == [] && At(l[1].served, 5) == [Access(reader, 5)];
    assert l[1..] == [l[1]] && l[1..][1..] == [];
    assert ChargesOf(l[1..]) == At(l[1].served, 5) + ChargesOf([]);
    ReplayRebuildsIff(l);
    assert Stripped(l) == [Old(v), New(w, [])];
    UndoneAtDestination(v, w);
  }

  lemma UndoneAtDestination(v: Value, w: Value)
    ensures WriteRollbackEffect([Old(v), New(w, [])], LpId(7, 7), 5).after == [Old(v).(end := LONG_MAX)]
    ensures WriteRollbackEffect([Old(v), New(w, [])], LpId(7, 7), 5).chargedAt == []
  {
    var r := [Old(v), New(w, [])];
    FirstAt(r, 5, 1);
    MergeAt(r, 1, r[0].(end := LONG_MAX));
    assert Removed(r, 1) == [Old(v).(end := LONG_MAX)];
  }
}
