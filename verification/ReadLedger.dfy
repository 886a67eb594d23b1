/** Runs of requests against one shared variable, and the account of every read they issue. */
module ReadLedger {
  import opened LpIds
  import opened Filters
  import opened WritePeriods
  import opened Timelines

  datatype Request =
    | ReadRequest(agent: LpId, time: nat)
    | WriteRequest(agent: LpId, value: Value, time: nat)
    | AntiRead(agent: LpId, time: nat)
    | AntiWrite(agent: LpId, time: nat)
    | Truncate(time: nat)

  function Apply(l: Timeline, q: Request): Effect {
    match q
    case ReadRequest(agent, t) => ReadEffect(l, agent, t)
    case WriteRequest(agent, v, t) => WriteEffect(l, agent, v, t)
    case AntiRead(agent, t) => ReadRollbackEffect(l, agent, t)
    case AntiWrite(agent, t) => WriteRollbackEffect(l, agent, t)
    case Truncate(t) => TruncateEffect(l, t)
  }

  /** A read that finds no period makes the process exit and is never recorded. */
  function Issued(l: Timeline, q: Request): seq<Access> {
    if q.ReadRequest? && Find(l, q.time) >= 0 then [Access(q.agent, q.time)] else []
  }

  function Run(l: Timeline, qs: seq<Request>): Timeline
    decreases |qs|
  {
    if |qs| == 0 then l else Run(Apply(l, qs[0]).after, qs[1..])
  }

  /** All reads a run issues, charges, and drops for an anti-read or by truncation. */
  datatype Ledger = Ledger(issued: seq<Access>, charged: seq<Access>, chargedAt: seq<Access>,
                           undone: multiset<Access>, truncated: multiset<Access>)

  function Account(l: Timeline, qs: seq<Request>): Ledger
    decreases |qs|
  {
    if |qs| == 0 then Ledger([], [], [], multiset{}, multiset{})
    else
      var e := Apply(l, qs[0]);
      var rest := Account(e.after, qs[1..]);
      Ledger(Issued(l, qs[0]) + rest.issued, e.charged + rest.charged, e.chargedAt + rest.chargedAt,
             (if qs[0].AntiRead? then e.dropped else multiset{}) + rest.undone,
             (if qs[0].AntiRead? then multiset{} else e.dropped) + rest.truncated)
  }

  predicate Timely(qs: seq<Request>) {
    forall q :: q in qs ==> q.time < LONG_MAX
  }

  lemma ApplyKeepsGood(l: Timeline, q: Request)
    requires Good(l) && q.time < LONG_MAX
    ensures Good(Apply(l, q).after)
  {
    match q
    case ReadRequest(agent, t) => ReadKeepsGood(l, agent, t);
    case WriteRequest(agent, v, t) => WriteKeepsGood(l, agent, v, t);
    case AntiRead(agent, t) => ReadRollbackKeepsGood(l, agent, t);
    case AntiWrite(agent, t) => WriteRollbackKeepsGood(l, agent, t);
    case Truncate(t) => TruncateKeepsGood(l, t);
  }

  /** In every state a run reaches, periods are contiguous and ordered and every recorded read is
      held by the period a lookup at its time finds. */
  lemma {:induction false} NoStaleRead(l: Timeline, qs: seq<Request>)
    requires Good(l) && Timely(qs)
    ensures Good(Run(l, qs))
    ensures forall i, a :: 0 <= i < |Run(l, qs)| && a in Run(l, qs)[i].served ==> Find(Run(l, qs), a.time) == i
    decreases |qs|
  {
    if |qs| == 0 {
      forall i, a | 0 <= i < |l| && a in l[i].served ensures Find(l, a.time) == i {
        RecordedReadIsCurrent(l, i, a);
      }
    } else {
      assert qs[0] in qs;
      ApplyKeepsGood(l, qs[0]);
      NoStaleRead(Apply(l, qs[0]).after, qs[1..]);
    }
  }

  /** Hence an anti-read finds the read it names: no copy of it stays recorded anywhere. */
  lemma AntiReadFindsItsRead(l: Timeline, agent: LpId, t: nat)
    requires Good(l)
    ensures Access(agent, t) !in Recorded(ReadRollbackEffect(l, agent, t).after)
  {
    var x := Access(agent, t);
    var r := ReadRollbackEffect(l, agent, t).after;
    if x in Recorded(r) {
      var i := Holder(r, x);
      var k := Find(l, t);
      if k >= 0 {
        FilterMembers(l[k].served, OtherThan(x));
      }
      assert i != k && r[i] == l[i];
      RecordedReadIsCurrent(l, i, x);
      assert false;
    }
  }

  /** And it takes no other read away. */
  lemma AntiReadTakesNoOther(l: Timeline, agent: LpId, t: nat)
    requires Good(l)
    ensures Recorded(ReadRollbackEffect(l, agent, t).after) == Recorded(l)[Access(agent, t) := 0]
  {
    var x, e := Access(agent, t), ReadRollbackEffect(l, agent, t);
    AntiReadFindsItsRead(l, agent, t);
    hide Good, Recorded, ReadRollbackEffect;
    forall y ensures Recorded(e.after)[y] == Recorded(l)[x := 0][y] {
      ReadRollbackConserves(l, agent, t, y);
      if y in e.dropped {
        AntiReadDrops(l, agent, t, y);
      }
    }
  }

  lemma {:induction false} Holder(l: Timeline, x: Access) returns (i: nat)
    requires x in Recorded(l)
    ensures i < |l| && x in l[i].served
  {
    if x in l[0].served {
      i := 0;
    } else {
      i := Holder(l[1..], x);
      i := i + 1;
    }
  }

  // ---- Conservation, counted for one access `x` at a time ----

  lemma {:induction false} RecordedAppend(a: Timeline, b: Timeline, x: Access)
    ensures Recorded(a + b)[x] == Recorded(a)[x] + Recorded(b)[x]
  {
    hide Filter;
    if |a| == 0 {
      assert a + b == b;
    } else {
      assert (a + b)[1..] == a[1..] + b;
      RecordedAppend(a[1..], b, x);
    }
  }

  lemma RecordedAround(l: Timeline, k: nat, x: Access)
    requires k < |l|
    ensures Recorded(l)[x] == Recorded(l[..k])[x] + multiset(l[k].served)[x] + Recorded(l[k + 1..])[x]
  {
    hide Filter;
    assert l == l[..k] + l[k..];
    RecordedAppend(l[..k], l[k..], x);
    assert l[k..][1..] == l[k + 1..];
  }

  lemma RecordedReplaced(l: Timeline, k: nat, p: Period, x: Access)
    requires k < |l|
    ensures Recorded(l[k := p])[x] + multiset(l[k].served)[x] == Recorded(l)[x] + multiset(p.served)[x]
  {
    RecordedAround(l[k := p], k, x);
    RecordedAround(l, k, x);
    assert l[k := p][..k] == l[..k] && l[k := p][k + 1..] == l[k + 1..];
  }

  lemma RecordedCons(p: Period, l: Timeline, x: Access)
    ensures Recorded([p] + l)[x] == multiset(p.served)[x] + Recorded(l)[x]
  {
    assert ([p] + l)[1..] == l;
  }

  lemma RecordedInserted(l: Timeline, k: nat, agent: LpId, v: Value, t: nat, x: Access)
    requires k < |l|
    ensures Recorded(Inserted(l, k, agent, v, t))[x] + multiset(l[k].served)[x]
         == Recorded(l)[x] + multiset(Filter(l[k].served, Before(t)))[x]
  {
    hide Filter;
    var tail := [FillingIn(l, k, agent, v, t)] + l[k + 1..];
    RecordedAround(l, k, x);
    RecordedCons(FillingIn(l, k, agent, v, t), l[k + 1..], x);
    RecordedCons(Shortened(l[k], t), tail, x);
    RecordedAppend(l[..k], [Shortened(l[k], t)] + tail, x);
  }

  lemma PartitionCount(s: seq<Access>, p: Access -> bool, q: Access -> bool, x: Access)
    requires forall a :: a in s ==> (q(a) <==> !p(a))
    ensures multiset(s)[x] == multiset(Filter(s, p))[x] + multiset(Filter(s, q))[x]
  {
    FilterPartition(s, p, q);
  }

  lemma WriteConserves(l: Timeline, agent: LpId, v: Value, t: nat, x: Access)
    ensures var e := WriteEffect(l, agent, v, t);
      Recorded(e.after)[x] + multiset(e.charged)[x] == Recorded(l)[x]
  {
    hide Filter;
    var k := Find(l, t);
    if l == [] {
      assert WriteEffect(l, agent, v, t).after[1..] == [];
    } else if !Rejected(l, agent, t) {
      RecordedInserted(l, k, agent, v, t, x);
      PartitionCount(l[k].served, Before(t), From(t), x);
    }
  }

  lemma ReadRollbackConserves(l: Timeline, agent: LpId, t: nat, x: Access)
    ensures var e := ReadRollbackEffect(l, agent, t);
      Recorded(e.after)[x] + e.dropped[x] == Recorded(l)[x]
  {
    var k := Find(l, t);
    if k >= 0 {
      var y := Access(agent, t);
      RecordedReplaced(l, k, l[k].(served := Filter(l[k].served, OtherThan(y))), x);
      PartitionCount(l[k].served, OtherThan(y), Exactly(y), x);
    }
  }

  lemma RecordedSnoc(l: Timeline, k: nat, x: Access)
    requires k < |l|
    ensures Recorded(l[..k + 1])[x] == Recorded(l[..k])[x] + multiset(l[k].served)[x]
  {
    RecordedSplit(l, k, k + 1, x);
    RecordedCons(l[k], [], x);
    assert l[k..k + 1] == [l[k]] + [];
  }

  lemma RecordedMerged(l: Timeline, k: nat, p: Period, x: Access)
    requires 0 < k < |l| && p.served == l[k - 1].served
    ensures Recorded(Merge(l, k, p))[x] + multiset(l[k].served)[x] == Recorded(l)[x]
  {
    RecordedAround(l, k, x);
    RecordedSnoc(l, k - 1, x);
    RecordedCons(p, l[k + 1..], x);
    RecordedAppend(l[..k - 1], [p] + l[k + 1..], x);
  }

  lemma RecordedRemoved(l: Timeline, k: nat, x: Access)
    requires k < |l|
    ensures Recorded(Removed(l, k))[x] + multiset(l[k].served)[x] == Recorded(l)[x]
  {
    if |l| == 1 || k == 0 {
      RecordedAround(l, k, x);
      assert l[..k] == [] && Removed(l, k) == l[k + 1..];
    } else {
      hide Merge, Recorded;
      RecordedMerged(l, k, l[k - 1].(end := if k == |l| - 1 then LONG_MAX else l[k].end), x);
    }
  }

  lemma RecordedSplit(l: Timeline, n: nat, k: nat, x: Access)
    requires n <= k <= |l|
    ensures Recorded(l[..k])[x] == Recorded(l[..n])[x] + Recorded(l[n..k])[x]
  {
    assert l[..k] == l[..n] + l[n..k];
    RecordedAppend(l[..n], l[n..k], x);
  }

  lemma RecordedTruncated(l: Timeline, t: nat, k: nat, n: nat, x: Access)
    requires Find(l, t) == k && n == FindExact(l[..k], t)
    ensures Recorded(Truncated(l, t))[x] + Recorded(l[..n])[x] + multiset(l[k].served)[x]
         == Recorded(l)[x] + multiset(CutAt(l[k], t).served)[x]
  {
    hide Filter;
    RecordedCons(CutAt(l[k], t), l[k + 1..], x);
    RecordedAppend(l[n..k], [CutAt(l[k], t)] + l[k + 1..], x);
    RecordedAround(l, k, x);
    RecordedSplit(l, n, k, x);
  }

  lemma TruncateConserves(l: Timeline, t: nat, x: Access)
    ensures var e := TruncateEffect(l, t); Recorded(e.after)[x] + e.dropped[x] == Recorded(l)[x]
  {
    var k := Find(l, t);
    if k >= 0 {
      RecordedTruncated(l, t, k, FindExact(l[..k], t), x);
      PartitionCount(l[k].served, Before(t), From(t), x);
    }
  }

  /** Truncation drops only reads from before the truncation time. */
  lemma TruncateDropsThePast(l: Timeline, t: nat, a: Access)
    requires Good(l) && t < LONG_MAX && a in TruncateEffect(l, t).dropped
    ensures a.time < t
  {
    var k := Find(l, t);
    TruncationBorder(l, t, k);
    FilterMember(l[k].served, Before(t), a);
    var gone := l[..FindExact(l[..k], t)];
    if a in Recorded(gone) {
      var i := Holder(gone, a);
      assert Fits(l[i]);
    }
  }

  lemma ReadConserves(l: Timeline, agent: LpId, t: nat, x: Access)
    ensures Recorded(ReadEffect(l, agent, t).after)[x] == Recorded(l)[x] + multiset(Issued(l, ReadRequest(agent, t)))[x]
  {
    hide Recorded;
    var k := Find(l, t);
    if k >= 0 {
      RecordedReplaced(l, k, l[k].(served := l[k].served + [Access(agent, t)]), x);
    }
  }

  lemma WriteRollbackConserves(l: Timeline, agent: LpId, t: nat, x: Access)
    ensures var e := WriteRollbackEffect(l, agent, t);
      Recorded(e.after)[x] + multiset(e.charged)[x] == Recorded(l)[x]
  {
    hide Recorded, Removed;
    var k := Cancelled(l, agent, t);
    if k < |l| {
      RecordedRemoved(l, k, x);
    }
  }

  lemma ApplyConserves(l: Timeline, q: Request, x: Access)
    requires Good(l)
    ensures var e := Apply(l, q);
      Recorded(e.after)[x] + multiset(e.charged)[x] + e.dropped[x] == Recorded(l)[x] + multiset(Issued(l, q))[x]
  {
    hide Recorded, Filter, Inserted, Removed, Truncated, Good;
    match q
    case ReadRequest(agent, t) => ReadConserves(l, agent, t, x);
    case WriteRequest(agent, v, t) => WriteConserves(l, agent, v, t, x);
    case AntiRead(agent, t) => ReadRollbackConserves(l, agent, t, x);
    case AntiWrite(agent, t) => WriteRollbackConserves(l, agent, t, x);
    case Truncate(t) => TruncateConserves(l, t, x);
  }

  /** Each charge names the reader and a time no later than its read. */
  predicate ChargedInTime(charged: seq<Access>, chargedAt: seq<Access>) {
    && |charged| == |chargedAt|
    && forall i :: 0 <= i < |charged| ==>
         chargedAt[i].agent == charged[i].agent && chargedAt[i].time <= charged[i].time
  }

  lemma ApplyChargesInTime(l: Timeline, q: Request)
    requires Good(l)
    ensures ChargedInTime(Apply(l, q).charged, Apply(l, q).chargedAt)
  {
    if q.AntiWrite? {
      var k := Cancelled(l, q.agent, q.time);
      if k < |l| {
        assert Fits(l[k]);
      }
    }
  }

  /** A write at `t` charges reads from `t` on, each at its own time; an anti-write for `t` charges all it
      charges at `t`; nothing else charges. */
  predicate ChargedBy(q: Request, read: Access, charge: Access) {
    || (q.WriteRequest? && q.time <= read.time && charge == read)
    || (q.AntiWrite? && q.time <= read.time && charge == Access(read.agent, q.time))
  }

  lemma ApplyChargesExactly(l: Timeline, q: Request)
    requires Good(l)
    ensures var e := Apply(l, q);
      |e.charged| == |e.chargedAt| && forall i :: 0 <= i < |e.charged| ==> ChargedBy(q, e.charged[i], e.chargedAt[i])
  {
    var e := Apply(l, q);
    if q.AntiWrite? {
      var k := Cancelled(l, q.agent, q.time);
      if k < |l| {
        assert Fits(l[k]);
        assert forall i :: 0 <= i < |e.charged| ==> e.charged[i] in l[k].served;
      }
    } else if q.WriteRequest? && l != [] && !Rejected(l, q.agent, q.time) {
      var served := l[Find(l, q.time)].served;
      FilterMembers(served, From(q.time));
      assert forall i :: 0 <= i < |e.charged| ==> e.charged[i] in Filter(served, From(q.time));
    }
  }

  ghost predicate IsCharged(qs: seq<Request>, read: Access, charge: Access) {
    exists q :: q in qs && ChargedBy(q, read, charge)
  }

  ghost predicate AllCharged(qs: seq<Request>, charged: seq<Access>, chargedAt: seq<Access>) {
    |charged| == |chargedAt| && forall i :: 0 <= i < |charged| ==> IsCharged(qs, charged[i], chargedAt[i])
  }

  lemma AllChargedCons(q: Request, qs: seq<Request>, c0: seq<Access>, t0: seq<Access>, c1: seq<Access>, t1: seq<Access>)
    requires |c0| == |t0| && forall i :: 0 <= i < |c0| ==> ChargedBy(q, c0[i], t0[i])
    requires AllCharged(qs, c1, t1)
    ensures AllCharged([q] + qs, c0 + c1, t0 + t1)
  {
    hide ChargedBy;
    forall i | 0 <= i < |c0 + c1| ensures IsCharged([q] + qs, (c0 + c1)[i], (t0 + t1)[i]) {
      if i < |c0| {
        assert q in [q] + qs;
      } else {
        assert IsCharged(qs, c1[i - |c0|], t1[i - |c0|]);
        var r :| r in qs && ChargedBy(r, c1[i - |c0|], t1[i - |c0|]);
        assert r in [q] + qs;
      }
    }
  }

  lemma AntiReadDrops(l: Timeline, agent: LpId, t: nat, a: Access)
    requires a in ReadRollbackEffect(l, agent, t).dropped
    ensures a == Access(agent, t)
  {
    FilterMember(l[Find(l, t)].served, Exactly(Access(agent, t)), a);
  }

  lemma ApplyDrops(l: Timeline, q: Request, a: Access)
    requires Good(l) && q.time < LONG_MAX && a in Apply(l, q).dropped
    ensures q == AntiRead(a.agent, a.time) || (q.Truncate? && a.time < q.time)
  {
    match q
    case AntiRead(agent, t) => AntiReadDrops(l, agent, t, a);
    case Truncate(t) => TruncateDropsThePast(l, t, a);
    case _ =>
  }

  lemma {:induction false} AccountCount(l: Timeline, qs: seq<Request>, x: Access)
    requires Good(l) && Timely(qs)
    ensures var b := Account(l, qs);
      Recorded(Run(l, qs))[x] + multiset(b.charged)[x] + b.undone[x] + b.truncated[x]
      == Recorded(l)[x] + multiset(b.issued)[x]
    decreases |qs|
  {
    hide Filter;
    if |qs| > 0 {
      var e := Apply(l, qs[0]);
      assert qs[0] in qs;
      ApplyKeepsGood(l, qs[0]);
      ApplyConserves(l, qs[0], x);
      AccountCount(e.after, qs[1..], x);
    }
  }

  /** Every read a run issues ends in exactly one class: still recorded, charged to a rollback
      list, undone by an anti-read, or cut off by truncation. */
  lemma ReadAccounting(l: Timeline, qs: seq<Request>)
    requires Good(l) && Timely(qs)
    ensures var b := Account(l, qs);
      Recorded(Run(l, qs)) + multiset(b.charged) + b.undone + b.truncated == Recorded(l) + multiset(b.issued)
  {
    var b := Account(l, qs);
    forall x ensures (Recorded(Run(l, qs)) + multiset(b.charged) + b.undone + b.truncated)[x]
                  == (Recorded(l) + multiset(b.issued))[x] {
      AccountCount(l, qs, x);
    }
  }

  ghost predicate CutOff(qs: seq<Request>, a: Access) {
    exists q :: q in qs && q.Truncate? && a.time < q.time
  }

  lemma AccountOfOneMore(l: Timeline, qs: seq<Request>)
    requires qs != []
    ensures var e := Apply(l, qs[0]);
      var rest := Account(e.after, qs[1..]);
      && Account(l, qs).charged == e.charged + rest.charged && Account(l, qs).chargedAt == e.chargedAt + rest.chargedAt
      && [qs[0]] + qs[1..] == qs && qs[0] in qs
  {
    hide Apply;
  }

  lemma NothingCharged(l: Timeline, qs: seq<Request>)
    ensures qs == [] ==> AllCharged(qs, Account(l, qs).charged, Account(l, qs).chargedAt)
  {
  }

  lemma {:induction false} ChargesHaveCauses(l: Timeline, qs: seq<Request>)
    requires Good(l) && Timely(qs)
    ensures AllCharged(qs, Account(l, qs).charged, Account(l, qs).chargedAt)
    decreases |qs|
  {
    hide AllCharged, Apply, Good, Account;
    NothingCharged(l, qs);
    if qs != [] {
      var e := Apply(l, qs[0]);
      var rest := Account(e.after, qs[1..]);
      AccountOfOneMore(l, qs);
      ApplyKeepsGood(l, qs[0]);
      ChargesHaveCauses(e.after, qs[1..]);
      ApplyChargesExactly(l, qs[0]);
      hide ChargedBy;
      AllChargedCons(qs[0], qs[1..], e.charged, e.chargedAt, rest.charged, rest.chargedAt);
    }
  }

  lemma {:induction false} DropsHaveCauses(l: Timeline, qs: seq<Request>)
    requires Good(l) && Timely(qs)
    ensures var b := Account(l, qs);
      && (forall a :: a in b.undone ==> AntiRead(a.agent, a.time) in qs)
      && (forall a :: a in b.truncated ==> CutOff(qs, a))
    decreases |qs|
  {
    hide Filter;
    if |qs| > 0 {
      var e := Apply(l, qs[0]);
      var rest := Account(e.after, qs[1..]);
      assert qs[0] in qs;
      ApplyKeepsGood(l, qs[0]);
      DropsHaveCauses(e.after, qs[1..]);
      forall a | a in Account(l, qs).undone ensures AntiRead(a.agent, a.time) in qs {
        if a in rest.undone {
          assert AntiRead(a.agent, a.time) in qs[1..];
        } else {
          ApplyDrops(l, qs[0], a);
        }
      }
      forall a | a in Account(l, qs).truncated ensures CutOff(qs, a) {
        if a in rest.truncated {
          assert CutOff(qs[1..], a);
          var q :| q in qs[1..] && q.Truncate? && a.time < q.time;
          assert q in qs;
        } else {
          ApplyDrops(l, qs[0], a);
        }
      }
    }
  }

  /** The classes are what they say: a charge names the reader and stems from a write or an anti-write no later
      than the read, which is charged at its own time for a write and at the time of the anti-write for that;
      an undone read was named by an anti-read of the run, and a cut-off read lies below the time
      of some truncation of the run. */
  lemma LedgerClasses(l: Timeline, qs: seq<Request>)
    requires Good(l) && Timely(qs)
    ensures var b := Account(l, qs);
      && AllCharged(qs, b.charged, b.chargedAt)
      && (forall a :: a in b.undone ==> AntiRead(a.agent, a.time) in qs)
      && (forall a :: a in b.truncated ==> CutOff(qs, a))
  {
    ChargesHaveCauses(l, qs);
    DropsHaveCauses(l, qs);
  }

  ghost function AgentsIn(accesses: seq<Access>): iset<LpId> {
    iset a | a in accesses :: a.agent
  }

  /** When the agents form a chain, each reader charged in time has an entry no later than its read. */
  lemma EntryInTime(list: map<LpId, nat>, charged: seq<Access>, chargedAt: seq<Access>, a: Access)
    requires ChargedInTime(charged, chargedAt) && a in charged
    requires Charged(map[], list, chargedAt) && Chain(AgentsIn(charged))
    ensures a.agent in list && list[a.agent] <= a.time
  {
    hide Chain, Charged;
    AgentsAreCharged(charged, chargedAt);
    EntriesAreAmong(list, chargedAt, AgentsIn(charged), a.agent);
    ChargedOnAChain(map[], list, chargedAt, a.agent);
    var i :| 0 <= i < |charged| && charged[i] == a;
    assert chargedAt[i] in chargedAt;
  }

  lemma AgentsAreCharged(charged: seq<Access>, chargedAt: seq<Access>)
    requires ChargedInTime(charged, chargedAt)
    ensures forall c :: c in chargedAt ==> c.agent in AgentsIn(charged)
  {
    forall c | c in chargedAt ensures c.agent in AgentsIn(charged) {
      var i :| 0 <= i < |chargedAt| && chargedAt[i] == c;
      assert charged[i] in charged;
    }
  }

  /** Whatever a run has done, the rollback list that a request leaves has, for every read the request invalidates,
      an entry of its reader that is no later than the read. */
  lemma InvalidatedReadsAreRolledBack(l: Timeline, qs: seq<Request>, i: nat, list: map<LpId, nat>, a: Access)
    requires Good(l) && Timely(qs) && i < |qs|
    requires var e := Apply(Run(l, qs[..i]), qs[i]);
      a in e.charged && Charged(map[], list, e.chargedAt) && Chain(AgentsIn(e.charged))
    ensures a.agent in list && list[a.agent] <= a.time
  {
    hide Chain, Charged, Good, Apply;
    NoStaleRead(l, qs[..i]);
    var e := Apply(Run(l, qs[..i]), qs[i]);
    ApplyChargesInTime(Run(l, qs[..i]), qs[i]);
    EntryInTime(list, e.charged, e.chargedAt, a);
  }
}
