/** Values of shared variables, the write periods that hold them, and the rollback lists that
    collect the readers a write or an anti-message invalidates. */
module WritePeriods {
  import opened LpIds
  import opened Filters

  const ULONG_MAX: nat := 0xFFFF_FFFF_FFFF_FFFF
  const LONG_MAX: nat := 0x7FFF_FFFF_FFFF_FFFF

  datatype Point = Point(x: int, y: int)

  datatype Value = PointValue(point: Point) | OtherValue(content: string)

  /** A read by `agent` at `time`; also one request to roll `agent` back to `time`. */
  datatype Access = Access(agent: LpId, time: nat)

  datatype RollbackMessage = RollbackMessage(origin: nat, destination: nat, time: nat, agent: LpId)

  /** `list` makes the agent of `a`, or one the map cannot tell from it, go back far enough. */
  ghost predicate Covers(list: map<LpId, nat>, a: Access) {
    exists k :: k in list && Equivalent(k, a.agent) && list[k] <= a.time
  }

  /** An entry of `list` that was there already or stems from one of the accesses. */
  ghost predicate Explained(before: map<LpId, nat>, k: LpId, time: nat, accesses: seq<Access>) {
    || (k in before && before[k] == time)
    || exists a :: a in accesses && Equivalent(k, a.agent) && a.time == time
  }

  /** `after` is `before` with all of `accesses` added: every access is covered, no entry got
      weaker, and every entry is explained. */
  ghost predicate Charged(before: map<LpId, nat>, after: map<LpId, nat>, accesses: seq<Access>) {
    && (forall k :: k in before ==> k in after && after[k] <= before[k])
    && (forall a :: a in accesses ==> Covers(after, a))
    && (forall k :: k in after ==> Explained(before, k, after[k], accesses))
    && (forall k :: k in after ==> k in before || exists a :: a in accesses && a.agent == k)
    && (OneEntryPerKey(before) ==> OneEntryPerKey(after))
  }

  ghost predicate OneEntryPerKey(list: map<LpId, nat>) {
    KeysAreDistinguished(iset k | k in list)
  }

  lemma ChargedNothing(list: map<LpId, nat>)
    ensures Charged(list, list, [])
  {
  }

  lemma ChargedTransitive(l0: map<LpId, nat>, l1: map<LpId, nat>, l2: map<LpId, nat>,
                          a: seq<Access>, b: seq<Access>)
    requires Charged(l0, l1, a) && Charged(l1, l2, b)
    ensures Charged(l0, l2, a + b)
  {
    forall x | x in a + b ensures Covers(l2, x) {
      if x in a {
        assert Covers(l1, x);
        var k :| k in l1 && Equivalent(k, x.agent) && l1[k] <= x.time;
        assert k in l2 && l2[k] <= l1[k];
      } else {
        assert x in b;
      }
    }
    forall k | k in l2 ensures Explained(l0, k, l2[k], a + b) {
      assert Explained(l1, k, l2[k], b);
      if k in l1 && l1[k] == l2[k] {
        assert Explained(l0, k, l1[k], a);
      }
    }
  }

  /** When identifiers form a chain the list holds, for each agent, the minimum of its old entry
      and of the times it was charged with. */
  lemma ChargedOnAChain(before: map<LpId, nat>, after: map<LpId, nat>, accesses: seq<Access>, agent: LpId)
    requires Charged(before, after, accesses)
    requires Chain((iset k | k in after) + (iset a | a in accesses :: a.agent) + iset{agent})
    ensures agent in after <==> agent in before || exists a :: a in accesses && a.agent == agent
    ensures agent in after ==>
      && (agent in before ==> after[agent] <= before[agent])
      && (forall a :: a in accesses && a.agent == agent ==> after[agent] <= a.time)
      && ((agent in before && before[agent] == after[agent]) || Access(agent, after[agent]) in accesses)
  {
    var ids := (iset k | k in after) + (iset a | a in accesses :: a.agent) + iset{agent};
    ChainIsExactlyWhatMapsNeed(ids);
    forall a | a in accesses && a.agent == agent ensures agent in after && after[agent] <= a.time {
      assert Covers(after, a);
      var k :| k in after && Equivalent(k, a.agent) && after[k] <= a.time;
      assert k in ids && agent in ids;
    }
    if agent in after {
      assert Explained(before, agent, after[agent], accesses);
      if !(agent in before && before[agent] == after[agent]) {
        var a :| a in accesses && Equivalent(agent, a.agent) && a.time == after[agent];
        assert a.agent in ids && agent in ids;
      }
    }
  }

  /** All entries of a list filled from empty are agents it was charged with. */
  lemma EntriesAreAmong(list: map<LpId, nat>, accesses: seq<Access>, ids: iset<LpId>, agent: LpId)
    requires Charged(map[], list, accesses) && Chain(ids) && agent in ids
    requires forall c :: c in accesses ==> c.agent in ids
    ensures Chain((iset k | k in list) + (iset c | c in accesses :: c.agent) + iset{agent})
  {
    hide Covers, Explained, OneEntryPerKey;
    assert (iset k | k in list) + (iset c | c in accesses :: c.agent) + iset{agent} <= ids;
  }

  class RollbackList {
    var list: map<LpId, nat>

    constructor ()
      ensures list == map[]
    {
      list := map[];
    }

    /** The search of `std::map` is by key equivalence, so it may find another agent's entry. */
    method AddLp(lp: LpId, t: nat)
      modifies this
      ensures Charged(old(list), list, [Access(lp, t)])
    {
      if k :| k in list && Equivalent(k, lp) {
        if t < list[k] {
          list := list[k := t];
        }
      } else {
        list := list[lp := t];
        assert Equivalent(lp, lp);
      }
      assert exists k :: k in list && Equivalent(k, lp) && list[k] <= t;
      assert [Access(lp, t)][0] == Access(lp, t);
    }

    method SendRollbacks(rank: nat) returns (sent: seq<RollbackMessage>)
      modifies this
      ensures list == map[]
      ensures forall m :: m in sent <==>
                m.agent in old(list) && m.origin == rank && m.destination == m.agent.rank && m.time == old(list)[m.agent]
      ensures |sent| == |old(list)|
    {
      sent := Drain(rank, 0);
    }

    /** After a migration every message is stamped one later than the list entry. */
    method SendRollbacksAfterStateMigration(rank: nat) returns (sent: seq<RollbackMessage>)
      modifies this
      ensures list == map[]
      ensures forall m :: m in sent <==>
                m.agent in old(list) && m.origin == rank && m.destination == m.agent.rank && m.time == old(list)[m.agent] + 1
      ensures |sent| == |old(list)|
    {
      sent := Drain(rank, 1);
    }

    method Drain(rank: nat, delay: nat) returns (sent: seq<RollbackMessage>)
      modifies this
      ensures list == map[]
      ensures forall m :: m in sent <==> IsRollback(m, rank, old(list), delay)
      ensures |sent| == |old(list)|
    {
      sent := [];
      var keys := list.Keys;
      while keys != {}
        invariant keys <= list.Keys && list == old(list)
        invariant |sent| + |keys| == |list|
        invariant forall m :: m in sent <==> IsRollback(m, rank, list, delay) && m.agent !in keys
        decreases keys
      {
        var k :| k in keys;
        keys := keys - {k};
        sent := sent + [RollbackMessage(rank, k.rank, list[k] + delay, k)];
      }
      list := map[];
    }
  }

  /** The messages a rollback list stands for: one per entry, to the process of that agent. */
  ghost predicate IsRollback(m: RollbackMessage, rank: nat, list: map<LpId, nat>, delay: nat) {
    && m.agent in list
    && m == RollbackMessage(rank, m.agent.rank, list[m.agent] + delay, m.agent)
  }

  lemma AtStep(s: seq<Access>, j: nat, t: nat)
    requires j < |s|
    ensures At(s[..j + 1], t) == At(s[..j], t) + [Access(s[j].agent, t)]
  {
  }

  /** A value written by `agent`, current from `start` until `end`, with the reads it served. */
  datatype Period = Period(start: nat, end: nat, value: Value, agent: LpId, served: seq<Access>)

  function NewPeriod(value: Value, start: nat, agent: LpId): Period {
    Period(start, ULONG_MAX, value, agent, [])
  }

  function Before(t: nat): Access -> bool {
    (a: Access) => a.time < t
  }

  function From(t: nat): Access -> bool {
    (a: Access) => a.time >= t
  }

  function OtherThan(x: Access): Access -> bool {
    (a: Access) => a != x
  }

  function Exactly(x: Access): Access -> bool {
    (a: Access) => a == x
  }

  /** The accesses of `s`, all charged at time `t`. */
  function At(s: seq<Access>, t: nat): (r: seq<Access>) {
    seq(|s|, i requires 0 <= i < |s| => Access(s[i].agent, t))
  }

  class WritePeriod {
    var startTime: nat
    var endTime: nat
    var value: Value
    var agent: LpId
    var served: seq<Access>

    ghost function View(): Period
      reads this
    {
      Period(startTime, endTime, value, agent, served)
    }

    constructor (value: Value, startTime: nat, agent: LpId)
      ensures View() == NewPeriod(value, startTime, agent)
    {
      this.value := value;
      this.startTime := startTime;
      this.agent := agent;
      this.endTime := ULONG_MAX;
      this.served := [];
    }

    /** The list owns its periods: copying a variable copies them. */
    constructor Copy(other: WritePeriod)
      ensures View() == other.View()
    {
      value := other.value;
      startTime := other.startTime;
      agent := other.agent;
      endTime := other.endTime;
      served := other.served;
    }

    method SetStartTime(t: nat)
      modifies this
      ensures View() == old(View()).(start := t)
    {
      startTime := t;
    }

    method SetEndTime(t: nat)
      modifies this
      ensures View() == old(View()).(end := t)
    {
      endTime := t;
    }

    method Read(reader: LpId, t: nat) returns (v: Value)
      modifies this
      ensures v == value
      ensures View() == old(View()).(served := old(served) + [Access(reader, t)])
    {
      served := served + [Access(reader, t)];
      v := value;
    }

    method RemoveReadsBefore(t: nat)
      modifies this
      ensures View() == old(View()).(served := Filter(old(served), From(t)))
    {
      var i := 0;
      ghost var j := 0;
      while i < |served|
        invariant 0 <= i <= |served| && 0 <= j <= |old(served)| && served[i..] == old(served)[j..]
        invariant served[..i] == Filter(old(served)[..j], From(t))
        invariant View() == old(View()).(served := served)
        decreases |served| - i
      {
        EraseStep(served, i, old(served), j);
        FilterStep(old(served), j, From(t));
        if served[i].time < t {
          served := served[..i] + served[i + 1..];
        } else {
          i := i + 1;
        }
        j := j + 1;
      }
      assert old(served)[..j] == old(served);
    }

    method RemoveReadsAfterInclusive(t: nat, rollbackList: RollbackList)
      modifies this, rollbackList
      ensures View() == old(View()).(served := Filter(old(served), Before(t)))
      ensures Charged(old(rollbackList.list), rollbackList.list, Filter(old(served), From(t)))
    {
      hide Charged;
      var i := 0;
      ghost var j := 0;
      ghost var removed := [];
      ChargedNothing(rollbackList.list);
      while i < |served|
        invariant 0 <= i <= |served| && 0 <= j <= |old(served)| && served[i..] == old(served)[j..]
        invariant served[..i] == Filter(old(served)[..j], Before(t))
        invariant removed == Filter(old(served)[..j], From(t))
        invariant Charged(old(rollbackList.list), rollbackList.list, removed)
        invariant View() == old(View()).(served := served)
        decreases |served| - i
      {
        EraseStep(served, i, old(served), j);
        FilterStep(old(served), j, Before(t));
        FilterStep(old(served), j, From(t));
        if served[i].time >= t {
          ghost var list, read := rollbackList.list, served[i];
          rollbackList.AddLp(served[i].agent, served[i].time);
          ChargedTransitive(old(rollbackList.list), list, rollbackList.list, removed, [read]);
          removed := removed + [read];
          served := served[..i] + served[i + 1..];
        } else {
          i := i + 1;
        }
        j := j + 1;
      }
      assert old(served)[..j] == old(served);
    }

    method RemoveReadsByAgent(reader: LpId, t: nat)
      modifies this
      ensures View() == old(View()).(served := Filter(old(served), OtherThan(Access(reader, t))))
    {
      var i := 0;
      ghost var j := 0;
      while i < |served|
        invariant 0 <= i <= |served| && 0 <= j <= |old(served)| && served[i..] == old(served)[j..]
        invariant served[..i] == Filter(old(served)[..j], OtherThan(Access(reader, t)))
        invariant View() == old(View()).(served := served)
        decreases |served| - i
      {
        EraseStep(served, i, old(served), j);
        FilterStep(old(served), j, OtherThan(Access(reader, t)));
        if served[i].agent == reader && served[i].time == t {
          served := served[..i] + served[i + 1..];
        } else {
          i := i + 1;
        }
        j := j + 1;
      }
      assert old(served)[..j] == old(served);
    }

    method RemoveAllReads(t: nat, rollbackList: RollbackList)
      modifies this, rollbackList
      ensures View() == old(View()).(served := [])
      ensures Charged(old(rollbackList.list), rollbackList.list, At(old(served), t))
    {
      hide Charged;
      ghost var j := 0;
      ChargedNothing(rollbackList.list);
      assert At(old(served)[..0], t) == [];
      while served != []
        invariant 0 <= j <= |old(served)| && served == old(served)[j..]
        invariant Charged(old(rollbackList.list), rollbackList.list, At(old(served)[..j], t))
        invariant View() == old(View()).(served := served)
        decreases |served|
      {
        ghost var list := rollbackList.list;
        rollbackList.AddLp(served[0].agent, t);
        ChargedTransitive(old(rollbackList.list), list, rollbackList.list,
                          At(old(served)[..j], t), [Access(served[0].agent, t)]);
        AtStep(old(served), j, t);
        served := served[1..];
        j := j + 1;
      }
      assert old(served)[..j] == old(served);
    }
  }

  lemma FilterStep<T>(s: seq<T>, j: nat, p: T -> bool)
    requires j < |s|
    ensures Filter(s[..j + 1], p) == Filter(s[..j], p) + if p(s[j]) then [s[j]] else []
  {
    assert s[..j + 1] == s[..j] + [s[j]];
    FilterAppend(s[..j], [s[j]], p);
  }

  ghost function AgentsOf(accesses: seq<Access>): iset<LpId> {
    iset a | a in accesses :: a.agent
  }

  lemma ChargedUnderOwnName(accesses: seq<Access>, list: map<LpId, nat>, a: Access)
    requires Charged(map[], list, accesses) && a in accesses
    requires KeysAreDistinguished(AgentsOf(accesses))
    ensures a.agent in list
  {
    assert Covers(list, a);
    var k :| k in list && Equivalent(k, a.agent) && list[k] <= a.time;
    var b :| b in accesses && b.agent == k;
    assert k in AgentsOf(accesses) && a.agent in AgentsOf(accesses);
  }

  lemma TwoEntriesAreTwoKeys(list: map<LpId, nat>, a: LpId, b: LpId)
    requires OneEntryPerKey(list) && a in list && b in list && Equivalent(a, b)
    ensures a == b
  {
    var keys := iset k | k in list;
    assert a in keys && b in keys;
  }

  lemma EmptyListHasOneEntryPerKey()
    ensures OneEntryPerKey(map[])
  {
  }

  /** Every invalidated reader is entered under its own name, and so receives a rollback message,
      exactly when no two of the readers are the same key to the map. */
  lemma EveryReaderIsChargedIff(accesses: seq<Access>, list: map<LpId, nat>)
    requires Charged(map[], list, accesses)
    ensures (forall a :: a in accesses ==> a.agent in list) <==> KeysAreDistinguished(AgentsOf(accesses))
  {
    if KeysAreDistinguished(AgentsOf(accesses)) {
      forall a | a in accesses ensures a.agent in list { ChargedUnderOwnName(accesses, list, a); }
    } else if forall a :: a in accesses ==> a.agent in list {
      var a, b :| a in AgentsOf(accesses) && b in AgentsOf(accesses) && Equivalent(a, b) && a != b;
      EmptyListHasOneEntryPerKey();
      TwoEntriesAreTwoKeys(list, a, b);
    }
  }

  /** Two agents of process 7 read a value that a straggler write then invalidates: whatever the
      list becomes, one of them gets no rollback message. */
  lemma SecondReaderOfAProcessIsNotCharged(list: map<LpId, nat>)
    requires Charged(map[], list, [Access(LpId(701, 7), 5), Access(LpId(702, 7), 9)])
    ensures LpId(701, 7) !in list || LpId(702, 7) !in list
  {
    if LpId(701, 7) in list && LpId(702, 7) in list {
      EmptyListHasOneEntryPerKey();
      TwoEntriesAreTwoKeys(list, LpId(701, 7), LpId(702, 7));
    }
  }
}
