/** A shared variable: the list of write periods that its methods search, splice and erase in
    place, each method proved against the effect it has on the list as a value. */
module StateVariables {
  import opened LpIds
  import opened Filters
  import opened WritePeriods
  import opened Timelines

  class StateVariable {
    const id: SsvId
    var periods: seq<WritePeriod>
    ghost var Repr: set<object>

    /** The list owns its periods, and no period occurs in it twice. */
    ghost predicate Valid()
      reads this
    {
      && this in Repr
      && (forall i :: 0 <= i < |periods| ==> periods[i] in Repr)
      && forall i, j :: 0 <= i < j < |periods| ==> periods[i] != periods[j]
    }

    ghost function View(): Timeline
      requires Valid()
      reads this, Repr
    {
      seq(|periods|, i requires 0 <= i < |periods| && Valid() reads this, Repr => periods[i].View())
    }

    constructor (id: SsvId)
      ensures Valid() && View() == [] && fresh(Repr) && this.id == id
    {
      this.id := id;
      periods := [];
      Repr := {this};
    }

    method AddWritePeriod(v: Value, t: nat, agent: LpId)
      requires Valid()
      modifies this
      ensures Valid() && View() == old(View()) + [NewPeriod(v, t, agent)]
      ensures fresh(Repr - old(Repr))
    {
      var p := new WritePeriod(v, t, agent);
      periods := periods + [p];
      Repr := Repr + {p};
    }

    /** The backward walk every operation starts with. */
    method Locate(t: nat) returns (k: int)
      requires Valid()
      ensures k == Find(View(), t)
    {
      k := |periods| - 1;
      while k >= 0
        invariant -1 <= k < |periods|
        invariant forall i :: k < i < |periods| ==> periods[i].startTime > t
      {
        if periods[k].startTime <= t {
          FindIsUnique(View(), t, k);
          return;
        }
        k := k - 1;
      }
    }

    /** Nothing is returned when the process would exit for want of a period. */
    method Read(agent: LpId, t: nat) returns (v: Option<Value>)
      requires Valid()
      modifies Repr
      ensures Valid() && Repr == old(Repr)
      ensures View() == ReadEffect(old(View()), agent, t).after
      ensures var k := Find(old(View()), t); v == if k < 0 then None else Some(old(View())[k].value)
    {
      var k := Locate(t);
      if k < 0 {
        return None;
      }
      var value := periods[k].Read(agent, t);
      v := Some(value);
      assert View() == old(View())[k := periods[k].View()];
    }

    method ReadWithoutRecord(t: nat) returns (end: nat, v: Option<Value>)
      requires Valid()
      ensures var k := Find(View(), t);
        if k < 0 then end == ULONG_MAX && v == None else end == View()[k].end && v == Some(View()[k].value)
    {
      var k := Locate(t);
      if k < 0 {
        return ULONG_MAX, None;
      }
      return periods[k].endTime, Some(periods[k].value);
    }

    method WriteWithRollback(agent: LpId, v: Value, t: nat, rollbackList: RollbackList) returns (status: WriteStatus)
      requires Valid()
      modifies Repr, rollbackList
      ensures Valid()
      ensures View() == WriteEffect(old(View()), agent, v, t).after
      ensures status == if Rejected(old(View()), agent, t) then WriteFailure else WriteSuccess
      ensures Charged(old(rollbackList.list), rollbackList.list, WriteEffect(old(View()), agent, v, t).chargedAt)
      ensures fresh(Repr - old(Repr))
    {
      hide Charged, Find, Filter, SpliceTwo, Inserted;
      var newPeriod := new WritePeriod(v, t, agent);
      if periods == [] {
        periods := [newPeriod];
        Repr := Repr + {newPeriod};
        ChargedNothing(rollbackList.list);
        return WriteSuccess;
      }
      var k := Locate(t);
      if k < 0 || (periods[k].startTime == t && periods[k].agent.Greater(agent)) {
        ChargedNothing(rollbackList.list);
        return WriteFailure;
      }
      WriteBehind(k, agent, v, t, rollbackList, newPeriod);
      return WriteSuccess;
    }

    /** Period `k` gives way to the new one from `t` on. */
    method WriteBehind(k: nat, agent: LpId, v: Value, t: nat, rollbackList: RollbackList, newPeriod: WritePeriod)
      requires Valid() && k < |periods| && newPeriod !in Repr && newPeriod.View() == NewPeriod(v, t, agent)
      modifies Repr, rollbackList, newPeriod
      ensures Valid() && View() == Inserted(old(View()), k, agent, v, t)
      ensures Charged(old(rollbackList.list), rollbackList.list, Filter(old(View())[k].served, From(t)))
      ensures Repr == old(Repr) + {newPeriod}
    {
      hide Charged, Filter, SpliceTwo;
      ShortenAt(k, t, rollbackList);
      if k != |periods| - 1 {
        newPeriod.SetEndTime(periods[k + 1].startTime);
      }
      InsertBehind(k, newPeriod);
      ChangeAndInsert(old(View()), k, Shortened(old(View())[k], t), FillingIn(old(View()), k, agent, v, t));
    }

    method ShortenAt(k: nat, t: nat, rollbackList: RollbackList)
      requires Valid() && k < |periods|
      modifies Repr, rollbackList
      ensures Valid() && periods == old(periods) && Repr == old(Repr)
      ensures View() == old(View())[k := Shortened(old(View())[k], t)]
      ensures Charged(old(rollbackList.list), rollbackList.list, Filter(old(View())[k].served, From(t)))
    {
      hide Charged, Filter;
      periods[k].SetEndTime(t);
      periods[k].RemoveReadsAfterInclusive(t, rollbackList);
    }

    method CutPeriodAt(k: nat, t: nat)
      requires Valid() && k < |periods|
      modifies Repr
      ensures Valid() && periods == old(periods) && Repr == old(Repr)
      ensures View() == old(View())[k := CutAt(old(View())[k], t)]
    {
      hide Filter;
      periods[k].SetStartTime(t);
      periods[k].RemoveReadsBefore(t);
    }

    method InsertBehind(k: nat, p: WritePeriod)
      requires Valid() && k < |periods| && p !in Repr
      modifies this
      ensures Valid() && Repr == old(Repr) + {p}
      ensures View() == old(View())[..k + 1] + [p.View()] + old(View())[k + 1..]
    {
      periods := periods[..k + 1] + [p] + periods[k + 1..];
      Repr := Repr + {p};
    }

    method EraseAt(k: nat)
      requires Valid() && k < |periods|
      modifies this
      ensures Valid() && Repr == old(Repr)
      ensures View() == old(View())[..k] + old(View())[k + 1..]
    {
      periods := periods[..k] + periods[k + 1..];
    }

    /** A copy of the list as a value, as carried by a migration message. */
    method GetCopy() returns (copy: Timeline)
      requires Valid()
      ensures copy == View()
    {
      copy := [];
      for i := 0 to |periods|
        invariant copy == View()[..i]
      {
        var p := periods[i];
        copy := copy + [Period(p.startTime, p.endTime, p.value, p.agent, p.served)];
      }
    }

    /** The code dereferences the period it finds without a test, so there has to be one. */
    method PerformReadRollback(agent: LpId, t: nat)
      requires Valid() && Find(View(), t) >= 0
      modifies Repr
      ensures Valid() && Repr == old(Repr)
      ensures View() == ReadRollbackEffect(old(View()), agent, t).after
    {
      var k := Locate(t);
      periods[k].RemoveReadsByAgent(agent, t);
      assert View() == old(View())[k := periods[k].View()];
    }

    method PerformWriteRollback(agent: LpId, t: nat, rollbackList: RollbackList)
      requires Valid()
      modifies Repr, rollbackList
      ensures Valid()
      ensures View() == WriteRollbackEffect(old(View()), agent, t).after
      ensures Charged(old(rollbackList.list), rollbackList.list, WriteRollbackEffect(old(View()), agent, t).chargedAt)
      ensures Repr == old(Repr)
    {
      hide Charged, FindExact, Merge;
      var k := LocateExact(t);
      if k == |periods| || periods[k].agent.Differs(agent) {
        ChargedNothing(rollbackList.list);
        return;
      }
      ghost var l := View();
      periods[k].RemoveAllReads(t, rollbackList);
      assert View() == l[k := l[k].(served := [])];
      RemovedIgnoresReads(l, k);
      Remove(k);
    }

    /** The erased period leaves its end to the one before it; after the last one that is the greatest
        signed number. */
    method Remove(k: nat)
      requires Valid() && k < |periods|
      modifies this, periods
      ensures Valid() && Repr == old(Repr)
      ensures View() == Removed(old(View()), k)
    {
      hide Merge;
      if |periods| == 1 {
        EraseAt(k);
        return;
      }
      if k == |periods| - 1 {
        periods[k - 1].SetEndTime(LONG_MAX);
      } else if k > 0 {
        var erasedEndTime := periods[k].endTime;
        periods[k - 1].SetEndTime(erasedEndTime);
      }
      if k > 0 {
        ghost var l := old(View());
        ghost var p := l[k - 1].(end := if k == |l| - 1 then LONG_MAX else l[k].end);
        assert View() == l[k - 1 := p];
        ChangeAndErase(l, k, p);
      }
      EraseAt(k);
    }

    lemma RemovedIgnoresReads(l: Timeline, k: nat)
      requires k < |l|
      ensures Removed(l[k := l[k].(served := [])], k) == Removed(l, k)
    {
    }

    /** The forward walk of a write rollback. */
    method LocateExact(t: nat) returns (k: nat)
      requires Valid()
      ensures k == FindExact(View(), t)
    {
      k := 0;
      while k < |periods| && periods[k].startTime != t
        invariant k <= |periods|
        invariant forall i :: 0 <= i < k ==> periods[i].startTime != t
      {
        k := k + 1;
      }
      FirstAt(View(), t, k);
    }

    method RemoveWritePeriods(t: nat)
      requires Valid()
      modifies Repr
      ensures Valid()
      ensures View() == TruncateEffect(old(View()), t).after
      ensures Repr == old(Repr)
    {
      hide Find, FindExact, Splice, Filter;
      var k := Locate(t);
      if k < 0 {
        return;
      }
      CutPeriodAt(k, t);
      ghost var cut := View();
      assert cut[k].start == t && cut[..k] == old(View())[..k];
      ghost var n := EraseUpTo(t, k);
      FirstAt(cut[..k], t, n);
      ChangeAndDrop(old(View()), n, k, CutAt(old(View())[k], t));
    }

    method EraseUpTo(t: nat, ghost k: nat) returns (ghost n: nat)
      requires Valid() && k < |periods| && View()[k].start == t
      modifies this
      ensures Valid() && n <= k && View() == old(View())[n..]
      ensures old(View())[n].start == t && forall i :: 0 <= i < n ==> old(View())[i].start != t
      ensures Repr == old(Repr)
    {
      n := 0;
      while periods[0].startTime != t
        invariant 0 <= n <= k && periods == old(periods)[n..] && Repr == old(Repr)
        invariant forall i :: 0 <= i < n ==> old(periods)[i].startTime != t
        decreases |periods|
      {
        periods := periods[1..];
        n := n + 1;
      }
    }
  }
}
