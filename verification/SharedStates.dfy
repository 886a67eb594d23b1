/** The variables a process hosts, and the operations that move one away or take one in. */
module SharedStates {
  import opened LpIds
  import opened Filters
  import opened WritePeriods
  import opened Timelines
  import opened StateVariables
  import opened Migration

  /** All variables but those of `todo` are truncated. */
  ghost predicate TruncatedBut(before: map<SsvId, Timeline>, after: map<SsvId, Timeline>, todo: set<SsvId>, t: nat) {
    after.Keys == before.Keys && forall a :: a in before ==> after[a] == if a in todo then before[a] else Truncated(before[a], t)
  }

  lemma NoneTruncated(before: map<SsvId, Timeline>, t: nat)
    ensures TruncatedBut(before, before, before.Keys, t)
  {
  }

  lemma TruncatedStep(before: map<SsvId, Timeline>, after: map<SsvId, Timeline>, todo: set<SsvId>, t: nat, a: SsvId)
    requires TruncatedBut(before, after, todo, t) && a in todo && a in before
    ensures a in after && TruncatedBut(before, after[a := Truncated(after[a], t)], todo - {a}, t)
  {
    hide Truncated;
  }

  lemma AllTruncated(before: map<SsvId, Timeline>, after: map<SsvId, Timeline>, t: nat)
    requires TruncatedBut(before, after, {}, t)
    ensures after == map a | a in before :: Truncated(before[a], t)
  {
    hide Truncated;
  }

  class SharedState {
    var variables: map<SsvId, StateVariable>
    ghost var Repr: set<object>

    /** Variables are well formed and share no object. */
    ghost predicate Valid()
      reads this, Repr
    {
      && this in Repr
      && (forall a :: a in variables ==> Owned(variables[a]))
      && (forall a, b :: a in variables && b in variables && a != b ==> variables[a].Repr !! variables[b].Repr)
    }

    ghost predicate Owned(v: StateVariable)
      reads this, Repr
    {
      v in Repr && v.Repr <= Repr && this !in v.Repr && v.Valid()
    }

    ghost function View(): map<SsvId, Timeline>
      requires Valid()
      reads this, Repr
    {
      map a | a in variables :: variables[a].View()
    }

    constructor ()
      ensures Valid() && View() == map[] && fresh(Repr)
    {
      variables := map[];
      Repr := {this};
    }

    /** A false result stands for the process exiting with an error. */
    method Add(id: SsvId, v: Value, t: nat, agent: LpId) returns (ok: bool)
      requires Valid()
      modifies this
      ensures Valid() && fresh(Repr - old(Repr)) && ok == (id !in old(variables))
      ensures View() == if ok then old(View())[id := [NewPeriod(v, t, agent)]] else old(View())
    {
      hide Valid, View, StateVariable.Valid, StateVariable.View;
      if id in variables {
        return false;
      }
      var variable := new StateVariable(id);
      variable.AddWritePeriod(v, t, agent);
      assert variable.View() == [NewPeriod(v, t, agent)];
      Adopt(id, variable);
      ok := true;
    }

    /** An incoming variable is replayed into an empty one. */
    method Insert(id: SsvId, copy: Timeline, rollbackList: RollbackList) returns (ok: bool)
      requires Valid() && rollbackList !in Repr
      modifies this, rollbackList
      ensures Valid() && fresh(Repr - old(Repr)) && ok == (id !in old(variables))
      ensures View() == if ok then old(View())[id := ReplayWrites([], copy)] else old(View())
      ensures Charged(old(rollbackList.list), rollbackList.list, if ok then ReplayCharges([], copy) else [])
    {
      hide Charged, Valid, View;
      ChargedNothing(rollbackList.list);
      if id in variables {
        return false;
      }
      var variable := new StateVariable(id);
      Replay(variable, copy, rollbackList);
      Adopt(id, variable);
      ok := true;
    }

    method Adopt(id: SsvId, variable: StateVariable)
      requires Valid() && id !in variables && variable.Valid() && variable.Repr !! Repr
      modifies this
      ensures Valid() && Repr == old(Repr) + variable.Repr && variables == old(variables)[id := variable]
      ensures View() == old(View())[id := variable.View()]
    {
      AreApart(variable);
      hide StateVariable.Valid, StateVariable.View;
      variables := variables[id := variable];
      Repr := Repr + variable.Repr;
    }

    /** What a change of this object cannot touch. */
    lemma AreApart(variable: StateVariable)
      requires Valid() && variable.Valid() && variable.Repr !! Repr
      ensures variable in variable.Repr && this !in variable.Repr
      ensures forall a :: a in variables ==> Owned(variables[a]) && variables[a] in variables[a].Repr && variables[a].Repr !! variable.Repr
    {
    }

    method Replay(variable: StateVariable, copy: Timeline, rollbackList: RollbackList)
      requires variable.Valid() && rollbackList !in variable.Repr
      modifies variable.Repr, rollbackList
      ensures variable.Valid() && fresh(variable.Repr - old(variable.Repr))
      ensures variable.View() == ReplayWrites(old(variable.View()), copy)
      ensures Charged(old(rollbackList.list), rollbackList.list, ReplayCharges(old(variable.View()), copy))
    {
      hide Charged, WriteEffect;
      ghost var charged := [];
      ChargedNothing(rollbackList.list);
      assert copy[0..] == copy;
      for i := 0 to |copy|
        invariant variable.Valid() && fresh(variable.Repr - old(variable.Repr))
        invariant ReplayWrites(variable.View(), copy[i..]) == ReplayWrites(old(variable.View()), copy)
        invariant charged + ReplayCharges(variable.View(), copy[i..]) == ReplayCharges(old(variable.View()), copy)
        invariant Charged(old(rollbackList.list), rollbackList.list, charged)
      {
        ghost var l, list := variable.View(), rollbackList.list;
        var status := variable.WriteWithRollback(copy[i].agent, copy[i].value, copy[i].start, rollbackList);
        ghost var e := WriteEffect(l, copy[i].agent, copy[i].value, copy[i].start);
        assert copy[i..][1..] == copy[i + 1..];
        ChargedTransitive(old(rollbackList.list), list, rollbackList.list, charged, e.chargedAt);
        Associative(charged, e.chargedAt, ReplayCharges(variable.View(), copy[i + 1..]));
        charged := charged + e.chargedAt;
      }
      assert copy[|copy|..] == [] && charged + [] == charged;
    }

    /** None stands for the process exiting with an error. */
    method GetCopy(id: SsvId) returns (copy: Option<Timeline>)
      requires Valid()
      ensures copy == if id in View() then Some(View()[id]) else None
    {
      if id !in variables {
        return None;
      }
      var l := variables[id].GetCopy();
      return Some(l);
    }

    /** Every period is rolled back with its own agent and start time, in the order of the copy. */
    method RemoveWritePeriodList(id: SsvId, rollbackList: RollbackList) returns (ok: bool)
      requires Valid() && rollbackList !in Repr
      modifies Repr - {this}, rollbackList
      ensures Valid() && Repr == old(Repr) && variables == old(variables) && ok == (id in variables)
      ensures View() == if ok then old(View())[id := []] else old(View())
      ensures Charged(old(rollbackList.list), rollbackList.list, if ok then ChargesOf(old(View())[id]) else [])
    {
      hide Charged;
      ChargedNothing(rollbackList.list);
      if id !in variables {
        return false;
      }
      var variable := variables[id];
      var copy := variable.GetCopy();
      RollbackEmptiesTheSource(copy);
      RollbackPeriods(variable, copy, rollbackList);
      OnlyOneChanged(id);
      ok := true;
    }

    /** A request to one variable leaves the others alone. */
    twostate lemma OnlyOneChanged(id: SsvId)
      requires old(Valid()) && unchanged(this) && id in variables
      requires variables[id].Valid() && variables[id].Repr == old(variables[id].Repr)
      requires forall o :: o in old(Repr) && o !in old(variables[id].Repr) ==> unchanged(o)
      ensures Valid()
      ensures View() == old(View())[id := variables[id].View()]
    {
      forall a | a in variables && a != id
        ensures variables[a].Valid() && variables[a].Repr == old(variables[a].Repr)
          && variables[a].View() == old(variables[a].View())
      {
        assert old(Owned(variables[a])) && old(Owned(variables[id]));
        assert variables[a] in variables[a].Repr;
      }
      assert old(Owned(variables[id]));
    }

    method RollbackPeriods(variable: StateVariable, copy: Timeline, rollbackList: RollbackList)
      requires variable.Valid() && rollbackList !in variable.Repr
      modifies variable.Repr, rollbackList
      ensures variable.Valid() && variable.Repr == old(variable.Repr)
      ensures variable.View() == RollbackAll(old(variable.View()), copy)
      ensures Charged(old(rollbackList.list), rollbackList.list, RollbackCharges(old(variable.View()), copy))
    {
      hide Charged, WriteRollbackEffect;
      ghost var charged := [];
      ChargedNothing(rollbackList.list);
      assert copy[0..] == copy;
      for i := 0 to |copy|
        invariant variable.Valid() && variable.Repr == old(variable.Repr)
        invariant RollbackAll(variable.View(), copy[i..]) == RollbackAll(old(variable.View()), copy)
        invariant charged + RollbackCharges(variable.View(), copy[i..]) == RollbackCharges(old(variable.View()), copy)
        invariant Charged(old(rollbackList.list), rollbackList.list, charged)
      {
        ghost var l, list := variable.View(), rollbackList.list;
        variable.PerformWriteRollback(copy[i].agent, copy[i].start, rollbackList);
        ghost var e := WriteRollbackEffect(l, copy[i].agent, copy[i].start);
        assert copy[i..][1..] == copy[i + 1..];
        ChargedTransitive(old(rollbackList.list), list, rollbackList.list, charged, e.chargedAt);
        Associative(charged, e.chargedAt, RollbackCharges(variable.View(), copy[i + 1..]));
        charged := charged + e.chargedAt;
      }
      assert copy[|copy|..] == [] && charged + [] == charged;
    }

    method Delete(id: SsvId) returns (ok: bool)
      requires Valid()
      modifies this
      ensures Valid() && Repr == old(Repr) && ok == (id in old(variables))
      ensures View() == old(View()) - {id}
    {
      ok := id in variables;
      variables := variables - {id};
    }

    /** Fossil collection visits every variable. */
    method RemoveWritePeriods(t: nat)
      requires Valid()
      modifies Repr - {this}
      ensures Valid() && Repr == old(Repr) && variables == old(variables)
      ensures View() == map a | a in old(View()) :: Truncated(old(View())[a], t)
    {
      var todo := variables.Keys;
      ViewKeys();
      ghost var before := View();
      NoneTruncated(before, t);
      hide Valid, View, TruncatedBut;
      while todo != {}
        invariant todo <= variables.Keys == before.Keys && variables == old(variables) && Repr == old(Repr) && Valid()
        invariant TruncatedBut(before, View(), todo, t)
        decreases todo
      {
        var a :| a in todo;
        TruncatedStep(before, View(), todo, t, a);
        todo := todo - {a};
        TruncateOne(a, t);
      }
      AllTruncated(before, View(), t);
    }

    lemma ViewKeys()
      requires Valid()
      ensures View().Keys == variables.Keys
    {
    }

    method TruncateOne(a: SsvId, t: nat)
      requires Valid() && a in variables
      modifies Repr - {this}
      ensures Valid() && Repr == old(Repr) && variables == old(variables)
      ensures a in old(View()) && View() == old(View())[a := Truncated(old(View())[a], t)]
    {
      variables[a].RemoveWritePeriods(t);
      OnlyOneChanged(a);
    }
  }
}
