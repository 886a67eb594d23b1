/** Several agents write one variable at the same time: the greatest agent wins, in whatever
    order the writes arrive. */
module SameTimeWrites {
  import opened LpIds
  import opened Filters
  import opened WritePeriods
  import opened Timelines
  import opened ReadLedger
  import opened Histories

  /** The version that stays when `w` meets `v` at the same time. */
  function Contest(v: Version, w: Version): Version {
    if v.agent.Greater(w.agent) then v else w
  }

  function Winner(v: Version, ws: seq<Version>): Version
    decreases |ws|
  {
    if |ws| == 0 then v else Winner(Contest(v, ws[0]), ws[1..])
  }

  function WritesAt(ws: seq<Version>, t: nat): (qs: seq<Request>) {
    seq(|ws|, i requires 0 <= i < |ws| => WriteRequest(ws[i].agent, ws[i].value, t))
  }

  lemma WriteAtContestedTime(l: Timeline, w: Version, t: nat)
    requires Good(l) && t < LONG_MAX && Find(l, t) >= 0
    ensures var r := WriteEffect(l, w.agent, w.value, t).after;
      && Good(r) && Find(r, t) >= 0
      && Live(r) == Live(l)[t := if t in Live(l) then Contest(Live(l)[t], w) else w]
  {
    hide Find, FindExact, SpliceTwo, Filter, Good;
    var k := Find(l, t);
    WriteKeepsGood(l, w.agent, w.value, t);
    LiveKeys(l, t);
    if t in Live(l) {
      var i :| 0 <= i < |l| && l[i].start == t;
      StartsAreOrdered(l, i, k);
      LiveIsLast(l, k);
    }
    if !Rejected(l, w.agent, t) {
      WriteAddsToHistory(l, w.agent, w.value, t);
      InsertedAt(l, k, w.agent, w.value, t);
    }
  }

  lemma {:induction false} RunContest(l: Timeline, ws: seq<Version>, t: nat)
    requires Good(l) && t < LONG_MAX && Find(l, t) >= 0 && t in Live(l)
    ensures Good(Run(l, WritesAt(ws, t)))
    ensures Live(Run(l, WritesAt(ws, t))) == Live(l)[t := Winner(Live(l)[t], ws)]
    decreases |ws|
  {
    hide Filter;
    if |ws| > 0 {
      WriteAtContestedTime(l, ws[0], t);
      RunFirst(l, ws, t);
      RunContest(WriteEffect(l, ws[0].agent, ws[0].value, t).after, ws[1..], t);
    }
  }

  ghost function Agents(ws: seq<Version>): iset<LpId> {
    iset v | v in ws :: v.agent
  }

  /** No other version of `ws` has a greater agent. */
  ghost predicate Greatest(v: Version, ws: seq<Version>) {
    v in ws && forall w :: w in ws ==> w == v || v.agent.Greater(w.agent)
  }

  ghost predicate DistinctAgents(ws: seq<Version>) {
    forall v, w :: v in ws && w in ws && v.agent == w.agent ==> v == w
  }

  lemma {:induction false} WinnerIsGreatest(v: Version, ws: seq<Version>)
    requires Chain(Agents([v] + ws)) && DistinctAgents([v] + ws)
    ensures Greatest(Winner(v, ws), [v] + ws)
    decreases |ws|
  {
    var all := [v] + ws;
    if |ws| > 0 {
      var c := Contest(v, ws[0]);
      var rest := [c] + ws[1..];
      assert v in all && ws[0] in all && c in all;
      assert forall w :: w in rest ==> w in all;
      WinnerIsGreatest(c, ws[1..]);
      var g := Winner(v, ws);
      assert v.agent in Agents(all) && ws[0].agent in Agents(all) && g.agent in Agents(all);
      ChainIsExactlyWhatMapsNeed(Agents(all));
      forall w | w in all ensures w == g || g.agent.Greater(w.agent) {
        assert w.agent in Agents(all);
        if w !in rest {
          assert w == v || w == ws[0];
          assert c in rest;
        }
      }
    } else {
      assert all == [v];
    }
  }

  lemma RunFirst(l: Timeline, ws: seq<Version>, t: nat)
    requires ws != []
    ensures Run(l, WritesAt(ws, t)) == Run(WriteEffect(l, ws[0].agent, ws[0].value, t).after, WritesAt(ws[1..], t))
  {
    var qs := WritesAt(ws, t);
    assert qs[0] == WriteRequest(ws[0].agent, ws[0].value, t);
    assert qs[1..] == WritesAt(ws[1..], t);
  }

  /** Once it is current, the greatest agent stays: no order of the same writes matters. */
  lemma {:induction false} GreatestStays(v: Version, ws: seq<Version>, g: Version)
    requires Greatest(g, [v] + ws)
    ensures Winner(v, ws) == g
    decreases |ws|
  {
    var all := [v] + ws;
    assert v in all;
    if |ws| > 0 {
      var c := Contest(v, ws[0]);
      assert ws[0] in all && c == if v == g then v else if ws[0] == g then g else c;
      assert g in [c] + ws[1..];
      forall w | w in [c] + ws[1..] ensures w == g || g.agent.Greater(w.agent) {
        assert w in all;
      }
      GreatestStays(c, ws[1..], g);
    }
  }

  /** After any number of writes at `t`, in any order, lookups are those of the history in which
      the write of the greatest agent is the only one at `t`. */
  lemma GreatestAgentWins(l: Timeline, ws: seq<Version>, t: nat, g: Version)
    requires Good(l) && t < LONG_MAX && Find(l, t) >= 0 && t !in Live(l)
    requires Greatest(g, ws)
    ensures Good(Run(l, WritesAt(ws, t)))
    ensures Live(Run(l, WritesAt(ws, t))) == Live(l)[t := g]
  {
    hide Good, Live, Run, Winner, WritesAt;
    WinnerIsLive(l, ws, t);
    assert [ws[0]] + ws[1..] == ws;
    GreatestStays(ws[0], ws[1..], g);
  }

  lemma WinnerIsLive(l: Timeline, ws: seq<Version>, t: nat)
    requires Good(l) && t < LONG_MAX && Find(l, t) >= 0 && t !in Live(l) && ws != []
    ensures Good(Run(l, WritesAt(ws, t)))
    ensures Live(Run(l, WritesAt(ws, t))) == Live(l)[t := Winner(ws[0], ws[1..])]
  {
    hide Find, Good, Live, Run, WriteEffect, Winner, WritesAt;
    RunFirst(l, ws, t);
    WriteAtContestedTime(l, ws[0], t);
    RunContest(WriteEffect(l, ws[0].agent, ws[0].value, t).after, ws[1..], t);
  }

  /** Any two arrival orders of the same writes at one time agree on every lookup, and no period
      that the contest left empty keeps a read. */
  lemma SameTimeWritesConverge(l: Timeline, ws1: seq<Version>, ws2: seq<Version>, t: nat, time: nat, g: Version)
    requires Good(l) && t < LONG_MAX && Find(l, t) >= 0 && t !in Live(l)
    requires Greatest(g, ws1) && forall w :: w in ws1 <==> w in ws2
    ensures Lookup(Run(l, WritesAt(ws1, t)), time) == Lookup(Run(l, WritesAt(ws2, t)), time)
    ensures forall p :: p in Run(l, WritesAt(ws1, t)) && p.start == p.end ==> p.served == []
  {
    hide Find, Good, Live, Run, WritesAt, Lookup;
    GreatestAgentWins(l, ws1, t, g);
    GreatestAgentWins(l, ws2, t, g);
    SameHistorySameLookups(Run(l, WritesAt(ws1, t)), Run(l, WritesAt(ws2, t)), time);
    EmptyPeriodsServeNothing(Run(l, WritesAt(ws1, t)));
  }

  /** On a chain of identifiers there always is a greatest agent. */
  lemma ChainHasGreatest(ws: seq<Version>)
    requires ws != [] && Chain(Agents(ws)) && DistinctAgents(ws)
    ensures exists g :: Greatest(g, ws)
  {
    assert [ws[0]] + ws[1..] == ws;
    WinnerIsGreatest(ws[0], ws[1..]);
  }

  // ---- Exactly when the order does not matter ----

  predicate IsOrderOf(p: seq<Version>, ws: seq<Version>) {
    multiset(p) == multiset(ws)
  }

  /** All arrival orders of the writes leave lists that answer every lookup alike. */
  ghost predicate Converges(l: Timeline, ws: seq<Version>, t: nat) {
    forall p, q, time :: IsOrderOf(p, ws) && IsOrderOf(q, ws) ==>
      Lookup(Run(l, WritesAt(p, t)), time) == Lookup(Run(l, WritesAt(q, t)), time)
  }

  lemma {:induction false} WinnerAppend(v: Version, a: seq<Version>, b: seq<Version>)
    ensures Winner(v, a + b) == Winner(Winner(v, a), b)
    decreases |a|
  {
    if |a| == 0 {
      assert a + b == b;
    } else {
      assert (a + b)[1..] == a[1..] + b;
      WinnerAppend(Contest(v, a[0]), a[1..], b);
    }
  }

  lemma {:induction false} WinnerIsOneOf(v: Version, ws: seq<Version>)
    ensures Winner(v, ws) == v || Winner(v, ws) in ws
    decreases |ws|
  {
    if |ws| > 0 {
      WinnerIsOneOf(Contest(v, ws[0]), ws[1..]);
    }
  }

  lemma {:induction false} WinnerOfCopies(v: Version, ws: seq<Version>)
    requires forall i :: 0 <= i < |ws| ==> ws[i] == v
    ensures Winner(v, ws) == v
    decreases |ws|
  {
    if |ws| > 0 {
      WinnerOfCopies(v, ws[1..]);
    }
  }

  /** The copies of `v` and all other writes. */
  lemma Separated(ws: seq<Version>, v: Version) returns (same: seq<Version>, others: seq<Version>)
    requires v in ws
    ensures multiset(same) + multiset(others) == multiset(ws)
    ensures same != [] && forall i :: 0 <= i < |same| ==> same[i] == v
    ensures forall x :: x in others <==> x in ws && x != v
  {
    same, others := Filter(ws, x => x == v), Filter(ws, x => x != v);
    FilterPartition(ws, x => x == v, x => x != v);
    FilterMembers(ws, x => x == v);
    FilterMembers(ws, x => x != v);
    assert v in same;
    forall i | 0 <= i < |same| ensures same[i] == v {
      assert same[i] in same;
    }
  }

  /** Meeting first the write it does not exceed, a write loses for good. */
  lemma LosesAfter(same: seq<Version>, v: Version, w: Version, rest: seq<Version>)
    requires same != [] && forall i :: 0 <= i < |same| ==> same[i] == v
    requires w != v && !v.agent.Greater(w.agent) && v !in rest
    ensures var p := same + ([w] + rest); p != [] && Winner(p[0], p[1..]) != v
  {
    var p, tail := same + ([w] + rest), [w] + rest;
    assert p[0] == v && p[1..] == same[1..] + tail;
    WinnerOfCopies(v, same[1..]);
    WinnerAppend(v, same[1..], tail);
    assert tail[0] == w && tail[1..] == rest;
    WinnerIsOneOf(w, rest);
  }

  /** A write that does not exceed some other one loses in the order that lets it meet that one. */
  lemma LosingOrder(ws: seq<Version>, v: Version, w: Version) returns (p: seq<Version>)
    requires v in ws && w in ws && w != v && !v.agent.Greater(w.agent)
    ensures p != [] && IsOrderOf(p, ws) && Winner(p[0], p[1..]) != v
  {
    hide Winner;
    var same, others := Separated(ws, v);
    var i :| 0 <= i < |others| && others[i] == w;
    var rest := others[..i] + others[i + 1..];
    assert others == others[..i] + [w] + others[i + 1..];
    assert forall x :: x in rest ==> x in others;
    p := same + ([w] + rest);
    LosesAfter(same, v, w, rest);
    assert multiset([w] + rest) == multiset(others);
  }

  lemma DifferentWinners(l: Timeline, p: seq<Version>, q: seq<Version>, t: nat)
    requires Good(l) && t < LONG_MAX && Find(l, t) >= 0 && t !in Live(l) && p != [] && q != []
    requires Winner(p[0], p[1..]) != Winner(q[0], q[1..])
    ensures Lookup(Run(l, WritesAt(p, t)), t) != Lookup(Run(l, WritesAt(q, t)), t)
  {
    hide Good, Live, Run, WritesAt, Winner, Find, Lookup;
    WinnerIsLive(l, p, t);
    WinnerIsLive(l, q, t);
    VersionAt(Run(l, WritesAt(p, t)), t);
    VersionAt(Run(l, WritesAt(q, t)), t);
  }

  /** Writes at one time converge if and only if one of them comes from an agent greater than all others. */
  lemma SameTimeWritesConvergeIff(l: Timeline, ws: seq<Version>, t: nat)
    requires Good(l) && t < LONG_MAX && Find(l, t) >= 0 && t !in Live(l) && ws != []
    ensures Converges(l, ws, t) <==> exists g :: Greatest(g, ws)
  {
    hide Good, Live, Run, WritesAt, Winner, Find, Lookup;
    if g :| Greatest(g, ws) {
      forall p, q, time | IsOrderOf(p, ws) && IsOrderOf(q, ws)
        ensures Lookup(Run(l, WritesAt(p, t)), time) == Lookup(Run(l, WritesAt(q, t)), time)
      {
        SameMembers(p, ws);
        SameMembers(q, ws);
        SameTimeWritesConverge(l, p, q, t, time, g);
      }
    } else {
      var v := Winner(ws[0], ws[1..]);
      WinnerIsOneOf(ws[0], ws[1..]);
      assert !Greatest(v, ws);
      var w :| w in ws && w != v && !v.agent.Greater(w.agent);
      var p := LosingOrder(ws, v, w);
      DifferentWinners(l, p, ws, t);
      assert IsOrderOf(ws, ws);
    }
  }

  lemma SameMembers(p: seq<Version>, ws: seq<Version>)
    requires IsOrderOf(p, ws)
    ensures forall w :: w in p <==> w in ws
  {
    forall w ensures w in p <==> w in ws {
      assert w in multiset(p) <==> w in multiset(ws);
    }
  }

  lemma SomeMember(s: seq<Access>)
    requires s != []
    ensures exists a :: a in s
  {
    assert s[0] in s;
  }

  lemma EmptyPeriodsServeNothing(l: Timeline)
    requires Good(l)
    ensures forall p :: p in l && p.start == p.end ==> p.served == []
  {
    forall p | p in l && p.start == p.end ensures p.served == [] {
      var i :| 0 <= i < |l| && l[i] == p;
      assert Fits(l[i]);
      if p.served != [] {
        SomeMember(p.served);
      }
    }
  }

  /** Two agents of one process are not ordered: the later arrival wins, so the orders differ. */
  lemma SameProcessWritesDoNotConverge(v: Value, w: Value)
    requires v != w
    ensures
      var a, b := Version(v, LpId(701, 7)), Version(w, LpId(702, 7));
      var l := [NewPeriod(v, 0, LpId(0, 0))];
      Lookup(Run(l, WritesAt([a, b], 5)), 5) != Lookup(Run(l, WritesAt([b, a], 5)), 5)
  {
    var a, b := Version(v, LpId(701, 7)), Version(w, LpId(702, 7));
    var l := [NewPeriod(v, 0, LpId(0, 0))];
    assert Find(l, 5) == 0;
    LaterWins(l, a, b);
    LaterWins(l, b, a);
  }

  lemma LaterWins(l: Timeline, a: Version, b: Version)
    requires Good(l) && Find(l, 5) >= 0 && 5 !in Live(l) && !a.agent.Greater(b.agent)
    ensures Lookup(Run(l, WritesAt([a, b], 5)), 5).Some?
    ensures Lookup(Run(l, WritesAt([a, b], 5)), 5).value.version == b
  {
    hide Filter;
    RunFirst(l, [a, b], 5);
    assert [a, b][1..] == [b];
    WriteAtContestedTime(l, a, 5);
    var m := WriteEffect(l, a.agent, a.value, 5).after;
    RunContest(m, [b], 5);
    assert [b][1..] == [];
    VersionAt(Run(m, WritesAt([b], 5)), 5);
  }

  lemma VersionAt(l: Timeline, t: nat)
    requires Good(l) && t in Live(l)
    ensures Lookup(l, t).Some? && Lookup(l, t).value.version == Live(l)[t]
  {
    LookupAnswersHistory(l, t);
    var k :| Latest(Live(l), t, k) && Live(l)[k] == Lookup(l, t).value.version;
  }
}
