/** A CLP taking part in migration: what the two handlers do to its variables and its table. */
module Clps {
  import opened Arrows
  import opened LpIds
  import opened Migration
  import opened RouteTables
  import opened Routers
  import opened SharedStates
  import opened Timelines
  import opened WritePeriods

  /** Some message takes the agent of `a`, or one the rollback list cannot tell from it, back far enough. */
  ghost predicate RolledBack(sent: seq<RollbackMessage>, a: Access, delay: nat) {
    exists m :: m in sent && Equivalent(m.agent, a.agent) && m.time <= a.time + delay
  }

  ghost predicate AllRolledBack(sent: seq<RollbackMessage>, accesses: seq<Access>, delay: nat) {
    forall a :: a in accesses ==> RolledBack(sent, a, delay)
  }

  /** Every reader recorded in the periods is sent back to the start of the period it read, one later. */
  ghost predicate ReadersRolledBack(sent: seq<RollbackMessage>, l: Timeline) {
    AllRolledBack(sent, ChargesOf(l), 1)
  }

  /** The message goes from here to the process of its agent, and takes it back to the time of one of the accesses. */
  ghost predicate StemsFrom(m: RollbackMessage, rank: nat, accesses: seq<Access>, delay: nat) {
    m.origin == rank && m.destination == m.agent.rank &&
    exists a :: a in accesses && Equivalent(m.agent, a.agent) && m.time == a.time + delay
  }

  /** What giving a variable away charges, or what taking one in does. */
  function ChargesFor(l: Timeline, givenAway: bool): seq<Access> {
    if givenAway then ChargesOf(l) else ReplayCharges([], l)
  }

  /** No message goes out but for one of the variables of `done`. */
  ghost predicate OnlyFor(sent: seq<RollbackMessage>, rank: nat, variables: map<SsvId, Timeline>, done: set<SsvId>, givenAway: bool) {
    forall m :: m in sent ==> IsFor(m, rank, variables, done, givenAway)
  }

  ghost predicate IsFor(m: RollbackMessage, rank: nat, variables: map<SsvId, Timeline>, done: set<SsvId>, givenAway: bool) {
    exists v: SsvId :: v in done && v in variables && StemsFrom(m, rank, ChargesFor(variables[v], givenAway), if givenAway then 1 else 0)
  }

  lemma OnlyForOneMore(sent: seq<RollbackMessage>, more: seq<RollbackMessage>, rank: nat, variables: map<SsvId, Timeline>,
                       done: set<SsvId>, v: SsvId, givenAway: bool)
    requires OnlyFor(sent, rank, variables, done, givenAway) && v in variables
    requires forall m :: m in more ==> StemsFrom(m, rank, ChargesFor(variables[v], givenAway), if givenAway then 1 else 0)
    ensures OnlyFor(sent + more, rank, variables, done + {v}, givenAway)
  {
    hide StemsFrom, ChargesFor;
    forall m | m in sent + more ensures IsFor(m, rank, variables, done + {v}, givenAway) {
      if m in sent {
        assert IsFor(m, rank, variables, done, givenAway);
      }
    }
  }

  lemma OnlyForMore(sent: seq<RollbackMessage>, more: seq<RollbackMessage>, rank: nat, variables: map<SsvId, Timeline>,
                    left: map<SsvId, Timeline>, done: set<SsvId>, vs: set<SsvId>, givenAway: bool)
    requires OnlyFor(sent, rank, variables, done, givenAway) && OnlyFor(more, rank, left, vs, givenAway)
    requires forall v :: v in left ==> v in variables && left[v] == variables[v]
    ensures OnlyFor(sent + more, rank, variables, done + vs, givenAway)
  {
    hide StemsFrom, ChargesFor;
    forall m | m in sent + more ensures IsFor(m, rank, variables, done + vs, givenAway) {
      assert IsFor(m, rank, variables, done, givenAway) || IsFor(m, rank, left, vs, givenAway);
    }
  }

  lemma DrainStems(rank: nat, list: map<LpId, nat>, accesses: seq<Access>, m: RollbackMessage, delay: nat)
    requires Charged(map[], list, accesses) && IsRollback(m, rank, list, delay)
    ensures StemsFrom(m, rank, accesses, delay)
  {
    hide Equivalent, Covers;
    assert Explained(map[], m.agent, list[m.agent], accesses);
  }

  lemma DrainRollsBack(sent: seq<RollbackMessage>, rank: nat, list: map<LpId, nat>, a: Access, delay: nat)
    requires Covers(list, a)
    requires forall m :: m in sent <==> IsRollback(m, rank, list, delay)
    ensures RolledBack(sent, a, delay)
  {
    var k :| k in list && Equivalent(k, a.agent) && list[k] <= a.time;
    hide Equivalent;
    assert IsRollback(RollbackMessage(rank, k.rank, list[k] + delay, k), rank, list, delay);
  }

  lemma StayRolledBack(sent: seq<RollbackMessage>, more: seq<RollbackMessage>, accesses: seq<Access>, delay: nat)
    requires AllRolledBack(sent, accesses, delay) || AllRolledBack(more, accesses, delay)
    ensures AllRolledBack(sent + more, accesses, delay)
  {
    forall a | a in accesses ensures RolledBack(sent + more, a, delay) {
      assert RolledBack(sent, a, delay) || RolledBack(more, a, delay);
      hide Equivalent;
    }
  }

  lemma ReadersStayRolledBack(sent: seq<RollbackMessage>, more: seq<RollbackMessage>, l: Timeline)
    requires ReadersRolledBack(sent, l) || ReadersRolledBack(more, l)
    ensures ReadersRolledBack(sent + more, l)
  {
    StayRolledBack(sent, more, ChargesOf(l), 1);
  }

  /** The variables the configuration lists for a CLP. */
  function OwnList(placement: seq<(nat, seq<SsvId>)>, rank: nat): seq<SsvId> {
    if placement == [] then []
    else if placement[0].0 == rank then placement[0].1
    else OwnList(placement[1..], rank)
  }

  ghost predicate NoDuplicates(vs: seq<SsvId>) {
    forall i, j :: 0 <= i < j < |vs| ==> vs[i] != vs[j]
  }

  /** Initial periods of the listed variables; the initial writer is agent (0, 0). */
  ghost function Initial(vs: seq<SsvId>, values: map<SsvId, Value>, startTime: nat): map<SsvId, Timeline>
    requires forall v :: v in vs ==> v in values
  {
    map v: SsvId | v in vs :: [NewPeriod(values[v], startTime, LpId(0, 0))]
  }

  function Listed(vs: seq<SsvId>): set<SsvId> {
    set v: SsvId | v in vs
  }

  lemma ListedStep(vs: seq<SsvId>, i: nat)
    requires i < |vs| && NoDuplicates(vs)
    ensures Listed(vs[..i + 1]) == Listed(vs[..i]) + {vs[i]} && vs[i] !in Listed(vs[..i])
  {
  }

  /** The variables of `done` are sent off. */
  ghost predicate SentOff(before: map<SsvId, Timeline>, after: map<SsvId, Timeline>, table: Routes, turned: Routes,
                          done: set<SsvId>, direction: Direction, copies: map<SsvId, Timeline>, rank: nat, sent: seq<RollbackMessage>)
  {
    && done <= before.Keys
    && after == before - done
    && turned == Redirect(table, done, direction)
    && copies == (map v: SsvId | v in done :: before[v])
    && (forall v: SsvId :: v in done ==> ReadersRolledBack(sent, before[v]))
    && OnlyFor(sent, rank, before, done, true)
  }

  lemma RedirectTwice(table: Routes, vs: set<SsvId>, v: SsvId, direction: Direction)
    ensures Redirect(Redirect(table, vs, direction), {v}, direction) == Redirect(table, vs + {v}, direction)
  {
  }

  lemma OneEntry(table: Routes, v: SsvId, direction: Direction)
    ensures Redirect(table, {v}, direction) == table.(toVariable := table.toVariable[v := direction])
  {
  }

  lemma LeftAfterRemoval(before: map<SsvId, Timeline>, v: SsvId)
    ensures before[v := []] - {v} == before - {v}
  {
  }

  lemma OneLess(before: map<SsvId, Timeline>, done: set<SsvId>, v: SsvId)
    requires done <= before.Keys && v in before
    ensures before - done - {v} == before - (done + {v})
    ensures (map w: SsvId | w in done :: before[w])[v := before[v]] == (map w: SsvId | w in done + {v} :: before[w])
  {
  }

  lemma SentOffStep(before: map<SsvId, Timeline>, after: map<SsvId, Timeline>, table: Routes, turned: Routes,
                    done: set<SsvId>, v: SsvId, direction: Direction, copies: map<SsvId, Timeline>,
                    rank: nat, sent: seq<RollbackMessage>, more: seq<RollbackMessage>)
    requires SentOff(before, after, table, turned, done, direction, copies, rank, sent)
    requires v in before && ReadersRolledBack(more, before[v]) && forall m :: m in more ==> StemsFrom(m, rank, ChargesOf(before[v]), 1)
    ensures SentOff(before, after - {v}, table, Redirect(turned, {v}, direction), done + {v}, direction,
                    copies[v := before[v]], rank, sent + more)
  {
    RedirectTwice(table, done, v, direction);
    OneLess(before, done, v);
    hide ReadersRolledBack, Redirect, StemsFrom, OnlyFor;
    OnlyForOneMore(sent, more, rank, before, done, v, true);
    forall w: SsvId | w in done + {v} ensures ReadersRolledBack(sent + more, before[w]) {
      ReadersStayRolledBack(sent, more, before[w]);
    }
  }

  lemma SentOffHolds(before: map<SsvId, Timeline>, after: map<SsvId, Timeline>, table: Routes, turned: Routes,
                     done: set<SsvId>, v: SsvId, direction: Direction, copies: map<SsvId, Timeline>, rank: nat, sent: seq<RollbackMessage>)
    requires SentOff(before, after, table, turned, done, direction, copies, rank, sent) && v in before && v !in done
    ensures v in after && after[v] == before[v]
  {
  }

  lemma AllSentOff(before: map<SsvId, Timeline>, after: map<SsvId, Timeline>, table: Routes, turned: Routes,
                   vs: seq<SsvId>, direction: Direction, copies: map<SsvId, Timeline>, rank: nat, sent: seq<RollbackMessage>)
    requires SentOff(before, after, table, turned, Listed(vs), direction, copies, rank, sent)
    ensures forall v: SsvId :: v in vs ==> v in before && ReadersRolledBack(sent, before[v])
    ensures after == before - Listed(vs) && turned == Redirect(table, Listed(vs), direction)
    ensures copies == map v: SsvId | v in vs :: before[v]
    ensures OnlyFor(sent, rank, before, Listed(vs), true)
  {
    hide OnlyFor;
  }

  // ---- All messages of one migration ----

  function Moved(moves: seq<(Direction, seq<SsvId>)>, i: nat): set<SsvId>
    requires i <= |moves|
  {
    if i == 0 then {} else Moved(moves, i - 1) + Listed(moves[i - 1].1)
  }

  function Turned(table: Routes, moves: seq<(Direction, seq<SsvId>)>, i: nat): Routes
    requires i <= |moves|
  {
    if i == 0 then table else Redirect(Turned(table, moves, i - 1), Listed(moves[i - 1].1), moves[i - 1].0)
  }

  /** Every variable is listed once, under a port that leads somewhere, and is here. */
  ghost predicate MovesAreValid(moves: seq<(Direction, seq<SsvId>)>, table: Routes, variables: map<SsvId, Timeline>) {
    && (forall i :: 0 <= i < |moves| ==> moves[i].0 in table.atPort && NoDuplicates(moves[i].1))
    && (forall i, v :: 0 <= i < |moves| && v in moves[i].1 ==> v in variables && v !in Moved(moves, i))
  }

  function Copies(variables: map<SsvId, Timeline>, vs: seq<SsvId>): map<SsvId, Timeline> {
    map v: SsvId | v in vs && v in variables :: variables[v]
  }

  ghost predicate Moving(before: map<SsvId, Timeline>, after: map<SsvId, Timeline>, table: Routes, turned: Routes, rank: nat,
                         moves: seq<(Direction, seq<SsvId>)>, messages: seq<MigrationMessage>, sent: seq<RollbackMessage>) {
    && |messages| <= |moves| && MovesAreValid(moves, table, before)
    && after == before - Moved(moves, |messages|)
    && turned == Turned(table, moves, |messages|)
    && (forall i :: 0 <= i < |messages| ==>
          messages[i] == MigrationMessage(rank, table.atPort[moves[i].0], Copies(before, moves[i].1)))
    && (forall v: SsvId :: v in Moved(moves, |messages|) && v in before ==> ReadersRolledBack(sent, before[v]))
    && OnlyFor(sent, rank, before, Moved(moves, |messages|), true)
  }

  lemma {:induction false} TurnedKeepsPorts(table: Routes, moves: seq<(Direction, seq<SsvId>)>, i: nat)
    requires i <= |moves|
    ensures Turned(table, moves, i).atPort == table.atPort
  {
    if i > 0 {
      TurnedKeepsPorts(table, moves, i - 1);
    }
  }

  lemma MovingNext(before: map<SsvId, Timeline>, after: map<SsvId, Timeline>, table: Routes, turned: Routes, rank: nat,
                   moves: seq<(Direction, seq<SsvId>)>, messages: seq<MigrationMessage>, sent: seq<RollbackMessage>)
    requires Moving(before, after, table, turned, rank, moves, messages, sent) && |messages| < |moves|
    ensures NoDuplicates(moves[|messages|].1) && moves[|messages|].0 in turned.atPort
    ensures forall v :: v in moves[|messages|].1 ==> v in after
  {
    TurnedKeepsPorts(table, moves, |messages|);
  }

  lemma LaterCopies(before: map<SsvId, Timeline>, moved: set<SsvId>, vs: seq<SsvId>)
    requires forall v :: v in vs ==> v in before && v !in moved
    ensures (before - moved) - Listed(vs) == before - (moved + Listed(vs))
    ensures (map v: SsvId | v in vs :: (before - moved)[v]) == Copies(before, vs)
    ensures forall v: SsvId :: v in Listed(vs) <==> v in vs
  {
  }

  lemma MovingStep(before: map<SsvId, Timeline>, after: map<SsvId, Timeline>, table: Routes, turned: Routes, rank: nat,
                   moves: seq<(Direction, seq<SsvId>)>, messages: seq<MigrationMessage>, sent: seq<RollbackMessage>,
                   next: MigrationMessage, more: seq<RollbackMessage>)
    requires Moving(before, after, table, turned, rank, moves, messages, sent) && |messages| < |moves|
    requires moves[|messages|].0 in turned.atPort && forall v :: v in moves[|messages|].1 ==> v in after
    requires next == MigrationMessage(rank, turned.atPort[moves[|messages|].0], map v: SsvId | v in moves[|messages|].1 :: after[v])
    requires forall v: SsvId :: v in moves[|messages|].1 ==> ReadersRolledBack(more, after[v])
    requires OnlyFor(more, rank, after, Listed(moves[|messages|].1), true)
    ensures Moving(before, after - Listed(moves[|messages|].1), table,
                   Redirect(turned, Listed(moves[|messages|].1), moves[|messages|].0), rank, moves, messages + [next], sent + more)
  {
    var i := |messages|;
    TurnedKeepsPorts(table, moves, i);
    LaterCopies(before, Moved(moves, i), moves[i].1);
    OnlyForMore(sent, more, rank, before, after, Moved(moves, i), Listed(moves[i].1), true);
    hide ReadersRolledBack, Redirect, Listed, Copies, NoDuplicates, OnlyFor;
    forall v: SsvId | v in Moved(moves, i + 1) && v in before ensures ReadersRolledBack(sent + more, before[v]) {
      if v in Moved(moves, i) {
        ReadersStayRolledBack(sent, more, before[v]);
      } else {
        assert v in Listed(moves[i].1);
        ReadersStayRolledBack(sent, more, before[v]);
      }
    }
  }

  lemma {:induction false} MovedMembers(moves: seq<(Direction, seq<SsvId>)>, i: nat, v: SsvId)
    requires i <= |moves|
    ensures v in Moved(moves, i) <==> exists j :: 0 <= j < i && v in moves[j].1
  {
    if i > 0 {
      MovedMembers(moves, i - 1, v);
    }
  }

  lemma RedirectEntry(table: Routes, vs: seq<SsvId>, d: Direction, v: SsvId)
    ensures var turned := Redirect(table, Listed(vs), d);
            && turned.toRank == table.toRank && turned.atPort == table.atPort
            && (v in turned.toVariable <==> v in vs || v in table.toVariable)
            && (v in turned.toVariable ==> turned.toVariable[v] == if v in vs then d else table.toVariable[v])
  {
  }

  /** The entry of a variable after some of the moves: turned by the one that lists it. */
  lemma {:induction false} TurnedEntry(table: Routes, moves: seq<(Direction, seq<SsvId>)>, variables: map<SsvId, Timeline>, k: nat, v: SsvId)
    requires MovesAreValid(moves, table, variables) && k <= |moves|
    ensures var turned := Turned(table, moves, k);
            && turned.toRank == table.toRank && turned.atPort == table.atPort
            && (v in turned.toVariable <==> v in Moved(moves, k) || v in table.toVariable)
            && (v in table.toVariable && v !in Moved(moves, k) ==> turned.toVariable[v] == table.toVariable[v])
            && (forall i :: 0 <= i < k && v in moves[i].1 ==> v in Moved(moves, k) && turned.toVariable[v] == moves[i].0)
  {
    hide Redirect, NoDuplicates, MovesAreValid;
    if k > 0 {
      TurnedEntry(table, moves, variables, k - 1, v);
      ListedOnce(table, moves, variables, k - 1, v);
      RedirectEntry(Turned(table, moves, k - 1), moves[k - 1].1, moves[k - 1].0, v);
    }
  }

  lemma ListedOnce(table: Routes, moves: seq<(Direction, seq<SsvId>)>, variables: map<SsvId, Timeline>, k: nat, v: SsvId)
    requires MovesAreValid(moves, table, variables) && k < |moves|
    ensures v in moves[k].1 ==> v !in Moved(moves, k)
  {
    if v in moves[k].1 {
      assert v in variables && v !in Moved(moves, k);
    }
  }

  /** What all moves have done, variable by variable. */
  ghost predicate GaveAway(before: map<SsvId, Timeline>, after: map<SsvId, Timeline>, table: Routes, turned: Routes,
                           moves: seq<(Direction, seq<SsvId>)>, v: SsvId) {
    && (forall i :: 0 <= i < |moves| && v in moves[i].1 ==>
          v in before && v !in after && v in turned.toVariable && turned.toVariable[v] == moves[i].0)
    && ((forall i :: 0 <= i < |moves| ==> v !in moves[i].1) ==>
          && (v in after <==> v in before) && (v in before ==> after[v] == before[v])
          && (v in turned.toVariable <==> v in table.toVariable)
          && (v in table.toVariable ==> turned.toVariable[v] == table.toVariable[v]))
  }

  lemma MovesGiveAway(before: map<SsvId, Timeline>, after: map<SsvId, Timeline>, table: Routes, turned: Routes, rank: nat,
                      moves: seq<(Direction, seq<SsvId>)>, messages: seq<MigrationMessage>, sent: seq<RollbackMessage>, v: SsvId)
    requires Moving(before, after, table, turned, rank, moves, messages, sent) && |messages| == |moves|
    ensures GaveAway(before, after, table, turned, moves, v)
    ensures turned.toRank == table.toRank && turned.atPort == table.atPort
  {
    TurnedEntry(table, moves, before, |moves|, v);
    MovedMembers(moves, |moves|, v);
    hide OnlyFor, ReadersRolledBack, Copies, Turned, Moved;
  }

  /** What the messages carry. */
  ghost predicate TakesAlong(message: MigrationMessage, rank: nat, destination: nat, before: map<SsvId, Timeline>, vs: seq<SsvId>) {
    && message.origin == rank && message.destination == destination
    && (forall v :: v in message.variables <==> v in vs)
    && (forall v :: v in vs ==> v in before && message.variables[v] == before[v])
  }

  lemma MessagesCarry(before: map<SsvId, Timeline>, after: map<SsvId, Timeline>, table: Routes, turned: Routes, rank: nat,
                      moves: seq<(Direction, seq<SsvId>)>, messages: seq<MigrationMessage>, sent: seq<RollbackMessage>, i: nat)
    requires Moving(before, after, table, turned, rank, moves, messages, sent) && i < |messages| == |moves|
    ensures TakesAlong(messages[i], rank, table.atPort[moves[i].0], before, moves[i].1)
  {
    hide OnlyFor, ReadersRolledBack, Turned, Moved;
    assert forall v :: v in moves[i].1 ==> v in before;
  }

  /** The rollbacks that go with the moves: every reader of a variable given away goes back to the start of the
      period it read, one later, and nobody else is sent anything. */
  ghost predicate ReadersSentBack(before: map<SsvId, Timeline>, moves: seq<(Direction, seq<SsvId>)>, rank: nat, sent: seq<RollbackMessage>) {
    && (forall v, k, a :: IsReaderOf(before, moves, v, k, a) ==>
          exists m :: m in sent && Equivalent(m.agent, a.agent) && m.time <= before[v][k].start + 1)
    && (forall m :: m in sent ==>
          && m.origin == rank && m.destination == m.agent.rank
          && exists v, k, a :: IsReaderOf(before, moves, v, k, a) && Equivalent(m.agent, a.agent) && m.time == before[v][k].start + 1)
  }

  /** The read is recorded in period `k` of a variable that is given away. */
  ghost predicate IsReaderOf(before: map<SsvId, Timeline>, moves: seq<(Direction, seq<SsvId>)>, v: SsvId, k: int, a: Access) {
    && (exists i :: 0 <= i < |moves| && v in moves[i].1)
    && v in before && 0 <= k < |before[v]| && a in before[v][k].served
  }

  lemma ReaderSentBack(before: map<SsvId, Timeline>, moves: seq<(Direction, seq<SsvId>)>, sent: seq<RollbackMessage>, v: SsvId, k: int, a: Access)
    requires IsReaderOf(before, moves, v, k, a) && ReadersRolledBack(sent, before[v])
    ensures exists m :: m in sent && Equivalent(m.agent, a.agent) && m.time <= before[v][k].start + 1
  {
    hide Equivalent;
    var c := Access(a.agent, before[v][k].start);
    ChargesAreStarts(before[v], c);
    assert RolledBack(sent, c, 1);
  }

  lemma StemOf(m: RollbackMessage, rank: nat, accesses: seq<Access>) returns (c: Access)
    requires StemsFrom(m, rank, accesses, 1)
    ensures c in accesses && Equivalent(m.agent, c.agent) && m.time == c.time + 1
    ensures m.origin == rank && m.destination == m.agent.rank
  {
    hide Equivalent;
    c :| c in accesses && Equivalent(m.agent, c.agent) && m.time == c.time + 1;
  }

  lemma SentBackIsReader(before: map<SsvId, Timeline>, moves: seq<(Direction, seq<SsvId>)>, rank: nat, sent: seq<RollbackMessage>, m: RollbackMessage)
    requires OnlyFor(sent, rank, before, Moved(moves, |moves|), true) && m in sent
    ensures m.origin == rank && m.destination == m.agent.rank
    ensures exists v, k, a :: IsReaderOf(before, moves, v, k, a) && Equivalent(m.agent, a.agent) && m.time == before[v][k].start + 1
  {
    hide Equivalent, ChargesOf, Moved;
    assert IsFor(m, rank, before, Moved(moves, |moves|), true);
    var v: SsvId :| v in Moved(moves, |moves|) && v in before && StemsFrom(m, rank, ChargesFor(before[v], true), 1);
    MovedMembers(moves, |moves|, v);
    var c := StemOf(m, rank, ChargesOf(before[v]));
    ChargesAreStarts(before[v], c);
    hide OnlyFor, StemsFrom, ChargesFor;
    var k, b :| 0 <= k < |before[v]| && b in before[v][k].served && b.agent == c.agent && before[v][k].start == c.time;
    assert IsReaderOf(before, moves, v, k, b);
  }

  lemma MovesSendBack(before: map<SsvId, Timeline>, after: map<SsvId, Timeline>, table: Routes, turned: Routes, rank: nat,
                      moves: seq<(Direction, seq<SsvId>)>, messages: seq<MigrationMessage>, sent: seq<RollbackMessage>)
    requires Moving(before, after, table, turned, rank, moves, messages, sent) && |messages| == |moves|
    ensures ReadersSentBack(before, moves, rank, sent)
  {
    hide Equivalent, OnlyFor, ReadersRolledBack, Copies, Turned, Moved;
    forall v, k, a | IsReaderOf(before, moves, v, k, a)
      ensures exists m :: m in sent && Equivalent(m.agent, a.agent) && m.time <= before[v][k].start + 1
    {
      MovedMembers(moves, |moves|, v);
      ReaderSentBack(before, moves, sent, v, k, a);
    }
    forall m | m in sent
      ensures m.origin == rank && m.destination == m.agent.rank
      ensures exists v, k, a :: IsReaderOf(before, moves, v, k, a) && Equivalent(m.agent, a.agent) && m.time == before[v][k].start + 1
    {
      SentBackIsReader(before, moves, rank, sent, m);
    }
  }

  lemma MovesDone(before: map<SsvId, Timeline>, after: map<SsvId, Timeline>, table: Routes, turned: Routes, rank: nat,
                  moves: seq<(Direction, seq<SsvId>)>, messages: seq<MigrationMessage>, sent: seq<RollbackMessage>)
    requires Moving(before, after, table, turned, rank, moves, messages, sent) && |messages| == |moves|
    ensures MovesAreValid(moves, table, before)
    ensures forall i :: 0 <= i < |moves| ==> TakesAlong(messages[i], rank, table.atPort[moves[i].0], before, moves[i].1)
    ensures forall v :: GaveAway(before, after, table, turned, moves, v)
    ensures turned.toRank == table.toRank && turned.atPort == table.atPort
    ensures ReadersSentBack(before, moves, rank, sent)
  {
    hide *;
    assert MovesAreValid(moves, table, before) by { MovingIsValid(before, after, table, turned, rank, moves, messages, sent); }
    MovesSendBack(before, after, table, turned, rank, moves, messages, sent);
    forall i | 0 <= i < |moves| ensures moves[i].0 in table.atPort && TakesAlong(messages[i], rank, table.atPort[moves[i].0], before, moves[i].1) {
      MovingIsValid(before, after, table, turned, rank, moves, messages, sent);
      MessagesCarry(before, after, table, turned, rank, moves, messages, sent, i);
    }
    forall v ensures GaveAway(before, after, table, turned, moves, v) {
      MovesGiveAway(before, after, table, turned, rank, moves, messages, sent, v);
    }
    MovesGiveAway(before, after, table, turned, rank, moves, messages, sent, 0);
  }

  lemma MovingIsValid(before: map<SsvId, Timeline>, after: map<SsvId, Timeline>, table: Routes, turned: Routes, rank: nat,
                      moves: seq<(Direction, seq<SsvId>)>, messages: seq<MigrationMessage>, sent: seq<RollbackMessage>)
    requires Moving(before, after, table, turned, rank, moves, messages, sent)
    ensures MovesAreValid(moves, table, before) && forall i :: 0 <= i < |moves| ==> moves[i].0 in table.atPort
  {
    hide OnlyFor, ReadersRolledBack, Copies, Turned, Moved;
  }

  // ---- Taking a message in ----

  /** The variables of `done` are replayed, their entries turned and the readers they charged rolled back. */
  ghost predicate TakenIn(before: map<SsvId, Timeline>, after: map<SsvId, Timeline>, table: Routes, turned: Routes,
                          copies: map<SsvId, Timeline>, done: set<SsvId>, rank: nat, sent: seq<RollbackMessage>) {
    && done <= copies.Keys
    && after == before + (map v: SsvId | v in done :: ReplayWrites([], copies[v]))
    && turned == Redirect(table, done, HERE)
    && (forall v: SsvId :: v in done ==> AllRolledBack(sent, ReplayCharges([], copies[v]), 0))
    && OnlyFor(sent, rank, copies, done, false)
  }

  lemma NothingTakenIn(before: map<SsvId, Timeline>, table: Routes, copies: map<SsvId, Timeline>, rank: nat)
    ensures TakenIn(before, before, table, table, copies, copies.Keys - copies.Keys, rank, [])
  {
  }

  lemma TakenInHolds(before: map<SsvId, Timeline>, after: map<SsvId, Timeline>, table: Routes, turned: Routes,
                     copies: map<SsvId, Timeline>, done: set<SsvId>, rank: nat, sent: seq<RollbackMessage>, v: SsvId)
    requires TakenIn(before, after, table, turned, copies, done, rank, sent) && v !in done
    ensures v in after <==> v in before
  {
  }

  lemma TakenInStep(before: map<SsvId, Timeline>, after: map<SsvId, Timeline>, table: Routes, turned: Routes,
                    copies: map<SsvId, Timeline>, done: set<SsvId>, rank: nat, sent: seq<RollbackMessage>, v: SsvId,
                    more: seq<RollbackMessage>)
    requires TakenIn(before, after, table, turned, copies, done, rank, sent) && v in copies
    requires AllRolledBack(more, ReplayCharges([], copies[v]), 0)
    requires forall m :: m in more ==> StemsFrom(m, rank, ReplayCharges([], copies[v]), 0)
    ensures TakenIn(before, after[v := ReplayWrites([], copies[v])], table, Redirect(turned, {v}, HERE), copies, done + {v}, rank, sent + more)
  {
    RedirectTwice(table, done, v, HERE);
    hide AllRolledBack, Redirect, ReplayWrites, ReplayCharges, StemsFrom, OnlyFor;
    OnlyForOneMore(sent, more, rank, copies, done, v, false);
    forall w: SsvId | w in done + {v} ensures AllRolledBack(sent + more, ReplayCharges([], copies[w]), 0) {
      StayRolledBack(sent, more, ReplayCharges([], copies[w]), 0);
    }
  }

  lemma AllTakenIn(before: map<SsvId, Timeline>, after: map<SsvId, Timeline>, table: Routes, turned: Routes,
                   copies: map<SsvId, Timeline>, rank: nat, sent: seq<RollbackMessage>)
    requires TakenIn(before, after, table, turned, copies, copies.Keys, rank, sent) && copies.Keys !! before.Keys
    ensures forall v :: v in after <==> v in before || v in copies
    ensures forall v :: v in copies ==> after[v] == ReplayWrites([], copies[v])
    ensures forall v :: v in before ==> after[v] == before[v]
    ensures forall v :: v in copies ==> v in turned.toVariable && turned.toVariable[v] == HERE
    ensures forall v :: v !in copies ==> (v in turned.toVariable <==> v in table.toVariable)
    ensures forall v :: v !in copies && v in turned.toVariable ==> turned.toVariable[v] == table.toVariable[v]
    ensures turned.toRank == table.toRank && turned.atPort == table.atPort
    ensures forall v :: v in copies ==> AllRolledBack(sent, ReplayCharges([], copies[v]), 0)
    ensures OnlyFor(sent, rank, copies, copies.Keys, false)
  {
    hide OnlyFor, AllRolledBack, ReplayWrites, ReplayCharges;
  }

  lemma InitialStep(vs: seq<SsvId>, i: nat, values: map<SsvId, Value>, startTime: nat)
    requires NoDuplicates(vs) && i < |vs| && forall v :: v in vs ==> v in values
    ensures vs[i] !in Initial(vs[..i], values, startTime)
    ensures Initial(vs[..i + 1], values, startTime) ==
            Initial(vs[..i], values, startTime)[vs[i] := [NewPeriod(values[vs[i]], startTime, LpId(0, 0))]]
  {
    hide NewPeriod;
  }

  class Clp {
    const rank: nat
    const sharedState: SharedState
    const router: Router

    constructor (rank: nat, n: nat, homes: seq<nat>, placement: seq<(nat, seq<SsvId>)>, values: map<SsvId, Value>,
                 startTime: nat)
      requires rank < n <= 0x7FFF_FFFF
      requires PortsSuffice(n, homes, rank) && forall i :: 0 <= i < |homes| ==> homes[i] < n
      requires forall i :: 0 <= i < |placement| ==> placement[i].0 < n
      requires NoDuplicates(OwnList(placement, rank)) && forall v :: v in OwnList(placement, rank) ==> v in values
      ensures Valid() && this.rank == rank
      ensures forall v :: v in Variables() <==> v in OwnList(placement, rank)
      ensures forall v :: v in Variables() ==> Variables()[v] == [Period(startTime, ULONG_MAX, values[v], LpId(0, 0), [])]
      ensures RoutesClps(Table(), n, rank)
      ensures RoutesAlps(Table(), n, homes, rank)
      ensures RoutesVariables(Table().toVariable, placement, rank)
    {
      this.rank := rank;
      sharedState := new SharedState();
      router := new Router(rank, n, homes, placement);
      new;
      hide SharedState.Valid, SharedState.View, RoutesClps, RoutesAlps, RoutesVariables, PortsSuffice, OwnList;
      var own := OwnList(placement, rank);
      ghost var table := Table();
      for i := 0 to |own|
        invariant Valid() && fresh(sharedState.Repr)
        invariant Variables() == Initial(own[..i], values, startTime)
        invariant fresh(router.routeTable) && Table() == table
      {
        sharedState.ViewKeys();
        InitialStep(own, i, values, startTime);
        var ok := sharedState.Add(own[i], values[own[i]], startTime, LpId(0, 0));
      }
      assert own[..|own|] == own;
    }

    ghost predicate Valid()
      reads this, sharedState, sharedState.Repr
    {
      sharedState.Valid() && router.routeTable !in sharedState.Repr
    }

    ghost function Table(): Routes
      reads router.routeTable
    {
      router.routeTable.View()
    }

    ghost function Variables(): map<SsvId, Timeline>
      requires Valid()
      reads this, sharedState, sharedState.Repr
    {
      sharedState.View()
    }

    /** One variable leaves: its periods are copied, its entry is turned, its readers are rolled back. */
    method SendOff(v: SsvId, direction: Direction) returns (copy: Timeline, sent: seq<RollbackMessage>)
      requires Valid() && v in Variables()
      modifies sharedState, sharedState.Repr, router.routeTable
      ensures Valid() && sharedState.Repr == old(sharedState.Repr)
      ensures Variables() == old(Variables()) - {v} && copy == old(Variables())[v]
      ensures Table() == Redirect(old(Table()), {v}, direction)
      ensures ReadersRolledBack(sent, copy) && forall m :: m in sent ==> StemsFrom(m, rank, ChargesOf(copy), 1)
    {
      hide StemsFrom, Charged, SharedState.Valid, SharedState.View, AllRolledBack, Redirect;
      OneEntry(Table(), v, direction);
      LeftAfterRemoval(Variables(), v);
      sharedState.ViewKeys();
      var c := sharedState.GetCopy(v);
      copy := c.value;
      router.SetSsvIdDirection(v, direction);
      var rollbackList := new RollbackList();
      var ok := sharedState.RemoveWritePeriodList(v, rollbackList);
      ok := sharedState.Delete(v);
      sent := SendRollbacks(rollbackList, true, ChargesOf(copy));
    }

    /** One message to the CLP behind a port carries all the variables listed for it; None stands for the
        process exiting because nothing is behind that port. */
    method MigrateTo(direction: Direction, vs: seq<SsvId>)
      returns (message: Option<MigrationMessage>, sent: seq<RollbackMessage>)
      requires Valid() && NoDuplicates(vs) && forall v :: v in vs ==> v in Variables()
      modifies sharedState, sharedState.Repr, router.routeTable
      ensures Valid() && sharedState.Repr == old(sharedState.Repr)
      ensures message.Some? <==> direction in old(Table()).atPort
      ensures message == None ==> Variables() == old(Variables()) && Table() == old(Table())
      ensures message.Some? ==>
                && message.value == MigrationMessage(rank, old(Table()).atPort[direction], map v: SsvId | v in vs :: old(Variables())[v])
                && Variables() == old(Variables()) - Listed(vs)
                && Table() == Redirect(old(Table()), Listed(vs), direction)
                && (forall v: SsvId :: v in vs ==> ReadersRolledBack(sent, old(Variables())[v]))
                && OnlyFor(sent, rank, old(Variables()), Listed(vs), true)
    {
      hide OnlyFor, SharedState.Valid, SharedState.View, ReadersRolledBack, Redirect, Listed, NoDuplicates;
      var destination := router.GetLpRankByDirection(direction);
      if destination == None {
        return None, [];
      }
      var copies, rollbacks := SendAllOff(direction, vs);
      return Some(MigrationMessage(rank, destination.value, copies)), rollbacks;
    }

    method SendAllOff(direction: Direction, vs: seq<SsvId>) returns (copies: map<SsvId, Timeline>, sent: seq<RollbackMessage>)
      requires Valid() && NoDuplicates(vs) && forall v :: v in vs ==> v in Variables()
      modifies sharedState, sharedState.Repr, router.routeTable
      ensures Valid() && sharedState.Repr == old(sharedState.Repr)
      ensures copies == map v: SsvId | v in vs :: old(Variables())[v]
      ensures Variables() == old(Variables()) - Listed(vs)
      ensures Table() == Redirect(old(Table()), Listed(vs), direction)
      ensures forall v: SsvId :: v in vs ==> ReadersRolledBack(sent, old(Variables())[v])
      ensures OnlyFor(sent, rank, old(Variables()), Listed(vs), true)
    {
      copies, sent := map[], [];
      assert SentOff(old(Variables()), Variables(), old(Table()), Table(), {}, direction, copies, rank, sent);
      assert Listed(vs[..0]) == {};
      hide SharedState.Valid, SharedState.View, SentOff, Listed, Redirect, ReadersRolledBack, NoDuplicates, StemsFrom, OnlyFor;
      for i := 0 to |vs|
        invariant Valid() && sharedState.Repr == old(sharedState.Repr)
        invariant SentOff(old(Variables()), Variables(), old(Table()), Table(), Listed(vs[..i]), direction, copies, rank, sent)
      {
        ghost var here, table := Variables(), Table();
        ListedStep(vs, i);
        SentOffHolds(old(Variables()), here, old(Table()), table, Listed(vs[..i]), vs[i], direction, copies, rank, sent);
        var copy, more := SendOff(vs[i], direction);
        SentOffStep(old(Variables()), here, old(Table()), table, Listed(vs[..i]), vs[i], direction, copies, rank, sent, more);
        copies := copies[vs[i] := copy];
        sent := sent + more;
      }
      assert vs[..|vs|] == vs;
      AllSentOff(old(Variables()), Variables(), old(Table()), Table(), vs, direction, copies, rank, sent);
    }

    /** One message per port, with the variables that have their clear majority of accesses from there. */
    method MigrateStateVariables(moves: seq<(Direction, seq<SsvId>)>)
      returns (messages: seq<MigrationMessage>, sent: seq<RollbackMessage>)
      requires Valid() && MovesAreValid(moves, Table(), Variables())
      modifies sharedState, sharedState.Repr, router.routeTable
      ensures Valid() && |messages| == |moves|
      ensures forall i :: 0 <= i < |moves| ==>
                TakesAlong(messages[i], rank, old(Table()).atPort[moves[i].0], old(Variables()), moves[i].1)
      ensures forall v :: GaveAway(old(Variables()), Variables(), old(Table()), Table(), moves, v)
      ensures Table().toRank == old(Table()).toRank && Table().atPort == old(Table()).atPort
      ensures ReadersSentBack(old(Variables()), moves, rank, sent)
    {
      messages, sent := [], [];
      hide SharedState.Valid, SharedState.View, Listed, Redirect, ReadersRolledBack, StemsFrom;
      assert Moving(Variables(), Variables(), Table(), Table(), rank, moves, messages, sent);
      hide Moving, Turned, Moved, OnlyFor;
      for i := 0 to |moves|
        invariant Valid() && sharedState.Repr == old(sharedState.Repr) && |messages| == i
        invariant Moving(old(Variables()), Variables(), old(Table()), Table(), rank, moves, messages, sent)
      {
        ghost var here, table := Variables(), Table();
        MovingNext(old(Variables()), here, old(Table()), table, rank, moves, messages, sent);
        var message, more := MigrateTo(moves[i].0, moves[i].1);
        MovingStep(old(Variables()), here, old(Table()), table, rank, moves, messages, sent, message.value, more);
        messages := messages + [message.value];
        sent := sent + more;
      }
      MovesDone(old(Variables()), Variables(), old(Table()), Table(), rank, moves, messages, sent);
    }

    /** Nothing is sent for an empty list; the side that gives a variable away stamps one later. */
    method SendRollbacks(rollbackList: RollbackList, givenAway: bool, ghost accesses: seq<Access>)
      returns (sent: seq<RollbackMessage>)
      requires Charged(map[], rollbackList.list, accesses)
      modifies rollbackList
      ensures AllRolledBack(sent, accesses, if givenAway then 1 else 0)
      ensures forall m :: m in sent ==> StemsFrom(m, rank, accesses, if givenAway then 1 else 0)
    {
      sent := [];
      ghost var list, delay := rollbackList.list, if givenAway then 1 else 0;
      if rollbackList.list != map[] {
        if givenAway {
          sent := rollbackList.SendRollbacksAfterStateMigration(rank);
        } else {
          sent := rollbackList.SendRollbacks(rank);
        }
      }
      forall a | a in accesses ensures RolledBack(sent, a, delay) {
        assert Covers(list, a);
        DrainRollsBack(sent, rank, list, a, delay);
      }
      forall m | m in sent ensures StemsFrom(m, rank, accesses, delay) {
        DrainStems(rank, list, accesses, m, delay);
      }
    }

    /** The variables of a message are taken in one by one; false stands for the process exiting because
        one of them is here already. */
    method ProcessMigration(message: MigrationMessage) returns (ok: bool, sent: seq<RollbackMessage>)
      requires Valid()
      modifies sharedState, sharedState.Repr, router.routeTable
      ensures Valid() && fresh(sharedState.Repr - old(sharedState.Repr))
      ensures ok <==> message.variables.Keys !! old(Variables()).Keys
      ensures ok ==>
                && (forall v :: v in Variables() <==> v in old(Variables()) || v in message.variables)
                && (forall v :: v in message.variables ==> Variables()[v] == ReplayWrites([], message.variables[v]))
                && (forall v :: v in old(Variables()) ==> Variables()[v] == old(Variables())[v])
                && (forall v :: v in message.variables ==> v in Table().toVariable && Table().toVariable[v] == HERE)
                && (forall v :: v !in message.variables ==> (v in Table().toVariable <==> v in old(Table()).toVariable))
                && (forall v :: v !in message.variables && v in Table().toVariable ==> Table().toVariable[v] == old(Table()).toVariable[v])
                && Table().toRank == old(Table()).toRank && Table().atPort == old(Table()).atPort
                && (forall v :: v in message.variables ==> AllRolledBack(sent, ReplayCharges([], message.variables[v]), 0))
                && OnlyFor(sent, rank, message.variables, message.variables.Keys, false)
    {
      var todo: set<SsvId> := message.variables.Keys;
      sent := [];
      hide SharedState.Valid, SharedState.View, Redirect, ReplayWrites, ReplayCharges, Charged, StemsFrom;
      NothingTakenIn(Variables(), Table(), message.variables, rank);
      hide TakenIn;
      while todo != {}
        invariant todo <= message.variables.Keys && message.variables.Keys - todo !! old(Variables()).Keys
        invariant Valid() && fresh(sharedState.Repr - old(sharedState.Repr))
        invariant TakenIn(old(Variables()), Variables(), old(Table()), Table(), message.variables,
                          message.variables.Keys - todo, rank, sent)
        decreases todo
      {
        var v: SsvId :| v in todo;
        ghost var here, table := Variables(), Table();
        TakenInHolds(old(Variables()), here, old(Table()), table, message.variables, message.variables.Keys - todo, rank, sent, v);
        var added, more := TakeIn(v, message.variables[v]);
        if !added {
          return false, sent;
        }
        TakenInStep(old(Variables()), here, old(Table()), table, message.variables, message.variables.Keys - todo, rank, sent, v, more);
        assert message.variables.Keys - todo + {v} == message.variables.Keys - (todo - {v});
        todo := todo - {v};
        sent := sent + more;
      }
      assert message.variables.Keys - todo == message.variables.Keys;
      AllTakenIn(old(Variables()), Variables(), old(Table()), Table(), message.variables, rank, sent);
      hide OnlyFor, AllRolledBack;
      ok := true;
    }

    method TakeIn(v: SsvId, copy: Timeline) returns (ok: bool, sent: seq<RollbackMessage>)
      requires Valid()
      modifies sharedState, sharedState.Repr, router.routeTable
      ensures Valid() && fresh(sharedState.Repr - old(sharedState.Repr))
      ensures ok <==> v !in old(Variables())
      ensures ok ==>
                && Variables() == old(Variables())[v := ReplayWrites([], copy)]
                && Table() == Redirect(old(Table()), {v}, HERE)
                && AllRolledBack(sent, ReplayCharges([], copy), 0)
                && forall m :: m in sent ==> StemsFrom(m, rank, ReplayCharges([], copy), 0)
    {
      hide StemsFrom, SharedState.Valid, SharedState.View, ReplayWrites, ReplayCharges, Charged, AllRolledBack;
      sharedState.ViewKeys();
      router.SetSsvIdDirection(v, HERE);
      var rollbackList := new RollbackList();
      ok := sharedState.Insert(v, copy, rollbackList);
      sent := [];
      if ok {
        sent := SendRollbacks(rollbackList, false, ReplayCharges([], copy));
      }
    }
  }
}
