/** The write-period list of one shared variable as a value: what each operation of a
    `StateVariable` does to the list, and the invariant all of them keep. */
module Timelines {
  import opened LpIds
  import opened Filters
  import opened WritePeriods

  type Timeline = seq<Period>

  type SsvId = nat

  datatype Option<+T> = None | Some(value: T)

  /** Index of the last period that starts at or before `t`; -1 when there is none. */
  function Find(l: Timeline, t: nat): (k: int)
    ensures -1 <= k < |l|
    ensures k >= 0 ==> l[k].start <= t
    ensures forall i :: k < i < |l| ==> l[i].start > t
  {
    if |l| == 0 then -1
    else if l[|l| - 1].start <= t then |l| - 1
    else Find(l[..|l| - 1], t)
  }

  /** Index of the first period that starts at `t`; `|l|` when there is none. */
  function FindExact(l: Timeline, t: nat): (k: nat)
    ensures k <= |l|
    ensures k < |l| ==> l[k].start == t
    ensures forall i :: 0 <= i < k ==> l[i].start != t
  {
    if |l| == 0 then 0
    else if l[0].start == t then 0
    else 1 + FindExact(l[1..], t)
  }

  lemma FirstAt(l: Timeline, t: nat, j: nat)
    requires j <= |l| && (j < |l| ==> l[j].start == t)
    requires forall i :: 0 <= i < j ==> l[i].start != t
    ensures FindExact(l, t) == j
  {
  }

  /** What a request does: the list afterwards, the reads charged to a rollback list together
      with the times they are charged at, and the reads dropped without a rollback. */
  datatype Effect = Effect(after: Timeline, charged: seq<Access>, chargedAt: seq<Access>, dropped: multiset<Access>)

  datatype WriteStatus = WriteSuccess | WriteFailure

  function ReadEffect(l: Timeline, agent: LpId, t: nat): Effect {
    var k := Find(l, t);
    if k < 0 then Effect(l, [], [], multiset{})
    else Effect(l[k := l[k].(served := l[k].served + [Access(agent, t)])], [], [], multiset{})
  }

  /** Whether a write at `t` is turned down: nothing to precede it, or a greater agent wrote at `t`. */
  predicate Rejected(l: Timeline, agent: LpId, t: nat) {
    var k := Find(l, t);
    l != [] && (k < 0 || (l[k].start == t && l[k].agent.Greater(agent)))
  }

  /** Period `k` ends at `t` and loses its reads from `t` on; a new period fills the gap. */
  function Inserted(l: Timeline, k: nat, agent: LpId, v: Value, t: nat): Timeline
    requires k < |l|
  {
    SpliceTwo(l, k, Shortened(l[k], t), FillingIn(l, k, agent, v, t))
  }

  function Shortened(p: Period, t: nat): Period {
    p.(end := t, served := Filter(p.served, Before(t)))
  }

  function FillingIn(l: Timeline, k: nat, agent: LpId, v: Value, t: nat): Period
    requires k < |l|
  {
    NewPeriod(v, t, agent).(end := if k + 1 < |l| then l[k + 1].start else ULONG_MAX)
  }

  lemma InsertedAt(l: Timeline, k: nat, agent: LpId, v: Value, t: nat)
    requires k < |l|
    ensures var r := Inserted(l, k, agent, v, t);
      && |r| == |l| + 1
      && r[k] == Shortened(l[k], t) && r[k + 1] == FillingIn(l, k, agent, v, t)
      && (forall i :: 0 <= i < k ==> r[i] == l[i])
      && (forall i :: k + 2 <= i < |r| ==> r[i] == l[i - 1])
      && r[..k] == l[..k]
  {
    SpliceTwoAt(l, k, Shortened(l[k], t), FillingIn(l, k, agent, v, t));
  }

  function WriteEffect(l: Timeline, agent: LpId, v: Value, t: nat): Effect {
    var k := Find(l, t);
    if l == [] then Effect([NewPeriod(v, t, agent)], [], [], multiset{})
    else if Rejected(l, agent, t) then Effect(l, [], [], multiset{})
    else
      var invalid := Filter(l[k].served, From(t));
      Effect(Inserted(l, k, agent, v, t), invalid, invalid, multiset{})
  }

  function ReadRollbackEffect(l: Timeline, agent: LpId, t: nat): Effect {
    var k := Find(l, t);
    if k < 0 then Effect(l, [], [], multiset{})
    else Effect(l[k := l[k].(served := Filter(l[k].served, OtherThan(Access(agent, t))))], [], [],
                multiset(Filter(l[k].served, Exactly(Access(agent, t)))))
  }

  /** The list without period `k`, whose predecessor takes over the time it covered. */
  function Removed(l: Timeline, k: nat): Timeline
    requires k < |l|
  {
    if |l| == 1 then []
    else if k == 0 then l[1..]
    else Merge(l, k, l[k - 1].(end := if k == |l| - 1 then LONG_MAX else l[k].end))
  }

  lemma RemovedAt(l: Timeline, j: nat)
    requires 0 < j < |l|
    ensures var r := Removed(l, j);
      && |r| == |l| - 1
      && r[j - 1] == l[j - 1].(end := if j == |l| - 1 then LONG_MAX else l[j].end)
      && (forall i :: 0 <= i < j - 1 ==> r[i] == l[i])
      && (forall i :: j <= i < |r| ==> r[i] == l[i + 1])
      && r[..j - 1] == l[..j - 1]
  {
    MergeAt(l, j, l[j - 1].(end := if j == |l| - 1 then LONG_MAX else l[j].end));
  }

  /** The period an anti-write names; `|l|` when it is ignored. */
  function Cancelled(l: Timeline, agent: LpId, t: nat): (k: nat)
    ensures k <= |l|
  {
    var k := FindExact(l, t);
    if k < |l| && l[k].agent.Differs(agent) then |l| else k
  }

  function WriteRollbackEffect(l: Timeline, agent: LpId, t: nat): Effect {
    var k := Cancelled(l, agent, t);
    if k == |l| then Effect(l, [], [], multiset{})
    else Effect(Removed(l, k), l[k].served, At(l[k].served, t), multiset{})
  }

  /** The list cut at `t`: the period current at `t` starts there; before it only periods that
      start at `t`, and so are empty, remain. */
  function Truncated(l: Timeline, t: nat): Timeline {
    var k := Find(l, t);
    if k < 0 then l else Splice(l, FindExact(l[..k], t), k, CutAt(l[k], t))
  }

  function CutAt(p: Period, t: nat): Period {
    p.(start := t, served := Filter(p.served, From(t)))
  }

  /** All reads recorded anywhere in the list. */
  function Recorded(l: Timeline): multiset<Access> {
    if |l| == 0 then multiset{} else multiset(l[0].served) + Recorded(l[1..])
  }

  function TruncateEffect(l: Timeline, t: nat): Effect {
    var k := Find(l, t);
    if k < 0 then Effect(l, [], [], multiset{})
    else
      Effect(Truncated(l, t), [], [],
             Recorded(l[..FindExact(l[..k], t)]) + multiset(Filter(l[k].served, Before(t))))
  }

  // ---- The invariant ----

  /** Time runs out only at LONG_MAX; an end at or after it (ULONG_MAX for a new period, LONG_MAX
      after a rollback) means the period is open. */
  predicate Open(p: Period) {
    p.end >= LONG_MAX
  }

  predicate Fits(p: Period) {
    && p.start <= p.end
    && p.start < LONG_MAX
    && forall a :: a in p.served ==> p.start <= a.time < p.end && a.time < LONG_MAX
  }

  /** Periods are contiguous and ordered, only the last is open, and every recorded read lies in
      the period that served it. */
  predicate Good(l: Timeline) {
    && (forall i :: 0 <= i < |l| ==> Fits(l[i]))
    && (forall i :: 0 < i < |l| ==> Joined(l, i))
    && (l != [] ==> Open(l[|l| - 1]))
  }

  /** Period `i` starts where its predecessor ends. */
  predicate Joined(l: Timeline, i: nat)
    requires 0 < i < |l|
  {
    l[i - 1].end == l[i].start
  }

  lemma {:induction false} StartsAreOrdered(l: Timeline, i: nat, j: nat)
    requires Good(l) && i <= j < |l|
    ensures l[i].start <= l[j].start
    ensures i < j ==> l[i].end <= l[j].start
    decreases j - i
  {
    if i < j {
      assert Fits(l[i]) && Joined(l, i + 1);
      StartsAreOrdered(l, i + 1, j);
    }
  }

  /** The period that served a recorded read is the one a lookup at the time of the read finds. */
  lemma RecordedReadIsCurrent(l: Timeline, i: nat, a: Access)
    requires Good(l) && i < |l| && a in l[i].served
    ensures Find(l, a.time) == i
  {
    var k := Find(l, a.time);
    assert Fits(l[i]);
    if k > i {
      StartsAreOrdered(l, i, k);
    }
  }

  lemma FindIsUnique(l: Timeline, t: nat, k: nat)
    requires k < |l| && l[k].start <= t
    requires forall i :: k < i < |l| ==> l[i].start > t
    ensures Find(l, t) == k
  {
  }

  lemma ReplaceKeepsGood(l: Timeline, k: nat, p: Period)
    requires Good(l) && k < |l| && Fits(p) && p.end == l[k].end
    requires k == 0 || p.start == l[k].start
    ensures Good(l[k := p])
  {
    var r := l[k := p];
    forall i | 0 < i < |r| ensures Joined(r, i) {
      assert Joined(l, i);
    }
  }

  lemma ReadKeepsGood(l: Timeline, agent: LpId, t: nat)
    requires Good(l) && t < LONG_MAX
    ensures Good(ReadEffect(l, agent, t).after)
  {
    var k := Find(l, t);
    if k >= 0 {
      assert Fits(l[k]);
      if k + 1 < |l| {
        assert Joined(l, k + 1);
      }
      ReplaceKeepsGood(l, k, l[k].(served := l[k].served + [Access(agent, t)]));
    }
  }

  lemma WriteKeepsGood(l: Timeline, agent: LpId, v: Value, t: nat)
    requires Good(l) && t < LONG_MAX
    ensures Good(WriteEffect(l, agent, v, t).after)
  {
    hide Filter;
    var k := Find(l, t);
    if l != [] && !Rejected(l, agent, t) {
      assert Fits(l[k]);
      FilterMembers(l[k].served, Before(t));
      var r := Inserted(l, k, agent, v, t);
      assert |r| == |l| + 1;
      assert forall i :: 0 <= i < k ==> r[i] == l[i];
      assert forall i :: k + 2 <= i < |r| ==> r[i] == l[i - 1];
      assert Fits(r[k]) && Fits(r[k + 1]);
      forall i | 0 < i < |r| ensures Joined(r, i) {
        if i > k + 2 {
          assert Joined(l, i - 1);
        } else if i < k {
          assert Joined(l, i);
        } else if i == k {
          assert Joined(l, k);
        }
      }
    }
  }

  lemma ReadRollbackKeepsGood(l: Timeline, agent: LpId, t: nat)
    requires Good(l)
    ensures Good(ReadRollbackEffect(l, agent, t).after)
  {
    var k := Find(l, t);
    if k >= 0 {
      assert Fits(l[k]);
      FilterMembers(l[k].served, OtherThan(Access(agent, t)));
      ReplaceKeepsGood(l, k, l[k].(served := Filter(l[k].served, OtherThan(Access(agent, t)))));
    }
  }

  lemma RemovedKeepsGood(l: Timeline, k: nat)
    requires Good(l) && k < |l|
    ensures Good(Removed(l, k))
  {
    hide Filter;
    var r := Removed(l, k);
    assert Fits(l[k]);
    if |l| > 1 && k > 0 {
      assert Fits(l[k - 1]) && Joined(l, k);
      assert |r| == |l| - 1;
      assert forall i :: 0 <= i < k - 1 ==> r[i] == l[i];
      assert forall i :: k <= i < |r| ==> r[i] == l[i + 1];
      assert Fits(r[k - 1]);
      forall i | 0 < i < |r| ensures Joined(r, i) {
        if i > k {
          assert Joined(l, i + 1);
        } else if i == k {
          assert Joined(l, k + 1);
        } else {
          assert Joined(l, i);
        }
      }
    } else if |l| > 1 {
      forall i | 0 < i < |r| ensures Joined(r, i) {
        assert Joined(l, i + 1);
      }
    }
  }

  lemma WriteRollbackKeepsGood(l: Timeline, agent: LpId, t: nat)
    requires Good(l)
    ensures Good(WriteRollbackEffect(l, agent, t).after)
  {
    var k := Cancelled(l, agent, t);
    if k < |l| {
      RemovedKeepsGood(l, k);
    }
  }

  lemma SuffixIsGood(l: Timeline, n: nat)
    requires Good(l) && n <= |l|
    ensures Good(l[n..])
  {
    var r := l[n..];
    forall i | 0 < i < |r| ensures Joined(r, i) {
      assert Joined(l, n + i);
    }
  }

  /** What is cut off ended by `t`, and what is kept before the cut period is empty. */
  lemma TruncationBorder(l: Timeline, t: nat, k: nat)
    requires Good(l) && Find(l, t) == k && t < LONG_MAX
    ensures forall i :: FindExact(l[..k], t) <= i < k ==> l[i].start == l[i].end == t
    ensures forall i :: 0 <= i < FindExact(l[..k], t) ==> l[i].end <= t
    ensures FindExact(l[..k], t) < k ==> l[k].start == t
    ensures l[k].start <= t <= l[k].end && (t < l[k].end || Open(l[k]))
  {
    var n := FindExact(l[..k], t);
    if k + 1 < |l| {
      assert Joined(l, k + 1);
    }
    assert Fits(l[k]);
    forall i | 0 <= i < k ensures l[i].end <= t && (n <= i ==> l[i].start == l[i].end == t) {
      assert Fits(l[i]);
      StartsAreOrdered(l, i, k);
      if n <= i {
        StartsAreOrdered(l, n, i);
      }
    }
    if n < k {
      StartsAreOrdered(l, n, k);
    }
  }

  lemma CutFits(p: Period, t: nat)
    requires Fits(p) && p.start <= t <= p.end && t < LONG_MAX
    ensures Fits(CutAt(p, t))
  {
    FilterMembers(p.served, From(t));
  }

  /** Gluing two good lists whose border matches gives a good list. */
  lemma GlueKeepsGood(a: Timeline, b: Timeline)
    requires Good(b) && b != []
    requires forall i :: 0 <= i < |a| ==> Fits(a[i])
    requires forall i :: 0 < i < |a| ==> Joined(a, i)
    requires a != [] ==> a[|a| - 1].end == b[0].start
    ensures Good(a + b)
  {
    var r := a + b;
    forall i | 0 < i < |r| ensures Joined(r, i) {
      if i > |a| {
        assert Joined(b, i - |a|);
      } else if i < |a| {
        assert Joined(a, i);
      }
    }
  }

  lemma MiddleIsJoined(l: Timeline, n: nat, k: nat)
    requires Good(l) && n <= k < |l|
    ensures forall i :: 0 <= i < k - n ==> Fits(l[n..k][i])
    ensures forall i :: 0 < i < k - n ==> Joined(l[n..k], i)
    ensures n < k ==> l[n..k][k - n - 1].end == l[k].start
  {
    forall i | 0 < i < k - n ensures Joined(l[n..k], i) {
      assert Joined(l, n + i);
    }
    if n < k {
      assert Joined(l, k);
    }
  }

  lemma CutSuffixIsGood(l: Timeline, k: nat, t: nat)
    requires Good(l) && k < |l| && l[k].start <= t <= l[k].end && t < LONG_MAX
    ensures Good([CutAt(l[k], t)] + l[k + 1..])
  {
    hide Filter;
    SuffixIsGood(l, k);
    CutFits(l[k], t);
    ReplaceKeepsGood(l[k..], 0, CutAt(l[k], t));
    assert l[k..][0 := CutAt(l[k], t)] == [CutAt(l[k], t)] + l[k + 1..];
  }

  lemma TruncateKeepsGood(l: Timeline, t: nat)
    requires Good(l) && t < LONG_MAX
    ensures Good(Truncated(l, t))
  {
    hide Filter, Good, Find, FindExact;
    var k := Find(l, t);
    if k >= 0 {
      var n := FindExact(l[..k], t);
      TruncationBorder(l, t, k);
      MiddleIsJoined(l, n, k);
      CutSuffixIsGood(l, k, t);
      GlueKeepsGood(l[n..k], [CutAt(l[k], t)] + l[k + 1..]);
    }
  }
}
