/** Cutting the list at the global virtual time is invisible to everything at or after it. */
module FossilCollection {
  import opened LpIds
  import opened Filters
  import opened WritePeriods
  import opened Timelines
  import opened ReadLedger
  import opened Histories

  /** Periods of the cut list, by their place in the original one. */
  lemma TruncatedAt(l: Timeline, g: nat, k: nat, n: nat)
    requires Find(l, g) == k && n == FindExact(l[..k], g)
    ensures var r := Truncated(l, g);
      && n <= k && |r| == |l| - n
      && r[k - n] == CutAt(l[k], g)
      && forall i :: 0 <= i < |r| && i != k - n ==> r[i] == l[n + i]
  {
    hide Find, FindExact, Splice, SpliceTwo, Merge, Filter;
    SpliceAt(l, n, k, CutAt(l[k], g));
  }

  lemma FindInTruncated(l: Timeline, g: nat, t: nat)
    requires Find(l, g) >= 0 && t >= g
    ensures Find(Truncated(l, g), t) == Find(l, t) - FindExact(l[..Find(l, g)], g)
    ensures Find(l, t) >= Find(l, g)
  {
    hide Find, FindExact, Splice, SpliceTwo, Merge, Filter;
    var k := Find(l, g);
    var n := FindExact(l[..k], g);
    TruncatedAt(l, g, k, n);
    var r := Truncated(l, g);
    var m := Find(l, t);
    assert r[m - n].start <= t;
    forall i | m - n < i < |r| ensures r[i].start > t {
      assert r[i] == l[n + i];
    }
    FindIsUnique(r, t, m - n);
  }

  /** No lookup at or after the cut changes. */
  lemma TruncationKeepsLookups(l: Timeline, g: nat, t: nat)
    requires t >= g
    ensures Lookup(Truncated(l, g), t) == Lookup(l, t)
  {
    hide Find, FindExact, Splice, SpliceTwo, Merge, Filter;
    if Find(l, g) >= 0 {
      FindInTruncated(l, g, t);
      TruncatedAt(l, g, Find(l, g), FindExact(l[..Find(l, g)], g));
    }
  }

  /** No read at or after the cut is lost. */
  lemma TruncationKeepsReads(l: Timeline, g: nat, x: Access)
    requires Good(l) && g < LONG_MAX && x.time >= g
    ensures Recorded(Truncated(l, g))[x] == Recorded(l)[x]
  {
    TruncateConserves(l, g, x);
    if x in TruncateEffect(l, g).dropped {
      TruncateDropsThePast(l, g, x);
    }
  }

  lemma CutCommutesWithShortening(p: Period, g: nat, t: nat)
    requires g < t
    ensures CutAt(Shortened(p, t), g) == Shortened(CutAt(p, g), t)
    ensures Filter(CutAt(p, g).served, From(t)) == Filter(p.served, From(t))
  {
    FilterCommutes(p.served, Before(t), From(g));
    FilterCompose(p.served, From(g), From(t), From(t));
  }

  lemma InsertedAfterCut(l: Timeline, g: nat, k: nat, m: nat, n: nat, c: Timeline, agent: LpId, v: Value, t: nat)
    requires g < t && Find(l, g) == k && Find(l, t) == m && n == FindExact(l[..k], g) && c == Truncated(l, g)
    ensures n <= k <= m < |c| + n
    ensures Truncated(Inserted(l, m, agent, v, t), g) == Inserted(c, m - n, agent, v, t)
  {
    hide Find, FindExact, Splice, SpliceTwo, Merge, Filter;
    var r := Inserted(l, m, agent, v, t);
    TruncatedAt(l, g, k, n);
    InsertedAt(l, m, agent, v, t);
    CutAfterInsertion(l, g, k, m, agent, v, t);
    var p, q := Shortened(l[m], t), FillingIn(l, m, agent, v, t);
    assert FillingIn(c, m - n, agent, v, t) == q;
    if k < m {
      SpliceCommutesWithSpliceTwo(l, n, k, CutAt(l[k], g), m, p, q);
    } else {
      CutCommutesWithShortening(l[k], g, t);
      SpliceMeetsSpliceTwo(l, n, k, CutAt(l[k], g), p, q, CutAt(p, g));
    }
  }

  /** An insertion after `g` does not move the cut. */
  lemma CutAfterInsertion(l: Timeline, g: nat, k: nat, m: nat, agent: LpId, v: Value, t: nat)
    requires g < t && Find(l, g) == k && k <= m < |l|
    ensures var r := Inserted(l, m, agent, v, t);
      Truncated(r, g) == Splice(r, FindExact(l[..k], g), k, CutAt(if k < m then l[k] else Shortened(l[k], t), g))
  {
    hide Find, FindExact, Splice, SpliceTwo, Merge, Filter;
    var r := Inserted(l, m, agent, v, t);
    InsertedAt(l, m, agent, v, t);
    FindIsUnique(r, g, k);
    assert r[..k] == r[..m][..k] == l[..k];
  }

  /** Cutting at `g` and writing after `g` commute, and invalidate the same reads. */
  lemma TruncationCommutesWithWrite(l: Timeline, g: nat, agent: LpId, v: Value, t: nat)
    requires g < t
    ensures Truncated(WriteEffect(l, agent, v, t).after, g) == WriteEffect(Truncated(l, g), agent, v, t).after
    ensures WriteEffect(l, agent, v, t).charged == WriteEffect(Truncated(l, g), agent, v, t).charged
  {
    hide Find, FindExact, Splice, SpliceTwo, Merge, Filter;
    if Find(l, g) < 0 {
      NoCutAfterWrite(l, g, agent, v, t);
    } else {
      var k, m, n, c := Find(l, g), Find(l, t), FindExact(l[..Find(l, g)], g), Truncated(l, g);
      TruncatedAt(l, g, k, n);
      FindInTruncated(l, g, t);
      InsertedAfterCut(l, g, k, m, n, c, agent, v, t);
      CutCommutesWithShortening(l[k], g, t);
    }
  }

  lemma NoCutAfterWrite(l: Timeline, g: nat, agent: LpId, v: Value, t: nat)
    requires g < t && Find(l, g) < 0
    ensures Find(WriteEffect(l, agent, v, t).after, g) < 0
  {
    hide Find, FindExact, Splice, SpliceTwo, Merge, Filter;
    if l != [] && !Rejected(l, agent, t) {
      InsertedAt(l, Find(l, t), agent, v, t);
    }
  }

  lemma StartsOfRemoved(l: Timeline, j: nat)
    requires j < |l|
    ensures forall p :: p in Removed(l, j) ==> exists q :: q in l && q.start == p.start
  {
    var r := Removed(l, j);
    forall p | p in r ensures exists q :: q in l && q.start == p.start {
      var i :| 0 <= i < |r| && r[i] == p;
      if |l| > 1 && j > 0 {
        RemovedAt(l, j);
        assert l[if i < j then i else i + 1].start == p.start;
      } else {
        assert l[i + 1] == p;
      }
    }
  }

  lemma NothingBefore(l: Timeline, g: nat)
    requires forall p :: p in l ==> p.start > g
    ensures Find(l, g) == -1
  {
  }

  /** A removal after `g` does not move the cut. */
  lemma CutAfterRemoval(l: Timeline, g: nat, k: nat, j: nat)
    requires Find(l, g) == k && 0 <= k < j < |l|
    ensures var r := Removed(l, j);
      && k < |r|
      && Truncated(r, g) == Splice(r, FindExact(l[..k], g), k, CutAt(r[k], g))
      && (k < j - 1 ==> r[k] == l[k])
  {
    hide Find, FindExact, Splice, SpliceTwo, Merge, Filter;
    var r := Removed(l, j);
    RemovedAt(l, j);
    FindIsUnique(r, g, k);
    assert r[..k] == r[..j - 1][..k] == l[..k];
  }

  lemma RemovedAfterCut(l: Timeline, g: nat, k: nat, j: nat, n: nat, c: Timeline)
    requires Find(l, g) == k && 0 <= k < j < |l| && n == FindExact(l[..k], g) && c == Truncated(l, g)
    ensures n <= k && j - n < |c|
    ensures Truncated(Removed(l, j), g) == Removed(c, j - n)
  {
    hide Find, FindExact, Splice, SpliceTwo, Merge, Filter;
    TruncatedAt(l, g, k, n);
    CutAfterRemoval(l, g, k, j);
    RemovedAt(l, j);
    var end := if j == |l| - 1 then LONG_MAX else l[j].end;
    var p := l[j - 1].(end := end);
    if k < j - 1 {
      SpliceCommutesWithMerge(l, n, k, CutAt(l[k], g), j, p);
    } else {
      SpliceMeetsMerge(l, n, k, CutAt(l[k], g), p, CutAt(p, g));
    }
  }

  lemma CancelledInTruncated(l: Timeline, g: nat, k: nat, agent: LpId, t: nat)
    requires Good(l) && g < t && Find(l, g) == k && 0 <= k
    ensures FindExact(l, t) > k
    ensures FindExact(Truncated(l, g), t) == FindExact(l, t) - FindExact(l[..k], g)
  {
    hide Find, FindExact, Splice, SpliceTwo, Merge, Filter;
    var j, n := FindExact(l, t), FindExact(l[..k], g);
    TruncatedAt(l, g, k, n);
    forall i | 0 <= i <= k ensures l[i].start < t { StartsAreOrdered(l, i, k); }
    FirstAt(Truncated(l, g), t, j - n);
  }

  /** Cutting at `g` and taking back a write made after `g` commute, with the same charges. */
  lemma TruncationCommutesWithWriteRollback(l: Timeline, g: nat, agent: LpId, t: nat)
    requires Good(l) && g < t
    ensures Truncated(WriteRollbackEffect(l, agent, t).after, g) == WriteRollbackEffect(Truncated(l, g), agent, t).after
    ensures WriteRollbackEffect(l, agent, t).chargedAt == WriteRollbackEffect(Truncated(l, g), agent, t).chargedAt
  {
    hide Find, FindExact, Splice, SpliceTwo, Merge, Filter;
    var k, j := Find(l, g), FindExact(l, t);
    if k < 0 {
      if Cancelled(l, agent, t) < |l| {
        StartsOfRemoved(l, j);
        NothingBefore(Removed(l, j), g);
      }
    } else {
      var n := FindExact(l[..k], g);
      TruncatedAt(l, g, k, n);
      CancelledInTruncated(l, g, k, agent, t);
      if Cancelled(l, agent, t) < |l| {
        RemovedAfterCut(l, g, k, j, n, Truncated(l, g));
      }
    }
  }
}
