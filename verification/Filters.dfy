/** Splicing and in-order filtering of sequences, the effects of inserting, erasing and
    erase-while-iterating loops. */
module Filters {

  /** `l` without its first `n` elements and with `p` in place of element `k`. */
  function Splice<T>(l: seq<T>, n: nat, k: nat, p: T): seq<T>
    requires n <= k < |l|
  {
    l[n..k] + ([p] + l[k + 1..])
  }

  lemma SpliceAt<T>(l: seq<T>, n: nat, k: nat, p: T)
    requires n <= k < |l|
    ensures |Splice(l, n, k, p)| == |l| - n
    ensures Splice(l, n, k, p)[k - n] == p
    ensures forall i :: 0 <= i < |l| - n && i != k - n ==> Splice(l, n, k, p)[i] == l[n + i]
  {
  }

  /** `l` with element `k` replaced by `p` and `q`. */
  function SpliceTwo<T>(l: seq<T>, k: nat, p: T, q: T): seq<T>
    requires k < |l|
  {
    l[..k] + ([p] + ([q] + l[k + 1..]))
  }

  lemma SpliceTwoAt<T>(l: seq<T>, k: nat, p: T, q: T)
    requires k < |l|
    ensures |SpliceTwo(l, k, p, q)| == |l| + 1
    ensures SpliceTwo(l, k, p, q)[k] == p && SpliceTwo(l, k, p, q)[k + 1] == q
    ensures forall i :: 0 <= i < k ==> SpliceTwo(l, k, p, q)[i] == l[i]
    ensures forall i :: k + 2 <= i <= |l| ==> SpliceTwo(l, k, p, q)[i] == l[i - 1]
    ensures SpliceTwo(l, k, p, q)[..k] == l[..k]
  {
  }

  /** `l` with elements `k - 1` and `k` replaced by `p`. */
  function Merge<T>(l: seq<T>, k: nat, p: T): seq<T>
    requires 0 < k < |l|
  {
    l[..k - 1] + ([p] + l[k + 1..])
  }

  lemma MergeAt<T>(l: seq<T>, k: nat, p: T)
    requires 0 < k < |l|
    ensures |Merge(l, k, p)| == |l| - 1
    ensures Merge(l, k, p)[k - 1] == p
    ensures forall i :: 0 <= i < k - 1 ==> Merge(l, k, p)[i] == l[i]
    ensures forall i :: k <= i < |l| - 1 ==> Merge(l, k, p)[i] == l[i + 1]
    ensures Merge(l, k, p)[..k - 1] == l[..k - 1]
  {
  }

  /** Changing element `k` and inserting behind it. */
  lemma ChangeAndInsert<T>(l: seq<T>, k: nat, p: T, q: T)
    requires k < |l|
    ensures l[k := p][..k + 1] + [q] + l[k := p][k + 1..] == SpliceTwo(l, k, p, q)
  {
  }

  /** Changing element `k - 1` and erasing element `k`. */
  lemma ChangeAndErase<T>(l: seq<T>, k: nat, p: T)
    requires 0 < k < |l|
    ensures l[k - 1 := p][..k] + l[k - 1 := p][k + 1..] == Merge(l, k, p)
  {
  }

  /** Changing element `k` and erasing the first `n`. */
  lemma ChangeAndDrop<T>(l: seq<T>, n: nat, k: nat, p: T)
    requires n <= k < |l|
    ensures l[k := p][n..] == Splice(l, n, k, p)
  {
  }

  lemma SpliceCommutesWithSpliceTwo<T>(l: seq<T>, n: nat, k: nat, c: T, m: nat, p: T, q: T)
    requires n <= k < m < |l|
    ensures Splice(SpliceTwo(l, m, p, q), n, k, c) == SpliceTwo(Splice(l, n, k, c), m - n, p, q)
  {
  }

  lemma SpliceMeetsSpliceTwo<T>(l: seq<T>, n: nat, k: nat, c: T, p: T, q: T, cp: T)
    requires n <= k < |l|
    ensures Splice(SpliceTwo(l, k, p, q), n, k, cp) == SpliceTwo(Splice(l, n, k, c), k - n, cp, q)
  {
  }

  lemma SpliceCommutesWithMerge<T>(l: seq<T>, n: nat, k: nat, c: T, j: nat, p: T)
    requires n <= k && k + 1 < j < |l|
    ensures Splice(Merge(l, j, p), n, k, c) == Merge(Splice(l, n, k, c), j - n, p)
  {
  }

  lemma SpliceMeetsMerge<T>(l: seq<T>, n: nat, k: nat, c: T, p: T, cp: T)
    requires n <= k && k + 1 < |l|
    ensures Splice(Merge(l, k + 1, p), n, k, cp) == Merge(Splice(l, n, k, c), k + 1 - n, cp)
  {
  }

  function Filter<T>(s: seq<T>, p: T -> bool): (r: seq<T>) {
    if |s| == 0 then []
    else if p(s[0]) then [s[0]] + Filter(s[1..], p)
    else Filter(s[1..], p)
  }

  /** One turn of a loop that erases from `s` in place and has dealt with the first `j` elements of `was`. */
  lemma EraseStep<T>(s: seq<T>, i: nat, was: seq<T>, j: nat)
    requires i < |s| && j <= |was| && s[i..] == was[j..]
    ensures j < |was| && s[i] == was[j] && s[..i + 1] == s[..i] + [s[i]] && s[i + 1..] == was[j + 1..]
    ensures var r := s[..i] + s[i + 1..]; r[..i] == s[..i] && r[i..] == was[j + 1..]
  {
    assert s[i] == s[i..][0] == was[j..][0];
    assert s[i + 1..] == s[i..][1..] && was[j + 1..] == was[j..][1..];
  }

  lemma Associative<T>(a: seq<T>, b: seq<T>, c: seq<T>)
    ensures (a + b) + c == a + (b + c)
  {
  }

  lemma {:induction false} FilterAppend<T>(a: seq<T>, b: seq<T>, p: T -> bool)
    ensures Filter(a + b, p) == Filter(a, p) + Filter(b, p)
  {
    if |a| == 0 {
      assert a + b == b;
    } else {
      assert (a + b)[1..] == a[1..] + b && (a + b)[0] == a[0];
      FilterAppend(a[1..], b, p);
      Associative([a[0]], Filter(a[1..], p), Filter(b, p));
    }
  }

  lemma {:induction false} FilterMember<T>(s: seq<T>, p: T -> bool, x: T)
    ensures x in Filter(s, p) <==> x in s && p(x)
  {
    if |s| > 0 {
      assert s == [s[0]] + s[1..];
      FilterMember(s[1..], p, x);
    }
  }

  lemma FilterMembers<T>(s: seq<T>, p: T -> bool)
    ensures forall x :: x in Filter(s, p) <==> x in s && p(x)
  {
    forall x ensures x in Filter(s, p) <==> x in s && p(x) { FilterMember(s, p, x); }
  }

  /** Nothing is lost and nothing duplicated: the kept and the removed elements partition `s`. */
  lemma {:induction false} FilterPartition<T>(s: seq<T>, p: T -> bool, q: T -> bool)
    requires forall x :: x in s ==> (q(x) <==> !p(x))
    ensures multiset(s) == multiset(Filter(s, p)) + multiset(Filter(s, q))
  {
    if |s| > 0 {
      assert s == [s[0]] + s[1..];
      FilterPartition(s[1..], p, q);
      assert s[0] in s;
    }
  }

  lemma {:induction false} FilterCount<T>(s: seq<T>, p: T -> bool, x: T)
    ensures multiset(Filter(s, p))[x] == if p(x) then multiset(s)[x] else 0
  {
    if |s| > 0 {
      assert s == [s[0]] + s[1..];
      FilterCount(s[1..], p, x);
    }
  }

  /** Filtering by `q` the survivors of `p` is filtering by any `r` that agrees on `s`. */
  lemma {:induction false} FilterCompose<T>(s: seq<T>, p: T -> bool, q: T -> bool, r: T -> bool)
    requires forall x :: x in s ==> (r(x) <==> p(x) && q(x))
    ensures Filter(Filter(s, p), q) == Filter(s, r)
  {
    if |s| > 0 {
      FilterCompose(s[1..], p, q, r);
      FilterAppend(if p(s[0]) then [s[0]] else [], Filter(s[1..], p), q);
      assert s[0] in s;
    }
  }

  lemma {:induction false} FilterCommutes<T>(s: seq<T>, p: T -> bool, q: T -> bool)
    ensures Filter(Filter(s, p), q) == Filter(Filter(s, q), p)
  {
    FilterCompose(s, p, q, x => p(x) && q(x));
    FilterCompose(s, q, p, x => p(x) && q(x));
  }
}
