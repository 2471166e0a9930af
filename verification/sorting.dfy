/** The stable descending sort behind the two `Array.prototype.sort` calls of
    the dashboard: contacts by (seniority, confidence) and opportunities by
    score. Since ECMAScript 2019 `sort` is stable, so elements whose
    comparator result is 0 keep their input order. */
module Sorting {

  /** A sort key compared lexicographically: `major` first, then `minor`. */
  datatype Rank = Rank(major: int, minor: int)

  /** `a` sorts strictly before `b` (the comparator `(x, y) => ...` is negative). */
  predicate Outranks(a: Rank, b: Rank) {
    a.major > b.major || (a.major == b.major && a.minor > b.minor)
  }

  /** No element is outranked by a later one: the order is non-increasing. */
  predicate SortedDesc<T>(s: seq<T>, key: T -> Rank) {
    forall i, j :: 0 <= i < j < |s| ==> !Outranks(key(s[j]), key(s[i]))
  }

  /** The subsequence of elements whose key is exactly `k`. */
  function WithRank<T>(s: seq<T>, key: T -> Rank, k: Rank): seq<T>
    decreases |s|
  {
    if |s| == 0 then []
    else (if key(s[0]) == k then [s[0]] else []) + WithRank(s[1..], key, k)
  }

  /** Insert `x` in front of the first element it is not outranked by. */
  function Insert<T>(x: T, s: seq<T>, key: T -> Rank): seq<T>
    decreases |s|
  {
    if |s| == 0 then [x]
    else if Outranks(key(s[0]), key(x)) then [s[0]] + Insert(x, s[1..], key)
    else [x] + s
  }

  lemma {:induction false} InsertPermutes<T>(x: T, s: seq<T>, key: T -> Rank)
    ensures multiset(Insert(x, s, key)) == multiset(s) + multiset{x}
    decreases |s|
  {
    if |s| > 0 && Outranks(key(s[0]), key(x)) {
      InsertPermutes(x, s[1..], key);
      assert s == [s[0]] + s[1..];
    }
  }

  lemma {:induction false} InsertHead<T>(x: T, s: seq<T>, key: T -> Rank)
    ensures |Insert(x, s, key)| == |s| + 1
    ensures Insert(x, s, key)[0] == x || (|s| > 0 && Insert(x, s, key)[0] == s[0])
    decreases |s|
  {
    if |s| > 0 && Outranks(key(s[0]), key(x)) {
      InsertHead(x, s[1..], key);
    }
  }

  lemma {:induction false} InsertSorted<T>(x: T, s: seq<T>, key: T -> Rank)
    requires SortedDesc(s, key)
    ensures SortedDesc(Insert(x, s, key), key)
    decreases |s|
  {
    if |s| > 0 && Outranks(key(s[0]), key(x)) {
      InsertSorted(x, s[1..], key);
      InsertHead(x, s[1..], key);
      var t := Insert(x, s[1..], key);
      InsertPermutes(x, s[1..], key);
      forall j | 0 < j < |t| + 1
        ensures !Outranks(key(([s[0]] + t)[j]), key(s[0]))
      {
        var y := t[j - 1];
        assert y in multiset(t);
        assert y == x || y in s[1..];
      }
    }
  }

  /** Taking the elements of rank `k` distributes over concatenation. */
  lemma {:induction false} WithRankAppend<T>(a: seq<T>, b: seq<T>, key: T -> Rank, k: Rank)
    ensures WithRank(a + b, key, k) == WithRank(a, key, k) + WithRank(b, key, k)
    decreases |a|
  {
    if |a| == 0 {
      assert a + b == b;
    } else {
      assert (a + b)[1..] == a[1..] + b;
      WithRankAppend(a[1..], b, key, k);
    }
  }

  /** `x` lands before every element of its own rank. */
  lemma {:induction false} InsertStable<T>(x: T, s: seq<T>, key: T -> Rank, k: Rank)
    ensures WithRank(Insert(x, s, key), key, k) == WithRank([x], key, k) + WithRank(s, key, k)
    decreases |s|
  {
    if |s| == 0 {
    } else if Outranks(key(s[0]), key(x)) {
      var t := Insert(x, s[1..], key);
      assert Insert(x, s, key) == [s[0]] + t;
      InsertStable(x, s[1..], key, k);
      WithRankAppend([s[0]], t, key, k);
      WithRankAppend([s[0]], s[1..], key, k);
      assert [s[0]] + s[1..] == s;
      // `s[0]` and `x` have different ranks, so at most one of them is kept.
      assert WithRank([s[0]], key, k) == [] || WithRank([x], key, k) == [];
    } else {
      WithRankAppend([x], s, key, k);
    }
  }

  /** Stable insertion sort into non-increasing key order. */
  function SortDesc<T>(s: seq<T>, key: T -> Rank): (r: seq<T>)
    ensures multiset(r) == multiset(s)
    ensures SortedDesc(r, key)
    ensures forall k :: WithRank(r, key, k) == WithRank(s, key, k)
    decreases |s|
  {
    if |s| == 0 then []
    else
      var rest := SortDesc(s[1..], key);
      InsertPermutes(s[0], rest, key);
      InsertSorted(s[0], rest, key);
      assert s == [s[0]] + s[1..];
      assert forall k :: WithRank(Insert(s[0], rest, key), key, k) == WithRank(s, key, k) by {
        forall k ensures WithRank(Insert(s[0], rest, key), key, k) == WithRank(s, key, k) {
          InsertStable(s[0], rest, key, k);
          WithRankAppend([s[0]], s[1..], key, k);
        }
      }
      Insert(s[0], rest, key)
  }

  lemma {:induction false} WithRankMembers<T>(s: seq<T>, key: T -> Rank, k: Rank)
    ensures forall y :: y in WithRank(s, key, k) ==> y in s && key(y) == k
    ensures (exists i :: 0 <= i < |s| && key(s[i]) == k) ==> |WithRank(s, key, k)| > 0
    decreases |s|
  {
    if |s| > 0 {
      WithRankMembers(s[1..], key, k);
      if key(s[0]) != k && exists i :: 0 <= i < |s| && key(s[i]) == k {
        var i :| 0 <= i < |s| && key(s[i]) == k;
        assert key(s[1..][i - 1]) == k;
      }
    }
  }

  /** The head of a sorted sequence has the greatest rank present. */
  lemma {:induction false} HeadIsTop<T>(s: seq<T>, key: T -> Rank, k: Rank)
    requires SortedDesc(s, key) && |s| > 0
    requires |WithRank(s, key, k)| > 0
    ensures !Outranks(k, key(s[0]))
  {
    WithRankMembers(s, key, k);
    var y := WithRank(s, key, k)[0];
    assert y in WithRank(s, key, k);
    var j :| 0 <= j < |s| && s[j] == y;
    if j > 0 {
      assert !Outranks(key(s[j]), key(s[0]));
    }
  }

  /** Two sorted sequences with the same per-rank subsequences start alike. */
  lemma {:induction false} SameHead<T>(a: seq<T>, b: seq<T>, key: T -> Rank)
    requires SortedDesc(a, key) && SortedDesc(b, key) && |a| > 0 && |b| > 0
    requires forall k :: WithRank(a, key, k) == WithRank(b, key, k)
    ensures a[0] == b[0]
  {
    var ka, kb := key(a[0]), key(b[0]);
    assert WithRank(a, key, ka)[0] == a[0];
    assert WithRank(b, key, kb)[0] == b[0];
    assert WithRank(a, key, ka) == WithRank(b, key, ka);
    assert WithRank(a, key, kb) == WithRank(b, key, kb);
    HeadIsTop(b, key, ka);
    HeadIsTop(a, key, kb);
    assert ka == kb;
  }

  lemma {:induction false} TailsAgree<T>(a: seq<T>, b: seq<T>, key: T -> Rank, k: Rank)
    requires |a| > 0 && |b| > 0 && a[0] == b[0]
    requires WithRank(a, key, k) == WithRank(b, key, k)
    ensures WithRank(a[1..], key, k) == WithRank(b[1..], key, k)
  {
    if key(a[0]) == k {
      assert WithRank(a, key, k) == [a[0]] + WithRank(a[1..], key, k);
      assert WithRank(b, key, k) == [b[0]] + WithRank(b[1..], key, k);
      assert WithRank(a[1..], key, k) == WithRank(a, key, k)[1..];
      assert WithRank(b[1..], key, k) == WithRank(b, key, k)[1..];
    } else {
      assert WithRank(a, key, k) == WithRank(a[1..], key, k);
      assert WithRank(b, key, k) == WithRank(b[1..], key, k);
    }
  }

  /** A non-empty sequence has at least its head at the head's rank. */
  lemma HeadHasRank<T>(s: seq<T>, key: T -> Rank)
    ensures |s| > 0 ==> |WithRank(s, key, key(s[0]))| > 0
  {
  }

  /** Non-increasing order together with per-rank input order pins the
      sequence down: every stable descending sort returns what `SortDesc`
      returns. */
  lemma {:induction false} SortUnique<T>(a: seq<T>, b: seq<T>, key: T -> Rank)
    requires SortedDesc(a, key) && SortedDesc(b, key)
    requires forall k :: WithRank(a, key, k) == WithRank(b, key, k)
    ensures a == b
    decreases |a| + |b|
  {
    if |a| > 0 && |b| > 0 {
      SameHead(a, b, key);
      forall k ensures WithRank(a[1..], key, k) == WithRank(b[1..], key, k) {
        TailsAgree(a, b, key, k);
      }
      SortUnique(a[1..], b[1..], key);
      assert a == [a[0]] + a[1..] && b == [b[0]] + b[1..];
    } else {
      HeadHasRank(a, key);
      HeadHasRank(b, key);
    }
  }
}
