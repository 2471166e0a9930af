/** The JavaScript `null`/`undefined` outcome of a lookup, and the first-match
    searches (`Array.prototype.find`, `findIndex`, `filter`) the dashboard
    uses everywhere. */
module Options {

  /** `None` stands for a JavaScript `null` or `undefined`. */
  datatype Option<+T> = None | Some(value: T) {

    /** `x || fallback` for an optional value */
    function GetOr(fallback: T): T {
      match this
      case Some(v) => v
      case None => fallback
    }
  }

  /** `x || null` on an optional string: the empty string becomes `null`. */
  function OrNull(o: Option<string>): (r: Option<string>)
    ensures r.Some? ==> r.value != "" && o == r
    ensures o.Some? && o.value != "" ==> r == o
  {
    if o.Some? && o.value != "" then o else None
  }

  /** The index of the first element satisfying `p` (`findIndex`), or `None`. */
  function FirstIndex<T>(s: seq<T>, p: T -> bool): (r: Option<nat>)
    ensures r.None? <==> forall i :: 0 <= i < |s| ==> !p(s[i])
    ensures r.Some? ==> r.value < |s| && p(s[r.value])
    ensures r.Some? ==> forall j :: 0 <= j < r.value ==> !p(s[j])
    decreases |s|
  {
    if |s| == 0 then None
    else if p(s[0]) then Some(0)
    else
      match FirstIndex(s[1..], p)
      case None => None
      case Some(k) => Some(k + 1)
  }

  /** The first element satisfying `p` (`Array.prototype.find`), or `None`. */
  function Find<T>(s: seq<T>, p: T -> bool): (r: Option<T>)
    ensures r.None? <==> forall i :: 0 <= i < |s| ==> !p(s[i])
    ensures r.Some? ==> exists i :: 0 <= i < |s| && s[i] == r.value && p(s[i]) &&
                                    forall j :: 0 <= j < i ==> !p(s[j])
  {
    match FirstIndex(s, p)
    case None => None
    case Some(i) => Some(s[i])
  }

  /** The elements satisfying `p`, in their original order (`Array.prototype.filter`). */
  function Filter<T>(s: seq<T>, p: T -> bool): (r: seq<T>)
    ensures |r| <= |s|
    ensures forall i :: 0 <= i < |r| ==> p(r[i]) && r[i] in s
    ensures forall i :: 0 <= i < |s| && p(s[i]) ==> s[i] in r
    decreases |s|
  {
    if |s| == 0 then []
    else if p(s[0]) then [s[0]] + Filter(s[1..], p)
    else Filter(s[1..], p)
  }

  /** Where each kept element comes from: strictly increasing positions of
      `s`, covering every position whose element satisfies `p`. With the
      ensures of `Filter` this fixes the result's order and multiplicity. */
  lemma FilterOrigin<T>(s: seq<T>, p: T -> bool) returns (idx: seq<nat>)
    ensures |idx| == |Filter(s, p)|
    ensures forall k :: 0 <= k < |idx| ==> idx[k] < |s| && Filter(s, p)[k] == s[idx[k]]
    ensures forall k, l :: 0 <= k < l < |idx| ==> idx[k] < idx[l]
    ensures forall j :: 0 <= j < |s| && p(s[j]) ==> j in idx
  {
    FilterAsPresent(s, p, 0);
    assert s[0..] == s;
    idx := PresentOrigin(Kept(s, p), 0, |s|);
    forall j | 0 <= j < |s| && p(s[j]) ensures j in idx {
      assert Kept(s, p)(j).Some?;
    }
  }

  /** The element at each position when it satisfies `p`. */
  function Kept<T>(s: seq<T>, p: T -> bool): nat -> Option<T> {
    (i: nat) => if i < |s| && p(s[i]) then Some(s[i]) else None
  }

  /** `filter` is the present values of `Kept`. */
  lemma {:induction false} FilterAsPresent<T>(s: seq<T>, p: T -> bool, lo: nat)
    requires lo <= |s|
    ensures Filter(s[lo..], p) == Present(Kept(s, p), lo, |s|)
    decreases |s| - lo
  {
    if lo < |s| {
      FilterAsPresent(s, p, lo + 1);
      assert s[lo..][1..] == s[lo + 1..];
    }
  }

  /** The present values among `f(lo)`, ..., `f(hi - 1)`, in order: the
      `map((x, index) => ...)` then `filter(Boolean)` idiom. */
  function Present<U>(f: nat -> Option<U>, lo: nat, hi: nat): (r: seq<U>)
    requires lo <= hi
    ensures |r| <= hi - lo
    decreases hi - lo
  {
    if lo == hi then []
    else
      match f(lo)
      case Some(u) => [u] + Present(f, lo + 1, hi)
      case None => Present(f, lo + 1, hi)
  }

  /** A value is collected exactly when some position in range maps to it. */
  lemma {:induction false} PresentIff<U>(f: nat -> Option<U>, lo: nat, hi: nat)
    requires lo <= hi
    ensures forall u :: u in Present(f, lo, hi) <==> exists i :: lo <= i < hi && f(i) == Some(u)
    decreases hi - lo
  {
    if lo < hi {
      PresentIff(f, lo + 1, hi);
    }
  }

  /** Where each collected value comes from: strictly increasing positions,
      covering every position with a present value. */
  lemma {:induction false} PresentOrigin<U>(f: nat -> Option<U>, lo: nat, hi: nat) returns (idx: seq<nat>)
    requires lo <= hi
    ensures |idx| == |Present(f, lo, hi)|
    ensures forall p :: 0 <= p < |idx| ==> lo <= idx[p] < hi && f(idx[p]) == Some(Present(f, lo, hi)[p])
    ensures forall p, q :: 0 <= p < q < |idx| ==> idx[p] < idx[q]
    ensures forall j :: lo <= j < hi && f(j).Some? ==> j in idx
    decreases hi - lo
  {
    if lo == hi {
      idx := [];
    } else {
      var rest := PresentOrigin(f, lo + 1, hi);
      if f(lo).Some? {
        idx := [lo] + rest;
      } else {
        idx := rest;
      }
    }
  }
}
