/** The array helpers the components use: `filter`, `filter(Boolean)` on strings and `slice`. */
module Seqs {

  /** `s.filter(p)`: the elements satisfying `p`, in their original order. */
  function Filter<T>(s: seq<T>, p: T -> bool): (r: seq<T>)
    ensures |r| <= |s|
    ensures forall k :: 0 <= k < |r| ==> p(r[k])
  {
    if |s| == 0 then []
    else if p(s[0]) then [s[0]] + Filter(s[1..], p)
    else Filter(s[1..], p)
  }

  /** An element survives `filter` exactly when it was there and satisfies the predicate. */
  lemma {:induction false} FilterMembership<T>(s: seq<T>, p: T -> bool, x: T)
    ensures x in Filter(s, p) <==> x in s && p(x)
  {
    if |s| > 0 {
      FilterMembership(s[1..], p, x);
      assert s == [s[0]] + s[1..];
    }
  }

  /** `filter` keeps every satisfying occurrence and drops every other one. */
  lemma {:induction false} FilterCount<T>(s: seq<T>, p: T -> bool, x: T)
    ensures multiset(Filter(s, p))[x] == if p(x) then multiset(s)[x] else 0
  {
    if |s| > 0 {
      FilterCount(s[1..], p, x);
      assert s == [s[0]] + s[1..];
    }
  }

  /** `filter` distributes over concatenation. */
  lemma {:induction false} FilterAppend<T>(a: seq<T>, b: seq<T>, p: T -> bool)
    ensures Filter(a + b, p) == Filter(a, p) + Filter(b, p)
  {
    if |a| > 0 {
      assert (a + b)[1..] == a[1..] + b;
      FilterAppend(a[1..], b, p);
    } else {
      assert a + b == b;
    }
  }

  /** Keeping everything leaves the sequence as it was. */
  lemma {:induction false} FilterAll<T>(s: seq<T>, p: T -> bool)
    requires forall k :: 0 <= k < |s| ==> p(s[k])
    ensures Filter(s, p) == s
  {
    if |s| > 0 {
      FilterAll(s[1..], p);
    }
  }

  /** Nothing survives a filter no element passes. */
  lemma {:induction false} FilterNone<T>(s: seq<T>, p: T -> bool)
    requires forall k :: 0 <= k < |s| ==> !p(s[k])
    ensures Filter(s, p) == []
  {
    if |s| > 0 {
      FilterNone(s[1..], p);
    }
  }

  /** A filter that rejects exactly one position removes just that element. */
  lemma {:induction false} FilterDropsOne<T>(s: seq<T>, p: T -> bool, i: nat)
    requires i < |s| && !p(s[i])
    requires forall k :: 0 <= k < |s| && k != i ==> p(s[k])
    ensures Filter(s, p) == s[..i] + s[i + 1..]
  {
    var tail := s[1..];
    if i == 0 {
      assert forall k :: 0 <= k < |tail| ==> tail[k] == s[k + 1];
      FilterAll(tail, p);
    } else {
      assert forall k :: 0 <= k < |tail| && k != i - 1 ==> tail[k] == s[k + 1];
      FilterDropsOne(tail, p, i - 1);
      assert tail[..i - 1] == s[1..i] && tail[i..] == s[i + 1..];
      assert [s[0]] + s[1..i] == s[..i];
    }
  }

  /** `options.filter(Boolean)` on strings: the non-empty entries in order. */
  function NonEmpty(opts: seq<string>): (r: seq<string>)
    ensures forall k :: 0 <= k < |r| ==> r[k] != ""
  {
    Filter(opts, (o: string) => o != "")
  }

  /** `s.slice(lo, hi)` for non-negative bounds: out-of-range bounds are clamped to the length. */
  function Slice<T>(s: seq<T>, lo: nat, hi: nat): (r: seq<T>)
    ensures |r| == if lo < hi && lo < |s| then (if hi < |s| then hi else |s|) - lo else 0
    ensures forall k :: 0 <= k < |r| ==> r[k] == s[lo + k]
  {
    var e := if hi < |s| then hi else |s|;
    if lo < e then s[lo..e] else []
  }

  /** `s.filter((_, k) => k !== i)`: drops position `i` when there is one, keeping the rest in order. */
  function RemoveIndex<T>(s: seq<T>, i: int): (r: seq<T>)
    ensures 0 <= i < |s| ==> |r| == |s| - 1
    ensures !(0 <= i < |s|) ==> r == s
    ensures forall k :: 0 <= k < |r| ==> r[k] == (if 0 <= i <= k then s[k + 1] else s[k])
  {
    if 0 <= i < |s| then s[..i] + s[i + 1..] else s
  }

  /** `copy[i] = v` on a copy of `s`, for `i` at most the length (which appends). */
  function Assign<T>(s: seq<T>, i: nat, v: T): (r: seq<T>)
    requires i <= |s|
    ensures |r| == if i < |s| then |s| else |s| + 1
    ensures r[i] == v
    ensures forall k :: 0 <= k < |s| && k != i ==> r[k] == s[k]
  {
    if i < |s| then s[i := v] else s + [v]
  }

  /** `s.findIndex(p)`: the first position satisfying `p`, or -1 when there is none. */
  function FindIndex<T>(s: seq<T>, p: T -> bool): (r: int)
    ensures -1 <= r < |s|
    ensures r >= 0 ==> p(s[r])
    ensures forall k :: 0 <= k < |s| && (r == -1 || k < r) ==> !p(s[k])
  {
    if |s| == 0 then -1
    else if p(s[0]) then 0
    else
      var r := FindIndex(s[1..], p);
      if r == -1 then -1 else r + 1
  }
}
