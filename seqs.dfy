/**
 * Sequence operations that stand for the document database's queries over a collection kept in
 * natural (insertion) order: `findOne` (the first match), `find` (every match, order kept),
 * `sort` on an integer key, and `skip`/`limit` paging.
 */
module Seqs {
  import opened Wrappers

  /** The index of the first element satisfying `p`. */
  function Find<T>(s: seq<T>, p: T -> bool): (r: Option<nat>)
    ensures r.Some? ==> r.value < |s| && p(s[r.value])
    ensures r.Some? ==> forall j :: 0 <= j < r.value ==> !p(s[j])
    ensures r.None? <==> forall j :: 0 <= j < |s| ==> !p(s[j])
  {
    if s == [] then None
    else if p(s[0]) then Some(0)
    else match Find(s[1..], p)
      case None => None
      case Some(i) => Some(i + 1)
  }

  /** The elements satisfying `p`, in their original order. */
  function Filter<T(==)>(s: seq<T>, p: T -> bool): (r: seq<T>)
    ensures |r| <= |s|
    ensures forall j :: 0 <= j < |r| ==> r[j] in s && p(r[j])
    ensures forall j :: 0 <= j < |s| && p(s[j]) ==> s[j] in r
    ensures IsSubsequence(r, s)
  {
    if s == [] then []
    else if p(s[0]) then [s[0]] + Filter(s[1..], p)
    else Filter(s[1..], p)
  }

  /** `r` is `s` with some elements left out and the rest in their original order. */
  predicate IsSubsequence<T(==)>(r: seq<T>, s: seq<T>) {
    if r == [] then true
    else if s == [] then false
    else if r[0] == s[0] then IsSubsequence(r[1..], s[1..])
    else IsSubsequence(r, s[1..])
  }

  /** Filtering by a predicate that every element meets changes nothing. */
  lemma {:induction false} FilterAll<T>(s: seq<T>, p: T -> bool)
    requires forall j :: 0 <= j < |s| ==> p(s[j])
    ensures Filter(s, p) == s
  {
    if s != [] {
      FilterAll(s[1..], p);
    }
  }

  /** Filtering by a predicate that no element meets leaves nothing. */
  lemma {:induction false} FilterNone<T>(s: seq<T>, p: T -> bool)
    requires forall j :: 0 <= j < |s| ==> !p(s[j])
    ensures Filter(s, p) == []
  {
    if s != [] {
      FilterNone(s[1..], p);
    }
  }

  /** Filtering depends only on which elements the predicate accepts. */
  lemma {:induction false} FilterAgrees<T>(s: seq<T>, p: T -> bool, q: T -> bool)
    requires forall j :: 0 <= j < |s| ==> p(s[j]) == q(s[j])
    ensures Filter(s, p) == Filter(s, q)
  {
    if s != [] {
      FilterAgrees(s[1..], p, q);
    }
  }

  /** Filtering distributes over concatenation. */
  lemma {:induction false} FilterAppend<T>(a: seq<T>, b: seq<T>, p: T -> bool)
    ensures Filter(a + b, p) == Filter(a, p) + Filter(b, p)
  {
    if a != [] {
      assert (a + b)[1..] == a[1..] + b;
      FilterAppend(a[1..], b, p);
    } else {
      assert a + b == b;
    }
  }

  /** The keys of `s` never decrease. */
  predicate SortedBy<T>(s: seq<T>, key: T -> int) {
    forall i, j :: 0 <= i < j < |s| ==> key(s[i]) <= key(s[j])
  }

  /** Every key in `s` is at least `lo`. */
  predicate KeysAtLeast<T>(s: seq<T>, key: T -> int, lo: int) {
    forall j :: 0 <= j < |s| ==> lo <= key(s[j])
  }

  /** An element no larger than everything in a sorted sequence can go in front of it. */
  lemma SortedPrepend<T>(a: T, t: seq<T>, key: T -> int)
    requires SortedBy(t, key) && KeysAtLeast(t, key, key(a))
    ensures SortedBy([a] + t, key)
  {
  }

  /** `x` placed into the sorted `s` just before the first element with a larger key. */
  function InsertBy<T(==)>(x: T, s: seq<T>, key: T -> int): (r: seq<T>)
    requires SortedBy(s, key)
    ensures SortedBy(r, key)
    ensures multiset(r) == multiset(s) + multiset{x}
    ensures |r| == |s| + 1
    ensures forall lo :: KeysAtLeast(s, key, lo) && lo <= key(x) ==> KeysAtLeast(r, key, lo)
  {
    if s == [] then [x]
    else if key(x) <= key(s[0]) then
      SortedPrepend(x, s, key);
      [x] + s
    else
      var tail := InsertBy(x, s[1..], key);
      assert KeysAtLeast(s[1..], key, key(s[0]));
      SortedPrepend(s[0], tail, key);
      assert s == [s[0]] + s[1..];
      [s[0]] + tail
  }

  /** `s` sorted by ascending key (insertion sort). */
  function SortBy<T(==)>(s: seq<T>, key: T -> int): (r: seq<T>)
    ensures SortedBy(r, key)
    ensures multiset(r) == multiset(s)
    ensures |r| == |s|
  {
    if s == [] then []
    else
      assert s == [s[0]] + s[1..];
      InsertBy(s[0], SortBy(s[1..], key), key)
  }

  /** `skip(skip).limit(limit)`: a limit of 0 means no limit. */
  function Window<T>(s: seq<T>, skip: nat, limit: nat): (r: seq<T>)
    ensures limit > 0 ==> |r| <= limit
    ensures skip <= |s| ==> skip + |r| <= |s| && r == s[skip..skip + |r|]
    ensures skip >= |s| ==> r == []
    ensures limit > 0 && skip + limit <= |s| ==> |r| == limit
    ensures limit == 0 && skip <= |s| ==> |r| == |s| - skip
  {
    var lo := if skip < |s| then skip else |s|;
    var hi := if limit == 0 || lo + limit > |s| then |s| else lo + limit;
    s[lo..hi]
  }

  /** `Math.ceil(a / b)` for a positive `b`. */
  function CeilDiv(a: nat, b: nat): (q: nat)
    requires b > 0
    ensures q * b >= a
    ensures q == 0 || (q - 1) * b < a
  {
    (a + b - 1) / b
  }

  /** `s` without the element at index `i`, the others in order. */
  function RemoveAt<T>(s: seq<T>, i: nat): (r: seq<T>)
    requires i < |s|
    ensures |r| == |s| - 1
    ensures forall j :: 0 <= j < i ==> r[j] == s[j]
    ensures forall j :: i <= j < |r| ==> r[j] == s[j + 1]
  {
    s[..i] + s[i + 1..]
  }

  /** Writing one position twice leaves only the second write. */
  lemma UpdateTwice<T>(s: seq<T>, i: nat, a: T, b: T)
    requires i < |s|
    ensures s[i := a][i := b] == s[i := b]
  {
  }

  /** Overwriting the element just appended is appending the new one. */
  lemma UpdateAppended<T>(s: seq<T>, a: T, b: T)
    ensures (s + [a])[|s| := b] == s + [b]
  {
  }

  /** A predicate and its complement split a sequence without loss. */
  lemma {:induction false} FilterComplement<T>(s: seq<T>, p: T -> bool, q: T -> bool)
    requires forall x :: q(x) == !p(x)
    ensures |Filter(s, p)| + |Filter(s, q)| == |s|
  {
    if s != [] {
      FilterComplement(s[1..], p, q);
    }
  }

  /** No two elements share a key. */
  predicate DistinctKeys<T>(s: seq<T>, key: T -> int) {
    forall i, j :: 0 <= i < j < |s| ==> key(s[i]) != key(s[j])
  }

  /** Filtering keeps distinct keys distinct. */
  lemma {:induction false} FilterKeepsDistinct<T>(s: seq<T>, p: T -> bool, key: T -> int)
    requires DistinctKeys(s, key)
    ensures DistinctKeys(Filter(s, p), key)
  {
    if s != [] {
      var rest := s[1..];
      FilterKeepsDistinct(rest, p, key);
      var t := Filter(rest, p);
      if p(s[0]) {
        forall j | 0 <= j < |t|
          ensures key(s[0]) != key(t[j])
        {
          var k :| 0 <= k < |rest| && rest[k] == t[j];
          assert key(s[0]) != key(s[k + 1]);
        }
        var r := [s[0]] + t;
        forall i, j | 0 <= i < j < |r|
          ensures key(r[i]) != key(r[j])
        {
          assert r[j] == t[j - 1];
          if i > 0 {
            assert r[i] == t[i - 1];
          }
        }
        assert Filter(s, p) == r;
      }
    }
  }
}
