/** Sequence operations that stand for JavaScript's `Array.prototype.filter`
    and `new Set(...)`, with the facts the views rely on. */
module Seqs {
  import opened Wrappers

  /** `a` is obtained from `b` by deleting elements: an order-preserving subsequence. */
  predicate IsSubseq<T(==)>(a: seq<T>, b: seq<T>)
    decreases |b|
  {
    if a == [] then true
    else if b == [] then false
    else (a[0] == b[0] && IsSubseq(a[1..], b[1..])) || IsSubseq(a, b[1..])
  }

  /** `s.filter(p)`: the elements of `s` that satisfy `p`, front to back. */
  function Filter<T(==)>(s: seq<T>, p: T -> bool): (r: seq<T>)
    ensures |r| <= |s|
    ensures forall i :: 0 <= i < |r| ==> r[i] in s && p(r[i])
    ensures forall i :: 0 <= i < |s| && p(s[i]) ==> s[i] in r
  {
    if s == [] then [] else (if p(s[0]) then [s[0]] else []) + Filter(s[1..], p)
  }

  /** The filtered list keeps every occurrence of each passing element and
      none of the others. */
  lemma {:induction false} FilterCounts<T>(s: seq<T>, p: T -> bool)
    ensures forall x :: multiset(Filter(s, p))[x] == if p(x) then multiset(s)[x] else 0
  {
    if s != [] {
      FilterCounts(s[1..], p);
      assert s == [s[0]] + s[1..];
    }
  }

  /** The filtered list keeps the input order and invents nothing. */
  lemma {:induction false} FilterIsSubseq<T>(s: seq<T>, p: T -> bool)
    ensures IsSubseq(Filter(s, p), s)
  {
    if s != [] {
      FilterIsSubseq(s[1..], p);
      var rest := Filter(s[1..], p);
      if p(s[0]) {
        assert Filter(s, p) == [s[0]] + rest;
        assert ([s[0]] + rest)[1..] == rest;
      } else {
        assert Filter(s, p) == rest;
        SubseqOfTail(rest, s);
      }
    }
  }

  /** A subsequence of the tail is a subsequence of the whole. */
  lemma SubseqOfTail<T>(a: seq<T>, b: seq<T>)
    requires b != [] && IsSubseq(a, b[1..])
    ensures IsSubseq(a, b)
  {
  }

  /** Nothing is dropped when every element passes. */
  lemma {:induction false} FilterAllPass<T>(s: seq<T>, p: T -> bool)
    requires forall i :: 0 <= i < |s| ==> p(s[i])
    ensures Filter(s, p) == s
  {
    if s != [] {
      FilterAllPass(s[1..], p);
      assert [s[0]] + s[1..] == s;
    }
  }

  /** Two tests that agree on every element select the same elements. */
  lemma {:induction false} FilterCongruent<T>(s: seq<T>, p: T -> bool, q: T -> bool)
    requires forall i :: 0 <= i < |s| ==> p(s[i]) == q(s[i])
    ensures Filter(s, p) == Filter(s, q)
  {
    if s != [] {
      FilterCongruent(s[1..], p, q);
    }
  }

  /** Filtering twice with the same predicate is filtering once. */
  lemma FilterIdempotent<T>(s: seq<T>, p: T -> bool)
    ensures Filter(Filter(s, p), p) == Filter(s, p)
  {
    var r := Filter(s, p);
    assert forall i :: 0 <= i < |r| ==> p(r[i]) by {
      forall i | 0 <= i < |r| ensures p(r[i]) { assert r[i] in r; }
    }
    FilterAllPass(r, p);
  }

  /** The count of kept elements never exceeds the input's length, and
      equals it exactly when every element passes. */
  lemma {:induction false} FilterLengthAllPass<T>(s: seq<T>, p: T -> bool)
    ensures |Filter(s, p)| == |s| <==> forall i :: 0 <= i < |s| ==> p(s[i])
  {
    if s != [] {
      FilterLengthAllPass(s[1..], p);
      assert forall i :: 1 <= i < |s| ==> s[i] == s[1..][i - 1];
    }
  }

  /** A stricter filter keeps a subsequence of what a looser one keeps. */
  lemma {:induction false} FilterStricter<T>(s: seq<T>, strict: T -> bool, loose: T -> bool)
    requires forall i :: 0 <= i < |s| && strict(s[i]) ==> loose(s[i])
    ensures IsSubseq(Filter(s, strict), Filter(s, loose))
  {
    if s != [] {
      FilterStricter(s[1..], strict, loose);
      var a, b := Filter(s[1..], strict), Filter(s[1..], loose);
      if strict(s[0]) {
        assert Filter(s, strict) == [s[0]] + a && Filter(s, loose) == [s[0]] + b;
        assert ([s[0]] + a)[1..] == a && ([s[0]] + b)[1..] == b;
      } else if loose(s[0]) {
        assert Filter(s, strict) == a && Filter(s, loose) == [s[0]] + b;
        assert ([s[0]] + b)[1..] == b;
        SubseqOfTail(a, [s[0]] + b);
      } else {
        assert Filter(s, strict) == a && Filter(s, loose) == b;
      }
    }
  }

  /** Filtering a list by a looser test and then by a stricter one is
      filtering by the stricter one alone. */
  lemma {:induction false} FilterOfFilter<T>(s: seq<T>, strict: T -> bool, loose: T -> bool)
    requires forall i :: 0 <= i < |s| && strict(s[i]) ==> loose(s[i])
    ensures Filter(Filter(s, loose), strict) == Filter(s, strict)
  {
    if s != [] {
      FilterOfFilter(s[1..], strict, loose);
      var rest := Filter(s[1..], loose);
      if loose(s[0]) {
        assert Filter(s, loose) == [s[0]] + rest;
        assert ([s[0]] + rest)[1..] == rest;
        assert Filter([s[0]] + rest, strict) ==
               (if strict(s[0]) then [s[0]] else []) + Filter(rest, strict);
      } else {
        assert !strict(s[0]);
        assert Filter(s, loose) == rest;
      }
    }
  }

  /** No element occurs twice. */
  predicate NoDups<T(==)>(s: seq<T>) {
    forall i, j :: 0 <= i < j < |s| ==> s[i] != s[j]
  }

  /** The position of the first occurrence of `x` in `s`. */
  function FirstIndex<T(==)>(s: seq<T>, x: T): (k: nat)
    requires x in s
    ensures k < |s| && s[k] == x
    ensures forall i :: 0 <= i < k ==> s[i] != x
  {
    if s[0] == x then 0 else 1 + FirstIndex(s[1..], x)
  }

  /** `[...new Set(s)]`: the distinct elements of `s`, in the order in which a
      `Set` receives them (each element is inserted at its first occurrence). */
  function Dedup<T(==)>(s: seq<T>): (r: seq<T>)
    ensures forall i :: 0 <= i < |r| ==> r[i] in s
    ensures forall i :: 0 <= i < |s| ==> s[i] in r
    ensures NoDups(r)
  {
    if s == [] then []
    else
      var r := Dedup(s[..|s| - 1]);
      var x := s[|s| - 1];
      assert s == s[..|s| - 1] + [x];
      if x in r then r else r + [x]
  }

  /** The first occurrence of an element of a prefix lies in that prefix. */
  lemma FirstIndexInPrefix<T>(s: seq<T>, n: nat, y: T)
    requires n <= |s| && y in s[..n]
    ensures FirstIndex(s, y) == FirstIndex(s[..n], y)
  {
    var k1, k2 := FirstIndex(s, y), FirstIndex(s[..n], y);
    assert s[k2] == s[..n][k2];
    assert k1 <= k2 < n;
    assert s[..n][k1] == y;
  }

  /** Dedup lists the distinct elements by increasing first occurrence. */
  lemma {:induction false} DedupFirstOccurrenceOrder<T>(s: seq<T>)
    ensures forall i, j :: 0 <= i < j < |Dedup(s)| ==>
              FirstIndex(s, Dedup(s)[i]) < FirstIndex(s, Dedup(s)[j])
  {
    if s != [] {
      var n := |s| - 1;
      var p := s[..n];
      var x := s[n];
      var r' := Dedup(p);
      DedupFirstOccurrenceOrder(p);
      forall y | y in r' ensures FirstIndex(s, y) == FirstIndex(p, y) && FirstIndex(p, y) < n {
        FirstIndexInPrefix(s, n, y);
      }
      if x !in r' {
        assert x !in p;
        assert FirstIndex(s, x) == n;
        var r := r' + [x];
        assert Dedup(s) == r;
        forall i, j | 0 <= i < j < |r| ensures FirstIndex(s, r[i]) < FirstIndex(s, r[j]) {
          assert r[i] == r'[i] && r[i] in r';
          if j < |r'| {
            assert r[j] == r'[j] && r[j] in r';
          }
        }
      } else {
        assert Dedup(s) == r';
        forall i, j | 0 <= i < j < |r'| ensures FirstIndex(s, r'[i]) < FirstIndex(s, r'[j]) {
          assert r'[i] in r' && r'[j] in r';
        }
      }
    }
  }

  /** The same order behind a fixed list of leading entries. */
  lemma DedupOrderAfter<T>(lead: seq<T>, s: seq<T>)
    ensures forall i :: |lead| <= i < |lead + Dedup(s)| ==> (lead + Dedup(s))[i] in s
    ensures forall i, j :: |lead| <= i < j < |lead + Dedup(s)| ==>
              FirstIndex(s, (lead + Dedup(s))[i]) < FirstIndex(s, (lead + Dedup(s))[j])
  {
    var d := Dedup(s);
    var opts := lead + d;
    DedupFirstOccurrenceOrder(s);
    forall i | |lead| <= i < |opts| ensures opts[i] in s {
      assert opts[i] == d[i - |lead|];
    }
    forall i, j | |lead| <= i < j < |opts| ensures FirstIndex(s, opts[i]) < FirstIndex(s, opts[j]) {
      assert opts[i] == d[i - |lead|] && opts[j] == d[j - |lead|];
    }
  }

  /** The first element of `s` satisfying `p` sits at index `k`. */
  predicate FirstSatisfying<T>(s: seq<T>, p: T -> bool, k: int) {
    0 <= k < |s| && p(s[k]) && forall i :: 0 <= i < k ==> !p(s[i])
  }

  /** `s.find(p)`: the first element satisfying `p`, `None` for `undefined`. */
  function Find<T>(s: seq<T>, p: T -> bool): (r: Option<T>)
    ensures r.None? <==> forall i :: 0 <= i < |s| ==> !p(s[i])
    ensures r.Some? ==> exists k :: FirstSatisfying(s, p, k) && s[k] == r.value
  {
    if s == [] then None
    else if p(s[0]) then
      assert FirstSatisfying(s, p, 0);
      Some(s[0])
    else
      var r := Find(s[1..], p);
      assert r.Some? ==> exists k :: FirstSatisfying(s, p, k) && s[k] == r.value by {
        if r.Some? {
          var k :| FirstSatisfying(s[1..], p, k) && s[1..][k] == r.value;
          assert FirstSatisfying(s, p, k + 1);
        }
      }
      r
  }

  /** The first match is unique, so `Find` returns the element there. */
  lemma FindFirst<T>(s: seq<T>, p: T -> bool, k: int)
    requires FirstSatisfying(s, p, k)
    ensures Find(s, p) == Some(s[k])
  {
    assert p(s[k]);
    var r := Find(s, p);
    var j :| FirstSatisfying(s, p, j) && s[j] == r.value;
    assert p(s[j]);
    assert j == k;
  }

  /** `s.map(f)`: element `i` of the result is `f` of element `i` of `s`. */
  function Map<T, U>(s: seq<T>, f: T -> U): (r: seq<U>)
    ensures |r| == |s|
    ensures forall i :: 0 <= i < |s| ==> r[i] == f(s[i])
  {
    if s == [] then []
    else
      assert forall i :: 1 <= i < |s| ==> s[i] == s[1..][i - 1];
      [f(s[0])] + Map(s[1..], f)
  }

  /** `s.slice(from, to)` on a string or an array, for non-negative
      arguments: both are clamped to the length. */
  function Slice<T>(s: seq<T>, from: nat, to: nat): (r: seq<T>)
    ensures |r| == if from <= to && from <= |s| then (if to <= |s| then to else |s|) - from else 0
    ensures forall i :: 0 <= i < |r| ==> r[i] == s[from + i]
  {
    var hi := if to <= |s| then to else |s|;
    if from <= hi then s[from..hi] else []
  }

  /** `s.slice(-k)` for `k > 0`: the last `k` elements, or all of `s` when
      it is shorter. */
  function SliceLast<T>(s: seq<T>, k: nat): (r: seq<T>)
    ensures |r| == if k <= |s| then k else |s|
    ensures r == s[|s| - |r|..]
  {
    if k <= |s| then s[|s| - k..] else s
  }
}
