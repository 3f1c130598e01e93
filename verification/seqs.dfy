/** First-match search and order-preserving filtering over sequences: the two
    array primitives (`find` and `filter`) every part of the circuit engine
    is written with. */
module Seqs {
  import opened Wrappers

  /** `i` is the index of the first element of `s` satisfying `p`. */
  ghost predicate IsFirstMatch<T>(s: seq<T>, p: T -> bool, i: int) {
    && 0 <= i < |s|
    && p(s[i])
    && forall j :: 0 <= j < i ==> !p(s[j])
  }

  /** No element of `s` satisfies `p`. */
  ghost predicate NoMatch<T>(s: seq<T>, p: T -> bool) {
    forall j :: 0 <= j < |s| ==> !p(s[j])
  }

  /** The index `Array.prototype.findIndex` returns, as an Option. */
  function FindIndex<T>(s: seq<T>, p: T -> bool): (r: Option<nat>)
    ensures r.Some? ==> IsFirstMatch(s, p, r.value)
    ensures r.None? ==> NoMatch(s, p)
    decreases |s|
  {
    if |s| == 0 then None
    else if p(s[0]) then Some(0)
    else match FindIndex(s[1..], p)
      case None => None
      case Some(k) => Some(k + 1)
  }

  /** `Array.prototype.find`: the first element satisfying `p`, if any. */
  function Find<T>(s: seq<T>, p: T -> bool): (r: Option<T>)
    ensures r.Some? <==> exists i :: IsFirstMatch(s, p, i)
    ensures r.Some? ==> exists i :: IsFirstMatch(s, p, i) && s[i] == r.value
    ensures r.Some? ==> r.value in s && p(r.value)
    ensures r.None? <==> NoMatch(s, p)
  {
    match FindIndex(s, p)
    case None => None
    case Some(i) => Some(s[i])
  }

  /** There is at most one first match. */
  lemma FirstMatchUnique<T>(s: seq<T>, p: T -> bool, i: int, j: int)
    requires IsFirstMatch(s, p, i) && IsFirstMatch(s, p, j)
    ensures i == j
  {
  }

  /** Any two first matches coincide. */
  lemma FirstMatchesAgree<T>(s: seq<T>, p: T -> bool)
    ensures forall i, j :: IsFirstMatch(s, p, i) && IsFirstMatch(s, p, j) ==> i == j
  {
    forall i, j | IsFirstMatch(s, p, i) && IsFirstMatch(s, p, j) ensures i == j {
      FirstMatchUnique(s, p, i, j);
    }
  }

  /** `Array.prototype.filter`: the elements satisfying `p`, in their order. */
  function Filter<T>(s: seq<T>, p: T -> bool): (r: seq<T>)
    ensures |r| <= |s|
    ensures forall i :: 0 <= i < |r| ==> r[i] in s && p(r[i])
    ensures forall i :: 0 <= i < |s| && p(s[i]) ==> s[i] in r
    decreases |s|
  {
    if |s| == 0 then []
    else (if p(s[0]) then [s[0]] else []) + Filter(s[1..], p)
  }

  /** `a` can be obtained from `b` by deleting elements. */
  ghost predicate IsSubsequence<T>(a: seq<T>, b: seq<T>)
    decreases |b|
  {
    if |a| == 0 then true
    else if |b| == 0 then false
    else if a[0] == b[0] then IsSubsequence(a[1..], b[1..])
    else IsSubsequence(a, b[1..])
  }

  /** Filtering keeps the survivors in their original relative order. */
  lemma {:induction false} FilterIsSubsequence<T>(s: seq<T>, p: T -> bool)
    ensures IsSubsequence(Filter(s, p), s)
    decreases |s|
  {
    if |s| > 0 {
      FilterIsSubsequence(s[1..], p);
      if p(s[0]) {
        assert Filter(s, p) == [s[0]] + Filter(s[1..], p);
        assert Filter(s, p)[1..] == Filter(s[1..], p);
      } else {
        assert Filter(s, p) == Filter(s[1..], p);
        var f := Filter(s, p);
        if |f| > 0 {
          assert p(f[0]);
        }
      }
    }
  }

  /** `r` holds every copy in `s` of each element `keep` accepts, and no copy
      of any other element. */
  ghost predicate KeepsCopies<T(!new)>(r: seq<T>, s: seq<T>, keep: T -> bool) {
    forall x :: multiset(r)[x] == if keep(x) then multiset(s)[x] else 0
  }

  /** Filtering keeps every copy of a survivor and no copy of anything else. */
  lemma {:induction false} FilterCounts<T(!new)>(s: seq<T>, p: T -> bool)
    ensures KeepsCopies(Filter(s, p), s, p)
    decreases |s|
  {
    if |s| > 0 {
      FilterCounts(s[1..], p);
      assert s == [s[0]] + s[1..];
      assert multiset(s) == multiset{s[0]} + multiset(s[1..]);
      assert Filter(s, p) == (if p(s[0]) then [s[0]] else []) + Filter(s[1..], p);
    }
  }

  /** Filtering distributes over concatenation. */
  lemma {:induction false} FilterConcat<T>(a: seq<T>, b: seq<T>, p: T -> bool)
    ensures Filter(a + b, p) == Filter(a, p) + Filter(b, p)
    decreases |a|
  {
    if |a| == 0 {
      assert a + b == b;
    } else {
      assert (a + b)[0] == a[0];
      assert (a + b)[1..] == a[1..] + b;
      FilterConcat(a[1..], b, p);
    }
  }

  /** A filter whose predicate holds everywhere returns its input. */
  lemma {:induction false} FilterKeepsAll<T>(s: seq<T>, p: T -> bool)
    requires forall x :: x in s ==> p(x)
    ensures Filter(s, p) == s
    decreases |s|
  {
    if |s| > 0 {
      assert forall x :: x in s[1..] ==> x in s;
      FilterKeepsAll(s[1..], p);
      assert s == [s[0]] + s[1..];
    }
  }

  /** A filter whose predicate holds nowhere returns the empty sequence. */
  lemma {:induction false} FilterDropsAll<T>(s: seq<T>, p: T -> bool)
    requires forall i :: 0 <= i < |s| ==> !p(s[i])
    ensures Filter(s, p) == []
    decreases |s|
  {
    if |s| > 0 {
      FilterDropsAll(s[1..], p);
    }
  }

  /** Two searches that see the same verdicts position by position find the
      same index: `find` looks only at what its predicate says. */
  lemma {:induction false} FindIndexCongruent<T, U>(s: seq<T>, p: T -> bool, t: seq<U>, q: U -> bool)
    requires |s| == |t|
    requires forall i :: 0 <= i < |s| ==> p(s[i]) == q(t[i])
    ensures FindIndex(s, p) == FindIndex(t, q)
    decreases |s|
  {
    if |s| > 0 && !p(s[0]) {
      FindIndexCongruent(s[1..], p, t[1..], q);
    }
  }

  /** Removing elements the search cannot match does not change what it finds. */
  lemma {:induction false} FindIgnoresFiltered<T>(s: seq<T>, p: T -> bool, keep: T -> bool)
    requires forall x :: x in s && p(x) ==> keep(x)
    ensures Find(Filter(s, keep), p) == Find(s, p)
    decreases |s|
  {
    if |s| > 0 {
      assert forall x :: x in s[1..] ==> x in s;
      FindIgnoresFiltered(s[1..], p, keep);
      var rest := Filter(s[1..], keep);
      if keep(s[0]) {
        assert Filter(s, keep) == [s[0]] + rest;
        if p(s[0]) {
          assert IsFirstMatch(Filter(s, keep), p, 0);
          assert IsFirstMatch(s, p, 0);
        } else {
          FindSkipsHead(s[0], rest, p);
          FindSkipsHead(s[0], s[1..], p);
          assert s == [s[0]] + s[1..];
        }
      } else {
        assert Filter(s, keep) == rest;
        assert !p(s[0]);
        FindSkipsHead(s[0], s[1..], p);
        assert s == [s[0]] + s[1..];
      }
    }
  }

  /** A head element the predicate rejects does not affect the search. */
  lemma FindSkipsHead<T>(x: T, s: seq<T>, p: T -> bool)
    requires !p(x)
    ensures Find([x] + s, p) == Find(s, p)
  {
    var t := [x] + s;
    assert t[1..] == s;
  }

  /** When nothing in `a` matches and `b` starts with a match, the first
      match of `a + b` sits right after `a`. */
  lemma {:induction false} FindIndexAfterPrefix<T>(a: seq<T>, b: seq<T>, p: T -> bool)
    requires NoMatch(a, p)
    requires |b| > 0 && p(b[0])
    ensures FindIndex(a + b, p) == Some(|a|)
    decreases |a|
  {
    if |a| == 0 {
      assert a + b == b;
    } else {
      assert !p(a[0]);
      assert (a + b)[0] == a[0];
      assert (a + b)[1..] == a[1..] + b;
      FindIndexAfterPrefix(a[1..], b, p);
    }
  }
}
