/**
 * The JavaScript array operations the core relies on, as sequence functions:
 * `filter` (and a string `replace` that deletes one character class),
 * `[...new Set(xs)]`, `slice(0, n)`, and a `sort` whose comparator is random,
 * which may leave the elements in any order.
 */
module Seqs {

  /** The elements of `s` that satisfy `keep`, in their order. */
  function Filter<T>(s: seq<T>, keep: T -> bool): (r: seq<T>)
    ensures |r| <= |s|
    ensures forall i :: 0 <= i < |r| ==> keep(r[i])
  {
    if s == [] then [] else (if keep(s[0]) then [s[0]] else []) + Filter(s[1..], keep)
  }

  /** `a` can be obtained from `b` by deleting elements. */
  predicate IsSubsequence<T(==)>(a: seq<T>, b: seq<T>)
  {
    a == [] || (b != [] && ((a[0] == b[0] && IsSubsequence(a[1..], b[1..])) || IsSubsequence(a, b[1..])))
  }

  lemma {:induction false} FilterIsSubsequence<T>(s: seq<T>, keep: T -> bool)
    ensures IsSubsequence(Filter(s, keep), s)
  {
    if s != [] {
      FilterIsSubsequence(s[1..], keep);
      var rest := Filter(s[1..], keep);
      if keep(s[0]) {
        assert ([s[0]] + rest)[1..] == rest;
      } else {
        assert Filter(s, keep) == rest;
      }
    }
  }

  /** An element survives exactly when it occurs in `s` and is kept. */
  lemma {:induction false} FilterMembership<T>(s: seq<T>, keep: T -> bool)
    ensures forall x :: x in Filter(s, keep) <==> x in s && keep(x)
  {
    if s != [] {
      FilterMembership(s[1..], keep);
      assert s == [s[0]] + s[1..];
    }
  }

  /** A sequence whose every element is kept is left as it is. */
  lemma {:induction false} FilterOfKept<T>(s: seq<T>, keep: T -> bool)
    requires forall i :: 0 <= i < |s| ==> keep(s[i])
    ensures Filter(s, keep) == s
  {
    if s != [] {
      FilterOfKept(s[1..], keep);
      assert [s[0]] + s[1..] == s;
    }
  }

  /** Filtering twice is filtering once. */
  lemma FilterIdempotent<T>(s: seq<T>, keep: T -> bool)
    ensures Filter(Filter(s, keep), keep) == Filter(s, keep)
  {
    FilterOfKept(Filter(s, keep), keep);
  }

  /** Every occurrence of a kept element survives, and no other element does. */
  lemma {:induction false} FilterCounts<T>(s: seq<T>, keep: T -> bool)
    ensures forall x :: multiset(Filter(s, keep))[x] == if keep(x) then multiset(s)[x] else 0
  {
    if s != [] {
      FilterCounts(s[1..], keep);
      assert s == [s[0]] + s[1..];
      assert multiset(s) == multiset([s[0]]) + multiset(s[1..]);
      var head := if keep(s[0]) then [s[0]] else [];
      assert multiset(Filter(s, keep)) == multiset(head) + multiset(Filter(s[1..], keep));
    }
  }

  /** Filtering a concatenation filters each part. */
  lemma {:induction false} FilterConcat<T>(a: seq<T>, b: seq<T>, keep: T -> bool)
    ensures Filter(a + b, keep) == Filter(a, keep) + Filter(b, keep)
  {
    if a != [] {
      FilterConcat(a[1..], b, keep);
      assert (a + b)[1..] == a[1..] + b;
      assert (a + b)[0] == a[0];
      var head := if keep(a[0]) then [a[0]] else [];
      assert Filter(a + b, keep) == head + Filter(a[1..] + b, keep);
      assert Filter(a, keep) == head + Filter(a[1..], keep);
      assert head + (Filter(a[1..], keep) + Filter(b, keep)) == (head + Filter(a[1..], keep)) + Filter(b, keep);
    } else {
      assert a + b == b;
    }
  }

  /** Filtering with a weaker test first changes nothing when every kept element passes it. */
  lemma {:induction false} FilterAbsorbs<T>(s: seq<T>, weak: T -> bool, strong: T -> bool)
    requires forall x :: strong(x) ==> weak(x)
    ensures Filter(Filter(s, weak), strong) == Filter(s, strong)
  {
    if s != [] {
      FilterAbsorbs(s[1..], weak, strong);
      var head := if weak(s[0]) then [s[0]] else [];
      FilterConcat(head, Filter(s[1..], weak), strong);
    }
  }

  predicate NoDuplicates<T(==)>(s: seq<T>)
  {
    forall i, j :: 0 <= i < j < |s| ==> s[i] != s[j]
  }

  /** The position of the first occurrence of `x`. */
  function FirstIndex<T(==)>(s: seq<T>, x: T): (i: nat)
    requires x in s
    ensures i < |s| && s[i] == x && x !in s[..i]
  {
    if s[0] == x then 0
    else
      var j := FirstIndex(s[1..], x);
      assert s[..j + 1] == [s[0]] + s[1..][..j];
      1 + j
  }

  lemma FirstIndexUnique<T>(s: seq<T>, x: T, i: nat)
    requires i < |s| && s[i] == x && x !in s[..i]
    ensures FirstIndex(s, x) == i
  {
    var j := FirstIndex(s, x);
  }

  /** An element of a prefix has its first occurrence inside that prefix. */
  lemma FirstIndexOfPrefix<T>(s: seq<T>, k: nat, x: T)
    requires k <= |s| && x in s[..k]
    ensures FirstIndex(s, x) == FirstIndex(s[..k], x) < k
  {
    var j := FirstIndex(s[..k], x);
    assert s[..k][..j] == s[..j];
    FirstIndexUnique(s, x, j);
  }

  /** `[...new Set(s)]`: every value once, in the order of its first occurrence. */
  function Dedup<T(==,!new)>(s: seq<T>): (r: seq<T>)
    ensures NoDuplicates(r)
    ensures forall x :: x in r <==> x in s
    ensures |r| <= |s|
  {
    if s == [] then []
    else
      var init := s[..|s| - 1];
      var r := Dedup(init);
      var x := s[|s| - 1];
      assert s == init + [x];
      if x in r then r else r + [x]
  }

  /** The values come out ordered by the position where each first occurs. */
  lemma {:induction false} DedupKeepsFirstOccurrenceOrder<T(!new)>(s: seq<T>)
    ensures forall i, j :: 0 <= i < j < |Dedup(s)| ==> FirstIndex(s, Dedup(s)[i]) < FirstIndex(s, Dedup(s)[j])
  {
    if s != [] {
      var init := s[..|s| - 1];
      var x := s[|s| - 1];
      DedupKeepsFirstOccurrenceOrder(init);
      var r0 := Dedup(init);
      forall y | y in r0
        ensures FirstIndex(s, y) == FirstIndex(init, y) < |init|
      {
        FirstIndexOfPrefix(s, |s| - 1, y);
      }
      if x !in r0 {
        assert s[..|s| - 1] == init;
        FirstIndexUnique(s, x, |s| - 1);
      }
    }
  }

  /** `s.slice(0, n)`. */
  function Take<T>(s: seq<T>, n: nat): (r: seq<T>)
    ensures |r| == if n < |s| then n else |s|
    ensures r == s[..|r|]
  {
    if n < |s| then s[..n] else s
  }

  /**
   * An arbitrary reordering: `choice` names, step by step, which of the
   * remaining elements comes next (an index out of range picks the first).
   * It stands for `sort` with a random comparator, whose outcome the model
   * does not fix.
   */
  function Permute<T>(s: seq<T>, choice: seq<nat>): (r: seq<T>)
    ensures |r| == |s|
    decreases |s|
  {
    if s == [] then []
    else
      var k := if choice != [] && choice[0] < |s| then choice[0] else 0;
      [s[k]] + Permute(RemoveAt(s, k), if choice == [] then [] else choice[1..])
  }

  /** `s` without its element at `k`. */
  function RemoveAt<T>(s: seq<T>, k: nat): (r: seq<T>)
    requires k < |s|
    ensures |r| == |s| - 1
    ensures multiset(r) == multiset(s) - multiset{s[k]}
  {
    assert s == s[..k] + [s[k]] + s[k + 1..];
    s[..k] + s[k + 1..]
  }

  /** Whatever the choice, the outcome is a reordering of `s`. */
  lemma {:induction false} PermuteIsReordering<T>(s: seq<T>, choice: seq<nat>)
    ensures multiset(Permute(s, choice)) == multiset(s)
    decreases |s|
  {
    if s != [] {
      var k := if choice != [] && choice[0] < |s| then choice[0] else 0;
      var c := if choice == [] then [] else choice[1..];
      PermuteIsReordering(RemoveAt(s, k), c);
      assert Permute(s, choice) == [s[k]] + Permute(RemoveAt(s, k), c);
    }
  }

  /** Every reordering of `s` is the outcome of some choice. */
  lemma {:induction false} PermuteReachesAll<T>(s: seq<T>, r: seq<T>) returns (choice: seq<nat>)
    requires multiset(r) == multiset(s)
    ensures Permute(s, choice) == r
    decreases |s|
  {
    if s == [] {
      assert |r| == |multiset(r)| == 0;
      choice := [];
    } else {
      assert |r| == |multiset(r)| == |s|;
      assert r[0] in multiset(s);
      assert r[0] in s;
      var k :| 0 <= k < |s| && s[k] == r[0];
      var rest := RemoveAt(s, k);
      TailCounts(r, s, k);
      var tail := PermuteReachesAll(rest, r[1..]);
      choice := [k] + tail;
      PermuteStep(s, k, tail);
      assert r == [r[0]] + r[1..];
    }
  }

  lemma PermuteStep<T>(s: seq<T>, k: nat, tail: seq<nat>)
    requires k < |s|
    ensures Permute(s, [k] + tail) == [s[k]] + Permute(RemoveAt(s, k), tail)
  {
    assert ([k] + tail)[0] == k;
    assert ([k] + tail)[1..] == tail;
  }

  lemma TailCounts<T>(r: seq<T>, s: seq<T>, k: nat)
    requires multiset(r) == multiset(s) && k < |s| && |r| > 0 && r[0] == s[k]
    ensures multiset(r[1..]) == multiset(RemoveAt(s, k))
  {
    assert r == [r[0]] + r[1..];
    assert multiset(r) == multiset{r[0]} + multiset(r[1..]);
  }

  /** Without duplicates, every value occurs at most once. */
  lemma {:induction false} NoDuplicatesCounts<T>(s: seq<T>)
    requires NoDuplicates(s)
    ensures forall x :: multiset(s)[x] <= 1
  {
    if s != [] {
      NoDuplicatesCounts(s[1..]);
      assert s == [s[0]] + s[1..];
      assert s[0] !in s[1..];
    }
  }

  /** Reordering keeps a sequence free of duplicates. */
  lemma PermutationKeepsNoDuplicates<T>(s: seq<T>, r: seq<T>)
    requires multiset(r) == multiset(s) && NoDuplicates(s)
    ensures NoDuplicates(r)
  {
    NoDuplicatesCounts(s);
    forall i, j | 0 <= i < j < |r|
      ensures r[i] != r[j]
    {
      assert r == r[..j] + r[j..];
      assert r[i] in r[..j] && r[j] in r[j..];
      assert multiset(r)[r[j]] == multiset(r[..j])[r[j]] + multiset(r[j..])[r[j]];
    }
  }
}
