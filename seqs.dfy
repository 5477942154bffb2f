/**
 * Order-preserving subsequences, duplicate-free sequences, and the array
 * built-ins the stores use on lists of records keyed by an identifier:
 * `findIndex`/`find`, `some`, and `filter` on a key.
 */
module Seqs {
  import opened Wrappers

  /** `a` is `b` with some elements left out and the rest kept in their order. */
  predicate IsSubsequence<T(==)>(a: seq<T>, b: seq<T>)
    decreases |b|
  {
    if a == [] then true
    else if b == [] then false
    else (a[0] == b[0] && IsSubsequence(a[1..], b[1..])) || IsSubsequence(a, b[1..])
  }

  /** No element occurs twice. */
  predicate NoDuplicates<T(==)>(s: seq<T>) {
    forall i, j | 0 <= i < j < |s| :: s[i] != s[j]
  }

  /** A subsequence is no longer than the sequence and takes each element at most as often. */
  lemma {:induction false} SubsequenceBounds<T>(a: seq<T>, b: seq<T>)
    requires IsSubsequence(a, b)
    ensures |a| <= |b|
    ensures multiset(a) <= multiset(b)
    decreases |b|
  {
    if a == [] {
    } else if a[0] == b[0] && IsSubsequence(a[1..], b[1..]) {
      SubsequenceBounds(a[1..], b[1..]);
      assert a == [a[0]] + a[1..];
      assert b == [b[0]] + b[1..];
    } else {
      SubsequenceBounds(a, b[1..]);
      assert b == [b[0]] + b[1..];
    }
  }

  /** An element found at two positions occurs at least twice. */
  lemma RepeatedElementCount<T>(s: seq<T>, i: int, j: int)
    requires 0 <= i < j < |s| && s[i] == s[j]
    ensures multiset(s)[s[i]] >= 2
  {
    assert s == s[..j] + s[j..];
    assert s[i] in s[..j] && s[j] in s[j..];
  }

  /** The elements of `s` from last to first. */
  function Reverse<T>(s: seq<T>): (r: seq<T>)
    ensures |r| == |s|
    ensures forall i | 0 <= i < |s| :: r[i] == s[|s| - 1 - i]
  {
    if s == [] then [] else Reverse(s[1..]) + [s[0]]
  }

  lemma {:induction false} ReverseMultiset<T>(s: seq<T>)
    ensures multiset(Reverse(s)) == multiset(s)
  {
    if s != [] {
      ReverseMultiset(s[1..]);
      assert s == [s[0]] + s[1..];
    }
  }

  /** Some element of `s` has key `k` (`s.some(x => key(x) === k)`). */
  predicate HasKey<T, K(==)>(s: seq<T>, key: T -> K, k: K) {
    exists i | 0 <= i < |s| :: key(s[i]) == k
  }

  /** The position of the first element with key `k` (`s.findIndex(x => key(x) === k)`, None for -1). */
  function FirstIndex<T, K(==)>(s: seq<T>, key: T -> K, k: K): (r: Option<nat>)
    ensures r.Some? ==> r.value < |s| && key(s[r.value]) == k
    ensures r.Some? ==> forall i | 0 <= i < r.value :: key(s[i]) != k
    ensures r.None? <==> !HasKey(s, key, k)
  {
    if s == [] then None
    else if key(s[0]) == k then Some(0)
    else
      match FirstIndex(s[1..], key, k)
      case None => None
      case Some(i) => Some(i + 1)
  }

  /** The elements whose key is not `k`, in their order (`s.filter(x => key(x) !== k)`). */
  function FilterOut<T, K(==)>(s: seq<T>, key: T -> K, k: K): (r: seq<T>)
    ensures IsSubsequence(r, s)
    ensures forall i | 0 <= i < |r| :: key(r[i]) != k
  {
    if s == [] then []
    else
      var rest := FilterOut(s[1..], key, k);
      if key(s[0]) != k then
        assert ([s[0]] + rest)[1..] == rest;
        [s[0]] + rest
      else rest
  }

  /** Filtering drops exactly the elements with key `k` and keeps every other one as often as it occurs. */
  lemma {:induction false} FilterOutExact<T, K>(s: seq<T>, key: T -> K, k: K)
    ensures forall x :: multiset(FilterOut(s, key, k))[x] == if key(x) == k then 0 else multiset(s)[x]
  {
    if s != [] {
      FilterOutExact(s[1..], key, k);
      assert s == [s[0]] + s[1..];
    }
  }

  /** `s` without its element at position `i` (`s.splice(i, 1)`). */
  function RemoveAt<T>(s: seq<T>, i: nat): (r: seq<T>)
    requires i < |s|
    ensures |r| == |s| - 1
    ensures forall j | 0 <= j < |r| :: r[j] == if j < i then s[j] else s[j + 1]
  {
    s[..i] + s[i + 1..]
  }

  /** Filtering a concatenation filters each part. */
  lemma {:induction false} FilterOutAppend<T, K>(s: seq<T>, t: seq<T>, key: T -> K, k: K)
    ensures FilterOut(s + t, key, k) == FilterOut(s, key, k) + FilterOut(t, key, k)
  {
    if s != [] {
      assert (s + t)[1..] == s[1..] + t;
      FilterOutAppend(s[1..], t, key, k);
    } else {
      assert s + t == t;
    }
  }

  /** Nothing to drop leaves the sequence as it was. */
  lemma {:induction false} FilterOutAbsent<T, K>(s: seq<T>, key: T -> K, k: K)
    requires !HasKey(s, key, k)
    ensures FilterOut(s, key, k) == s
  {
    if s != [] {
      assert key(s[0]) != k;
      assert !HasKey(s[1..], key, k) by {
        forall i | 0 <= i < |s| - 1 ensures key(s[1..][i]) != k {
          assert s[1..][i] == s[i + 1];
        }
      }
      FilterOutAbsent(s[1..], key, k);
      assert s == [s[0]] + s[1..];
    }
  }

  /** A subsequence of a duplicate-free sequence is duplicate-free. */
  lemma {:induction false} SubsequenceNoDuplicates<T>(a: seq<T>, b: seq<T>)
    requires IsSubsequence(a, b) && NoDuplicates(b)
    ensures NoDuplicates(a)
    decreases |b|
  {
    if a == [] {
    } else if a[0] == b[0] && IsSubsequence(a[1..], b[1..]) {
      SubsequenceNoDuplicates(a[1..], b[1..]);
      SubsequenceBounds(a[1..], b[1..]);
      assert b[0] !in b[1..] by {
        forall k | 0 <= k < |b| - 1 ensures b[1..][k] != b[0] {
          assert b[1..][k] == b[k + 1];
        }
      }
      forall i, j | 0 <= i < j < |a| ensures a[i] != a[j] {
        if i == 0 {
          assert a[j] == a[1..][j - 1];
          assert a[j] in multiset(a[1..]);
        } else {
          assert a[i] == a[1..][i - 1] && a[j] == a[1..][j - 1];
        }
      }
    } else {
      assert NoDuplicates(b[1..]) by {
        forall i, j | 0 <= i < j < |b| - 1 ensures b[1..][i] != b[1..][j] {
          assert b[1..][i] == b[i + 1] && b[1..][j] == b[j + 1];
        }
      }
      SubsequenceNoDuplicates(a, b[1..]);
    }
  }

  /** The elements whose key is `k`, in their order (`s.filter(x => key(x) === k)`). */
  function FilterKeep<T, K(==)>(s: seq<T>, key: T -> K, k: K): (r: seq<T>)
    ensures IsSubsequence(r, s)
    ensures forall i | 0 <= i < |r| :: key(r[i]) == k
  {
    if s == [] then []
    else
      var rest := FilterKeep(s[1..], key, k);
      if key(s[0]) == k then
        assert ([s[0]] + rest)[1..] == rest;
        [s[0]] + rest
      else rest
  }

  /** Filtering keeps exactly the elements with key `k`, each as often as it occurs. */
  lemma {:induction false} FilterKeepExact<T, K>(s: seq<T>, key: T -> K, k: K)
    ensures forall x :: multiset(FilterKeep(s, key, k))[x] == if key(x) == k then multiset(s)[x] else 0
  {
    if s != [] {
      FilterKeepExact(s[1..], key, k);
      assert s == [s[0]] + s[1..];
    }
  }

  /** Filtering a concatenation filters each part. */
  lemma {:induction false} FilterKeepAppend<T, K>(s: seq<T>, t: seq<T>, key: T -> K, k: K)
    ensures FilterKeep(s + t, key, k) == FilterKeep(s, key, k) + FilterKeep(t, key, k)
  {
    if s != [] {
      assert (s + t)[1..] == s[1..] + t;
      FilterKeepAppend(s[1..], t, key, k);
    } else {
      assert s + t == t;
    }
  }
}
