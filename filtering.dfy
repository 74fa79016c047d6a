/** This module models the list filter the store uses for both deletion and the
    per-type view (JavaScript's Array.prototype.filter): the elements that pass a
    test, in the order they have in the input. The lemmas below state what
    "filter" means independently of how it is computed: which elements are kept
    and how often, that order is kept, and how two complementary filters split
    a list. */
module Filtering {

  /** The elements of `s` for which `p` holds, in their order in `s`. */
  function Filter<T>(s: seq<T>, p: T -> bool): (r: seq<T>)
    ensures |r| <= |s|
    ensures forall i :: 0 <= i < |r| ==> r[i] in s && p(r[i])
    ensures forall i :: 0 <= i < |s| && p(s[i]) ==> s[i] in r
  {
    if s == [] then []
    else
      assert s == [s[0]] + s[1..];
      if p(s[0]) then [s[0]] + Filter(s[1..], p) else Filter(s[1..], p)
  }

  /** Filtering a concatenation filters each part: nothing moves across parts. */
  lemma {:induction false} FilterConcat<T>(a: seq<T>, b: seq<T>, p: T -> bool)
    ensures Filter(a + b, p) == Filter(a, p) + Filter(b, p)
  {
    if a == [] {
      assert a + b == b;
    } else {
      assert (a + b)[0] == a[0];
      assert (a + b)[1..] == a[1..] + b;
      FilterConcat(a[1..], b, p);
    }
  }

  /** Every occurrence of an element that passes is kept, and no other element is. */
  lemma {:induction false} FilterCount<T>(s: seq<T>, p: T -> bool, x: T)
    ensures multiset(Filter(s, p))[x] == if p(x) then multiset(s)[x] else 0
  {
    if s != [] {
      assert s == [s[0]] + s[1..];
      FilterCount(s[1..], p, x);
    }
  }

  /** A filter leaves a list unchanged exactly when every element passes. */
  lemma {:induction false} FilterUnchanged<T>(s: seq<T>, p: T -> bool)
    ensures Filter(s, p) == s <==> forall i :: 0 <= i < |s| ==> p(s[i])
  {
    if s != [] {
      assert s == [s[0]] + s[1..];
      FilterUnchanged(s[1..], p);
      if !p(s[0]) {
        assert Filter(s, p) != s by {
          assert |Filter(s, p)| <= |s[1..]|;
        }
      }
    }
  }

  /** Filtering twice with the same test is filtering once. */
  lemma FilterIdempotent<T>(s: seq<T>, p: T -> bool)
    ensures Filter(Filter(s, p), p) == Filter(s, p)
  {
  }

  /** Two complementary filters split a list: together they hold every element
      exactly as often as the list does, and their lengths add up to its length. */
  lemma {:induction false} FilterPartition<T>(s: seq<T>, p: T -> bool, q: T -> bool)
    requires forall x :: q(x) == !p(x)
    ensures multiset(Filter(s, p)) + multiset(Filter(s, q)) == multiset(s)
    ensures |Filter(s, p)| + |Filter(s, q)| == |s|
  {
    if s != [] {
      assert s == [s[0]] + s[1..];
      FilterPartition(s[1..], p, q);
    }
  }

  /** An element that passes lands in the output at the position given by the
      number of passing elements before it. */
  lemma FilterRank<T>(s: seq<T>, p: T -> bool, i: nat)
    requires i < |s| && p(s[i])
    ensures |Filter(s[..i], p)| < |Filter(s, p)|
    ensures Filter(s, p)[|Filter(s[..i], p)|] == s[i]
  {
    assert s == s[..i] + s[i..];
    FilterConcat(s[..i], s[i..], p);
    assert s[i..] == [s[i]] + s[i + 1..];
  }

  /** Positions in the output grow with positions in the input, so two kept
      elements appear in the output in the order they had in the input. */
  lemma FilterRankMonotone<T>(s: seq<T>, p: T -> bool, i: nat, j: nat)
    requires i < j <= |s| && p(s[i])
    ensures |Filter(s[..i], p)| < |Filter(s[..j], p)|
  {
    assert s[..j] == s[..i] + s[i..j];
    FilterConcat(s[..i], s[i..j], p);
    assert s[i..j] == [s[i]] + s[i + 1..j];
  }

  /** A filter keeps a key that is unique across the list unique. */
  lemma {:induction false} FilterKeepsDistinct<T, K>(s: seq<T>, p: T -> bool, key: T -> K)
    requires forall i, j :: 0 <= i < j < |s| ==> key(s[i]) != key(s[j])
    ensures forall i, j :: 0 <= i < j < |Filter(s, p)| ==> key(Filter(s, p)[i]) != key(Filter(s, p)[j])
  {
    if s != [] {
      var t := s[1..];
      assert forall i, j :: 0 <= i < j < |t| ==> key(t[i]) != key(t[j]) by {
        forall i, j | 0 <= i < j < |t| ensures key(t[i]) != key(t[j]) {
          assert t[i] == s[i + 1] && t[j] == s[j + 1];
        }
      }
      FilterKeepsDistinct(t, p, key);
      if p(s[0]) {
        var r := Filter(s, p);
        assert r == [s[0]] + Filter(t, p);
        forall j | 0 < j < |r| ensures key(r[0]) != key(r[j]) {
          assert r[j] in t;
          var k :| 0 <= k < |t| && t[k] == r[j];
          assert s[k + 1] == r[j];
        }
      }
    }
  }
}
