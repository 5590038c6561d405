/**
 * Sequence vocabulary shared by the two view-controllers: the array filter,
 * order-preserving sub-sequences and merges, and the first-appearance list that
 * an insertion-ordered set yields.
 */
module Seqs {

  /** The elements of `s` that satisfy `p`, in their original order (an array's `filter`). */
  function Filter<T(!new)>(s: seq<T>, p: T -> bool): (r: seq<T>)
    ensures |r| <= |s|
    ensures forall k :: 0 <= k < |r| ==> p(r[k])
    ensures forall x :: x in r <==> x in s && p(x)
  {
    if s == [] then []
    else if p(s[0]) then [s[0]] + Filter(s[1..], p)
    else Filter(s[1..], p)
  }

  /** `a` is obtained from `b` by deleting elements and keeping the order of the rest. */
  predicate IsSubsequence<T(==)>(a: seq<T>, b: seq<T>)
  {
    if a == [] then true
    else if b == [] then false
    else if a[0] == b[0] then IsSubsequence(a[1..], b[1..])
    else IsSubsequence(a, b[1..])
  }

  /** `s` is an order-preserving merge of `a` and `b`: each element of `s` is taken, in turn, from the front of one of them. */
  predicate Interleaves<T(==)>(s: seq<T>, a: seq<T>, b: seq<T>)
    decreases |s|
  {
    if s == [] then a == [] && b == []
    else
      || (a != [] && a[0] == s[0] && Interleaves(s[1..], a[1..], b))
      || (b != [] && b[0] == s[0] && Interleaves(s[1..], a, b[1..]))
  }

  predicate NoDuplicates<T(==)>(s: seq<T>)
  {
    forall i, j :: 0 <= i < j < |s| ==> s[i] != s[j]
  }

  /** The position where `x` first appears in `s`. */
  function IndexOf<T(==)>(s: seq<T>, x: T): (k: nat)
    requires x in s
    ensures k < |s| && s[k] == x && x !in s[..k]
  {
    if s[0] == x then 0 else 1 + IndexOf(s[1..], x)
  }

  /**
   * `s` with repetitions dropped, each element kept once: what adding the elements
   * of `s` one by one to an insertion-ordered set and spreading it yields.
   */
  function Distinct<T(==,!new)>(s: seq<T>): (r: seq<T>)
    ensures NoDuplicates(r)
    ensures forall x :: x in r <==> x in s
  {
    if s == [] then []
    else
      var init, last := s[..|s| - 1], s[|s| - 1];
      assert s == init + [last];
      var prefix := Distinct(init);
      if last in prefix then prefix else prefix + [last]
  }

  lemma {:induction false} FilterConcat<T(!new)>(a: seq<T>, b: seq<T>, p: T -> bool)
    ensures Filter(a + b, p) == Filter(a, p) + Filter(b, p)
  {
    if a == [] {
      assert a + b == b;
    } else {
      assert (a + b)[0] == a[0];
      assert (a + b)[1..] == a[1..] + b;
      FilterConcat(a[1..], b, p);
    }
  }

  /** Filtering one more element appends it exactly when it passes. */
  lemma FilterSnoc<T(!new)>(s: seq<T>, x: T, p: T -> bool)
    ensures Filter(s + [x], p) == if p(x) then Filter(s, p) + [x] else Filter(s, p)
  {
    FilterConcat(s, [x], p);
    assert [x][1..] == [];
  }

  /** Filtering keeps everything exactly when every element passes. */
  lemma {:induction false} FilterAllPass<T(!new)>(s: seq<T>, p: T -> bool)
    ensures Filter(s, p) == s <==> forall k :: 0 <= k < |s| ==> p(s[k])
  {
    if s != [] {
      FilterAllPass(s[1..], p);
      if !p(s[0]) {
        assert |Filter(s, p)| < |s| by {
          assert Filter(s, p) == Filter(s[1..], p);
        }
      } else if forall k :: 0 <= k < |s| ==> p(s[k]) {
        assert forall k :: 0 <= k < |s[1..]| ==> p(s[1..][k]) by {
          forall k | 0 <= k < |s[1..]| ensures p(s[1..][k]) {
            assert s[1..][k] == s[k + 1];
          }
        }
      } else {
        var k :| 0 <= k < |s| && !p(s[k]);
        assert s[k] !in Filter(s, p);
      }
    }
  }

  lemma FilterIdempotent<T(!new)>(s: seq<T>, p: T -> bool)
    ensures Filter(Filter(s, p), p) == Filter(s, p)
  {
    FilterAllPass(Filter(s, p), p);
  }

  lemma {:induction false} FilterIsSubsequence<T(!new)>(s: seq<T>, p: T -> bool)
    ensures IsSubsequence(Filter(s, p), s)
  {
    if s != [] {
      FilterIsSubsequence(s[1..], p);
      if !p(s[0]) {
        SubsequenceOfTail(Filter(s[1..], p), s);
      }
    }
  }

  /** A sub-sequence of the tail of `b` is a sub-sequence of `b`. */
  lemma {:induction false} SubsequenceOfTail<T>(a: seq<T>, b: seq<T>)
    requires b != [] && IsSubsequence(a, b[1..])
    ensures IsSubsequence(a, b)
    decreases |b|
  {
    if a != [] && a[0] == b[0] {
      SubsequenceFront(a, b[1..]);
      SubsequenceOfTail(a[1..], b[1..]);
    }
  }

  /** Matching the front of `a` greedily in `b` leaves a sub-sequence of what follows. */
  lemma {:induction false} SubsequenceFront<T>(a: seq<T>, b: seq<T>)
    requires a != [] && IsSubsequence(a, b)
    ensures a[0] in b && IsSubsequence(a[1..], b[1..])
    decreases |b|
  {
    if a[0] != b[0] {
      SubsequenceFront(a, b[1..]);
      SubsequenceOfTail(a[1..], b[1..]);
    }
  }

  lemma {:induction false} SubsequenceReflexive<T>(s: seq<T>)
    ensures IsSubsequence(s, s)
  {
    if s != [] {
      SubsequenceReflexive(s[1..]);
    }
  }

  /** Every element of a sub-sequence is an element of the whole. */
  lemma {:induction false} SubsequenceMembers<T>(a: seq<T>, b: seq<T>)
    requires IsSubsequence(a, b)
    ensures forall x :: x in a ==> x in b
    decreases |b|
  {
    if a != [] {
      if a[0] == b[0] {
        SubsequenceMembers(a[1..], b[1..]);
        assert a == [a[0]] + a[1..] && b == [b[0]] + b[1..];
      } else {
        SubsequenceMembers(a, b[1..]);
      }
    }
  }

  /** Two complementary filters merge back into the input: an exhaustive, disjoint, order-preserving split. */
  lemma {:induction false} FilterSplit<T(!new)>(s: seq<T>, p: T -> bool, q: T -> bool)
    requires forall x :: q(x) == !p(x)
    ensures Interleaves(s, Filter(s, p), Filter(s, q))
  {
    if s != [] {
      FilterSplit(s[1..], p, q);
    }
  }

  /** A merge of `a` and `b` has their elements and nothing else. */
  lemma {:induction false} InterleavesCounts<T>(s: seq<T>, a: seq<T>, b: seq<T>)
    requires Interleaves(s, a, b)
    ensures |a| + |b| == |s|
    ensures multiset(a) + multiset(b) == multiset(s)
    decreases |s|
  {
    if s != [] {
      assert s == [s[0]] + s[1..];
      if a != [] && a[0] == s[0] && Interleaves(s[1..], a[1..], b) {
        InterleavesCounts(s[1..], a[1..], b);
        assert a == [a[0]] + a[1..];
      } else {
        InterleavesCounts(s[1..], a, b[1..]);
        assert b == [b[0]] + b[1..];
      }
    }
  }

  /** Adding one more element to the set: it is appended unless already there. */
  lemma DistinctSnoc<T(!new)>(s: seq<T>, x: T)
    ensures Distinct(s + [x]) == if x in Distinct(s) then Distinct(s) else Distinct(s) + [x]
  {
    assert (s + [x])[..|s|] == s;
  }

  /** Appending after `a` does not move the first appearance of an element of `a`. */
  lemma {:induction false} IndexOfAppend<T>(a: seq<T>, b: seq<T>, x: T)
    requires x in a
    ensures IndexOf(a + b, x) == IndexOf(a, x)
  {
    if a[0] != x {
      assert (a + b)[1..] == a[1..] + b;
      IndexOfAppend(a[1..], b, x);
    }
  }
}
