/**
 * Facts about sequences of any element type: sub-lists, distinctness, and the slicing
 * steps the loop proofs use. Stated generically, so that the solver need not look inside
 * the elements.
 */
module Seqs {
  /** `a` is `b` with some elements left out, the others kept in order. */
  predicate IsSubsequence<T(==)>(a: seq<T>, b: seq<T>)
    decreases |b|
  {
    if a == [] then true
    else if b == [] then false
    else if a[|a| - 1] == b[|b| - 1] then IsSubsequence(a[..|a| - 1], b[..|b| - 1])
    else IsSubsequence(a, b[..|b| - 1])
  }

  /** A sub-list stays a sub-list when the longer list grows at the end. */
  lemma {:induction false} SubsequenceSnoc<T>(a: seq<T>, b: seq<T>, x: T)
    requires IsSubsequence(a, b)
    ensures IsSubsequence(a, b + [x])
    decreases |a| + |b|, 1
  {
    if a != [] {
      assert (b + [x])[..|b|] == b;
      if a[|a| - 1] == x {
        SubsequenceDropLast(a, b);
      }
    }
  }

  /** Dropping the last element of a sub-list leaves a sub-list. */
  lemma {:induction false} SubsequenceDropLast<T>(a: seq<T>, b: seq<T>)
    requires a != [] && IsSubsequence(a, b)
    ensures IsSubsequence(a[..|a| - 1], b)
    decreases |a| + |b|, 0
  {
    var init, last := b[..|b| - 1], b[|b| - 1];
    assert b == init + [last];
    if a[|a| - 1] != last {
      SubsequenceDropLast(a, init);
    }
    SubsequenceSnoc(a[..|a| - 1], init, last);
  }

  /** Appending the same element to both lists keeps a sub-list a sub-list. */
  lemma SubsequenceBoth<T>(a: seq<T>, b: seq<T>, x: T)
    requires IsSubsequence(a, b)
    ensures IsSubsequence(a + [x], b + [x])
  {
    assert (a + [x])[..|a|] == a;
    assert (b + [x])[..|b|] == b;
  }

  /** Every list is a sub-list of itself. */
  lemma {:induction false} SubsequenceSelf<T>(a: seq<T>)
    ensures IsSubsequence(a, a)
    decreases |a|
  {
    if a != [] {
      SubsequenceSelf(a[..|a| - 1]);
    }
  }

  /** Every element of a sub-list is an element of the longer list. */
  lemma {:induction false} SubsequenceMembers<T>(a: seq<T>, b: seq<T>)
    requires IsSubsequence(a, b)
    ensures forall i :: 0 <= i < |a| ==> a[i] in b
    decreases |b|
  {
    if a != [] {
      var init := b[..|b| - 1];
      assert b == init + [b[|b| - 1]];
      if a[|a| - 1] == b[|b| - 1] {
        SubsequenceMembers(a[..|a| - 1], init);
        assert forall i :: 0 <= i < |a| - 1 ==> a[i] == a[..|a| - 1][i];
      } else {
        SubsequenceMembers(a, init);
      }
    }
  }

  /** No element occurs twice. */
  predicate Distinct<T(==)>(s: seq<T>) {
    forall i, j :: 0 <= i < j < |s| ==> s[i] != s[j]
  }

  /** A sub-list of a list without repeats has none either. */
  lemma {:induction false} SubsequenceDistinct<T>(a: seq<T>, b: seq<T>)
    requires IsSubsequence(a, b) && Distinct(b)
    ensures Distinct(a)
    decreases |b|
  {
    if a != [] {
      var init, last := b[..|b| - 1], b[|b| - 1];
      assert Distinct(init) by {
        assert forall i :: 0 <= i < |init| ==> init[i] == b[i];
      }
      assert last !in init by {
        assert forall i :: 0 <= i < |init| ==> init[i] == b[i] && b[i] != b[|b| - 1];
      }
      if a[|a| - 1] == last {
        var a' := a[..|a| - 1];
        SubsequenceDistinct(a', init);
        SubsequenceMembers(a', init);
        assert forall i :: 0 <= i < |a'| ==> a[i] == a'[i] && a'[i] != last;
      } else {
        SubsequenceDistinct(a, init);
      }
    }
  }

  // ---------------------------------------------------------------- slicing facts

  /** The prefix of length `|t|` is `t` itself. */
  lemma WholePrefix<T>(t: seq<T>, p: nat)
    requires p == |t|
    ensures t[..p] == t
  {
  }

  /** The prefix one longer is the prefix, then the next element. */
  lemma PrefixStep<T>(t: seq<T>, i: nat)
    requires i < |t|
    ensures t[..i + 1][..i] == t[..i] && t[..i + 1] == t[..i] + [t[i]]
  {
  }

  /** The suffix from `p` is its first element, then the suffix from `p + 1`. */
  lemma SplitAt<T>(t: seq<T>, p: nat)
    requires p < |t|
    ensures t[p..] == [t[p]] + t[p + 1..]
  {
  }

  /** Removing `x` from `s + [x] + rest` leaves `s + rest`. */
  lemma Splice<T>(s: seq<T>, x: T, rest: seq<T>)
    ensures var a := s + ([x] + rest);
      |s| < |a| && a[..|s|] + a[|s| + 1..] == s + rest && s + [] == s && (s + [x]) + rest == a
  {
    var a := s + ([x] + rest);
    assert a[..|s|] == s;
    assert a[|s| + 1..] == rest;
  }

  /** A sequence that agrees with `s` everywhere except at `i`, where it holds `x`, is `s[i := x]`. */
  lemma UpdatedAt<T>(a: seq<T>, s: seq<T>, i: nat, x: T)
    requires |a| == |s| && i < |a| && a[i] == x
    requires forall j :: 0 <= j < |a| && j != i ==> a[j] == s[j]
    ensures a == s[i := x]
  {
  }

  /** The second of two writes to the same place is the one that stays. */
  lemma UpdateTwice<T>(s: seq<T>, i: nat, a: T, b: T)
    requires i < |s|
    ensures s[i := a][i := b] == s[i := b]
  {
  }

  /** Concatenation is associative, and the empty sequence is its unit. */
  lemma AppendAssoc<T>(a: seq<T>, b: seq<T>, c: seq<T>)
    ensures (a + b) + c == a + (b + c) && a + [] == a
  {
  }

  /** Two sequences of the same length that agree everywhere are equal. */
  lemma AgreeEverywhere<T>(a: seq<T>, b: seq<T>)
    requires |a| == |b| && forall i :: 0 <= i < |a| ==> a[i] == b[i]
    ensures a == b
  {
  }
}
