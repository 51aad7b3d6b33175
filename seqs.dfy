/** Sequence notions used to state what the loops of the hook build. */
module Seqs {

  /** No element occurs twice. */
  predicate Distinct<T(==)>(s: seq<T>) {
    forall i, j | 0 <= i < j < |s| :: s[i] != s[j]
  }

  /** `s` lists every element of `xs` exactly once, in some order: what a Go
      `range` over a map produces from the map's keys. */
  predicate IsEnumeration<T(==)>(s: seq<T>, xs: set<T>) {
    Distinct(s) && (forall x | x in s :: x in xs) && (forall x | x in xs :: x in s)
  }

  /** An enumeration has as many elements as the set it enumerates. */
  lemma {:induction false} EnumerationLength<T>(s: seq<T>, xs: set<T>)
    requires IsEnumeration(s, xs)
    ensures |s| == |xs|
    decreases |s|
  {
    if s != [] {
      var last := s[|s| - 1];
      var prefix := s[..|s| - 1];
      assert last !in prefix by {
        forall i | 0 <= i < |prefix| ensures prefix[i] != last {
          assert s[i] == prefix[i];
        }
      }
      forall x | x in xs - {last} ensures x in prefix {
        var i :| 0 <= i < |s| && s[i] == x;
        assert i < |s| - 1;
        assert prefix[i] == x;
      }
      assert IsEnumeration(prefix, xs - {last});
      EnumerationLength(prefix, xs - {last});
    }
  }

  /** Dropping the last element keeps the rest distinct, and the last element
      is not among the rest. */
  lemma DistinctPrefix<T>(s: seq<T>)
    requires Distinct(s) && s != []
    ensures Distinct(s[..|s| - 1])
    ensures s[|s| - 1] !in s[..|s| - 1]
  {
    var prefix := s[..|s| - 1];
    forall i | 0 <= i < |prefix| ensures prefix[i] != s[|s| - 1] {
      assert s[i] == prefix[i];
    }
  }

  /** The state of a loop that visits the elements of a set one at a time, with
      `rest` still to visit, and collects into `s` those visited that belong to
      `xs`. */
  predicate EnumeratedSoFar<T(==)>(s: seq<T>, xs: set<T>, rest: set<T>) {
    && Distinct(s)
    && (forall x | x in s :: x in xs && x !in rest)
    && (forall x | x in xs && x !in rest :: x in s)
  }

  /** Visiting `x` keeps the loop state: `x` is appended when it belongs to `xs`. */
  lemma EnumeratedStep<T>(s: seq<T>, xs: set<T>, rest: set<T>, x: T)
    requires EnumeratedSoFar(s, xs, rest) && x in rest
    ensures x in xs ==> EnumeratedSoFar(s + [x], xs, rest - {x})
    ensures x !in xs ==> EnumeratedSoFar(s, xs, rest - {x})
  {
    if x in xs {
      var t := s + [x];
      forall i, j | 0 <= i < j < |t| ensures t[i] != t[j] {
        if j == |s| {
          assert t[i] == s[i];
        } else {
          assert t[i] == s[i] && t[j] == s[j];
        }
      }
    }
  }

  /** Once nothing is left to visit, the collected sequence enumerates `xs`. */
  lemma EnumeratedDone<T>(s: seq<T>, xs: set<T>)
    requires EnumeratedSoFar(s, xs, {})
    ensures IsEnumeration(s, xs) && |s| == |xs|
  {
    EnumerationLength(s, xs);
  }

  /** `r` has one element per index in `sel`, in the same order, and `p`
      relates each element to its index. */
  predicate Follows<T>(r: seq<T>, sel: seq<nat>, p: (T, nat) -> bool) {
    |r| == |sel| && forall k | 0 <= k < |r| :: p(r[k], sel[k])
  }

  /** Appending an element related to an appended index keeps `Follows`. */
  lemma FollowsSnoc<T>(r: seq<T>, sel: seq<nat>, p: (T, nat) -> bool, x: T, i: nat)
    requires Follows(r, sel, p) && p(x, i)
    ensures Follows(r + [x], sel + [i], p)
  {
    forall k | 0 <= k < |r| + 1 ensures p((r + [x])[k], (sel + [i])[k]) {
      if k < |r| {
        assert (r + [x])[k] == r[k] && (sel + [i])[k] == sel[k];
      }
    }
  }
}
