/** How often an element occurs in a sequence, as seen through `multiset`:
    the sorting steps of project.cpp are specified as permutations, and
    these facts carry "no element twice" across a permutation. */
module Multisets {

  /** A sequence without repeated elements holds each element at most once. */
  lemma {:induction false} Unique<T>(s: seq<T>, x: T)
    requires forall i, j :: 0 <= i < j < |s| ==> s[i] != s[j]
    ensures multiset(s)[x] <= 1
    decreases |s|
  {
    if s != [] {
      var q, y := s[..|s| - 1], s[|s| - 1];
      assert s == q + [y];
      forall i, j | 0 <= i < j < |q| ensures q[i] != q[j] {
        assert q[i] == s[i] && q[j] == s[j];
      }
      Unique(q, x);
      if y == x {
        forall i | 0 <= i < |q| ensures q[i] != x {
          assert q[i] == s[i];
        }
        assert x !in q;
      }
    }
  }

  /** An element found at two positions occurs at least twice. */
  lemma Repeated<T>(s: seq<T>, i: nat, j: nat)
    requires i < j < |s| && s[i] == s[j]
    ensures multiset(s)[s[i]] >= 2
  {
    assert s == s[..j] + s[j..];
    assert s[i] in s[..j];
    assert s[j] == s[j..][0];
  }

  /** A permutation of a sequence without repeated elements has none either. */
  lemma PermutationUnique<T>(s: seq<T>, t: seq<T>)
    requires forall i, j :: 0 <= i < j < |s| ==> s[i] != s[j]
    requires multiset(t) == multiset(s)
    ensures forall i, j :: 0 <= i < j < |t| ==> t[i] != t[j]
  {
    forall i, j | 0 <= i < j < |t| ensures t[i] != t[j] {
      if t[i] == t[j] {
        Repeated(t, i, j);
        Unique(s, t[i]);
      }
    }
  }
}
