/**
 * Facts about Python lists used by both the main window and the viewer:
 * lists without duplicates, the first index of an element, and what a change
 * to a list's multiset of elements says about its members.
 */
module Seqs {

  /** No element occurs twice. */
  predicate Distinct<T(==)>(s: seq<T>)
  {
    forall i, j :: 0 <= i < j < |s| ==> s[i] != s[j]
  }

  lemma DistinctAppend<T>(s: seq<T>, x: T)
    requires Distinct(s) && x !in s
    ensures Distinct(s + [x])
  {
    assert forall i :: 0 <= i < |s| ==> (s + [x])[i] == s[i];
  }

  /** `list.index`: the first place `x` occurs in `s`. */
  function IndexOf<T(==)>(s: seq<T>, x: T): (i: nat)
    requires x in s
    ensures i < |s| && s[i] == x && x !in s[..i]
  {
    if s[0] == x then 0
    else
      assert x in s[1..] by { assert s == [s[0]] + s[1..]; }
      var j := IndexOf(s[1..], x);
      assert s[..j + 1] == [s[0]] + s[1..][..j];
      j + 1
  }

  /** A non-empty list is without duplicates when its head is not in its tail and its tail is without duplicates. */
  lemma DistinctCons<T>(s: seq<T>)
    requires s != []
    ensures Distinct(s) <==> s[0] !in s[1..] && Distinct(s[1..])
  {
    var t := s[1..];
    assert forall k :: 0 <= k < |t| ==> t[k] == s[k + 1];
    if s[0] in t {
      var k :| 0 <= k < |t| && t[k] == s[0];
      assert s[k + 1] == s[0];
    }
    if Distinct(t) && s[0] !in t {
      forall i, j | 0 <= i < j < |s|
        ensures s[i] != s[j]
      {
        assert s[j] == t[j - 1];
        if i > 0 {
          assert s[i] == t[i - 1];
        }
      }
    }
  }

  /** A list is without duplicates exactly when no element is counted twice. */
  lemma {:induction false} DistinctCounts<T>(s: seq<T>)
    ensures Distinct(s) <==> forall x :: multiset(s)[x] <= 1
  {
    if s != [] {
      var t := s[1..];
      DistinctCons(s);
      DistinctCounts(t);
      assert s == [s[0]] + t;
      assert multiset(s) == multiset{s[0]} + multiset(t);
      if Distinct(s) {
        assert multiset(t)[s[0]] == 0;
        forall x
          ensures multiset(s)[x] <= 1
        {
          assert multiset(t)[x] <= 1;
        }
      }
      if forall x :: multiset(s)[x] <= 1 {
        forall x
          ensures multiset(t)[x] <= 1
        {
          assert multiset(t)[x] <= multiset(s)[x];
        }
        assert multiset(s)[s[0]] == multiset(t)[s[0]] + 1;
      }
    }
  }

  /** Adding an element a list does not hold keeps it without duplicates. */
  lemma DistinctGrows<T>(before: seq<T>, after: seq<T>, x: T)
    requires multiset(after) == multiset(before) + multiset{x}
    requires Distinct(before) && x !in before
    ensures Distinct(after)
  {
    DistinctCounts(before);
    DistinctCounts(after);
  }

  /**
   * Taking elements out of a list without duplicates leaves a list without
   * duplicates that shares no element with what was taken.
   */
  lemma DistinctShrinks<T>(before: seq<T>, after: seq<T>, removed: seq<T>)
    requires multiset(before) == multiset(after) + multiset(removed)
    requires Distinct(before)
    ensures Distinct(after)
    ensures forall x :: x in after ==> x !in removed
  {
    DistinctCounts(before);
    DistinctCounts(after);
    forall x
      ensures multiset(after)[x] <= 1
    {
      assert multiset(after)[x] <= multiset(before)[x];
    }
    forall x | x in after
      ensures x !in removed
    {
      assert multiset(before)[x] <= 1 && x in multiset(after);
    }
  }

  /** A list that gains elements keeps the ones it had, holds the new ones, and holds no others. */
  lemma MultisetGrows<T>(before: seq<T>, after: seq<T>, added: seq<T>)
    requires multiset(after) == multiset(before) + multiset(added)
    ensures forall x :: x in before ==> x in after
    ensures forall x :: x in added ==> x in after
    ensures forall x :: x in after ==> x in before || x in added
  {
    forall x | x in before + added
      ensures x in after
    {
      assert x in multiset(before) || x in multiset(added);
      assert x in multiset(after);
    }
    forall x | x in after
      ensures x in before || x in added
    {
      assert x in multiset(after);
    }
  }

  /** A list that loses elements keeps every element it did not lose, and gains none. */
  lemma MultisetShrinks<T>(before: seq<T>, after: seq<T>, removed: seq<T>)
    requires multiset(before) == multiset(after) + multiset(removed)
    ensures forall x :: x in before && x !in removed ==> x in after
    ensures forall x :: x in after ==> x in before
  {
    forall x | x in before && x !in removed
      ensures x in after
    {
      assert x in multiset(before);
    }
    forall x | x in after
      ensures x in before
    {
      assert x in multiset(after);
      assert x in multiset(before);
    }
  }
}
