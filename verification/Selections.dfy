/** What a filter loop leaves, said by positions: everything wanted, once each and in order. */
module Selections {

  /** `at` lists the positions from `lo` up to `hi` whose element is kept, in increasing order. */
  predicate Positions<T>(list: seq<T>, keep: T -> bool, lo: nat, hi: nat, at: seq<nat>)
    requires lo <= hi <= |list|
  {
    && (forall i :: 0 <= i < |at| ==> lo <= at[i] < hi && keep(list[at[i]]))
    && (forall i, j :: 0 <= i < j < |at| ==> at[i] < at[j])
    && (forall k :: lo <= k < hi && keep(list[k]) ==> k in at)
  }

  /** What a loop over `list` keeps. */
  function Filter<T>(list: seq<T>, keep: T -> bool): seq<T> {
    if list == [] then []
    else
      var last := |list| - 1;
      Filter(list[..last], keep) + if keep(list[last]) then [list[last]] else []
  }

  lemma {:induction false} FilterMembers<T>(list: seq<T>, keep: T -> bool)
    ensures forall x :: x in Filter(list, keep) <==> x in list && keep(x)
  {
    if list != [] {
      var last := |list| - 1;
      FilterMembers(list[..last], keep);
      assert list == list[..last] + [list[last]];
    }
  }

  function FilterPositions<T>(list: seq<T>, keep: T -> bool): (at: seq<nat>)
    ensures forall i :: 0 <= i < |at| ==> at[i] < |list|
  {
    if list == [] then []
    else
      var last := |list| - 1;
      FilterPositions(list[..last], keep) + if keep(list[last]) then [last] else []
  }

  lemma {:induction false} FilterByPosition<T>(list: seq<T>, keep: T -> bool)
    ensures var at := FilterPositions(list, keep);
      |at| == |Filter(list, keep)| && forall i :: 0 <= i < |at| ==> Filter(list, keep)[i] == list[at[i]]
  {
    if list != [] {
      FilterByPosition(list[..|list| - 1], keep);
    }
  }

  lemma {:induction false} FilterIsComplete<T>(list: seq<T>, keep: T -> bool)
    ensures Positions(list, keep, 0, |list|, FilterPositions(list, keep))
  {
    if list != [] {
      var last := |list| - 1;
      var at := FilterPositions(list[..last], keep);
      FilterIsComplete(list[..last], keep);
      Widen(list, keep, last, at);
      Append(list, keep, 0, last, at);
      assert FilterPositions(list, keep) == if keep(list[last]) then at + [last] else at;
    }
  }

  lemma FilterInOrder<T>(list: seq<T>, keep: T -> bool) returns (at: seq<nat>)
    ensures Positions(list, keep, 0, |list|, at)
    ensures |at| == |Filter(list, keep)| && forall i :: 0 <= i < |at| ==> Filter(list, keep)[i] == list[at[i]]
  {
    at := FilterPositions(list, keep);
    FilterByPosition(list, keep);
    FilterIsComplete(list, keep);
  }

  lemma Widen<T>(list: seq<T>, keep: T -> bool, hi: nat, at: seq<nat>)
    requires hi <= |list| && Positions(list[..hi], keep, 0, hi, at)
    ensures Positions(list, keep, 0, hi, at)
  {
    assert forall k :: 0 <= k < hi ==> list[..hi][k] == list[k];
  }

  lemma Append<T>(list: seq<T>, keep: T -> bool, lo: nat, hi: nat, at: seq<nat>)
    requires lo <= hi < |list| && Positions(list, keep, lo, hi, at)
    ensures Positions(list, keep, lo, hi + 1, if keep(list[hi]) then at + [hi] else at)
  {
    var at' := if keep(list[hi]) then at + [hi] else at;
    forall k | lo <= k < hi + 1 && keep(list[k])
      ensures k in at'
    {
      if k == hi {
        assert at'[|at|] == hi;
      }
    }
  }

  lemma Prepend<T>(list: seq<T>, keep: T -> bool, lo: nat, hi: nat, at: seq<nat>)
    requires lo < hi <= |list| && Positions(list, keep, lo + 1, hi, at)
    ensures Positions(list, keep, lo, hi, if keep(list[lo]) then [lo] + at else at)
  {
    var at' := if keep(list[lo]) then [lo] + at else at;
    forall k | lo <= k < hi && keep(list[k])
      ensures k in at'
    {
      if k == lo {
        assert at'[0] == lo;
      }
    }
  }
}
