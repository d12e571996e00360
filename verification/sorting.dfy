/** A sort by an order with ties. It stands in for the library sort, which promises no more. */
module Sorting {

  ghost predicate IsTotalPreorder<T(!new)>(leq: (T, T) -> bool) {
    && (forall x, y :: leq(x, y) || leq(y, x))
    && (forall x, y, z :: leq(x, y) && leq(y, z) ==> leq(x, z))
  }

  ghost predicate Sorted<T>(s: seq<T>, leq: (T, T) -> bool) {
    forall i, j :: 0 <= i < j < |s| ==> leq(s[i], s[j])
  }

  /** The elements of `a` in some order that is sorted. */
  ghost function SortedBy<T(!new)>(a: seq<T>, leq: (T, T) -> bool): (s: seq<T>)
    requires IsTotalPreorder(leq)
    ensures Sorted(s, leq) && multiset(s) == multiset(a)
  {
    if a == [] then [] else
    assert a == a[..|a| - 1] + [a[|a| - 1]];
    Inserted(SortedBy(a[..|a| - 1], leq), a[|a| - 1], leq)
  }

  ghost function Inserted<T(!new)>(s: seq<T>, e: T, leq: (T, T) -> bool): (r: seq<T>)
    requires IsTotalPreorder(leq) && Sorted(s, leq)
    ensures Sorted(r, leq) && multiset(r) == multiset(s) + multiset{e}
  {
    var j := FirstAbove(s, e, leq);
    InsertedIsSorted(s, e, j, leq);
    assert s == s[..j] + s[j..];
    s[..j] + [e] + s[j..]
  }

  ghost function FirstAbove<T(!new)>(s: seq<T>, e: T, leq: (T, T) -> bool): (j: nat)
    requires IsTotalPreorder(leq) && Sorted(s, leq)
    ensures j <= |s| && (j > 0 ==> leq(s[j - 1], e)) && forall k :: j <= k < |s| ==> leq(e, s[k])
  {
    if s == [] || leq(s[|s| - 1], e) then |s| else FirstAbove(s[..|s| - 1], e, leq)
  }

  /** Puts one element after the other in its place. */
  method Sort<T(!new)>(a: seq<T>, leq: (T, T) -> bool) returns (s: seq<T>)
    requires IsTotalPreorder(leq)
    ensures Sorted(s, leq) && multiset(s) == multiset(a)
  {
    s := [];
    for i := 0 to |a|
      invariant Sorted(s, leq) && multiset(s) == multiset(a[..i])
    {
      s := InsertSorted(s, a[i], leq);
      assert a[..i + 1] == a[..i] + [a[i]];
    }
    assert a[..|a|] == a;
  }

  method InsertSorted<T(!new)>(s: seq<T>, e: T, leq: (T, T) -> bool) returns (r: seq<T>)
    requires IsTotalPreorder(leq) && Sorted(s, leq)
    ensures Sorted(r, leq) && multiset(r) == multiset(s) + multiset{e}
  {
    var j := |s|;
    while j > 0 && !leq(s[j - 1], e)
      invariant 0 <= j <= |s| && forall k :: j <= k < |s| ==> leq(e, s[k])
    {
      j := j - 1;
    }
    r := s[..j] + [e] + s[j..];
    InsertedIsSorted(s, e, j, leq);
    assert s == s[..j] + s[j..];
  }

  lemma InsertedIsSorted<T(!new)>(s: seq<T>, e: T, j: nat, leq: (T, T) -> bool)
    requires IsTotalPreorder(leq) && Sorted(s, leq) && j <= |s|
    requires (j > 0 ==> leq(s[j - 1], e)) && forall k :: j <= k < |s| ==> leq(e, s[k])
    ensures Sorted(s[..j] + [e] + s[j..], leq)
  {
  }
}
