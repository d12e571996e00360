/** Sizes of finite sets, and prefixes and repetitions in sequences. */
module Collections {
  ghost function Below(n: nat): (r: set<nat>)
    ensures |r| == n
    ensures forall x: nat :: x in r <==> x < n
  {
    if n == 0 then {} else Below(n - 1) + {n - 1}
  }

  /** Numbers below `n`: there are at most `n`, and `n` only if they are all there. */
  lemma ElemsBound(n: nat, D: set<nat>)
    requires forall x :: x in D ==> x < n
    ensures |D| <= n
    ensures |D| == n ==> forall x: nat :: x < n ==> x in D
  {
    SubsetSize(D, Below(n));
    if |D| == n && D != Below(n) {
      var x: nat :| x in Below(n) && x !in D;
      SubsetSize(D + {x}, Below(n));
    }
  }

  lemma SubsetSize<T>(A: set<T>, B: set<T>)
    requires A <= B
    ensures |A| <= |B|
  {
    assert B == A + (B - A);
  }

  lemma Pick<T>(A: set<T>) returns (x: T)
    requires A != {}
    ensures x in A
  {
    x :| x in A;
  }

  ghost predicate IsPrefix<T>(p: seq<T>, q: seq<T>) {
    |p| <= |q| && p == q[..|p|]
  }

  lemma {:induction false} AtMostOnce<T>(s: seq<T>, i: nat, j: nat)
    requires i < j < |s| && multiset(s)[s[i]] <= 1
    ensures s[i] != s[j]
  {
    assert s == s[..j] + s[j..];
    assert s[..j][i] == s[i] && s[j..][0] == s[j];
    assert s[i] in multiset(s[..j]) && s[j] in multiset(s[j..]);
  }
}
