/** The order of strings. */
module Strings {
  import opened Sorting

  /** Lexicographic order, as strings are compared by the sort. */
  predicate Leq(a: string, b: string) {
    a == [] || (b != [] && (a[0] < b[0] || (a[0] == b[0] && Leq(a[1..], b[1..]))))
  }

  lemma LeqAntisymmetric(a: string, b: string)
    requires Leq(a, b) && Leq(b, a)
    ensures a == b
  {
  }

  lemma LeqTotal(a: string, b: string)
    ensures Leq(a, b) || Leq(b, a)
  {
  }

  lemma LeqTransitive(a: string, b: string, c: string)
    requires Leq(a, b) && Leq(b, c)
    ensures Leq(a, c)
  {
  }

  lemma LeqOrders()
    ensures IsTotalPreorder(Leq)
  {
    forall a, b
      ensures Leq(a, b) || Leq(b, a)
    {
      LeqTotal(a, b);
    }
    forall a, b, c | Leq(a, b) && Leq(b, c)
      ensures Leq(a, c)
    {
      LeqTransitive(a, b, c);
    }
  }
}
