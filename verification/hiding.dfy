/** A definition guarded by `Unfold` is expanded only in proofs that mention `Unfold`, which keeps the
    proofs that just hand it on small. */
module Hiding {
  ghost predicate Unfold(u: bool) { true }
}
