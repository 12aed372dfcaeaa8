/** A predicate written as `forall u :: Open(u) ==> P` says P, but only to a proof that names Open. */
module Folds {
  ghost predicate Open(u: int) {
    true
  }
}
