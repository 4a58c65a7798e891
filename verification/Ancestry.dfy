/** Commits, the ancestry between them, and how writes to refs end. Commits never
    change, so one relation serves every commit a repository will ever hold. */
module Ancestry {

  type Oid = string

  /** `anc(a, d)`: `a` is reachable from `d`, or is it. */
  type Ancestors = (Oid, Oid) -> bool

  ghost predicate IsDag(anc: Ancestors) {
    && (forall a :: anc(a, a))
    && (forall a, b, c :: anc(a, b) && anc(b, c) ==> anc(a, c))
    && (forall a, b :: anc(a, b) && anc(b, a) ==> a == b)
  }

  /** Everything `tip` carries lies on one line. */
  ghost predicate LinearBelow(anc: Ancestors, tip: Oid) {
    forall a, b :: anc(a, tip) && anc(b, tip) ==> anc(a, b) || anc(b, a)
  }

  /** How a write that may be killed on the way ends: it takes effect and says so,
      it is refused, or it takes effect and the caller is told it failed. */
  datatype Reply = Done | Refused | Lost
}
