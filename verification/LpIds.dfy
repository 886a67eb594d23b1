/** Identifiers of logical processes and the comparison operators the code defines on them. */
module LpIds {

  datatype LpId = LpId(id: nat, rank: nat) {
    /** `operator<`: both fields have to be smaller. */
    predicate Less(other: LpId) {
      id < other.id && rank < other.rank
    }

    /** `operator>`: both fields have to be greater. */
    predicate Greater(other: LpId) {
      id > other.id && rank > other.rank
    }

    /** `operator!=`: both fields have to differ, so this is not the negation of `==`. */
    predicate Differs(other: LpId) {
      id != other.id && rank != other.rank
    }
  }

  /** How `std::map<LpId, _>` decides that two keys are the same key. */
  predicate Equivalent(a: LpId, b: LpId) {
    !a.Less(b) && !b.Less(a)
  }

  /** Identifier and rank increase together, as when both carry the same value. */
  ghost predicate Chain(ids: iset<LpId>) {
    forall a, b :: a in ids && b in ids ==> (a.id < b.id <==> a.rank < b.rank)
  }

  /** The map confuses no two identifiers of `ids`. */
  ghost predicate KeysAreDistinguished(ids: iset<LpId>) {
    forall a, b :: a in ids && b in ids && Equivalent(a, b) ==> a == b
  }

  /** The map tells all identifiers apart exactly when they form a chain; on a chain every
      comparison operator has its usual meaning. */
  lemma ChainIsExactlyWhatMapsNeed(ids: iset<LpId>)
    ensures KeysAreDistinguished(ids) <==> Chain(ids)
    ensures Chain(ids) ==> forall a, b :: a in ids && b in ids ==>
      && (a.Differs(b) <==> a != b)
      && (a.Greater(b) <==> a != b && !a.Less(b))
  {
    if KeysAreDistinguished(ids) {
      forall a, b | a in ids && b in ids ensures a.id < b.id <==> a.rank < b.rank {
        assert a == b || a.Less(b) || b.Less(a) by {
          assert Equivalent(a, b) ==> a == b;
        }
      }
    }
  }

  /** The operators are mirror images, and a difference in just one field is none to any of them. */
  lemma OperatorsNeedBothFields(a: LpId, b: LpId)
    ensures a.Greater(b) <==> b.Less(a)
    ensures a.id == b.id || a.rank == b.rank ==> !a.Less(b) && !a.Greater(b) && !a.Differs(b)
    ensures a.Less(b) || b.Less(a) ==> a.Differs(b)
  {
  }

  /** Two agents served by one process have the same rank and are the same map key. */
  lemma SameRankIsOneKey(a: LpId, b: LpId)
    requires a.rank == b.rank
    ensures Equivalent(a, b) && !a.Differs(b) && !a.Greater(b)
  {
  }
}
