/** Facts about finite sets that the store and the decoding count share. */
module Sets {

  /** A non-empty set has a member; `x` is one. */
  lemma NonEmptyHasMember<T>(a: set<T>) returns (x: T)
    requires a != {}
    ensures x in a
  {
    if forall y :: y !in a {
      assert false;
    }
    x :| x in a;
  }
}
