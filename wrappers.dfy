/** The optional value used throughout the model (Python's `None` or a value), and a set fact. */
module Wrappers {

  datatype Option<+T> = None | Some(value: T)

  /** A non-empty set has a member to pick (used by the loops that drain a key snapshot). */
  lemma NonEmptyHasMember(s: set<int>)
    requires s != {}
    ensures exists x :: x in s
  {
    if forall x :: x !in s {
      assert false;
    }
  }
}
