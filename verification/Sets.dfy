/** Going through a set, as Go's `range` over a map does. */
module Sets {

  /** A set that is not empty has a member to pick. */
  lemma HasMember<T(!new)>(s: set<T>)
    ensures (forall x: T :: x !in s) ==> s == {}
  {
    if forall x: T :: x !in s {
      assert s == {};
    }
  }

  /** The next element of a collection ranged over in no particular order. */
  method AnyOf<T(==,!new)>(s: set<T>) returns (x: T)
    requires s != {}
    ensures x in s
  {
    HasMember(s);
    x :| x in s;
  }
}
