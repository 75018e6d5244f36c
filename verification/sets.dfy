/** Two facts about finite sets of ids that the solver does not find on
    its own: a set with no members is empty, so a non-empty one has a
    member to pick. */
module Sets {

  lemma NoMemberIsEmpty(ks: set<int>)
    requires forall k :: k !in ks
    ensures ks == {}
  {
    assert forall k :: k in ks <==> k in {};
  }

  lemma NonEmptyHasMember(ks: set<int>)
    requires ks != {}
    ensures exists k :: k in ks
  {
    if forall k :: k !in ks {
      NoMemberIsEmpty(ks);
    }
  }
}
