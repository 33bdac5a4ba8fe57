/** DeletePatronCommand: deletes the patron at a displayed index from the address book. */
module DeletePatron {
  import opened UniquePatrons
  import opened ModelManagerModel
  import opened CommandResults

  /** The command holds only the zero-based index into the displayed list. */
  datatype DeletePatronCommand = DeletePatronCommand(targetIndex: nat) {

    /**
     * execute: an index outside the displayed list fails and deletes nothing;
     * otherwise the displayed patron at that index, which is always stored in
     * the book, is removed and the message carries it. The filter predicate is
     * left as it was.
     */
    method Execute(model: ModelManager) returns (outcome: CommandOutcome)
      requires model.Valid()
      modifies model.addressBook.patrons
      ensures model.Valid()
      ensures model.filter == old(model.filter)
      ensures
        var shown := old(model.GetFilteredPatronList());
        var before := old(model.addressBook.GetPatronList());
        if targetIndex >= |shown| then
          && outcome == CommandFailure(InvalidPatronDisplayedIndex)
          && model.addressBook.GetPatronList() == before
        else
          var deleted := shown[targetIndex];
          var slot := IndexOf(before, deleted);
          && 0 <= slot
          && outcome == Done(DeletedPatron(deleted))
          && model.addressBook.GetPatronList() == RemoveAt(before, slot)
          && deleted !in model.addressBook.GetPatronList()
    {
      var lastShownList := model.GetFilteredPatronList();
      if targetIndex >= |lastShownList| {
        return CommandFailure(InvalidPatronDisplayedIndex);
      }
      var deletePatron := lastShownList[targetIndex];
      ghost var before := model.addressBook.GetPatronList();
      var err := model.DeletePatron(deletePatron);
      RemovedPatronGone(model.addressBook.patrons.same, before, IndexOf(before, deletePatron));
      outcome := Done(DeletedPatron(deletePatron));
    }

    /** equals: two delete commands are equal exactly when their target indices are. */
    function Equals(other: DeletePatronCommand): (eq: bool)
      ensures eq <==> this == other
    {
      targetIndex == other.targetIndex
    }
  }
}
