/** What executing a command yields: a result message, or the failure it raised. */
module CommandResults {
  import opened Person
  import opened UniquePatrons

  /** CommandException messages raised by the commands themselves. */
  datatype CommandError =
    | InvalidPatronDisplayedIndex  // MESSAGE_INVALID_PATRON_DISPLAYED_INDEX
    | DuplicatePersonMessage       // EditCommand.MESSAGE_DUPLICATE_PERSON

  /** The success messages, carrying the patron they print. */
  datatype Feedback =
    | EditedPatron(edited: Patron)   // "Edited Person: %1$s"
    | DeletedPatron(deleted: Patron) // "Deleted Patron: %1$s"

  datatype CommandOutcome =
    | Done(feedback: Feedback)
    | CommandFailure(error: CommandError)
    /** An unchecked exception of the patron list that escapes execute. */
    | ModelFailure(listError: ListError)
}
