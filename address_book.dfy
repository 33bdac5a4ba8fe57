/**
 * AddressBook: the aggregate root. It owns one UniquePatronList and forwards
 * every operation to it, so the no-duplicates rule (by isSamePerson) holds of
 * its patron list at all times.
 */
module AddressBookModel {
  import opened Wrappers
  import opened Person
  import opened UniquePatrons

  class AddressBook {
    const patrons: UniquePatronList

    ghost predicate Valid()
      reads patrons
    {
      patrons.Valid()
    }

    /** getPatronList: a read-only view of the stored patrons. */
    function GetPatronList(): (list: seq<Patron>)
      reads patrons
      ensures Valid() ==> Unique(patrons.same, list)
    {
      patrons.internalList
    }

    constructor (same: SamePerson)
      ensures Valid() && fresh(patrons)
      ensures patrons.same == same && GetPatronList() == []
    {
      patrons := new UniquePatronList(same);
    }

    /** setPatrons: replaces the patron list; a list with two same-person patrons is refused. */
    method SetPatrons(persons: seq<Patron>) returns (err: Option<ListError>)
      requires Valid()
      modifies patrons
      ensures Valid()
      ensures err == (if Unique(patrons.same, persons) then None else Some(DuplicatePerson))
      ensures GetPatronList() == if err.None? then persons else old(GetPatronList())
    {
      err := patrons.SetPatrons(persons);
    }

    /**
     * resetData: makes this book hold exactly the patron list of the snapshot
     * newData (a read-only address book whose list may break the rule).
     */
    method ResetData(newData: seq<Patron>) returns (err: Option<ListError>)
      requires Valid()
      modifies patrons
      ensures Valid()
      ensures err == (if Unique(patrons.same, newData) then None else Some(DuplicatePerson))
      ensures GetPatronList() == if err.None? then newData else old(GetPatronList())
    {
      err := SetPatrons(newData);
    }

    /** hasPatron: some stored patron has the same identity as person. */
    method HasPatron(person: Patron) returns (has: bool)
      ensures has == ContainsPerson(patrons.same, GetPatronList(), person)
    {
      has := patrons.Contains(person);
    }

    /** addPatron: the patron must not already exist in the address book. */
    method AddPatron(p: Patron) returns (err: Option<ListError>)
      requires Valid()
      modifies patrons
      ensures Valid()
      ensures err == (if ContainsPerson(patrons.same, old(GetPatronList()), p) then Some(DuplicatePerson) else None)
      ensures GetPatronList() == if err.None? then old(GetPatronList()) + [p] else old(GetPatronList())
    {
      err := patrons.Add(p);
    }

    /** setPatron: target must exist; editedPerson must not be the same person as another stored patron. */
    method SetPatron(target: Patron, editedPerson: Patron) returns (err: Option<ListError>)
      requires Valid()
      modifies patrons
      ensures Valid()
      ensures var i := IndexOf(old(GetPatronList()), target);
        && err == (if i == -1 then Some(PersonNotFound)
                   else if CollidesElsewhere(patrons.same, old(GetPatronList()), i, editedPerson) then Some(DuplicatePerson)
                   else None)
        && GetPatronList() == if err.None? then old(GetPatronList())[i := editedPerson] else old(GetPatronList())
    {
      err := patrons.SetPatron(target, editedPerson);
    }

    /** removePatron: key must exist in the address book. */
    method RemovePatron(key: Patron) returns (err: Option<ListError>)
      requires Valid()
      modifies patrons
      ensures Valid()
      ensures var i := IndexOf(old(GetPatronList()), key);
        && err == (if i == -1 then Some(PersonNotFound) else None)
        && GetPatronList() == if i == -1 then old(GetPatronList()) else RemoveAt(old(GetPatronList()), i)
    {
      err := patrons.Remove(key);
    }

    /** equals: the same object, or two address books whose patron lists are equal. */
    function Equals(other: AddressBook): (eq: bool)
      reads patrons, other.patrons
      ensures other == this ==> eq
      ensures eq <==> GetPatronList() == other.GetPatronList()
    {
      other == this || GetPatronList() == other.GetPatronList()
    }
  }

  /**
   * The copying constructor: a fresh address book holding the patron list of
   * the read-only snapshot toBeCopied, by way of resetData. A snapshot whose
   * list holds two same-person patrons makes it fail with a duplicate error,
   * and no book is produced.
   */
  method CopyOf(same: SamePerson, toBeCopied: seq<Patron>) returns (r: Result<AddressBook, ListError>)
    ensures r.Success? <==> Unique(same, toBeCopied)
    ensures r.Failure? ==> r.error == DuplicatePerson
    ensures r.Success? ==> fresh(r.value) && fresh(r.value.patrons) && r.value.Valid()
    ensures r.Success? ==> r.value.patrons.same == same && r.value.GetPatronList() == toBeCopied
  {
    var book := new AddressBook(same);
    var err := book.ResetData(toBeCopied);
    if err.Some? {
      return Failure(err.value);
    }
    return Success(book);
  }

  /**
   * The address book scenario of its unit tests, stated for every book: after
   * a successful add of p, hasPatron holds of p and of every patron that
   * differs from p only in address and tags.
   */
  method AddThenHas(book: AddressBook, p: Patron, a: Address, t: set<Tag>)
    returns (hasItself: bool, hasEdited: bool)
    requires book.Valid() && !ContainsPerson(book.patrons.same, book.GetPatronList(), p)
    modifies book.patrons
    ensures hasItself && hasEdited
  {
    var err := book.AddPatron(p);
    AppendedIdentityFound(book.patrons.same, old(book.GetPatronList()), p, p);
    AppendedIdentityFound(book.patrons.same, old(book.GetPatronList()), p, p.(address := a, tags := t));
    hasItself := book.HasPatron(p);
    hasEdited := book.HasPatron(p.(address := a, tags := t));
  }
}
