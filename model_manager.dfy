/**
 * ModelManager: the façade the commands run against. It owns the patron
 * aggregate (a LibTask, taken to behave as an AddressBook on patrons) and the
 * predicate of the filtered patron list, the list the user sees and addresses
 * by index.
 */
module ModelManagerModel {
  import opened Wrappers
  import opened Person
  import opened UniquePatrons
  import opened AddressBookModel

  /** The patrons of s that satisfy f, in their order in s. */
  function Filter(f: Patron -> bool, s: seq<Patron>): (r: seq<Patron>)
    ensures |r| <= |s|
    ensures forall x :: x in r <==> x in s && f(x)
  {
    if s == [] then []
    else (if f(s[0]) then [s[0]] else []) + Filter(f, s[1..])
  }

  /** PREDICATE_SHOW_ALL_PERSONS: the filter that accepts every patron. */
  function ShowAll(p: Patron): (accepted: bool)
    ensures accepted
  {
    true
  }

  /** Under the show-all predicate the filtered list is the whole list. */
  lemma {:induction false} FilterShowAll(s: seq<Patron>)
    ensures Filter(ShowAll, s) == s
  {
    if s != [] {
      FilterShowAll(s[1..]);
      assert s == [s[0]] + s[1..];
    }
  }

  class ModelManager {
    const addressBook: AddressBook
    var filter: Patron -> bool

    ghost predicate Valid()
      reads addressBook.patrons
    {
      addressBook.Valid()
    }

    /** getFilteredPatronList: the stored patrons the current predicate accepts. */
    function GetFilteredPatronList(): (shown: seq<Patron>)
      reads this, addressBook.patrons
      ensures |shown| <= |addressBook.GetPatronList()|
      ensures forall p :: p in shown <==> p in addressBook.GetPatronList() && filter(p)
      ensures filter == ShowAll ==> shown == addressBook.GetPatronList()
    {
      FilterShowAll(addressBook.GetPatronList());
      Filter(filter, addressBook.GetPatronList())
    }

    constructor (same: SamePerson)
      ensures Valid() && fresh(addressBook) && fresh(addressBook.patrons)
      ensures addressBook.patrons.same == same && addressBook.GetPatronList() == []
      ensures filter == ShowAll
    {
      addressBook := new AddressBook(same);
      filter := ShowAll;
    }

    method HasPatron(patron: Patron) returns (has: bool)
      ensures has == ContainsPerson(addressBook.patrons.same, addressBook.GetPatronList(), patron)
    {
      has := addressBook.HasPatron(patron);
    }

    method SetPatron(target: Patron, editedPatron: Patron) returns (err: Option<ListError>)
      requires Valid()
      modifies addressBook.patrons
      ensures Valid()
      ensures var before := old(addressBook.GetPatronList());
        var i := IndexOf(before, target);
        && err == (if i == -1 then Some(PersonNotFound)
                   else if CollidesElsewhere(addressBook.patrons.same, before, i, editedPatron) then Some(DuplicatePerson)
                   else None)
        && addressBook.GetPatronList() == if err.None? then before[i := editedPatron] else before
    {
      err := addressBook.SetPatron(target, editedPatron);
    }

    method DeletePatron(target: Patron) returns (err: Option<ListError>)
      requires Valid()
      modifies addressBook.patrons
      ensures Valid()
      ensures var before := old(addressBook.GetPatronList());
        var i := IndexOf(before, target);
        && err == (if i == -1 then Some(PersonNotFound) else None)
        && addressBook.GetPatronList() == if i == -1 then before else RemoveAt(before, i)
    {
      err := addressBook.RemovePatron(target);
    }

    method UpdateFilteredPatronList(pred: Patron -> bool)
      modifies this
      ensures filter == pred
    {
      filter := pred;
    }
  }
}
