/**
 * EditCommand: edits the patron at a displayed index by overlaying the fields
 * of an EditPatronDescriptor, refusing an edit that would duplicate another
 * patron, and then shows the whole list again.
 */
module Edit {
  import opened Wrappers
  import opened Person
  import opened UniquePatrons
  import opened ModelManagerModel
  import opened CommandResults

  /** The five optional fields of a descriptor; None stands for a null field. */
  datatype Edits = Edits(
    name: Option<Name>,
    phone: Option<Phone>,
    email: Option<Email>,
    address: Option<Address>,
    tags: Option<set<Tag>>)

  /** A descriptor that sets no field. */
  const NoEdits := Edits(None, None, None, None, None)

  /** createEditedPatron: each field is the descriptor's value when set and the patron's own otherwise. */
  function CreateEditedPatron(patronToEdit: Patron, d: Edits): (r: Patron)
    ensures d.name.Some? ==> r.name == d.name.value
    ensures d.name.None? ==> r.name == patronToEdit.name
    ensures d.phone.Some? ==> r.phone == d.phone.value
    ensures d.phone.None? ==> r.phone == patronToEdit.phone
    ensures d.email.Some? ==> r.email == d.email.value
    ensures d.email.None? ==> r.email == patronToEdit.email
    ensures d.address.Some? ==> r.address == d.address.value
    ensures d.address.None? ==> r.address == patronToEdit.address
    ensures d.tags.Some? ==> r.tags == d.tags.value
    ensures d.tags.None? ==> r.tags == patronToEdit.tags
  {
    Patron(
      d.name.OrElse(patronToEdit.name),
      d.phone.OrElse(patronToEdit.phone),
      d.email.OrElse(patronToEdit.email),
      d.address.OrElse(patronToEdit.address),
      d.tags.OrElse(patronToEdit.tags))
  }

  /** With an empty descriptor the edited patron is the original one. */
  lemma EmptyEditKeepsPatron(p: Patron)
    ensures CreateEditedPatron(p, NoEdits) == p
  {
  }

  /**
   * A descriptor that leaves name, phone and email unset yields a patron that
   * is the same person as the original, so the command's own duplicate check
   * is skipped for it.
   */
  lemma DetailEditKeepsIdentity(same: SamePerson, p: Patron, d: Edits)
    requires d.name.None? && d.phone.None? && d.email.None?
    ensures same(p, CreateEditedPatron(p, d))
  {
    var e := CreateEditedPatron(p, d);
    assert e == p.(address := e.address, tags := e.tags);
  }

  /**
   * An edit with the empty descriptor on a stored patron passes both duplicate
   * checks and leaves the list as it was.
   */
  lemma EmptyEditIsNoop(same: SamePerson, s: seq<Patron>, i: nat)
    requires Unique(same, s) && i < |s|
    ensures var e := CreateEditedPatron(s[i], NoEdits);
      && same(s[i], e)
      && !CollidesElsewhere(same, s, i, e)
      && s[i := e] == s
  {
    EmptyEditKeepsPatron(s[i]);
    ReplacementWithoutCollision(same, s, i, s[i]);
  }

  class EditPatronDescriptor {
    var name: Option<Name>
    var phone: Option<Phone>
    var email: Option<Email>
    var address: Option<Address>
    var tags: Option<set<Tag>>

    /** The descriptor's current fields as a value. */
    function Fields(): Edits
      reads this
    {
      Edits(name, phone, email, address, tags)
    }

    constructor ()
      ensures Fields() == NoEdits
    {
      name, phone, email, address, tags := None, None, None, None, None;
    }

    /** Copy constructor: a descriptor equal to toCopy. */
    constructor Copy(toCopy: EditPatronDescriptor)
      ensures Fields() == toCopy.Fields() && Equals(toCopy)
    {
      name, phone, email, address, tags := None, None, None, None, None;
      new;
      SetName(toCopy.name);
      SetPhone(toCopy.phone);
      SetEmail(toCopy.email);
      SetAddress(toCopy.address);
      SetTags(toCopy.tags);
    }

    /** isAnyFieldEdited: at least one field is set, i.e. the descriptor is not the empty one. */
    function IsAnyFieldEdited(): (edited: bool)
      reads this
      ensures edited <==> Fields() != NoEdits
    {
      name.Some? || phone.Some? || email.Some? || address.Some? || tags.Some?
    }

    method SetName(name: Option<Name>)
      modifies this
      ensures Fields() == old(Fields()).(name := name)
    {
      this.name := name;
    }

    method SetPhone(phone: Option<Phone>)
      modifies this
      ensures Fields() == old(Fields()).(phone := phone)
    {
      this.phone := phone;
    }

    method SetEmail(email: Option<Email>)
      modifies this
      ensures Fields() == old(Fields()).(email := email)
    {
      this.email := email;
    }

    method SetAddress(address: Option<Address>)
      modifies this
      ensures Fields() == old(Fields()).(address := address)
    {
      this.address := address;
    }

    /** setTags: the set is a value here, so the defensive copy is implicit. */
    method SetTags(tags: Option<set<Tag>>)
      modifies this
      ensures Fields() == old(Fields()).(tags := tags)
    {
      this.tags := tags;
    }

    /** getName: the name as an Optional, empty exactly when it is not set. */
    function GetName(): (r: Option<Name>)
      reads this
      ensures r == Fields().name
    {
      name
    }

    /** getPhone: the phone as an Optional, empty exactly when it is not set. */
    function GetPhone(): (r: Option<Phone>)
      reads this
      ensures r == Fields().phone
    {
      phone
    }

    /** getEmail: the email as an Optional, empty exactly when it is not set. */
    function GetEmail(): (r: Option<Email>)
      reads this
      ensures r == Fields().email
    {
      email
    }

    /** getAddress: the address as an Optional, empty exactly when it is not set. */
    function GetAddress(): (r: Option<Address>)
      reads this
      ensures r == Fields().address
    {
      address
    }

    /** getTags: the tags as an Optional, empty exactly when it is not set. */
    function GetTags(): (r: Option<set<Tag>>)
      reads this
      ensures r == Fields().tags
    {
      tags
    }


    /** equals: all five optional fields agree. */
    function Equals(other: EditPatronDescriptor): (eq: bool)
      reads this, other
      ensures eq <==> Fields() == other.Fields()
    {
      && GetName() == other.GetName()
      && GetPhone() == other.GetPhone()
      && GetEmail() == other.GetEmail()
      && GetAddress() == other.GetAddress()
      && GetTags() == other.GetTags()
    }
  }

  class EditCommand {
    /** The zero-based index into the displayed list. */
    const index: nat
    const editPatronDescriptor: EditPatronDescriptor

    /** Keeps a private copy of the descriptor, so later changes to the caller's do not reach it. */
    constructor (index: nat, editPatronDescriptor: EditPatronDescriptor)
      ensures this.index == index && fresh(this.editPatronDescriptor)
      ensures this.editPatronDescriptor.Fields() == editPatronDescriptor.Fields()
    {
      this.index := index;
      this.editPatronDescriptor := new EditPatronDescriptor.Copy(editPatronDescriptor);
    }

    /**
     * execute: fails on an index outside the displayed list; fails with the
     * command's duplicate message when the edited patron is not the same
     * person as the one edited but the book already has it; lets the list's
     * duplicate failure escape when the edited patron collides with another
     * slot anyway; otherwise replaces the patron in place and shows all.
     */
    method Execute(model: ModelManager) returns (outcome: CommandOutcome)
      requires model.Valid()
      modifies model, model.addressBook.patrons
      ensures model.Valid()
      ensures
        var shown := old(model.GetFilteredPatronList());
        var before := old(model.addressBook.GetPatronList());
        var same := model.addressBook.patrons.same;
        if index >= |shown| then
          && outcome == CommandFailure(InvalidPatronDisplayedIndex)
          && model.addressBook.GetPatronList() == before && model.filter == old(model.filter)
        else
          var target := shown[index];
          var edited := CreateEditedPatron(target, editPatronDescriptor.Fields());
          var slot := IndexOf(before, target);
          && 0 <= slot
          && if !same(target, edited) && ContainsPerson(same, before, edited) then
               && outcome == CommandFailure(DuplicatePersonMessage)
               && model.addressBook.GetPatronList() == before && model.filter == old(model.filter)
             else if CollidesElsewhere(same, before, slot, edited) then
               && outcome == ModelFailure(DuplicatePerson)
               && model.addressBook.GetPatronList() == before && model.filter == old(model.filter)
             else
               && outcome == Done(EditedPatron(edited))
               && model.addressBook.GetPatronList() == before[slot := edited]
               && model.filter == ShowAll
               && model.GetFilteredPatronList() == model.addressBook.GetPatronList()
    {
      var lastShownList := model.GetFilteredPatronList();
      if index >= |lastShownList| {
        return CommandFailure(InvalidPatronDisplayedIndex);
      }
      var patronToEdit := lastShownList[index];
      var editedPatron := CreateEditedPatron(patronToEdit, editPatronDescriptor.Fields());
      var has := model.HasPatron(editedPatron);
      if !model.addressBook.patrons.same(patronToEdit, editedPatron) && has {
        return CommandFailure(DuplicatePersonMessage);
      }
      var err := model.SetPatron(patronToEdit, editedPatron);
      if err.Some? {
        return ModelFailure(err.value);
      }
      model.UpdateFilteredPatronList(ShowAll);
      FilterShowAll(model.addressBook.GetPatronList());
      outcome := Done(EditedPatron(editedPatron));
    }

    /** equals: same index and equal descriptors. */
    function Equals(other: EditCommand): (eq: bool)
      reads editPatronDescriptor, other.editPatronDescriptor
      ensures eq <==> index == other.index && editPatronDescriptor.Fields() == other.editPatronDescriptor.Fields()
    {
      index == other.index && editPatronDescriptor.Equals(other.editPatronDescriptor)
    }
  }
}
