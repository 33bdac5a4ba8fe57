# Patron-management core of a library address book, in Dafny

This project models the patron side of a desktop library-management application:

- the address book that owns a list of patrons in which no two patrons are the same person;
- the index-addressed edit and delete commands that run against the model's filtered (displayed) list;
- the storage adapter that decodes and validates a book record read from JSON;
- the parser that turns tokenised `add` arguments into an add-patron command.

Modules, one per source component:

| module | file | models |
|---|---|---|
| `Wrappers` | wrappers.dfy | `Optional` (`Option`) and thrown exceptions (`Result`) |
| `Person` | patron.dfy | `Patron` and the identity relation `isSamePerson` |
| `UniquePatrons` | unique_patron_list.dfy | `UniquePatronList`: a class over a `seq<Patron>`, the uniqueness invariant and the list lemmas |
| `AddressBookModel` | address_book.dfy | `AddressBook`, a class delegating to its `UniquePatronList` |
| `ModelManagerModel` | model_manager.dfy | the model façade: its patron aggregate (a `LibTask` in this code base, modelled as an `AddressBook`) plus the filtered-list predicate |
| `CommandResults` | command_result.dfy | command results and failures |
| `Edit` | edit_command.dfy | `EditCommand`, `EditPatronDescriptor`, `createEditedPatron` |
| `DeletePatron` | delete_patron_command.dfy | `DeletePatronCommand` |
| `JsonBook` | json_adapted_book.dfy | `JsonAdaptedBook`, both constructors and `toModelType` |
| `AddPatronParser` | add_patron_parser.dfy | `AddPatronCommandParser.parse` and `arePrefixesPresent` |

Modelling choices:

- **State.** Mutable state is modelled with classes. `UniquePatronList.internalList` is a `seq<Patron>` that the methods reassign. `AddressBook` holds the list as a `const` reference. `ModelManager` holds its patron aggregate and the filter predicate. In this code base that aggregate is a `LibTask` (ModelManagerTest.java:32, ClearCommandTest.java:27), whose source is not part of this model. The model takes it to behave as `AddressBook` does on patrons, so it is an `AddressBook` here. The filtered list is always `Filter(filter, patrons)`.
- **Exceptions.** Java exceptions become returned values: `Option<ListError>` for the list's unchecked exceptions, `CommandOutcome` for a command and `Result` for the decoder and the parser. An exception from the list that escapes `execute` is `ModelFailure`.
- **isSamePerson.** Its definition is not part of this model. It is the subset type `Person.SamePerson`: a relation that is reflexive and symmetric and that ignores address and tags. Ignoring address and tags is what the list tests show for patrons that differ only there. The source of `UniquePatronList.contains` is not part of this model, so the order in which it passes its two patrons is unknown. The test stubs in `AddCommandTest.java` use both orders: one asks the stored patron (line 166), the other the argument (line 179). The model assumes symmetry, so the order does not matter, and the pairwise uniqueness invariant holds either way.
- **UniquePatronList.** Its Java source is not part of this model, so its contract comes from its unit tests and from the `AddressBook` documentation.
  - `setPatron` refuses an edited patron that is the same person as a patron in another slot. This is what keeps the invariant for any such relation.
  - `UniquePatrons.CollisionIffOwnCheck` shows that, for a transitive relation, this test equals the form "not the same person as the target, yet contained".
  - `indexOf` and `remove` use full equality, as `List.indexOf` and `List.remove` do.
- **Patron's fourth field.** The code base is mid-rename. `EditCommand` builds a `Patron` with an address, and `AddPatronCommandParser` builds one with an `Id` in the same position. The model keeps one record, whose fourth field `address` holds either.
- **Value types.** Value types are strings, and their format rules are parameters. The book rules are in `JsonBook.Constraints`. The parser's field parsers are in `AddPatronParser.FieldParsers`.
- **Index.** The command index is its zero-based value, a `nat`.

`EditCommand.java:50` declares `MESSAGE_NOT_EDITED`, but `execute` (`EditCommand.java:68-87`) never calls `isAnyFieldEdited`. The model follows `execute`: an edit whose descriptor sets no field succeeds and changes nothing (`Edit.EmptyEditIsNoop`).

## Model

| member | source | states |
|---|---|---|
| `UniquePatrons.UniquePatronList.constructor` | src/main/java/seedu/address/model/AddressBook.java:26-28 | a new list is empty and satisfies the uniqueness invariant |
| `UniquePatrons.UniquePatronList.Contains` | src/test/java/seedu/address/model/person/UniquePatronListTest.java:31-48 | a linear scan returns true exactly when the argument is the same person as some stored patron |
| `UniquePatrons.UniquePatronList.Add` | src/test/java/seedu/address/model/person/UniquePatronListTest.java:55-59 | appends the patron, or fails with a duplicate error and changes nothing when its identity is already stored; the invariant is kept |
| `UniquePatrons.UniquePatronList.SetPatron` | src/test/java/seedu/address/model/person/UniquePatronListTest.java:71-110 | fails with not-found when no stored patron equals target; fails with a duplicate error when edited is the same person as a patron in another slot; otherwise edited takes target's slot, order and length kept; invariant kept |
| `UniquePatrons.UniquePatronList.Remove` | src/test/java/seedu/address/model/person/UniquePatronListTest.java:117-128 | fails with not-found when absent, otherwise exactly that slot is taken out; invariant kept |
| `UniquePatrons.UniquePatronList.SetPatrons` | src/test/java/seedu/address/model/person/UniquePatronListTest.java:151-165 | replaces the whole list with the given one, or fails with a duplicate error and changes nothing when that list holds two same-person patrons |
| `UniquePatrons.UniquePatronList.PatronsAreUnique` | src/test/java/seedu/address/model/person/UniquePatronListTest.java:161-165 | comparing every pair of slots returns exactly whether the list satisfies the uniqueness invariant |
| `UniquePatrons.IndexOf` | src/test/java/seedu/address/model/person/UniquePatronListTest.java:71-74 | returns -1 exactly when no element equals x, otherwise the first slot holding x |
| `UniquePatrons.UniqueSlotsApart` | src/main/java/seedu/address/model/AddressBook.java:11-14 | two different slots of a unique list never hold the same person, in either order |
| `UniquePatrons.UniqueSlotsDiffer` | src/main/java/seedu/address/model/AddressBook.java:11-14 | two different slots of a unique list hold different patrons |
| `UniquePatrons.IndexOfStored` | src/main/java/seedu/address/model/AddressBook.java:77-94 | in a unique list every stored patron is found by indexOf at its own slot |
| `UniquePatrons.AppendKeepsUnique` | src/main/java/seedu/address/model/AddressBook.java:69-75 | appending a patron whose identity is not stored keeps the invariant |
| `UniquePatrons.ReplaceKeepsUnique` | src/main/java/seedu/address/model/AddressBook.java:77-86 | replacing a slot by a patron that collides with no other slot keeps the invariant |
| `UniquePatrons.RemoveKeepsUnique` | src/main/java/seedu/address/model/AddressBook.java:88-94 | removing any slot keeps the invariant |
| `UniquePatrons.RemovedPatronGone` | src/test/java/seedu/address/model/person/UniquePatronListTest.java:122-128 | after removing a slot of a unique list, no copy of its patron remains |
| `UniquePatrons.AppendedIdentityFound` | src/test/java/seedu/address/model/AddressBookTest.java:67-79 | after appending p, contains holds of every patron that is the same person as p |
| `UniquePatrons.ReplacementWithoutCollision` | src/test/java/seedu/address/model/person/UniquePatronListTest.java:76-103 | setPatron's duplicate test does not fire when edited is target itself or has an identity not yet stored |
| `UniquePatrons.OwnCheckImpliesCollision` | src/main/java/seedu/address/logic/commands/EditCommand.java:80-84 | when the edit command's own duplicate test fires, the list's duplicate test would fire too |
| `UniquePatrons.CollisionIffOwnCheck` | src/main/java/seedu/address/logic/commands/EditCommand.java:80-84 | for a transitive identity relation, colliding with another slot is equivalent to "not the target's person, yet contained" |
| `AddressBookModel.AddressBook.constructor` | src/main/java/seedu/address/model/AddressBook.java:26-30 | a new address book has an empty patron list |
| `AddressBookModel.CopyOf` | src/main/java/seedu/address/model/AddressBook.java:32-38 | copying a read-only snapshot gives a fresh book holding exactly the snapshot's list; a snapshot with two same-person patrons fails with the duplicate error through resetData, and no book is produced |
| `AddressBookModel.AddressBook.SetPatrons` | src/main/java/seedu/address/model/AddressBook.java:42-48 | the patron list becomes the given list, or the call fails with a duplicate error when that list holds two same-person patrons |
| `AddressBookModel.AddressBook.ResetData` | src/test/java/seedu/address/model/AddressBookTest.java:40-55 | afterwards the book holds exactly newData's patrons, or the call fails with a duplicate error and changes nothing when newData holds two same-person patrons |
| `AddressBookModel.AddressBook.HasPatron` | src/main/java/seedu/address/model/AddressBook.java:61-67 | true exactly when a stored patron has the same identity |
| `AddressBookModel.AddressBook.AddPatron` | src/main/java/seedu/address/model/AddressBook.java:69-75 | appends, or fails with a duplicate error when the identity is stored |
| `AddressBookModel.AddressBook.SetPatron` | src/main/java/seedu/address/model/AddressBook.java:77-86 | not-found, duplicate or in-place replacement, exactly as the list |
| `AddressBookModel.AddressBook.RemovePatron` | src/main/java/seedu/address/model/AddressBook.java:88-94 | not-found, or exactly the patron's slot removed |
| `AddressBookModel.AddressBook.GetPatronList` | src/main/java/seedu/address/model/AddressBook.java:104-107 | the list handed out by a valid book never holds two same-person patrons |
| `AddressBookModel.AddressBook.Equals` | src/main/java/seedu/address/model/AddressBook.java:109-114 | a book equals itself, and two books are equal exactly when their patron lists are equal |
| `AddressBookModel.AddThenHas` | src/test/java/seedu/address/model/AddressBookTest.java:67-79 | after adding p, hasPatron is true for p and for p with any other address and tags |
| `ModelManagerModel.Filter` | src/test/java/seedu/address/model/ModelManagerTest.java:143-146 | the filtered list is no longer than the list and holds exactly the patrons of the list the predicate accepts |
| `ModelManagerModel.ShowAll` | src/main/java/seedu/address/logic/commands/EditCommand.java:85 | the show-all predicate accepts every patron |
| `ModelManagerModel.FilterShowAll` | src/main/java/seedu/address/logic/commands/EditCommand.java:85 | under the show-all predicate the filtered list is the whole list |
| `ModelManagerModel.ModelManager.GetFilteredPatronList` | src/main/java/seedu/address/logic/commands/EditCommand.java:71 | the shown list is no longer than the book's list and holds exactly its patrons the current predicate accepts; under the show-all predicate it is the book's whole list |
| `ModelManagerModel.ModelManager.constructor` | src/test/java/seedu/address/model/ModelManagerTest.java:28-33 | a new model has an empty patron aggregate (the book copied at line 32 is an empty one); that it starts with the show-all filter is assumed, not shown by these lines |
| `ModelManagerModel.ModelManager.HasPatron` | src/test/java/seedu/address/model/ModelManagerTest.java:88-102 | true exactly when the book has a patron of that identity |
| `ModelManagerModel.ModelManager.SetPatron` | src/main/java/seedu/address/logic/commands/EditCommand.java:84 | forwards to the patron aggregate, taken to behave as `AddressBook.setPatron`: not-found, duplicate or in-place replacement |
| `ModelManagerModel.ModelManager.DeletePatron` | src/main/java/seedu/address/logic/commands/patron/DeletePatronCommand.java:43 | forwards to the patron aggregate, taken to behave as `AddressBook.removePatron`: not-found or removal of that patron's slot |
| `ModelManagerModel.ModelManager.UpdateFilteredPatronList` | src/main/java/seedu/address/logic/commands/EditCommand.java:85 | the filter predicate becomes the given one |
| `Edit.CreateEditedPatron` | src/main/java/seedu/address/logic/commands/EditCommand.java:93-103 | every field of the edited patron is the descriptor's value when set, otherwise the original patron's |
| `Edit.EmptyEditKeepsPatron` | src/main/java/seedu/address/logic/commands/EditCommand.java:96-102 | with an empty descriptor the edited patron equals the original |
| `Edit.DetailEditKeepsIdentity` | src/main/java/seedu/address/logic/commands/EditCommand.java:80-82 | a descriptor that leaves name, phone and email unset yields the same person, so the command's own duplicate check is skipped |
| `Edit.EmptyEditIsNoop` | src/main/java/seedu/address/logic/commands/EditCommand.java:78-85 | editing a stored patron with an empty descriptor passes both duplicate checks and leaves the list as it was |
| `Edit.EditPatronDescriptor.constructor` | src/main/java/seedu/address/logic/commands/EditCommand.java:134 | a new descriptor sets no field |
| `Edit.EditPatronDescriptor.Copy` | src/main/java/seedu/address/logic/commands/EditCommand.java:136-146 | the copy has the same five fields and equals the original |
| `Edit.EditPatronDescriptor.IsAnyFieldEdited` | src/main/java/seedu/address/logic/commands/EditCommand.java:148-153 | true exactly when the descriptor is not the empty one, i.e. some field is set |
| `Edit.EditPatronDescriptor.SetName` | src/main/java/seedu/address/logic/commands/EditCommand.java:155-157 | sets the name and leaves the other four fields |
| `Edit.EditPatronDescriptor.SetPhone` | src/main/java/seedu/address/logic/commands/EditCommand.java:163-165 | sets the phone and leaves the other four fields |
| `Edit.EditPatronDescriptor.SetEmail` | src/main/java/seedu/address/logic/commands/EditCommand.java:171-173 | sets the email and leaves the other four fields |
| `Edit.EditPatronDescriptor.SetAddress` | src/main/java/seedu/address/logic/commands/EditCommand.java:179-181 | sets the address and leaves the other four fields |
| `Edit.EditPatronDescriptor.SetTags` | src/main/java/seedu/address/logic/commands/EditCommand.java:187-193 | sets the tags and leaves the other four fields |
| `Edit.EditPatronDescriptor.GetName` | src/main/java/seedu/address/logic/commands/EditCommand.java:159-161 | returns the name the descriptor holds, empty exactly when it is unset, so after setName(v) it returns v |
| `Edit.EditPatronDescriptor.GetPhone` | src/main/java/seedu/address/logic/commands/EditCommand.java:167-169 | returns the phone the descriptor holds, empty exactly when it is unset, so after setPhone(v) it returns v |
| `Edit.EditPatronDescriptor.GetEmail` | src/main/java/seedu/address/logic/commands/EditCommand.java:175-177 | returns the email the descriptor holds, empty exactly when it is unset, so after setEmail(v) it returns v |
| `Edit.EditPatronDescriptor.GetAddress` | src/main/java/seedu/address/logic/commands/EditCommand.java:183-185 | returns the address the descriptor holds, empty exactly when it is unset, so after setAddress(v) it returns v |
| `Edit.EditPatronDescriptor.GetTags` | src/main/java/seedu/address/logic/commands/EditCommand.java:195-202 | returns the tags the descriptor holds, empty exactly when it is unset, so after setTags(v) it returns v |
| `Edit.EditPatronDescriptor.Equals` | src/main/java/seedu/address/logic/commands/EditCommand.java:204-224 | two descriptors are equal exactly when all five optional fields agree |
| `Edit.EditCommand.constructor` | src/main/java/seedu/address/logic/commands/EditCommand.java:60-66 | the command keeps the index and a fresh copy of the descriptor |
| `Edit.EditCommand.Execute` | src/main/java/seedu/address/logic/commands/EditCommand.java:68-87 | an index outside the shown list fails with invalid-displayed-index and touches nothing. The command's duplicate message comes only when the edited patron is not the original's person and the book has it. A collision with another slot otherwise surfaces as the list's duplicate failure. On success the target's slot holds the edited patron, the filter shows all, and nothing else changes |
| `Edit.EditCommand.Equals` | src/main/java/seedu/address/logic/commands/EditCommand.java:105-121 | two edit commands are equal exactly when index and descriptor fields agree |
| `DeletePatron.DeletePatronCommand.Execute` | src/main/java/seedu/address/logic/commands/patron/DeletePatronCommand.java:33-45 | an index outside the shown list fails with invalid-displayed-index and deletes nothing; otherwise the shown patron at the index is stored in the book, exactly its slot is removed, no copy of it remains, the message carries it and the filter is unchanged |
| `DeletePatron.DeletePatronCommand.Equals` | src/main/java/seedu/address/logic/commands/patron/DeletePatronCommand.java:47-52 | two delete commands are equal exactly when their target indices are |
| `JsonBook.MissingFieldMessage` | src/main/java/seedu/address/storage/JsonAdaptedBook.java:23 | the missing-field message is "Book's ", then the field's name, then " field is missing!" |
| `JsonBook.FromJson` | src/main/java/seedu/address/storage/JsonAdaptedBook.java:32-44 | the JSON constructor keeps name and ISBN as given, copies a given tag or author list and keeps an empty one for a null list |
| `JsonBook.FromBook` | src/main/java/seedu/address/storage/JsonAdaptedBook.java:49-58 | the adapted form of a book carries its name, its ISBN, its authors in order and each of its tags exactly once |
| `JsonBook.Decode` | src/main/java/seedu/address/storage/JsonAdaptedBook.java:65-95 | a decoded book is valid, keeps the listed authors and holds exactly the listed tags; a missing-field error names BookName or Isbn |
| `JsonBook.NullListsAreEmpty` | src/main/java/seedu/address/storage/JsonAdaptedBook.java:33-44 | a null tag or author list is read as an empty list |
| `JsonBook.SetToSeq` | src/main/java/seedu/address/storage/JsonAdaptedBook.java:52-54 | the tag set is listed in some order, each tag exactly once |
| `JsonBook.ToModelType` | src/main/java/seedu/address/storage/JsonAdaptedBook.java:60-95 | the two collecting loops and the field checks compute the decoding: tags, authors, name, ISBN, first failure reported |
| `JsonBook.RoundTrip` | src/test/java/seedu/address/storage/JsonAdaptedBookTest.java:33-37 | decoding the adapted form of any valid book gives that book back |
| `JsonBook.InvalidTagFails` | src/main/java/seedu/address/storage/JsonAdaptedBook.java:66-69 | any single invalid tag makes decoding fail with the tag error, whatever the other fields hold |
| `JsonBook.InvalidAuthorFails` | src/main/java/seedu/address/storage/JsonAdaptedBook.java:71-74 | any single invalid author makes decoding fail, with the author error once the tags passed |
| `JsonBook.BookNameErrors` | src/main/java/seedu/address/storage/JsonAdaptedBook.java:76-82 | a null name fails with "Book's BookName field is missing!", an invalid one with the BookName constraints error |
| `JsonBook.IsbnErrors` | src/main/java/seedu/address/storage/JsonAdaptedBook.java:85-90 | a null ISBN fails with "Book's Isbn field is missing!", an invalid one with the Isbn constraints error, once the earlier checks passed |
| `JsonBook.DecodedBookShape` | src/main/java/seedu/address/storage/JsonAdaptedBook.java:66-94 | decoding succeeds exactly when every check passes; the book keeps the author order, holds exactly the listed tags as a set (duplicates collapse) and is valid |
| `JsonBook.TagSetNoLarger` | src/main/java/seedu/address/storage/JsonAdaptedBook.java:93 | collecting a tag list into a set never makes it larger |
| `AddPatronParser.ArePrefixesPresent` | src/main/java/seedu/address/logic/parser/patron/AddPatronCommandParser.java:57-63 | true exactly when every listed prefix has a value in the map |
| `AddPatronParser.Parse` | src/main/java/seedu/address/logic/parser/patron/AddPatronCommandParser.java:37-55 | the command-format error arises exactly when a required prefix lacks a value or the preamble is not empty |
| `AddPatronParser.RequiredPresentIffEachGiven` | src/main/java/seedu/address/logic/parser/patron/AddPatronCommandParser.java:41 | the required prefixes are present exactly when name, id, phone and email each have a value |
| `AddPatronParser.MissingPrefixFails` | src/main/java/seedu/address/logic/parser/patron/AddPatronCommandParser.java:41-44 | any one required prefix without a value fails with the command-format error |
| `AddPatronParser.PreambleFails` | src/main/java/seedu/address/logic/parser/patron/AddPatronCommandParser.java:42-43 | a non-empty preamble fails with the command-format error even when all prefixes are present |
| `AddPatronParser.FirstFieldFailureReported` | src/main/java/seedu/address/logic/parser/patron/AddPatronCommandParser.java:46-50 | fields are parsed in the order name, phone, email, id, tags and the first failing parser's message is the error |
| `AddPatronParser.ParsedPatron` | src/main/java/seedu/address/logic/parser/patron/AddPatronCommandParser.java:46-54 | parsing succeeds exactly when the arguments are well formed and all five parsers succeed, and the command adds the patron built from exactly their values |
| `AddPatronParser.TagPrefixOptional` | src/main/java/seedu/address/logic/parser/patron/AddPatronCommandParser.java:50 | without the tag prefix, tag parsing receives the empty list and the result is that of an explicit empty tag list |

## Left out

- `ModelManagerModel.ModelManager`: in this code base the façade's aggregate is a `LibTask` (ModelManagerTest.java:32, ModelManagerTest.java:122-141, ClearCommandTest.java:27), whose source is not part of this model. The model takes it to behave as `AddressBook` on patrons, so Edit and Delete end in `AddressBook.setPatron` and `AddressBook.removePatron` by assumption. Its book list, user preferences and file path are left out. The show-all filter of a new model is also assumed.
- The definitions of `isSamePerson` and of the format rules of `Name`, `Phone`, `Email`, `Id`, `Tag`, `BookName`, `Isbn` and `Author` are not part of this model. The identity relation is assumed reflexive, symmetric and blind to address and tags. The format rules are parameters.
- `ArgumentTokenizer` and `ParserUtil` are not part of this model. The argument map is given. `getValue` is taken to return the last value given for a prefix. The field parsers are parameters.
- The `UniquePatronList.setPatrons(UniquePatronList)` overload is not modelled, because the address book never calls it.
- The unmodifiable observable-list wrappers are not modelled. The lists handed out are immutable `seq` values.
- `requireNonNull` checks are not modelled. Dafny references and values are never null.
- Messages are modelled as kinds of error. The only exception is the missing-field message of the book decoder. The usage texts and the constraint texts of the value types are not part of this model.
- `toString` and `hashCode` are not modelled.
- `UniquePatronList.equals` is not part of this model. `AddressBook.equals` is taken to compare the two patron lists element by element.
- The copying constructor `AddressBook(ReadOnlyAddressBook)` is modelled as the method `CopyOf`, because a Dafny constructor cannot fail. A read-only address book is modelled by its patron list.
- The book list and `hasBook` are not modelled: the address book in this model holds patrons only.
- User preferences, GUI settings, file paths, storage I/O, JSON text and the UI panel are not modelled.
- `JsonBook.SetToSeq`: HashSet iteration order is unspecified, so the adapted tag list is a ghost choice of some order. It is not a particular runtime order.
- `Index` is modelled as its zero-based value. The one-based conversion is not part of this model.
