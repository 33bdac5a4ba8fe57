/**
 * The patron entity. Value objects (Name, Phone, ...) are validated strings
 * whose regular expressions are not part of this model, so they are plain
 * strings here.
 */
module Person {

  type Name = string
  type Phone = string
  type Email = string
  type Address = string
  /** The patron's library id; the add-patron parser stores it in the slot that
      the edit command fills with an address (the code base is mid-rename). */
  type Id = string
  type Tag = string

  datatype Patron = Patron(name: Name, phone: Phone, email: Email, address: Address, tags: set<Tag>)

  /**
   * Patron.isSamePerson, a weaker notion of equality used for duplicate
   * detection. Its definition is not part of this model; what the model relies
   * on is that it is reflexive, symmetric, and blind to address and tags (two
   * patrons that differ only there are the same person).
   */
  type SamePerson = same: (Patron, Patron) -> bool
    | && (forall p: Patron :: same(p, p))
      && (forall p: Patron, q: Patron :: same(p, q) ==> same(q, p))
      && (forall p: Patron, a: Address, t: set<Tag> :: same(p, p.(address := a, tags := t)))
    witness (p: Patron, q: Patron) => p.name == q.name || p.phone == q.phone || p.email == q.email
}
