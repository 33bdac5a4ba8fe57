/**
 * UniquePatronList: an ordered list of patrons in which no two elements are
 * the same person. Its Java source is not part of this model; its contract is
 * the one its unit tests and the AddressBook documentation pin down.
 */
module UniquePatrons {
  import opened Wrappers
  import opened Person

  /** The list's two unchecked exceptions. */
  datatype ListError = DuplicatePerson | PersonNotFound

  /** contains(toCheck): toCheck is the same person as some stored patron. */
  predicate ContainsPerson(same: SamePerson, s: seq<Patron>, p: Patron) {
    exists i :: 0 <= i < |s| && same(p, s[i])
  }

  /** The list invariant: no two stored patrons are the same person. */
  predicate Unique(same: SamePerson, s: seq<Patron>) {
    forall i, j :: 0 <= i < j < |s| ==> !same(s[i], s[j])
  }

  /** e is the same person as a stored patron other than the one in slot i. */
  predicate CollidesElsewhere(same: SamePerson, s: seq<Patron>, i: int, e: Patron) {
    exists j :: 0 <= j < |s| && j != i && same(e, s[j])
  }

  /** List.indexOf: the first slot holding a patron EQUAL to x, or -1. */
  function IndexOf(s: seq<Patron>, x: Patron): (r: int)
    ensures -1 <= r < |s|
    ensures r == -1 <==> x !in s
    ensures 0 <= r ==> s[r] == x && x !in s[..r]
  {
    if |s| == 0 then -1
    else if s[0] == x then 0
    else
      var k := IndexOf(s[1..], x);
      if k == -1 then -1
      else
        assert s[..k + 1] == [s[0]] + s[1..][..k];
        k + 1
  }

  /** The list with slot i taken out. */
  function RemoveAt(s: seq<Patron>, i: nat): seq<Patron>
    requires i < |s|
  {
    s[..i] + s[i + 1..]
  }

  /** Patrons of a unique list are pairwise different, so equal patrons sit in one slot. */
  lemma UniqueSlotsDiffer(same: SamePerson, s: seq<Patron>, i: nat, j: nat)
    requires Unique(same, s) && i < |s| && j < |s| && i != j
    ensures s[i] != s[j]
  {
    UniqueSlotsApart(same, s, i, j);
  }

  /** Two different slots of a unique list hold patrons that are not the same person. */
  lemma UniqueSlotsApart(same: SamePerson, s: seq<Patron>, i: nat, j: nat)
    requires Unique(same, s) && i < |s| && j < |s| && i != j
    ensures !same(s[i], s[j])
  {
    if j < i {
      assert !same(s[j], s[i]);
    }
  }

  /** In a unique list, indexOf finds every stored patron at its own slot. */
  lemma IndexOfStored(same: SamePerson, s: seq<Patron>, k: nat)
    requires Unique(same, s) && k < |s|
    ensures IndexOf(s, s[k]) == k
  {
    forall r | 0 <= r < |s| && r != k
      ensures s[r] != s[k]
    {
      UniqueSlotsDiffer(same, s, r, k);
    }
  }

  /** Appending a patron the list does not contain keeps the list unique. */
  lemma AppendKeepsUnique(same: SamePerson, s: seq<Patron>, p: Patron)
    requires Unique(same, s) && !ContainsPerson(same, s, p)
    ensures Unique(same, s + [p])
  {
    var t := s + [p];
    forall i, j | 0 <= i < j < |t| ensures !same(t[i], t[j]) {
      if j == |s| {
        assert !same(p, s[i]);
      }
    }
  }

  /** Replacing slot i by a patron that collides with no other slot keeps the list unique. */
  lemma ReplaceKeepsUnique(same: SamePerson, s: seq<Patron>, i: nat, e: Patron)
    requires Unique(same, s) && i < |s| && !CollidesElsewhere(same, s, i, e)
    ensures Unique(same, s[i := e])
  {
    var t := s[i := e];
    forall a, b | 0 <= a < b < |t| ensures !same(t[a], t[b]) {
      if a == i {
        assert !same(e, s[b]);
      } else if b == i {
        assert !same(e, s[a]);
      }
    }
  }

  /** Taking a slot out keeps the list unique. */
  lemma RemoveKeepsUnique(same: SamePerson, s: seq<Patron>, i: nat)
    requires Unique(same, s) && i < |s|
    ensures Unique(same, RemoveAt(s, i))
  {
    var t := RemoveAt(s, i);
    forall a, b | 0 <= a < b < |t| ensures !same(t[a], t[b]) {
      var a' := if a < i then a else a + 1;
      var b' := if b < i then b else b + 1;
      assert t[a] == s[a'] && t[b] == s[b'];
    }
  }

  /** After appending p, every patron that is the same person as p is found. */
  lemma AppendedIdentityFound(same: SamePerson, s: seq<Patron>, p: Patron, q: Patron)
    requires same(p, q)
    ensures ContainsPerson(same, s + [p], q)
  {
    assert (s + [p])[|s|] == p;
    assert same(q, p);
  }

  /**
   * The edit command's own duplicate test (the edited patron is not the same
   * person as the target, yet the list contains it) always implies that the
   * edited patron collides with another slot.
   */
  lemma OwnCheckImpliesCollision(same: SamePerson, s: seq<Patron>, i: nat, e: Patron)
    requires i < |s| && !same(s[i], e) && ContainsPerson(same, s, e)
    ensures CollidesElsewhere(same, s, i, e)
  {
    var j :| 0 <= j < |s| && same(e, s[j]);
    assert !same(e, s[i]);
    assert j != i;
  }

  /**
   * When the identity relation is transitive, the two duplicate tests agree:
   * a collision with another slot happens exactly when the edited patron is
   * not the target's person and the list contains it.
   */
  lemma CollisionIffOwnCheck(same: SamePerson, s: seq<Patron>, i: nat, e: Patron)
    requires Unique(same, s) && i < |s|
    requires forall p, q, r :: same(p, q) && same(q, r) ==> same(p, r)
    ensures CollidesElsewhere(same, s, i, e) <==> !same(s[i], e) && ContainsPerson(same, s, e)
  {
    if CollidesElsewhere(same, s, i, e) {
      var j :| 0 <= j < |s| && j != i && same(e, s[j]);
      UniqueSlotsApart(same, s, i, j);
    } else if !same(s[i], e) && ContainsPerson(same, s, e) {
      OwnCheckImpliesCollision(same, s, i, e);
    }
  }

  /**
   * setPatron's duplicate test never fires when the replacement is the target
   * itself, nor when its identity is new to the list.
   */
  lemma ReplacementWithoutCollision(same: SamePerson, s: seq<Patron>, i: nat, e: Patron)
    requires Unique(same, s) && i < |s|
    requires e == s[i] || !ContainsPerson(same, s, e)
    ensures !CollidesElsewhere(same, s, i, e)
  {
    forall j | 0 <= j < |s| && j != i
      ensures !same(e, s[j])
    {
      if e == s[i] {
        UniqueSlotsApart(same, s, i, j);
      }
    }
  }

  /** Removing a slot of a unique list leaves no copy of the patron that was in it. */
  lemma RemovedPatronGone(same: SamePerson, s: seq<Patron>, i: nat)
    requires Unique(same, s) && i < |s|
    ensures s[i] !in RemoveAt(s, i)
  {
    forall k | 0 <= k < |s| && k != i
      ensures s[k] != s[i]
    {
      UniqueSlotsDiffer(same, s, k, i);
    }
    var t := RemoveAt(s, i);
    forall k | 0 <= k < |t|
      ensures t[k] != s[i]
    {
      if k < i {
        assert t[k] == s[k];
      } else {
        assert t[k] == s[k + 1];
      }
    }
  }

  class UniquePatronList {
    const same: SamePerson
    var internalList: seq<Patron>

    ghost predicate Valid()
      reads this
    {
      Unique(same, internalList)
    }

    constructor (same: SamePerson)
      ensures Valid() && this.same == same && internalList == []
    {
      this.same := same;
      internalList := [];
    }

    /** contains: a linear scan for a stored patron that toCheck is the same person as. */
    method Contains(toCheck: Patron) returns (found: bool)
      ensures found == ContainsPerson(same, internalList, toCheck)
    {
      found := false;
      var i := 0;
      while i < |internalList|
        invariant 0 <= i <= |internalList|
        invariant found == ContainsPerson(same, internalList[..i], toCheck)
      {
        assert internalList[..i + 1] == internalList[..i] + [internalList[i]];
        found := found || same(toCheck, internalList[i]);
        i := i + 1;
      }
      assert internalList[..i] == internalList;
    }

    /** add: appends toAdd, or fails with a duplicate error if the same person is already stored. */
    method Add(toAdd: Patron) returns (err: Option<ListError>)
      requires Valid()
      modifies this
      ensures Valid()
      ensures err == (if ContainsPerson(same, old(internalList), toAdd) then Some(DuplicatePerson) else None)
      ensures internalList == if err.None? then old(internalList) + [toAdd] else old(internalList)
    {
      var dup := Contains(toAdd);
      if dup {
        return Some(DuplicatePerson);
      }
      AppendKeepsUnique(same, internalList, toAdd);
      internalList := internalList + [toAdd];
      err := None;
    }

    /**
     * setPatron: puts edited in target's slot. Fails with not-found when no
     * stored patron equals target, and with a duplicate error when edited is
     * the same person as a patron in another slot.
     */
    method SetPatron(target: Patron, edited: Patron) returns (err: Option<ListError>)
      requires Valid()
      modifies this
      ensures Valid()
      ensures var i := IndexOf(old(internalList), target);
        && err == (if i == -1 then Some(PersonNotFound)
                   else if CollidesElsewhere(same, old(internalList), i, edited) then Some(DuplicatePerson)
                   else None)
        && internalList == if err.None? then old(internalList)[i := edited] else old(internalList)
    {
      var i := IndexOf(internalList, target);
      if i == -1 {
        return Some(PersonNotFound);
      }
      if CollidesElsewhere(same, internalList, i, edited) {
        return Some(DuplicatePerson);
      }
      ReplaceKeepsUnique(same, internalList, i, edited);
      internalList := internalList[i := edited];
      err := None;
    }

    /** remove: takes out the patron equal to toRemove, or fails with not-found. */
    method Remove(toRemove: Patron) returns (err: Option<ListError>)
      requires Valid()
      modifies this
      ensures Valid()
      ensures var i := IndexOf(old(internalList), toRemove);
        && err == (if i == -1 then Some(PersonNotFound) else None)
        && internalList == if i == -1 then old(internalList) else RemoveAt(old(internalList), i)
    {
      var i := IndexOf(internalList, toRemove);
      if i == -1 {
        return Some(PersonNotFound);
      }
      RemoveKeepsUnique(same, internalList, i);
      internalList := RemoveAt(internalList, i);
      err := None;
    }

    /** setPatrons(List): replaces the whole list, or fails with a duplicate error if replacement is not unique. */
    method SetPatrons(replacement: seq<Patron>) returns (err: Option<ListError>)
      requires Valid()
      modifies this
      ensures Valid()
      ensures err == (if Unique(same, replacement) then None else Some(DuplicatePerson))
      ensures internalList == if err.None? then replacement else old(internalList)
    {
      var ok := PatronsAreUnique(replacement);
      if !ok {
        return Some(DuplicatePerson);
      }
      internalList := replacement;
      err := None;
    }

    /** personsAreUnique: compares every pair of slots. */
    method PatronsAreUnique(ps: seq<Patron>) returns (ok: bool)
      ensures ok == Unique(same, ps)
    {
      var i := 0;
      while i < |ps|
        invariant 0 <= i <= |ps|
        invariant forall a, b :: 0 <= a < b < |ps| && a < i ==> !same(ps[a], ps[b])
      {
        var j := i + 1;
        while j < |ps|
          invariant i + 1 <= j <= |ps|
          invariant forall b :: i < b < j ==> !same(ps[i], ps[b])
        {
          if same(ps[i], ps[j]) {
            return false;
          }
          j := j + 1;
        }
        i := i + 1;
      }
      return true;
    }
  }
}
