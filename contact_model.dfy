/** The `contacts` and `dnc_lists` tables (`app/models/contact.py`).  The
    Do-Not-Call table is its own table: a contact's `is_dnc` flag is a
    separate column that nothing in the model sets. */
module ContactModel {
  import opened Wrappers

  datatype Contact = Contact(
    id: nat,
    phoneNumber: string,
    firstName: Option<string>,
    lastName: Option<string>,
    email: Option<string>,
    company: Option<string>,
    hubspotContactId: Option<string>,
    isDnc: bool,
    createdAt: int)

  /** A contact created from a phone number alone: every other column empty
      and `is_dnc` false. */
  function NewContact(id: nat, phoneNumber: string, now: int): (c: Contact)
    ensures c.id == id && c.phoneNumber == phoneNumber && !c.isDnc && c.createdAt == now
    ensures c.firstName.None? && c.lastName.None? && c.email.None? && c.company.None?
    ensures c.hubspotContactId.None?
  {
    Contact(id, phoneNumber, None, None, None, None, None, false, now)
  }

  /** One row of `dnc_lists`. */
  datatype DncEntry = DncEntry(id: nat, phoneNumber: string, reason: Option<string>, addedById: nat, addedAt: int)

  predicate PhoneInUse(rows: map<nat, Contact>, phone: string) {
    exists k :: k in rows && rows[k].phoneNumber == phone
  }

  predicate HubspotIdInUse(rows: map<nat, Contact>, hubspotId: string) {
    exists k :: k in rows && rows[k].hubspotContactId == Some(hubspotId)
  }

  /** `phone_number` is unique. */
  ghost predicate PhonesUnique(rows: map<nat, Contact>) {
    forall a, b :: a in rows && b in rows && rows[a].phoneNumber == rows[b].phoneNumber ==> a == b
  }

  /** `hubspot_contact_id` is unique where it is set. */
  predicate HubspotIdsUnique(rows: map<nat, Contact>) {
    forall a, b :: (a in rows && b in rows && rows[a].hubspotContactId.Some? &&
      rows[a].hubspotContactId == rows[b].hubspotContactId) ==> a == b
  }

  /** The table's declared constraints, on a candidate set of rows: what a
      commit must satisfy. */
  ghost predicate ContactsConsistent(rows: map<nat, Contact>) {
    && (forall k :: k in rows ==> rows[k].id == k)
    && PhonesUnique(rows)
    && HubspotIdsUnique(rows)
  }

  predicate Listed(rows: map<nat, DncEntry>, phone: string) {
    exists k :: k in rows && rows[k].phoneNumber == phone
  }

  /** `dnc_lists.phone_number` is unique: at most one entry per number. */
  ghost predicate DncPhonesUnique(rows: map<nat, DncEntry>) {
    forall a, b :: a in rows && b in rows && rows[a].phoneNumber == rows[b].phoneNumber ==> a == b
  }

  ghost predicate DncConsistent(rows: map<nat, DncEntry>) {
    (forall k :: k in rows ==> rows[k].id == k) && DncPhonesUnique(rows)
  }

  /** The contact whose number is `phone`, if any (numbers are unique). */
  function ContactByPhone(rows: map<nat, Contact>, phone: string): (r: Option<nat>)
    requires PhonesUnique(rows)
    ensures r.None? <==> !PhoneInUse(rows, phone)
    ensures r.Some? ==> r.value in rows && rows[r.value].phoneNumber == phone
  {
    if PhoneInUse(rows, phone) then
      var k :| k in rows && rows[k].phoneNumber == phone;
      Some(k)
    else None
  }

  class ContactTable {
    var rows: map<nat, Contact>
    var nextId: nat

    ghost predicate Valid()
      reads this
    {
      ContactsConsistent(rows) && forall k :: k in rows ==> k < nextId
    }

    constructor ()
      ensures Valid() && rows == map[] && nextId == 0
    {
      rows := map[];
      nextId := 0;
    }
  }

  class DncTable {
    var rows: map<nat, DncEntry>
    var nextId: nat

    ghost predicate Valid()
      reads this
    {
      DncConsistent(rows) && forall k :: k in rows ==> k < nextId
    }

    constructor ()
      ensures Valid() && rows == map[] && nextId == 0
    {
      rows := map[];
      nextId := 0;
    }
  }
}
