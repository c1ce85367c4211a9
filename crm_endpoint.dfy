/** The CRM endpoints of `app/api/v1/endpoints/crm.py`: importing HubSpot
    contacts into the `contacts` table, pushing a contact or a call or a
    deal to HubSpot, and searching HubSpot.  Every HubSpot answer is a
    parameter (see `HubspotService`); the number the calls are logged from
    (`TWILIO_PHONE_NUMBER`) is a parameter too. */
module CrmEndpoint {
  import opened Wrappers
  import opened Decimal
  import opened UserModel
  import opened ContactModel
  import opened CallModel
  import opened HubspotService
  import UsersEndpoint
  import CallsEndpoint

  /** The `DealCreate.stage` default. */
  const DefaultStage := "appointmentscheduled"
  /** The disposition a call without one is logged with. */
  const CompletedDisposition := "completed"

  // ---------------------------------------------------------------- local contact rows

  /** The columns an import or an upsert writes into a contact row: the
      number it is keyed by and the fields HubSpot or the body supplied. */
  datatype Incoming = Incoming(
    phone: string,
    email: Option<string>,
    firstName: Option<string>,
    lastName: Option<string>,
    company: Option<string>,
    hubspotId: Option<string>)

  /** A new contact row holding the incoming fields as given. */
  function Imported(id: nat, f: Incoming, now: int): (c: Contact)
    ensures c.id == id && c.phoneNumber == f.phone && !c.isDnc && c.createdAt == now
    ensures c.email == f.email && c.firstName == f.firstName && c.lastName == f.lastName
    ensures c.company == f.company && c.hubspotContactId == f.hubspotId
  {
    Contact(id, f.phone, f.firstName, f.lastName, f.email, f.company, f.hubspotId, false, now)
  }

  /** An existing row updated by incoming fields: e-mail, names and company
      change only to a truthy value; the HubSpot id is always replaced, even
      by `None`. */
  function Merged(c: Contact, f: Incoming): (m: Contact)
    ensures m.id == c.id && m.phoneNumber == c.phoneNumber && m.isDnc == c.isDnc && m.createdAt == c.createdAt
    ensures m.email == (if Truthy(f.email) then f.email else c.email)
    ensures m.firstName == (if Truthy(f.firstName) then f.firstName else c.firstName)
    ensures m.lastName == (if Truthy(f.lastName) then f.lastName else c.lastName)
    ensures m.company == (if Truthy(f.company) then f.company else c.company)
    ensures m.hubspotContactId == f.hubspotId
  {
    c.(email := Or(f.email, c.email), firstName := Or(f.firstName, c.firstName),
       lastName := Or(f.lastName, c.lastName), company := Or(f.company, c.company),
       hubspotContactId := f.hubspotId)
  }

  /** Merging the same fields twice changes nothing more; merging into a
      row imported from those fields changes nothing; and a truthy field is
      never merged away. */
  lemma MergeSettles(c: Contact, f: Incoming, now: int)
    ensures Merged(Merged(c, f), f) == Merged(c, f)
    ensures Merged(Imported(c.id, f, now), f) == Imported(c.id, f, now)
    ensures Truthy(c.email) ==> Truthy(Merged(c, f).email)
    ensures Truthy(c.firstName) ==> Truthy(Merged(c, f).firstName)
    ensures Truthy(c.lastName) ==> Truthy(Merged(c, f).lastName)
    ensures Truthy(c.company) ==> Truthy(Merged(c, f).company)
  {
  }

  /** Rows staged in the session before a commit, and the id the next new
      row gets. */
  datatype Staged = Staged(rows: map<nat, Contact>, next: nat)

  /** What holds of staged rows whatever the commit will say: ids are keys
      below the next id, and numbers are unique (every write looks its
      number up first). */
  ghost predicate Staging(st: Staged) {
    && (forall k :: k in st.rows ==> st.rows[k].id == k && k < st.next)
    && PhonesUnique(st.rows)
  }

  /** The staging of a contact table's rows. */
  lemma TableStaging(rows: map<nat, Contact>, next: nat)
    requires ContactsConsistent(rows) && forall k :: k in rows ==> k < next
    ensures Staging(Staged(rows, next))
  {
  }

  /** One write keyed by number: the row holding the number is merged, or
      a new row is added under the next id. */
  function Upsert(st: Staged, f: Incoming, now: int): (r: Staged)
    requires Staging(st)
    ensures Staging(r) && st.next <= r.next
    ensures forall k :: k in st.rows ==> k in r.rows && r.rows[k].phoneNumber == st.rows[k].phoneNumber
    ensures forall k :: k in st.rows && st.rows[k].phoneNumber != f.phone ==> r.rows[k] == st.rows[k]
    ensures forall k :: k in r.rows && k !in st.rows ==> k == st.next && r.rows[k] == Imported(k, f, now)
    ensures PhoneInUse(r.rows, f.phone)
    ensures !PhoneInUse(st.rows, f.phone) ==> r.rows[ContactByPhone(r.rows, f.phone).value] == Imported(st.next, f, now)
    ensures PhoneInUse(st.rows, f.phone) ==>
      var k := ContactByPhone(st.rows, f.phone).value;
      ContactByPhone(r.rows, f.phone) == Some(k) && r.rows[k] == Merged(st.rows[k], f)
  {
    match ContactByPhone(st.rows, f.phone)
    case None =>
      var c := Imported(st.next, f, now);
      var r := Staged(st.rows[st.next := c], st.next + 1);
      assert r.rows[st.next].phoneNumber == f.phone;
      r
    case Some(k) =>
      var r := Staged(st.rows[k := Merged(st.rows[k], f)], st.next);
      assert r.rows[k].phoneNumber == f.phone;
      r
  }

  /** Writing the same fields twice under the same number leaves what the
      first write left. */
  lemma UpsertIdempotent(st: Staged, f: Incoming, now: int)
    requires Staging(st)
    ensures Upsert(Upsert(st, f, now), f, now) == Upsert(st, f, now)
  {
    var r := Upsert(st, f, now);
    var k := ContactByPhone(r.rows, f.phone).value;
    MergeSettles(r.rows[k], f, now);
    if PhoneInUse(st.rows, f.phone) {
      var j := ContactByPhone(st.rows, f.phone).value;
      MergeSettles(st.rows[j], f, now);
    } else {
      MergeSettles(Imported(st.next, f, now), f, now);
    }
    assert r.rows[k := Merged(r.rows[k], f)] == r.rows;
  }

  // ---------------------------------------------------------------- importing from HubSpot

  /** `sync_contacts_from_hubspot` (admin only): the import itself runs as
      a background task after the answer. */
  function SyncContacts(caller: User): (r: Outcome<string>)
    requires caller.isActive
    ensures r.Ok? <==> caller.role == Admin
    ensures r.Fail? ==> r == Fail(403, "Only admins can sync contacts")
    ensures r.Ok? ==> r.value == "Contact sync started"
  {
    if caller.role != Admin then Fail(403, "Only admins can sync contacts")
    else Ok("Contact sync started")
  }

  /** The fields a HubSpot contact brings to an import: none when its
      `phone` property is falsy, as the record is then skipped. */
  function FromHubspot(o: HubObject): (r: Option<Incoming>)
    ensures r.Some? <==> Truthy(Prop(o, "phone"))
    ensures r.Some? ==> r.value.phone == Prop(o, "phone").value && r.value.hubspotId == o.id
    ensures r.Some? ==> r.value.email == Prop(o, "email") && r.value.company == Prop(o, "company")
    ensures r.Some? ==> r.value.firstName == Prop(o, "firstname") && r.value.lastName == Prop(o, "lastname")
  {
    var phone := Prop(o, "phone");
    if !Truthy(phone) then None
    else Some(Incoming(phone.value, Prop(o, "email"), Prop(o, "firstname"), Prop(o, "lastname"), Prop(o, "company"), o.id))
  }

  /** The number an imported record is keyed by occurs among the records. */
  ghost predicate Lists(records: seq<HubObject>, phone: string) {
    exists i :: 0 <= i < |records| && FromHubspot(records[i]).Some? && FromHubspot(records[i]).value.phone == phone
  }

  /** One record of the import.  Before the record's number is looked up
      the session flushes what is staged, and that flush fails (`None`) when
      two staged rows share a HubSpot id; a failure ends the import. */
  function SyncStep(st: Option<Staged>, o: HubObject, now: int): (r: Option<Staged>)
    requires st.Some? ==> Staging(st.value)
    ensures r.Some? ==> st.Some? && Staging(r.value)
    ensures st.Some? && FromHubspot(o).None? ==> r == st
    ensures st.Some? && FromHubspot(o).Some? ==>
      r == if HubspotIdsUnique(st.value.rows) then Some(Upsert(st.value, FromHubspot(o).value, now)) else None
  {
    match st
    case None => None
    case Some(s) =>
      match FromHubspot(o)
      case None => st
      case Some(f) => if HubspotIdsUnique(s.rows) then Some(Upsert(s, f, now)) else None
  }

  /** The staged rows after importing `records` in order, or `None` once a
      flush failed. */
  function SyncAll(st: Staged, records: seq<HubObject>, now: int): (r: Option<Staged>)
    requires Staging(st)
    ensures r.Some? ==> Staging(r.value)
    decreases |records|
  {
    if records == [] then Some(st)
    else SyncStep(SyncAll(st, records[..|records| - 1], now), records[|records| - 1], now)
  }

  /** The staged rows `t` hold exactly the numbers of `records` on top of
      the rows of `st`: every listed number has a row, every row of `st`
      keeps its number, and a row whose number is not listed is untouched. */
  ghost predicate StagesExactly(st: Staged, records: seq<HubObject>, t: Staged) {
    && (forall p :: Lists(records, p) ==> PhoneInUse(t.rows, p))
    && (forall k :: k in st.rows ==> k in t.rows && t.rows[k].phoneNumber == st.rows[k].phoneNumber)
    && (forall k :: k in t.rows && !Lists(records, t.rows[k].phoneNumber) ==> k in st.rows && t.rows[k] == st.rows[k])
  }

  /** The numbers listed by records with one more at the end. */
  lemma ListsSnoc(init: seq<HubObject>, o: HubObject, p: string)
    ensures Lists(init + [o], p) <==> Lists(init, p) || (FromHubspot(o).Some? && FromHubspot(o).value.phone == p)
  {
    var records := init + [o];
    if Lists(records, p) {
      var i :| 0 <= i < |records| && FromHubspot(records[i]).Some? && FromHubspot(records[i]).value.phone == p;
      if i < |init| {
        assert records[i] == init[i];
      }
    }
    if Lists(init, p) {
      var i :| 0 <= i < |init| && FromHubspot(init[i]).Some? && FromHubspot(init[i]).value.phone == p;
      assert records[i] == init[i];
    }
    if FromHubspot(o).Some? && FromHubspot(o).value.phone == p {
      assert records[|init|] == o;
    }
  }

  /** One imported record keeps the staging exact. */
  lemma UpsertStagesExactly(st: Staged, init: seq<HubObject>, o: HubObject, s: Staged, now: int)
    requires Staging(s) && StagesExactly(st, init, s) && FromHubspot(o).Some?
    ensures StagesExactly(st, init + [o], Upsert(s, FromHubspot(o).value, now))
  {
    var f := FromHubspot(o).value;
    var t := Upsert(s, f, now);
    var records := init + [o];
    forall p | Lists(records, p)
      ensures PhoneInUse(t.rows, p)
    {
      ListsSnoc(init, o, p);
      if p != f.phone {
        var k :| k in s.rows && s.rows[k].phoneNumber == p;
        assert k in t.rows && t.rows[k].phoneNumber == p;
      }
    }
    forall k | k in t.rows && !Lists(records, t.rows[k].phoneNumber)
      ensures k in st.rows && t.rows[k] == st.rows[k]
    {
      ListsSnoc(init, o, t.rows[k].phoneNumber);
      if k in s.rows {
        assert s.rows[k].phoneNumber == t.rows[k].phoneNumber;
      }
    }
  }

  /** An import that gets through stages exactly the listed numbers on top
      of what was there. */
  lemma {:induction false} SyncAllExact(st: Staged, records: seq<HubObject>, now: int)
    requires Staging(st)
    ensures var r := SyncAll(st, records, now);
      r.Some? ==> StagesExactly(st, records, r.value)
    decreases |records|
  {
    var r := SyncAll(st, records, now);
    if records != [] && r.Some? {
      var n := |records| - 1;
      var init := records[..n];
      assert records == init + [records[n]];
      SyncAllExact(st, init, now);
      var prev := SyncAll(st, init, now);
      if FromHubspot(records[n]).Some? {
        UpsertStagesExactly(st, init, records[n], prev.value, now);
      } else {
        forall p ensures Lists(records, p) <==> Lists(init, p) {
          ListsSnoc(init, records[n], p);
        }
      }
    } else if r.Some? {
      assert forall p :: !Lists(records, p);
    }
  }

  /** `sync_contacts_task`: the contacts of the HubSpot list answer are
      imported one by one, and the staged rows are committed when every
      flush, the final one included, finds HubSpot ids unique; otherwise the
      exception is logged and nothing is stored. */
  method SyncContactsTask(table: ContactTable, answer: HttpAnswer<ListBody>, now: int)
    requires table.Valid()
    modifies table
    ensures table.Valid()
    ensures var r := SyncAll(Staged(old(table.rows), old(table.nextId)), SyncedContacts(answer), now);
      if r.Some? && HubspotIdsUnique(r.value.rows)
      then table.rows == r.value.rows && table.nextId == r.value.next
      else table.rows == old(table.rows) && table.nextId == old(table.nextId)
  {
    var records := SyncedContacts(answer);
    var start := Staged(table.rows, table.nextId);
    TableStaging(table.rows, table.nextId);
    var st := Some(start);
    for i := 0 to |records|
      invariant st == SyncAll(start, records[..i], now)
    {
      assert records[..i + 1][..i] == records[..i];
      st := SyncStep(st, records[i], now);
    }
    assert records[..|records|] == records;
    if st.Some? && HubspotIdsUnique(st.value.rows) {
      table.rows, table.nextId := st.value.rows, st.value.next;
    }
  }

  // ---------------------------------------------------------------- pushing to HubSpot

  /** The body of `POST /crm/contacts` (`ContactSync`). */
  datatype ContactSync = ContactSync(
    email: Option<string>,
    phone: string,
    firstName: Option<string>,
    lastName: Option<string>,
    company: Option<string>)

  /** `create_or_update_contact`: the contact is upserted in HubSpot first;
      a falsy HubSpot result is a 500 with nothing stored.  Otherwise the
      local row with the number is merged, or created, with the HubSpot id
      HubSpot returned; a commit that would duplicate a HubSpot id fails
      with an unhandled 500 and nothing stored. */
  method CreateOrUpdateContact(table: ContactTable, body: ContactSync, byEmail: HttpAnswer<HubObject>,
                               search: HttpAnswer<ListBody>, write: HttpAnswer<HubObject>, now: int)
    returns (request: Request, r: Outcome<Contact>)
    requires table.Valid()
    modifies table
    ensures table.Valid()
    ensures var sent := UpsertContact(body.email, Some(body.phone), body.firstName, body.lastName, body.company,
                                      map[], byEmail, search, write);
      && request == sent.0
      && (sent.1.None? || !ObjectTruthy(sent.1.value) ==>
            r == Fail(500, "Failed to create/update contact in HubSpot")
            && table.rows == old(table.rows) && table.nextId == old(table.nextId))
      && (sent.1.Some? && ObjectTruthy(sent.1.value) ==>
            var f := Incoming(body.phone, body.email, body.firstName, body.lastName, body.company, sent.1.value.id);
            var st := Upsert(Staged(old(table.rows), old(table.nextId)), f, now);
            if HubspotIdsUnique(st.rows)
            then table.rows == st.rows && table.nextId == st.next && r == Ok(st.rows[ContactByPhone(st.rows, body.phone).value])
            else r == Fail(500, InternalError) && table.rows == old(table.rows) && table.nextId == old(table.nextId))
    ensures r.Ok? ==> r.value.phoneNumber == body.phone && r.value in table.rows.Values
  {
    var sent := UpsertContact(body.email, Some(body.phone), body.firstName, body.lastName, body.company,
                              map[], byEmail, search, write);
    request := sent.0;
    if sent.1.None? || !ObjectTruthy(sent.1.value) {
      return request, Fail(500, "Failed to create/update contact in HubSpot");
    }
    var f := Incoming(body.phone, body.email, body.firstName, body.lastName, body.company, sent.1.value.id);
    TableStaging(table.rows, table.nextId);
    var st := Upsert(Staged(table.rows, table.nextId), f, now);
    if !HubspotIdsUnique(st.rows) {
      return request, Fail(500, InternalError);
    }
    table.rows, table.nextId := st.rows, st.next;
    var k := ContactByPhone(st.rows, body.phone).value;
    r := Ok(st.rows[k]);
  }

  /** The HubSpot id of the contact a row points at, when that contact
      exists and its HubSpot id is truthy. */
  function LinkedHubspotId(contacts: map<nat, Contact>, contactId: Option<nat>): (r: Option<string>)
    ensures r.Some? <==> contactId.Some? && contactId.value in contacts && Truthy(contacts[contactId.value].hubspotContactId)
    ensures r.Some? ==> r == contacts[contactId.value].hubspotContactId && r.value != ""
  {
    if contactId.Some? && contactId.value in contacts && Truthy(contacts[contactId.value].hubspotContactId)
    then contacts[contactId.value].hubspotContactId
    else None
  }

  /** `call.notes or ""`. */
  function NotesOrEmpty(n: Option<string>): string {
    if n.Some? then n.value else ""
  }

  /** `call.disposition or "completed"`. */
  function DispositionOrCompleted(d: Option<string>): (r: string)
    ensures r != ""
    ensures Truthy(d) ==> r == d.value
  {
    if Truthy(d) then d.value else CompletedDisposition
  }

  /** `log_call_to_hubspot`: the request sent to HubSpot, if any, and the
      answer (the id of the logged call).  404 for an unknown call, 400 when
      its contact is missing or not linked to HubSpot, 500 when the HubSpot
      result is falsy. */
  function LogCallToHubspot(calls: seq<Call>, contacts: map<nat, Contact>, callId: nat, fromNumber: string,
                            answer: HttpAnswer<HubObject>)
    : (r: (Option<Request>, Outcome<Option<string>>))
    ensures callId >= |calls| ==> r == (None, Fail(404, "Call not found"))
    ensures callId < |calls| && LinkedHubspotId(contacts, calls[callId].contactId).None? ==>
      r == (None, Fail(400, "Call has no associated HubSpot contact"))
    ensures r.0.Some? <==> callId < |calls| && LinkedHubspotId(contacts, calls[callId].contactId).Some?
    ensures r.0.Some? ==>
      var c := calls[callId];
      r.0.value == CallLogRequest(LinkedHubspotId(contacts, c.contactId).value, CallsEndpoint.DurationOrZero(c),
                                  NotesOrEmpty(c.notes), DispositionOrCompleted(c.disposition),
                                  c.startedAt * 1000, fromNumber)
    ensures r.0.Some? && (Accepted(answer).None? || !ObjectTruthy(Accepted(answer).value)) ==>
      r.1 == Fail(500, "Failed to log call to HubSpot")
    ensures r.1.Ok? <==> r.0.Some? && Accepted(answer).Some? && ObjectTruthy(Accepted(answer).value)
    ensures r.1.Ok? ==> r.1.value == answer.body.id
  {
    if callId >= |calls| then (None, Fail(404, "Call not found"))
    else
      var c := calls[callId];
      match LinkedHubspotId(contacts, c.contactId)
      case None => (None, Fail(400, "Call has no associated HubSpot contact"))
      case Some(hubspotId) =>
        var sent := LogCallActivity(hubspotId, CallsEndpoint.DurationOrZero(c), NotesOrEmpty(c.notes),
                                    DispositionOrCompleted(c.disposition), c.startedAt * 1000, fromNumber, answer);
        if sent.1.None? || !ObjectTruthy(sent.1.value) then (Some(sent.0), Fail(500, "Failed to log call to HubSpot"))
        else (Some(sent.0), Ok(sent.1.value.id))
  }

  /** What HubSpot records of a logged call matches the call row: the
      duration reads back as the call's seconds in milliseconds, the title
      ends in the call's disposition when it has one, and no call is ever
      logged with an empty disposition. */
  lemma LoggedCallMatchesRow(calls: seq<Call>, contacts: map<nat, Contact>, callId: nat, fromNumber: string,
                             answer: HttpAnswer<HubObject>)
    ensures var r := LogCallToHubspot(calls, contacts, callId, fromNumber, answer);
      r.0.Some? ==>
        var c := calls[callId];
        var p := r.0.value.properties;
        && r.0.value.associateWith == contacts[c.contactId.value].hubspotContactId
        && ParseInt(p["hs_call_duration"].text) == Some(CallsEndpoint.DurationOrZero(c) * 1000)
        && p["hs_call_disposition"].text != ""
        && (Truthy(c.disposition) ==> p["hs_call_title"].text[|"Call - "|..] == c.disposition.value)
  {
    var r := LogCallToHubspot(calls, contacts, callId, fromNumber, answer);
    if r.0.Some? {
      var c := calls[callId];
      CallLogReadsBack(LinkedHubspotId(contacts, c.contactId).value, CallsEndpoint.DurationOrZero(c), NotesOrEmpty(c.notes),
                       DispositionOrCompleted(c.disposition), c.startedAt * 1000, fromNumber);
    }
  }

  /** The body of `POST /crm/deals` (`DealCreate`); the amount is the text
      Python's `str` gives the float. */
  datatype DealCreate = DealCreate(name: string, amountText: string, contactId: nat, stage: string)

  /** A `DealCreate` as parsed: the stage takes its default when omitted. */
  function NewDealCreate(name: string, amountText: string, contactId: nat, stage: Option<string>): (d: DealCreate)
    ensures d.name == name && d.amountText == amountText && d.contactId == contactId
    ensures stage.None? ==> d.stage == DefaultStage
    ensures stage.Some? ==> d.stage == stage.value
  {
    DealCreate(name, amountText, contactId, if stage.Some? then stage.value else DefaultStage)
  }

  /** `create_deal`: 400 when the contact is missing or not linked to
      HubSpot, 500 when the HubSpot result is falsy; otherwise the id of the
      new deal. */
  function CreateDeal(contacts: map<nat, Contact>, body: DealCreate, answer: HttpAnswer<HubObject>)
    : (r: (Option<Request>, Outcome<Option<string>>))
    ensures LinkedHubspotId(contacts, Some(body.contactId)).None? ==>
      r == (None, Fail(400, "Contact not found or not synced with HubSpot"))
    ensures r.0.Some? <==> LinkedHubspotId(contacts, Some(body.contactId)).Some?
    ensures r.0.Some? ==>
      r.0.value == DealRequest(body.name, body.amountText, contacts[body.contactId].hubspotContactId.value, body.stage)
    ensures r.0.Some? && (Accepted(answer).None? || !ObjectTruthy(Accepted(answer).value)) ==>
      r.1 == Fail(500, "Failed to create deal in HubSpot")
    ensures r.1.Ok? <==> r.0.Some? && Accepted(answer).Some? && ObjectTruthy(Accepted(answer).value)
    ensures r.1.Ok? ==> r.1.value == answer.body.id
  {
    match LinkedHubspotId(contacts, Some(body.contactId))
    case None => (None, Fail(400, "Contact not found or not synced with HubSpot"))
    case Some(hubspotId) =>
      var deal := Accepted(answer);
      var request := DealRequest(body.name, body.amountText, hubspotId, body.stage);
      if deal.None? || !ObjectTruthy(deal.value) then (Some(request), Fail(500, "Failed to create deal in HubSpot"))
      else (Some(request), Ok(deal.value.id))
  }

  /** `search_contacts`: the request, and HubSpot's `200` answer when it is
      truthy, else an empty result list. */
  function SearchContacts(query: string, answer: HttpAnswer<ListBody>): (r: (SearchRequest, ListBody))
    ensures r.0 == ContactSearch(query)
    ensures ListTruthy(r.1)
    ensures Found(answer).Some? && ListTruthy(answer.body) ==> r.1 == answer.body
    ensures Found(answer).None? || !ListTruthy(answer.body) ==> r.1 == ListBody(Some([]), false)
  {
    match Found(answer)
    case Some(b) => if ListTruthy(b) then (ContactSearch(query), b) else (ContactSearch(query), ListBody(Some([]), false))
    case None => (ContactSearch(query), ListBody(Some([]), false))
  }
}
