/** The request building and answer classification of
    `app/services/hubspot_service.py`.  Every HTTP exchange is an oracle: the
    answer the service would get (a status and a decoded body, or an
    exception).  JSON objects keep only what the service reads: an object's
    `id`, its `properties`, and whether it has any other key (its Python
    truthiness). */
module HubspotService {
  import opened Wrappers
  import opened Decimal

  const BaseUrl := "https://api.hubapi.com"
  const ContactsUrl := BaseUrl + "/crm/v3/objects/contacts"
  const CallsUrl := BaseUrl + "/crm/v3/objects/calls"
  const DealsUrl := BaseUrl + "/crm/v3/objects/deals"
  const SearchLimit := 10
  const DefaultPipeline := "default"
  const CompletedStatus := "COMPLETED"

  /** One HTTP exchange: the answer, or an exception (network error,
      undecodable body). */
  datatype HttpAnswer<B> = Response(status: int, body: B) | Raised

  /** A HubSpot object: its `id`, its `properties` (a property may be JSON
      `null`), and whether the dictionary holds any key besides `id`. */
  datatype HubObject = HubObject(id: Option<string>, properties: map<string, Option<string>>, otherKeys: bool)

  /** A list or search answer: its `results` list when the key is present,
      and whether it holds any other key (a search answer always carries
      `total`).  It has no `id` key. */
  datatype ListBody = ListBody(results: Option<seq<HubObject>>, otherKeys: bool)

  predicate ObjectTruthy(o: HubObject) {
    o.id.Some? || o.otherKeys
  }

  predicate ListTruthy(b: ListBody) {
    b.results.Some? || b.otherKeys
  }

  /** `hubspot_object.get(key)` on the `properties` dictionary. */
  function Prop(o: HubObject, key: string): Option<string> {
    if key in o.properties then o.properties[key] else None
  }

  /** A JSON value sent in a request. */
  datatype JsonValue = Text(text: string) | Number(number: int)

  datatype Request = Request(verb: string, url: string, properties: map<string, JsonValue>, associateWith: Option<string>)

  /** The `status_code in [200, 201]` test of the write calls: the body on
      success; `None` on any other status or an exception. */
  function Accepted<B>(answer: HttpAnswer<B>): (r: Option<B>)
    ensures r.Some? <==> answer.Response? && (answer.status == 200 || answer.status == 201)
    ensures r.Some? ==> r.value == answer.body
  {
    if answer.Response? && (answer.status == 200 || answer.status == 201) then Some(answer.body) else None
  }

  /** The `status_code == 200` test of the read calls (`get_contact_by_email`,
      `search_contacts`). */
  function Found<B>(answer: HttpAnswer<B>): (r: Option<B>)
    ensures r.Some? <==> answer.Response? && answer.status == 200
    ensures r.Some? ==> r.value == answer.body
  {
    if answer.Response? && answer.status == 200 then Some(answer.body) else None
  }

  /** A read never accepts more than a write: a `201` counts only for writes. */
  lemma FoundImpliesAccepted<B>(answer: HttpAnswer<B>)
    ensures Found(answer).Some? ==> Accepted(answer) == Found(answer)
    ensures answer.Response? && answer.status == 201 ==> Found(answer).None? && Accepted(answer).Some?
  {
  }

  // ---------------------------------------------------------------- contacts

  /** The HubSpot property name each argument of `create_or_update_contact`
      fills, and the argument for a property name. */
  function Argument(key: string, email: Option<string>, phone: Option<string>, firstName: Option<string>,
                    lastName: Option<string>, company: Option<string>): Option<string>
  {
    if key == "email" then email
    else if key == "phone" then phone
    else if key == "firstname" then firstName
    else if key == "lastname" then lastName
    else if key == "company" then company
    else None
  }

  function PutTruthy(m: map<string, JsonValue>, key: string, v: Option<string>): (r: map<string, JsonValue>)
    ensures forall k :: k in r <==> k in m || (k == key && Truthy(v))
    ensures forall k :: k in r ==> r[k] == if k == key && Truthy(v) then Text(v.value) else m[k]
  {
    if Truthy(v) then m[key := Text(v.value)] else m
  }

  /** The property map of `create_or_update_contact`: each standard property
      whose argument is truthy, then `custom_properties` merged over them. */
  function ContactProperties(email: Option<string>, phone: Option<string>, firstName: Option<string>,
                             lastName: Option<string>, company: Option<string>,
                             custom: map<string, JsonValue>): map<string, JsonValue>
  {
    StandardProperties(email, phone, firstName, lastName, company) + custom
  }

  function StandardProperties(email: Option<string>, phone: Option<string>, firstName: Option<string>,
                              lastName: Option<string>, company: Option<string>): map<string, JsonValue>
  {
    var m0 := PutTruthy(map[], "email", email);
    var m1 := PutTruthy(m0, "phone", phone);
    var m2 := PutTruthy(m1, "firstname", firstName);
    var m3 := PutTruthy(m2, "lastname", lastName);
    PutTruthy(m3, "company", company)
  }

  /** Each standard property is present exactly when its argument is
      truthy, with that argument's text. */
  lemma StandardPropertiesMeans(email: Option<string>, phone: Option<string>, firstName: Option<string>,
                                lastName: Option<string>, company: Option<string>, k: string)
    ensures var m := StandardProperties(email, phone, firstName, lastName, company);
      && (k in m <==> Truthy(Argument(k, email, phone, firstName, lastName, company)))
      && (k in m ==> m[k] == Text(Argument(k, email, phone, firstName, lastName, company).value))
  {
  }

  /** The property map holds the custom properties, and the standard ones
      with truthy arguments that no custom property overrides. */
  lemma ContactPropertiesMeans(email: Option<string>, phone: Option<string>, firstName: Option<string>,
                               lastName: Option<string>, company: Option<string>, custom: map<string, JsonValue>)
    ensures var p := ContactProperties(email, phone, firstName, lastName, company, custom);
      forall k :: (k in p <==> k in custom || Truthy(Argument(k, email, phone, firstName, lastName, company))) &&
        (k in p ==> p[k] == if k in custom then custom[k] else Text(Argument(k, email, phone, firstName, lastName, company).value))
  {
    forall k {
      StandardPropertiesMeans(email, phone, firstName, lastName, company, k);
    }
  }

  /** Python's `f"{x}"` of an optional id. */
  function IdText(id: Option<string>): string {
    if id.Some? then id.value else "None"
  }

  /** The contact `create_or_update_contact` takes as existing, as written:
      with a truthy e-mail, the e-mail lookup's object; otherwise, with a
      truthy phone, the first search result when the answer has results, but
      the answer itself when it has none.  The result is `None` when the
      value tested by `if existing_contact` is falsy, and otherwise the
      `.get('id')` of that value. */
  function ExistingAsWritten(email: Option<string>, phone: Option<string>, byEmail: Option<HubObject>,
                             search: Option<ListBody>): (r: Option<Option<string>>)
    ensures r != Existing(email, phone, byEmail, search) <==>
      !Truthy(email) && Truthy(phone) && search.Some? && ListTruthy(search.value) &&
      !(search.value.results.Some? && search.value.results.value != [])
    ensures r != Existing(email, phone, byEmail, search) ==> r == Some(None)
  {
    if Truthy(email) then
      if byEmail.Some? && ObjectTruthy(byEmail.value) then Some(byEmail.value.id) else None
    else if Truthy(phone) && search.Some? then
      var b := search.value;
      if b.results.Some? && b.results.value != [] then
        if ObjectTruthy(b.results.value[0]) then Some(b.results.value[0].id) else None
      else if ListTruthy(b) then Some(None)
      else None
    else None
  }

  /** The existing contact as evidently intended: a search with no results
      finds nothing. */
  function Existing(email: Option<string>, phone: Option<string>, byEmail: Option<HubObject>,
                    search: Option<ListBody>): (r: Option<Option<string>>)
    ensures Truthy(email) ==> r == if byEmail.Some? && ObjectTruthy(byEmail.value) then Some(byEmail.value.id) else None
    ensures !Truthy(email) ==>
      (r.Some? <==> Truthy(phone) && search.Some? && search.value.results.Some? && search.value.results.value != [] &&
                    ObjectTruthy(search.value.results.value[0]))
    ensures !Truthy(email) && r.Some? ==> r.value == search.value.results.value[0].id
  {
    if Truthy(email) then
      if byEmail.Some? && ObjectTruthy(byEmail.value) then Some(byEmail.value.id) else None
    else if Truthy(phone) && search.Some? then
      var b := search.value;
      if b.results.Some? && b.results.value != [] && ObjectTruthy(b.results.value[0]) then Some(b.results.value[0].id)
      else None
    else None
  }

  /** The two agree except on a search answer without results. */
  lemma ExistingAgrees(email: Option<string>, phone: Option<string>, byEmail: Option<HubObject>, search: Option<ListBody>)
    requires Truthy(email) || !Truthy(phone) || search.None? ||
             (search.value.results.Some? && search.value.results.value != []) || !ListTruthy(search.value)
    ensures ExistingAsWritten(email, phone, byEmail, search) == Existing(email, phone, byEmail, search)
  {
  }

  /** The write request: PATCH at the existing contact's URL, or POST at the
      collection. */
  function ContactWrite(existing: Option<Option<string>>, properties: map<string, JsonValue>): (r: Request)
    ensures existing.Some? ==> r.verb == "PATCH" && r.url == ContactsUrl + "/" + IdText(existing.value)
    ensures existing.None? ==> r.verb == "POST" && r.url == ContactsUrl
    ensures r.properties == properties && r.associateWith.None?
  {
    if existing.Some? then Request("PATCH", ContactsUrl + "/" + IdText(existing.value), properties, None)
    else Request("POST", ContactsUrl, properties, None)
  }

  /** The reads `create_or_update_contact` makes before writing: the e-mail
      lookup when the e-mail is truthy, otherwise the phone search when the
      phone is truthy. */
  function LookupAnswers(email: Option<string>, phone: Option<string>, byEmail: HttpAnswer<HubObject>,
                         search: HttpAnswer<ListBody>): (Option<HubObject>, Option<ListBody>)
  {
    if Truthy(email) then (Found(byEmail), None)
    else if Truthy(phone) then (None, Found(search))
    else (None, None)
  }

  /** `create_or_update_contact`: the write request sent and the result (the
      written object, or `None`).  The request follows the lookup as the code
      writes it, so an empty phone search answer leads to a PATCH at
      `.../contacts/None`. */
  function UpsertContact(email: Option<string>, phone: Option<string>, firstName: Option<string>,
                         lastName: Option<string>, company: Option<string>, custom: map<string, JsonValue>,
                         byEmail: HttpAnswer<HubObject>, search: HttpAnswer<ListBody>, write: HttpAnswer<HubObject>)
    : (r: (Request, Option<HubObject>))
    ensures r.0.properties == ContactProperties(email, phone, firstName, lastName, company, custom)
    ensures r.1 == Accepted(write)
    ensures var looked := LookupAnswers(email, phone, byEmail, search);
      var existing := ExistingAsWritten(email, phone, looked.0, looked.1);
      && (r.0.verb == "PATCH" <==> existing.Some?)
      && (existing.Some? ==> r.0.url == ContactsUrl + "/" + IdText(existing.value))
      && (existing.None? ==> r.0.verb == "POST" && r.0.url == ContactsUrl)
  {
    var properties := ContactProperties(email, phone, firstName, lastName, company, custom);
    var looked := LookupAnswers(email, phone, byEmail, search);
    (ContactWrite(ExistingAsWritten(email, phone, looked.0, looked.1), properties), Accepted(write))
  }

  /** Outside the empty search answer, the request is the one the intended
      lookup chooses. */
  lemma UpsertContactAgrees(email: Option<string>, phone: Option<string>, firstName: Option<string>,
                            lastName: Option<string>, company: Option<string>, custom: map<string, JsonValue>,
                            byEmail: HttpAnswer<HubObject>, search: HttpAnswer<ListBody>, write: HttpAnswer<HubObject>)
    requires Truthy(email) || !Truthy(phone) || Found(search).None? ||
             (search.body.results.Some? && search.body.results.value != []) || !ListTruthy(search.body)
    ensures var looked := LookupAnswers(email, phone, byEmail, search);
      UpsertContact(email, phone, firstName, lastName, company, custom, byEmail, search, write).0
        == ContactWrite(Existing(email, phone, looked.0, looked.1),
                        ContactProperties(email, phone, firstName, lastName, company, custom))
  {
    var looked := LookupAnswers(email, phone, byEmail, search);
    ExistingAgrees(email, phone, looked.0, looked.1);
  }

  /** What the as-written lookup does with a phone that HubSpot does not
      know: the empty search answer is itself taken as the existing contact,
      and the contact is PATCHed at `.../contacts/None` instead of created. */
  lemma UnknownPhoneIsPatchedAtNone()
    ensures var search := Some(ListBody(Some([]), true));
      && ContactWrite(ExistingAsWritten(None, Some("+15550100"), None, search), map[]) ==
           Request("PATCH", ContactsUrl + "/None", map[], None)
      && ContactWrite(Existing(None, Some("+15550100"), None, search), map[]) == Request("POST", ContactsUrl, map[], None)
  {
  }

  /** The search body of `search_contacts`. */
  datatype SearchRequest = SearchRequest(query: string, limit: nat, properties: seq<string>)

  function ContactSearch(query: string): (r: SearchRequest)
    ensures r.query == query && r.limit == SearchLimit
    ensures r.properties == ["email", "firstname", "lastname", "phone", "company"]
  {
    SearchRequest(query, SearchLimit, ["email", "firstname", "lastname", "phone", "company"])
  }

  /** `sync_contacts_to_database`: the `results` of a `200` answer, or no
      contacts at all. */
  function SyncedContacts(answer: HttpAnswer<ListBody>): (r: seq<HubObject>)
    ensures r != [] ==> answer.Response? && answer.status == 200 && answer.body.results == Some(r)
    ensures answer.Response? && answer.status == 200 && answer.body.results.Some? ==> r == answer.body.results.value
    ensures !(answer.Response? && answer.status == 200) ==> r == []
  {
    match Found(answer)
    case Some(b) => if b.results.Some? then b.results.value else []
    case None => []
  }

  // ---------------------------------------------------------------- calls and deals

  /** The title of a logged call. */
  function CallTitle(disposition: string): string {
    "Call - " + disposition
  }

  /** The request of `log_call_activity`: the duration goes in
      milliseconds, as text; the time in milliseconds, as a number. */
  function CallLogRequest(contactId: string, durationSeconds: int, notes: string, disposition: string,
                          callTimeMillis: int, fromNumber: string): (r: Request)
    ensures r.verb == "POST" && r.url == CallsUrl && r.associateWith == Some(contactId)
    ensures r.properties.Keys == {"hs_timestamp", "hs_call_title", "hs_call_body", "hs_call_duration",
                                  "hs_call_from_number", "hs_call_to_number", "hs_call_status", "hs_call_disposition"}
    ensures r.properties["hs_call_duration"] == Text(IntToString(durationSeconds * 1000))
    ensures r.properties["hs_call_title"] == Text(CallTitle(disposition))
    ensures r.properties["hs_call_disposition"] == Text(disposition) && r.properties["hs_call_body"] == Text(notes)
    ensures r.properties["hs_timestamp"] == Number(callTimeMillis)
    ensures r.properties["hs_call_to_number"] == Text("") && r.properties["hs_call_status"] == Text(CompletedStatus)
    ensures r.properties["hs_call_from_number"] == Text(fromNumber)
  {
    Request("POST", CallsUrl, map[
      "hs_timestamp" := Number(callTimeMillis),
      "hs_call_title" := Text(CallTitle(disposition)),
      "hs_call_body" := Text(notes),
      "hs_call_duration" := Text(IntToString(durationSeconds * 1000)),
      "hs_call_from_number" := Text(fromNumber),
      "hs_call_to_number" := Text(""),
      "hs_call_status" := Text(CompletedStatus),
      "hs_call_disposition" := Text(disposition)], Some(contactId))
  }

  /** HubSpot reads back the duration and disposition the call was logged
      with: the duration text parses to the milliseconds, and the title is
      the fixed prefix followed by the disposition. */
  lemma CallLogReadsBack(contactId: string, durationSeconds: int, notes: string, disposition: string,
                         callTimeMillis: int, fromNumber: string)
    ensures var r := CallLogRequest(contactId, durationSeconds, notes, disposition, callTimeMillis, fromNumber);
      && ParseInt(r.properties["hs_call_duration"].text) == Some(durationSeconds * 1000)
      && r.properties["hs_call_title"].text[|"Call - "|..] == disposition
  {
    IntToStringRoundTrip(durationSeconds * 1000);
  }

  /** `log_call_activity`: the request and the logged object, or `None`. */
  function LogCallActivity(contactId: string, durationSeconds: int, notes: string, disposition: string,
                           callTimeMillis: int, fromNumber: string, answer: HttpAnswer<HubObject>)
    : (r: (Request, Option<HubObject>))
    ensures r.0 == CallLogRequest(contactId, durationSeconds, notes, disposition, callTimeMillis, fromNumber)
    ensures r.1.Some? <==> answer.Response? && (answer.status == 200 || answer.status == 201)
    ensures r.1.Some? ==> r.1.value == answer.body
  {
    (CallLogRequest(contactId, durationSeconds, notes, disposition, callTimeMillis, fromNumber), Accepted(answer))
  }

  /** The request of `create_deal`; the amount arrives as the text Python's
      `str` gives the float. */
  function DealRequest(name: string, amountText: string, contactId: string, stage: string): (r: Request)
    ensures r.verb == "POST" && r.url == DealsUrl && r.associateWith == Some(contactId)
    ensures r.properties == map["dealname" := Text(name), "amount" := Text(amountText), "dealstage" := Text(stage),
                                "pipeline" := Text(DefaultPipeline)]
  {
    Request("POST", DealsUrl, map["dealname" := Text(name), "amount" := Text(amountText), "dealstage" := Text(stage),
                                  "pipeline" := Text(DefaultPipeline)], Some(contactId))
  }
}
