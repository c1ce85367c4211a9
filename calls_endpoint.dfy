/** The call endpoints of `app/api/v1/endpoints/calls.py`: admission of
    outbound and parallel dials against the Do-Not-Call list, the call
    history and its statistics, and the two per-call actions guarded by
    ownership. */
module CallsEndpoint {
  import opened Wrappers
  import opened CallModel
  import opened ContactModel
  import opened UserModel
  import opened TwilioService

  const Completed := "completed"
  const SecondsPerDay := 86400

  /** A calendar date, counted in days from the epoch; its midnight is
      `d * SecondsPerDay` on the clock that stamps `started_at`. */
  type Day = int

  /** The `CallCreate` body. */
  datatype CallCreate = CallCreate(toNumber: string, campaignId: Option<nat>)

  /** The `CallUpdate` body. */
  datatype CallUpdate = CallUpdate(disposition: Option<string>, notes: Option<string>)

  /** The ownership rule shared by listing, updating and ending: admins
      reach every call, anyone else only the calls they placed. */
  predicate MayAccess(caller: User, c: Call) {
    caller.role == Admin || c.agentId == caller.id
  }

  // ---------------------------------------------------------------- dialing

  /** `make_outbound_call`: a number on the Do-Not-Call list is refused
      (400) before anything is written; otherwise the contact with that
      number is reused or created, then the dial is placed.  A failed dial
      answers 500 and leaves both the contact and the `initiated` row
      behind. */
  method MakeOutboundCall(client: TwilioClient, store: CallStore, contacts: ContactTable, dnc: DncTable,
                          caller: User, request: CallCreate, answer: ProviderAnswer, now: Timestamp)
    returns (r: Outcome<Call>)
    requires store.Valid() && contacts.Valid() && dnc.Valid() && caller.isActive
    modifies store, contacts
    ensures store.Valid() && contacts.Valid() && store.recordings == old(store.recordings)
    ensures Listed(dnc.rows, request.toNumber) ==>
      && r == Fail(400, "Number is on Do Not Call list")
      && store.calls == old(store.calls)
      && contacts.rows == old(contacts.rows) && contacts.nextId == old(contacts.nextId)
    ensures !Listed(dnc.rows, request.toNumber) ==>
      && contacts.rows == (if PhoneInUse(old(contacts.rows), request.toNumber) then old(contacts.rows)
                           else old(contacts.rows)[old(contacts.nextId) := NewContact(old(contacts.nextId), request.toNumber, now)])
      && ContactByPhone(contacts.rows, request.toNumber).Some?
      && var d := Dial(old(store.calls), client.phoneNumber, request.toNumber, caller.id, request.campaignId,
                       ContactByPhone(contacts.rows, request.toNumber), answer, now);
         && store.calls == d.0
         && (d.1.DialSuccess? ==> r == Ok(d.0[|old(store.calls)|]))
         && (d.1.DialFailure? ==> r == Fail(500, d.1.error))
    ensures r.Ok? ==> !Listed(dnc.rows, r.value.toNumber) && r.value.twilioCallSid.Some? && r.value in store.calls
  {
    if Listed(dnc.rows, request.toNumber) {
      return Fail(400, "Number is on Do Not Call list");
    }
    var contact := ContactByPhone(contacts.rows, request.toNumber);
    if contact.None? {
      var c := NewContact(contacts.nextId, request.toNumber, now);
      contacts.rows := contacts.rows[c.id := c];
      contacts.nextId := contacts.nextId + 1;
      assert contacts.rows[c.id].phoneNumber == request.toNumber;
    }
    contact := ContactByPhone(contacts.rows, request.toNumber);
    ghost var before := store.calls;
    var result := client.MakeOutboundCall(store, request.toNumber, caller.id, request.campaignId, contact, answer, now);
    if result.DialFailure? {
      return Fail(500, result.error);
    }
    r := Ok(store.calls[result.callId]);
    assert store.calls[|before|] in store.calls;
  }

  /** The numbers a parallel request dials: the request with every listed
      number removed, order and repetitions kept. */
  function Allowed(rows: map<nat, DncEntry>, numbers: seq<string>): seq<string> {
    Filter(numbers, n => !Listed(rows, n))
  }

  /** Every number dialed was requested and is not listed. */
  lemma AllowedNumbers(rows: map<nat, DncEntry>, numbers: seq<string>)
    ensures forall x :: x in Allowed(rows, numbers) ==> x in numbers && !Listed(rows, x)
    ensures forall x :: x in numbers && !Listed(rows, x) ==> x in Allowed(rows, numbers)
  {
  }

  /** Ids of the calls whose dial succeeded. */
  function SucceededIds(results: seq<DialResult>): set<nat> {
    set k | 0 <= k < |results| && results[k].DialSuccess? :: results[k].callId
  }

  /** `make_parallel_calls`: more than three numbers is refused (400)
      before anything is looked up; a request whose every number is listed
      is refused (400); otherwise the allowed numbers are dialed and the
      calls that succeeded are answered, in table order. */
  method MakeParallelCalls(client: TwilioClient, store: CallStore, dnc: DncTable, caller: User,
                           numbers: seq<string>, campaign: Option<nat>, answers: seq<ProviderAnswer>, now: Timestamp)
    returns (r: Outcome<seq<Call>>)
    requires store.Valid() && dnc.Valid() && caller.isActive
    requires |numbers| <= MaxParallel ==> |answers| == |Allowed(dnc.rows, numbers)|
    modifies store
    ensures store.Valid() && store.recordings == old(store.recordings)
    ensures |numbers| > MaxParallel ==> r == Fail(400, "Maximum 3 parallel calls allowed") && store.calls == old(store.calls)
    ensures |numbers| <= MaxParallel && Allowed(dnc.rows, numbers) == [] ==>
      r == Fail(400, "All numbers are on Do Not Call list") && store.calls == old(store.calls)
    ensures |numbers| <= MaxParallel && Allowed(dnc.rows, numbers) != [] ==>
      var d := DialEach(old(store.calls), client.phoneNumber, Allowed(dnc.rows, numbers), caller.id, campaign, answers, now);
      store.calls == d.0 && r == Ok(Filter(d.0, (c: Call) => c.id in SucceededIds(d.1)))
    ensures r.Ok? ==> forall c :: c in r.value ==>
      c in store.calls && c.twilioCallSid.Some? && c.toNumber in numbers && !Listed(dnc.rows, c.toNumber)
  {
    if |numbers| > MaxParallel {
      return Fail(400, "Maximum 3 parallel calls allowed");
    }
    var valid := Allowed(dnc.rows, numbers);
    if valid == [] {
      return Fail(400, "All numbers are on Do Not Call list");
    }
    ghost var before := store.calls;
    var results := client.MakeParallelCalls(store, valid, caller.id, campaign, answers, now);
    assert valid[..|answers|] == valid;
    var ids := SucceededIds(results);
    r := Ok(Filter(store.calls, (c: Call) => c.id in ids));
    SucceededAreAllowed(before, client.phoneNumber, dnc.rows, numbers, caller.id, campaign, answers, now);
  }

  /** A call a parallel request answers was dialed successfully, to one of
      the requested numbers, and that number is not listed. */
  lemma {:induction false} SucceededAreAllowed(calls: seq<Call>, fromNumber: string, rows: map<nat, DncEntry>, numbers: seq<string>,
                            agent: nat, campaign: Option<nat>, answers: seq<ProviderAnswer>, now: Timestamp)
    requires forall i :: 0 <= i < |calls| ==> calls[i].id == i
    requires |answers| == |Allowed(rows, numbers)|
    ensures var d := DialEach(calls, fromNumber, Allowed(rows, numbers), agent, campaign, answers, now);
      forall c :: c in Filter(d.0, (c: Call) => c.id in SucceededIds(d.1)) ==>
        c.twilioCallSid.Some? && c.toNumber in numbers && !Listed(rows, c.toNumber)
  {
    var valid := Allowed(rows, numbers);
    AllowedNumbers(rows, numbers);
    var after, results := DialEachFacts(calls, fromNumber, valid, agent, campaign, answers, now);
    SucceededRows(|calls|, after, results, valid, rows, numbers);
    var answered := Filter(after, (c: Call) => c.id in SucceededIds(results));
    assert forall c :: c in answered ==> c in after && c.id in SucceededIds(results);
  }

  /** The facts about `DialEach` the argument needs, on named results. */
  lemma {:induction false} DialEachFacts(calls: seq<Call>, fromNumber: string, numbers: seq<string>, agent: nat,
                      campaign: Option<nat>, answers: seq<ProviderAnswer>, now: Timestamp)
    returns (after: seq<Call>, results: seq<DialResult>)
    requires |answers| == |numbers|
    requires forall i :: 0 <= i < |calls| ==> calls[i].id == i
    ensures (after, results) == DialEach(calls, fromNumber, numbers, agent, campaign, answers, now)
    ensures |after| == |calls| + |numbers| && |results| == |numbers|
    ensures forall j :: 0 <= j < |after| ==> after[j].id == j
    ensures forall j :: |calls| <= j < |after| ==> after[j].toNumber == numbers[j - |calls|]
    ensures forall k :: 0 <= k < |results| && results[k].DialSuccess? ==>
      results[k].callId == |calls| + k && after[|calls| + k].twilioCallSid == Some(results[k].callSid)
  {
    DialEachResults(calls, fromNumber, numbers, agent, campaign, answers, now);
    after, results := DialEach(calls, fromNumber, numbers, agent, campaign, answers, now).0,
                      DialEach(calls, fromNumber, numbers, agent, campaign, answers, now).1;
    assert forall i :: 0 <= i < |calls| ==> after[i] == after[..|calls|][i];
  }

  /** The position-level argument behind `SucceededAreAllowed`: a row
      whose id a success reports is the row that success dialed. */
  lemma SucceededRows(base: nat, after: seq<Call>, results: seq<DialResult>, valid: seq<string>,
                      rows: map<nat, DncEntry>, numbers: seq<string>)
    requires |after| == base + |valid| && |results| == |valid|
    requires forall j :: 0 <= j < |after| ==> after[j].id == j
    requires forall j :: base <= j < |after| ==> after[j].toNumber == valid[j - base]
    requires forall k :: 0 <= k < |results| && results[k].DialSuccess? ==>
      results[k].callId == base + k && after[base + k].twilioCallSid == Some(results[k].callSid)
    requires forall x :: x in valid ==> x in numbers && !Listed(rows, x)
    ensures forall c :: c in after && c.id in SucceededIds(results) ==>
      c.twilioCallSid.Some? && c.toNumber in numbers && !Listed(rows, c.toNumber)
  {
    forall c | c in after && c.id in SucceededIds(results)
      ensures c.twilioCallSid.Some? && c.toNumber in numbers && !Listed(rows, c.toNumber)
    {
      var k :| 0 <= k < |results| && results[k].DialSuccess? && results[k].callId == c.id;
      var j :| 0 <= j < |after| && after[j] == c;
      assert j == base + k;
      assert valid[k] in valid;
    }
  }

  // ---------------------------------------------------------------- history

  /** The optional filters of the history and of the statistics. */
  datatype CallQuery = CallQuery(status: Option<string>, dateFrom: Option<Day>, dateTo: Option<Day>)

  /** The date bounds as the queries write them: `started_at` compared
      with the bare dates, which the database widens to their midnight. */
  predicate InDatesAsWritten(c: Call, dateFrom: Option<Day>, dateTo: Option<Day>) {
    && (dateFrom.None? || c.startedAt >= dateFrom.value * SecondsPerDay)
    && (dateTo.None? || c.startedAt <= dateTo.value * SecondsPerDay)
  }

  /** The date bounds as intended: both days inclusive, whole days. */
  predicate InDates(c: Call, dateFrom: Option<Day>, dateTo: Option<Day>) {
    && (dateFrom.None? || c.startedAt >= dateFrom.value * SecondsPerDay)
    && (dateTo.None? || c.startedAt < (dateTo.value + 1) * SecondsPerDay)
  }

  /** The day a timestamp falls on. */
  function DayOf(t: Timestamp): Day {
    t / SecondsPerDay
  }

  /** The intended bounds keep exactly the calls started on a day between
      the two dates, both included. */
  lemma InDatesMeansDays(c: Call, dateFrom: Option<Day>, dateTo: Option<Day>)
    ensures InDates(c, dateFrom, dateTo) <==>
      (dateFrom.None? || dateFrom.value <= DayOf(c.startedAt)) && (dateTo.None? || DayOf(c.startedAt) <= dateTo.value)
  {
    var t := c.startedAt;
    var d := DayOf(t);
    assert d * SecondsPerDay <= t < (d + 1) * SecondsPerDay;
    if dateFrom.Some? {
      var f := dateFrom.value;
      if f <= d {
        assert f * SecondsPerDay <= d * SecondsPerDay;
      } else {
        assert (d + 1) * SecondsPerDay <= f * SecondsPerDay;
      }
    }
    if dateTo.Some? {
      var e := dateTo.value;
      if d <= e {
        assert (d + 1) * SecondsPerDay <= (e + 1) * SecondsPerDay;
      } else {
        assert (e + 1) * SecondsPerDay <= d * SecondsPerDay;
      }
    }
  }

  /** As written, a call placed during the morning of `date_to` is left
      out, though the day is meant to be included. */
  lemma DateToDropsItsOwnDay(c: Call, day: Day)
    requires c.startedAt == day * SecondsPerDay + 3600
    ensures DayOf(c.startedAt) == day
    ensures !InDatesAsWritten(c, None, Some(day)) && InDates(c, None, Some(day))
  {
  }

  /** The bounds as written keep exactly the calls the intended bounds keep,
      except those started after midnight on the `date_to` day. */
  lemma AsWrittenDropsOnlyDateToDay(c: Call, dateFrom: Option<Day>, dateTo: Option<Day>)
    ensures InDatesAsWritten(c, dateFrom, dateTo) <==>
      InDates(c, dateFrom, dateTo) &&
      !(dateTo.Some? && DayOf(c.startedAt) == dateTo.value && c.startedAt % SecondsPerDay != 0)
  {
    var t := c.startedAt;
    var d := DayOf(t);
    assert d * SecondsPerDay <= t < (d + 1) * SecondsPerDay;
    assert t == d * SecondsPerDay + t % SecondsPerDay;
    if dateTo.Some? {
      var e := dateTo.value;
      if d < e {
        assert (d + 1) * SecondsPerDay <= e * SecondsPerDay;
      } else if d > e {
        assert (e + 1) * SecondsPerDay <= d * SecondsPerDay;
      }
    }
  }

  /** One call passes the history's filters, with the date bounds as the
      queries write them. */
  predicate Selects(caller: User, q: CallQuery, c: Call) {
    && MayAccess(caller, c)
    && (!Truthy(q.status) || c.status == q.status.value)
    && InDatesAsWritten(c, q.dateFrom, q.dateTo)
  }

  /** The filtered history, in table order, before paging. */
  function Selected(calls: seq<Call>, caller: User, q: CallQuery): seq<Call> {
    Filter(calls, c => Selects(caller, q, c))
  }

  /** `get_calls`: the filtered history, `skip` rows skipped and at most
      `limit` kept. */
  function GetCalls(calls: seq<Call>, caller: User, q: CallQuery, skip: nat, limit: nat): (r: seq<Call>)
    ensures |r| <= limit
    ensures forall c :: c in r ==> c in calls && MayAccess(caller, c) && InDatesAsWritten(c, q.dateFrom, q.dateTo)
    ensures forall c :: c in r && Truthy(q.status) ==> c.status == q.status.value
    ensures caller.role != Admin ==> forall c :: c in r ==> c.agentId == caller.id
    ensures skip == 0 && |calls| <= limit ==> forall c :: c in calls && Selects(caller, q, c) ==> c in r
    ensures var s := Selected(calls, caller, q);
      var from := if skip < |s| then skip else |s|;
      r == s[from..if limit < |s| - from then from + limit else |s|]
  {
    var s := Selected(calls, caller, q);
    var from := if skip < |s| then skip else |s|;
    var to := if limit < |s| - from then from + limit else |s|;
    assert forall c :: c in s[from..to] ==> c in s;
    s[from..to]
  }

  /** The route itself: the query parameters `skip` and `limit` are plain
      integers, and a negative one reaches the database's OFFSET or LIMIT,
      which rejects it; nothing catches that error, so the answer is a 500.
      Otherwise the page is that of `GetCalls`. */
  function GetCallsRoute(calls: seq<Call>, caller: User, q: CallQuery, skip: int, limit: int): (r: Outcome<seq<Call>>)
    ensures r.Ok? <==> skip >= 0 && limit >= 0
    ensures r.Fail? ==> r == Fail(500, InternalError)
    ensures r.Ok? ==> |r.value| <= limit && forall c :: c in r.value ==> c in calls && MayAccess(caller, c)
    ensures r.Ok? ==> r.value == GetCalls(calls, caller, q, skip, limit)
  {
    if skip < 0 || limit < 0 then Fail(500, InternalError)
    else Ok(GetCalls(calls, caller, q, skip, limit))
  }

  /** Paging through the history page by page lists every selected call
      once, in order: the page at `skip` of `a` calls followed by the page
      at `skip + a` of `b` calls is the page at `skip` of `a + b` calls. */
  lemma PagesTile(calls: seq<Call>, caller: User, q: CallQuery, skip: nat, a: nat, b: nat)
    ensures GetCalls(calls, caller, q, skip, a) + GetCalls(calls, caller, q, skip + a, b) ==
            GetCalls(calls, caller, q, skip, a + b)
  {
    var s := Selected(calls, caller, q);
    var n := |s|;
    var i := if skip < n then skip else n;
    var j := if skip + a < n then skip + a else n;
    var k := if skip + a + b < n then skip + a + b else n;
    assert GetCalls(calls, caller, q, skip, a) == s[i..j];
    assert GetCalls(calls, caller, q, skip + a, b) == s[j..k];
    assert GetCalls(calls, caller, q, skip, a + b) == s[i..k];
    assert s[i..j] + s[j..k] == s[i..k];
  }

  // ---------------------------------------------------------------- statistics

  /** A float quotient kept exact, or the 0 the code answers when the
      denominator is 0. */
  datatype Ratio = Zero | Quotient(numerator: int, denominator: nat)

  /** The integer parts of `CallStats`, with the two rates as exact ratios. */
  datatype CallStats = CallStats(totalCalls: nat, answeredCalls: nat, totalDuration: int,
                                 connectRate: Ratio, averageDuration: Ratio)

  /** `call.duration or 0`. */
  function DurationOrZero(c: Call): int {
    if c.duration.Some? then c.duration.value else 0
  }

  function SumDurations(calls: seq<Call>): int {
    if calls == [] then 0 else SumDurations(calls[..|calls| - 1]) + DurationOrZero(calls[|calls| - 1])
  }

  /** `get_call_stats`: counts and the duration sum over the calls the
      history would list with no status filter; `answered_calls` counts
      status `completed`.  A rate with a zero denominator is 0. */
  function GetCallStats(calls: seq<Call>, caller: User, dateFrom: Option<Day>, dateTo: Option<Day>): (r: CallStats)
    ensures r.totalCalls == |Selected(calls, caller, CallQuery(None, dateFrom, dateTo))|
    ensures r.answeredCalls == |Selected(calls, caller, CallQuery(Some(Completed), dateFrom, dateTo))|
    ensures r.totalDuration == SumDurations(Selected(calls, caller, CallQuery(None, dateFrom, dateTo)))
    ensures r.answeredCalls <= r.totalCalls
    ensures r.totalCalls == 0 ==> r.totalDuration == 0 && r.connectRate == Zero && r.averageDuration == Zero
    ensures r.connectRate.Quotient? <==> r.totalCalls > 0
    ensures r.connectRate.Quotient? ==> r.connectRate == Quotient(100 * r.answeredCalls, r.totalCalls)
    ensures r.averageDuration.Quotient? <==> r.answeredCalls > 0
    ensures r.averageDuration.Quotient? ==> r.averageDuration == Quotient(r.totalDuration, r.answeredCalls)
  {
    var all := Selected(calls, caller, CallQuery(None, dateFrom, dateTo));
    var answered := Selected(calls, caller, CallQuery(Some(Completed), dateFrom, dateTo));
    CompletedAreFewer(calls, caller, dateFrom, dateTo);
    var total := |all|;
    var duration := SumDurations(all);
    CallStats(total, |answered|, duration,
              if total > 0 then Quotient(100 * |answered|, total) else Zero,
              if |answered| > 0 then Quotient(duration, |answered|) else Zero)
  }

  /** Answered calls are among the calls counted. */
  lemma {:induction false} CompletedAreFewer(calls: seq<Call>, caller: User, dateFrom: Option<Day>, dateTo: Option<Day>)
    ensures |Selected(calls, caller, CallQuery(Some(Completed), dateFrom, dateTo))|
         <= |Selected(calls, caller, CallQuery(None, dateFrom, dateTo))|
  {
    if calls != [] {
      CompletedAreFewer(calls[1..], caller, dateFrom, dateTo);
    }
  }

  lemma {:induction false} SumDurationsAppend(a: seq<Call>, b: seq<Call>)
    ensures SumDurations(a + b) == SumDurations(a) + SumDurations(b)
    decreases |b|
  {
    if b == [] {
      assert a + b == a;
    } else {
      var n := |b| - 1;
      SumDurationsAppend(a, b[..n]);
      assert (a + b)[..|a + b| - 1] == a + b[..n];
    }
  }

  /** Statistics over two stretches of history add up: the counts and the
      duration sum of the whole are the sums of those of the parts. */
  lemma StatsAdd(a: seq<Call>, b: seq<Call>, caller: User, dateFrom: Option<Day>, dateTo: Option<Day>)
    ensures var whole := GetCallStats(a + b, caller, dateFrom, dateTo);
      var x := GetCallStats(a, caller, dateFrom, dateTo);
      var y := GetCallStats(b, caller, dateFrom, dateTo);
      && whole.totalCalls == x.totalCalls + y.totalCalls
      && whole.answeredCalls == x.answeredCalls + y.answeredCalls
      && whole.totalDuration == x.totalDuration + y.totalDuration
  {
    FilterAppend(a, b, c => Selects(caller, CallQuery(None, dateFrom, dateTo), c));
    FilterAppend(a, b, c => Selects(caller, CallQuery(Some(Completed), dateFrom, dateTo), c));
    SumDurationsAppend(Selected(a, caller, CallQuery(None, dateFrom, dateTo)),
                       Selected(b, caller, CallQuery(None, dateFrom, dateTo)));
  }

  /** The statistics count exactly what the history lists when it is not
      paged. */
  lemma StatsCountTheHistory(calls: seq<Call>, caller: User, dateFrom: Option<Day>, dateTo: Option<Day>)
    ensures GetCallStats(calls, caller, dateFrom, dateTo).totalCalls
         == |GetCalls(calls, caller, CallQuery(None, dateFrom, dateTo), 0, |calls|)|
    ensures GetCallStats(calls, caller, dateFrom, dateTo).answeredCalls
         == |GetCalls(calls, caller, CallQuery(Some(Completed), dateFrom, dateTo), 0, |calls|)|
  {
    var all := Selected(calls, caller, CallQuery(None, dateFrom, dateTo));
    var answered := Selected(calls, caller, CallQuery(Some(Completed), dateFrom, dateTo));
    assert all[0..|all|] == all;
    assert answered[0..|answered|] == answered;
  }

  // ---------------------------------------------------------------- per-call actions

  /** The call after `update_call`: each of disposition and notes is
      replaced only by a truthy new value; every other column is kept. */
  function Annotated(c: Call, u: CallUpdate): (r: Call)
    ensures r == c.(disposition := r.disposition, notes := r.notes)
    ensures r.disposition == Or(u.disposition, c.disposition) && r.notes == Or(u.notes, c.notes)
  {
    c.(disposition := if Truthy(u.disposition) then u.disposition else c.disposition,
       notes := if Truthy(u.notes) then u.notes else c.notes)
  }

  /** Sending the same update twice changes nothing more. */
  lemma AnnotatedIdempotent(c: Call, u: CallUpdate)
    ensures Annotated(Annotated(c, u), u) == Annotated(c, u)
  {
  }

  /** An update with empty values is a no-op: there is no way to clear a
      disposition or notes once set. */
  lemma AnnotatedCannotClear(c: Call, d: Option<string>, n: Option<string>)
    requires !Truthy(d) && !Truthy(n)
    ensures Annotated(c, CallUpdate(d, n)) == c
  {
  }

  /** `update_call`: 404 for an unknown id, then 403 for a caller who may
      not reach the call; otherwise the call is annotated. */
  method UpdateCall(store: CallStore, caller: User, callId: nat, u: CallUpdate) returns (r: Outcome<Call>)
    requires store.Valid() && caller.isActive
    modifies store
    ensures store.Valid() && store.recordings == old(store.recordings)
    ensures callId >= |old(store.calls)| ==> r == Fail(404, "Call not found") && store.calls == old(store.calls)
    ensures callId < |old(store.calls)| && !MayAccess(caller, old(store.calls)[callId]) ==>
      r == Fail(403, "Not authorized to update this call") && store.calls == old(store.calls)
    ensures callId < |old(store.calls)| && MayAccess(caller, old(store.calls)[callId]) ==>
      && store.calls == old(store.calls)[callId := Annotated(old(store.calls)[callId], u)]
      && r == Ok(store.calls[callId])
  {
    if callId >= |store.calls| {
      return Fail(404, "Call not found");
    }
    var call := store.calls[callId];
    if !MayAccess(caller, call) {
      return Fail(403, "Not authorized to update this call");
    }
    if Truthy(u.disposition) {
      call := call.(disposition := u.disposition);
    }
    if Truthy(u.notes) {
      call := call.(notes := u.notes);
    }
    store.calls := store.calls[callId := call];
    r := Ok(call);
  }

  /** `end_call`: 404, then 403, as for `update_call`; then the provider is
      asked to complete the call (`providerAccepted`), and a refusal is
      500.  Nothing is written. */
  method EndCall(client: TwilioClient, store: CallStore, caller: User, callId: nat, providerAccepted: bool)
    returns (r: Outcome<string>)
    requires caller.isActive
    ensures callId >= |store.calls| ==> r == Fail(404, "Call not found")
    ensures callId < |store.calls| && !MayAccess(caller, store.calls[callId]) ==>
      r == Fail(403, "Not authorized to end this call")
    ensures callId < |store.calls| && MayAccess(caller, store.calls[callId]) ==>
      r == if providerAccepted then Ok("call ended") else Fail(500, "Failed to end call")
  {
    if callId >= |store.calls| {
      return Fail(404, "Call not found");
    }
    var call := store.calls[callId];
    if !MayAccess(caller, call) {
      return Fail(403, "Not authorized to end this call");
    }
    var ok := client.EndCall(call.twilioCallSid, providerAccepted);
    if !ok {
      return Fail(500, "Failed to end call");
    }
    r := Ok("call ended");
  }

  /** Every call the history lists to a caller is one that caller may
      update and end. */
  lemma ListedCallsAreReachable(calls: seq<Call>, caller: User, q: CallQuery, skip: nat, limit: nat, c: Call)
    requires c in GetCalls(calls, caller, q, skip, limit)
    ensures MayAccess(caller, c)
  {
  }
}
