/** `TwilioService`: the call-record lifecycle around the telephony provider
    (`app/services/twilio_service.py`).  The provider's REST client is an
    oracle: each dial is given the provider's answer as a parameter.  The
    code applies every status it is told, with no forward-only check, and
    dials the numbers of a parallel request one after another. */
module TwilioService {
  import opened Wrappers
  import opened CallModel

  const VoiceWebhook := "/api/v1/calls/voice-webhook"
  const IvrHandler := "/api/v1/calls/ivr-handler"
  const DialComplete := "/api/v1/calls/dial-complete"
  const VoicemailComplete := "/api/v1/calls/voicemail-complete"
  const AgentClient := "agent-client"
  const Voice := "alice"
  const Welcome := "Thank you for calling. Press 1 to speak with an agent. Press 2 to leave a message."
  const Connecting := "Connecting you to an agent. Please wait."
  const LeaveMessage := "Please leave your message after the beep. Press any key when finished."
  const InvalidSelection := "Invalid selection. Please try again."
  /** A parallel request dials at most this many numbers. */
  const MaxParallel := 3

  /** The statuses after which `ended_at` is stamped. */
  predicate IsTerminal(status: string) {
    status == "completed" || status == "failed" || status == "busy" || status == "no-answer"
  }

  /** What the provider's `calls.create` did: created a call, or raised. */
  datatype ProviderAnswer = Created(sid: string, status: string) | Raised(error: string)

  /** The dictionary `make_outbound_call` returns. */
  datatype DialResult = DialSuccess(callSid: string, callId: nat, status: string) | DialFailure(error: string)

  /** Stands for `str(e)` of the `IntegrityError` raised when the provider
      hands back a SID that is already stored (the unique index rejects the
      second commit); the full text comes from the database driver and is
      not modelled, only its leading words. */
  const DuplicateSidError := "duplicate key value violates unique constraint"

  /** One outbound dial: the record is stored first, with status
      `initiated` and no SID; the SID is attached only once the provider has
      answered and the second commit succeeds.  On any failure the record
      stays behind, `initiated` and without a SID. */
  function Dial(calls: seq<Call>, fromNumber: string, to: string, agent: nat, campaign: Option<nat>,
                contact: Option<nat>, answer: ProviderAnswer, now: Timestamp): (r: (seq<Call>, DialResult))
    ensures |r.0| == |calls| + 1 && r.0[..|calls|] == calls
    ensures var c := r.0[|calls|];
      && c.id == |calls| && c.status == Initiated && c.direction == Outbound
      && c.fromNumber == fromNumber && c.toNumber == to && c.agentId == agent
      && c.campaignId == campaign && c.contactId == contact && c.startedAt == now
      && c.answeredAt.None? && c.endedAt.None? && c.duration == Some(0)
    ensures r.1.DialSuccess? <==> answer.Created? && !SidInUse(calls, answer.sid)
    ensures r.1.DialSuccess? ==>
      r.1.callId == |calls| && r.1.callSid == answer.sid && r.1.status == answer.status &&
      r.0[|calls|].twilioCallSid == Some(answer.sid)
    ensures r.1.DialFailure? ==> r.0[|calls|].twilioCallSid.None?
    ensures answer.Raised? ==> r.1 == DialFailure(answer.error)
  {
    var record := NewCall(|calls|, agent, contact, campaign, Outbound, fromNumber, to, now);
    match answer
    case Raised(e) => (calls + [record], DialFailure(e))
    case Created(sid, st) =>
      if SidInUse(calls, sid) then (calls + [record], DialFailure(DuplicateSidError))
      else (calls + [record.(twilioCallSid := Some(sid))], DialSuccess(sid, |calls|, st))
  }

  /** Dialing `numbers` one after another, with no contact attached, the
      k-th dial getting the k-th provider answer. */
  function DialEach(calls: seq<Call>, fromNumber: string, numbers: seq<string>, agent: nat,
                    campaign: Option<nat>, answers: seq<ProviderAnswer>, now: Timestamp): (r: (seq<Call>, seq<DialResult>))
    requires |answers| == |numbers|
    ensures |r.1| == |numbers| && |r.0| == |calls| + |numbers| && r.0[..|calls|] == calls
    ensures forall j :: |calls| <= j < |r.0| ==>
      r.0[j].id == j && r.0[j].toNumber == numbers[j - |calls|] && r.0[j].contactId.None? &&
      r.0[j].status == Initiated && r.0[j].agentId == agent && r.0[j].campaignId == campaign
    decreases |numbers|
  {
    if numbers == [] then (calls, [])
    else
      var n := |numbers| - 1;
      var (before, results) := DialEach(calls, fromNumber, numbers[..n], agent, campaign, answers[..n], now);
      var (after, last) := Dial(before, fromNumber, numbers[n], agent, campaign, None, answers[n], now);
      assert after[..|before|] == before;
      assert forall j :: |calls| <= j < |before| ==>
        after[j] == before[j] && numbers[..n][j - |calls|] == numbers[j - |calls|];
      (after, results + [last])
  }

  /** The k-th result describes the k-th new row: a success carries that
      row's id and the SID stored on it, a failure leaves the row without a
      SID, and a provider error is always a failure. */
  lemma {:induction false} DialEachResults(calls: seq<Call>, fromNumber: string, numbers: seq<string>, agent: nat,
                                           campaign: Option<nat>, answers: seq<ProviderAnswer>, now: Timestamp)
    requires |answers| == |numbers|
    ensures var r := DialEach(calls, fromNumber, numbers, agent, campaign, answers, now);
      forall k :: 0 <= k < |numbers| ==>
        && (r.1[k].DialSuccess? ==> r.1[k].callId == |calls| + k && r.0[|calls| + k].twilioCallSid == Some(r.1[k].callSid))
        && (r.1[k].DialFailure? ==> r.0[|calls| + k].twilioCallSid.None?)
        && (answers[k].Raised? ==> r.1[k].DialFailure?)
    decreases |numbers|
  {
    if numbers != [] {
      var n := |numbers| - 1;
      var (before, results) := DialEach(calls, fromNumber, numbers[..n], agent, campaign, answers[..n], now);
      var (after, last) := Dial(before, fromNumber, numbers[n], agent, campaign, None, answers[n], now);
      DialEachResults(calls, fromNumber, numbers[..n], agent, campaign, answers[..n], now);
      var r := DialEach(calls, fromNumber, numbers, agent, campaign, answers, now);
      assert r == (after, results + [last]);
      forall k | 0 <= k < |numbers|
        ensures r.1[k].DialSuccess? ==> r.1[k].callId == |calls| + k && r.0[|calls| + k].twilioCallSid == Some(r.1[k].callSid)
        ensures r.1[k].DialFailure? ==> r.0[|calls| + k].twilioCallSid.None?
        ensures answers[k].Raised? ==> r.1[k].DialFailure?
      {
        if k < n {
          assert r.1[k] == results[k] && answers[..n][k] == answers[k];
          assert r.0[|calls| + k] == after[..|before|][|calls| + k] == before[|calls| + k];
        } else {
          assert r.1[k] == last;
        }
      }
    }
  }

  /** Dialing one more number extends the earlier dials by one `Dial`. */
  lemma DialEachStep(calls: seq<Call>, fromNumber: string, numbers: seq<string>, agent: nat,
                     campaign: Option<nat>, answers: seq<ProviderAnswer>, now: Timestamp, i: nat)
    requires |answers| == |numbers| && i < |numbers|
    ensures var (before, results) := DialEach(calls, fromNumber, numbers[..i], agent, campaign, answers[..i], now);
      var (after, last) := Dial(before, fromNumber, numbers[i], agent, campaign, None, answers[i], now);
      DialEach(calls, fromNumber, numbers[..i + 1], agent, campaign, answers[..i + 1], now) == (after, results + [last])
  {
    assert numbers[..i + 1][..i] == numbers[..i] && answers[..i + 1][..i] == answers[..i];
  }

  /** The call as `update_call_status` leaves it: the status is overwritten
      whatever it was; `answered` stamps `answered_at` (again, if it was
      already set); a terminal status stamps `ended_at` and, if the call was
      answered, sets `duration` to the whole seconds between the two stamps. */
  function StatusApplied(c: Call, status: string, now: Timestamp): (r: Call)
    ensures r.status == status
    ensures status == Answered ==> r.answeredAt == Some(now) && r.endedAt == c.endedAt && r.duration == c.duration
    ensures IsTerminal(status) ==> r.answeredAt == c.answeredAt && r.endedAt == Some(now)
    ensures IsTerminal(status) && c.answeredAt.Some? ==> r.duration == Some(now - c.answeredAt.value)
    ensures IsTerminal(status) && c.answeredAt.None? ==> r.duration == c.duration
    ensures status != Answered && !IsTerminal(status) ==> r == c.(status := status)
    ensures r == c.(status := r.status, answeredAt := r.answeredAt, endedAt := r.endedAt, duration := r.duration)
  {
    var c1 := c.(status := status);
    if status == Answered then c1.(answeredAt := Some(now))
    else if IsTerminal(status) then
      var c2 := c1.(endedAt := Some(now));
      if c2.answeredAt.Some? then c2.(duration := Some(now - c2.answeredAt.value)) else c2
    else c1
  }

  /** The provider's status sequence for a normal call, applied to a fresh
      record: `answered_at` and `ended_at` are each stamped once and the
      duration is the time between them. */
  lemma NormalLifecycle(c: Call, t1: Timestamp, t2: Timestamp, t3: Timestamp)
    requires c.status == Initiated && c.answeredAt.None? && c.endedAt.None?
    ensures var done := StatusApplied(StatusApplied(StatusApplied(c, "ringing", t1), Answered, t2), "completed", t3);
      done.status == "completed" && done.answeredAt == Some(t2) && done.endedAt == Some(t3) &&
      done.duration == Some(t3 - t2)
  {
  }

  /** No forward-only check: a `ringing` delivered after `completed` takes
      the call back to `ringing`. */
  lemma StatusCanRegress(c: Call, t1: Timestamp, t2: Timestamp)
    ensures StatusApplied(StatusApplied(c, "completed", t1), "ringing", t2).status == "ringing"
    ensures StatusApplied(StatusApplied(c, "completed", t1), "ringing", t2).endedAt == Some(t1)
  {
  }

  /** A second `answered` overwrites the first answer time, and a second
      terminal event moves `ended_at` and recomputes the duration. */
  lemma RepeatedEventsOverwrite(c: Call, t1: Timestamp, t2: Timestamp, t3: Timestamp)
    ensures StatusApplied(StatusApplied(c, Answered, t1), Answered, t2).answeredAt == Some(t2)
    ensures var twice := StatusApplied(StatusApplied(StatusApplied(c, Answered, t1), "busy", t2), "completed", t3);
      twice.endedAt == Some(t3) && twice.duration == Some(t3 - t1)
  {
  }

  /** A call that never reached `answered` keeps its default duration. */
  lemma UnansweredKeepsDuration(c: Call, status: string, now: Timestamp)
    requires c.answeredAt.None? && IsTerminal(status)
    ensures StatusApplied(c, status, now).duration == c.duration
    ensures StatusApplied(c, status, now).endedAt == Some(now)
  {
  }

  /** The status webhooks of one call, delivered in order: each is a status
      and the time it was handled. */
  function Replay(c: Call, events: seq<(string, Timestamp)>): Call
    decreases |events|
  {
    if events == [] then c else Replay(StatusApplied(c, events[0].0, events[0].1), events[1..])
  }

  /** The k-th event is the last `answered` one. */
  predicate LastAnswered(events: seq<(string, Timestamp)>, k: int) {
    0 <= k < |events| && events[k].0 == Answered && forall j :: k < j < |events| ==> events[j].0 != Answered
  }

  /** Whatever the order of delivery, the last event's status is the one
      kept, and `answered_at` is the time of the last `answered` event, or
      the old one when none came. */
  lemma LastEventWins(c: Call, events: seq<(string, Timestamp)>)
    ensures events != [] ==> Replay(c, events).status == events[|events| - 1].0
    ensures (forall k :: 0 <= k < |events| ==> events[k].0 != Answered) ==> Replay(c, events).answeredAt == c.answeredAt
    ensures forall k :: LastAnswered(events, k) ==> Replay(c, events).answeredAt == Some(events[k].1)
  {
    LastStatusKept(c, events);
    forall k | LastAnswered(events, k)
      ensures Replay(c, events).answeredAt == Some(events[k].1)
    {
      LastAnswerKept(c, events, k);
    }
    if forall k :: 0 <= k < |events| ==> events[k].0 != Answered {
      NoAnswerKept(c, events);
    }
  }

  lemma {:induction false} LastStatusKept(c: Call, events: seq<(string, Timestamp)>)
    ensures events != [] ==> Replay(c, events).status == events[|events| - 1].0
    decreases |events|
  {
    if |events| > 1 {
      LastStatusKept(StatusApplied(c, events[0].0, events[0].1), events[1..]);
    }
  }

  lemma {:induction false} NoAnswerKept(c: Call, events: seq<(string, Timestamp)>)
    requires forall k :: 0 <= k < |events| ==> events[k].0 != Answered
    ensures Replay(c, events).answeredAt == c.answeredAt
    decreases |events|
  {
    if events != [] {
      assert events[0].0 != Answered;
      var rest := events[1..];
      assert forall k :: 0 <= k < |rest| ==> rest[k] == events[k + 1];
      NoAnswerKept(StatusApplied(c, events[0].0, events[0].1), rest);
    }
  }

  lemma {:induction false} LastAnswerKept(c: Call, events: seq<(string, Timestamp)>, k: int)
    requires LastAnswered(events, k)
    ensures Replay(c, events).answeredAt == Some(events[k].1)
    decreases |events|
  {
    var next := StatusApplied(c, events[0].0, events[0].1);
    var rest := events[1..];
    if k > 0 {
      assert rest[k - 1] == events[k];
      assert forall j :: k - 1 < j < |rest| ==> rest[j] == events[j + 1];
      LastAnswerKept(next, rest, k - 1);
    } else {
      assert forall j :: 0 <= j < |rest| ==> rest[j] == events[j + 1];
      NoAnswerKept(next, rest);
    }
  }

  /** The TwiML verbs the IVR emits, without their XML serialisation. */
  datatype Verb =
    | Gather(numDigits: nat, action: string, httpMethod: string, timeout: nat, prompt: string, voice: string)
    | Say(text: string, voice: string)
    | DialClient(action: string, timeout: nat, record: string, client: string)
    | Record(action: string, httpMethod: string, maxLength: nat, finishOnKey: string)
    | Redirect(url: string)

  predicate DialsAgent(r: seq<Verb>) {
    exists k :: 0 <= k < |r| && r[k].DialClient? && r[k].client == AgentClient
  }

  predicate Records(r: seq<Verb>) {
    exists k :: 0 <= k < |r| && r[k].Record? && r[k].maxLength == 120 && r[k].finishOnKey == "*"
  }

  /** What the caller hears first after pressing a key: the agent prompt for
      `1`, the voicemail prompt for `2`, the retry message otherwise. */
  function Announcement(digits: string): string {
    if digits == "1" then Connecting else if digits == "2" then LeaveMessage else InvalidSelection
  }

  /** `generate_ivr_response`: the menu on no input, an agent on `1`,
      voicemail on `2`, and a retry on anything else.  Every response ends in
      a verb that keeps the caller engaged: a dial, a recording, or a
      redirect back to the menu. */
  function IvrResponse(digits: Option<string>): (r: seq<Verb>)
    ensures |r| > 0
    ensures DialsAgent(r) <==> digits == Some("1")
    ensures Records(r) <==> digits == Some("2")
    ensures r[0].Gather? <==> !Truthy(digits)
    ensures r[0].Gather? ==> r[0].numDigits == 1 && r[0].action == IvrHandler
    ensures r[|r| - 1].Redirect? <==> digits != Some("1") && digits != Some("2")
    ensures r[|r| - 1].Redirect? ==> r[|r| - 1].url == VoiceWebhook
    ensures |r| == 2 && forall k :: 0 <= k < |r| && r[k].Say? ==> r[k].voice == Voice
    ensures !Truthy(digits) ==> r[0] == Gather(1, IvrHandler, "POST", 5, Welcome, Voice)
    ensures Truthy(digits) ==> r[0].Say? && r[0].text == Announcement(digits.value)
    ensures digits == Some("1") ==> r[1] == DialClient(DialComplete, 30, "record-from-answer", AgentClient)
    ensures digits == Some("2") ==> r[1] == Record(VoicemailComplete, "POST", 120, "*")
  {
    if !Truthy(digits) then
      [Gather(1, IvrHandler, "POST", 5, Welcome, Voice), Redirect(VoiceWebhook)]
    else if digits.value == "1" then
      var r := [Say(Connecting, Voice), DialClient(DialComplete, 30, "record-from-answer", AgentClient)];
      assert r[1].DialClient?;
      r
    else if digits.value == "2" then
      var r := [Say(LeaveMessage, Voice), Record(VoicemailComplete, "POST", 120, "*")];
      assert r[1].Record?;
      r
    else
      [Say(InvalidSelection, Voice), Redirect(VoiceWebhook)]
  }

  /** The service object; its only state is the configured caller id.  The
      call tables it writes are passed in. */
  class TwilioClient {
    const phoneNumber: string

    constructor (phoneNumber: string)
      ensures this.phoneNumber == phoneNumber
    {
      this.phoneNumber := phoneNumber;
    }

    /** `make_outbound_call`. */
    method MakeOutboundCall(store: CallStore, to: string, agent: nat, campaign: Option<nat>,
                            contact: Option<nat>, answer: ProviderAnswer, now: Timestamp)
      returns (result: DialResult)
      requires store.Valid()
      modifies store
      ensures store.Valid() && store.recordings == old(store.recordings)
      ensures (store.calls, result) == Dial(old(store.calls), phoneNumber, to, agent, campaign, contact, answer, now)
    {
      var before := store.calls;
      var id := |before|;
      var record := NewCall(id, agent, contact, campaign, Outbound, phoneNumber, to, now);
      store.calls := before + [record];
      match answer {
        case Raised(e) =>
          result := DialFailure(e);
        case Created(sid, st) =>
          if SidInUse(before, sid) {
            result := DialFailure(DuplicateSidError);
          } else {
            store.calls := store.calls[id := record.(twilioCallSid := Some(sid))];
            result := DialSuccess(sid, id, st);
            assert store.calls == before + [record.(twilioCallSid := Some(sid))];
          }
      }
    }

    /** `make_parallel_calls`: the first three numbers at most, dialed one
      after another, results in input order. */
    method MakeParallelCalls(store: CallStore, numbers: seq<string>, agent: nat, campaign: Option<nat>,
                             answers: seq<ProviderAnswer>, now: Timestamp)
      returns (results: seq<DialResult>)
      requires store.Valid()
      requires |answers| == if |numbers| < MaxParallel then |numbers| else MaxParallel
      modifies store
      ensures store.Valid() && store.recordings == old(store.recordings)
      ensures (store.calls, results) ==
        DialEach(old(store.calls), phoneNumber, numbers[..|answers|], agent, campaign, answers, now)
    {
      var dialed := numbers[..|answers|];
      results := [];
      var i := 0;
      while i < |dialed|
        invariant 0 <= i <= |dialed|
        invariant store.Valid() && store.recordings == old(store.recordings)
        invariant (store.calls, results) == DialEach(old(store.calls), phoneNumber, dialed[..i], agent, campaign, answers[..i], now)
      {
        DialEachStep(old(store.calls), phoneNumber, dialed, agent, campaign, answers, now, i);
        var result := MakeOutboundCall(store, dialed[i], agent, campaign, None, answers[i], now);
        results := results + [result];
        i := i + 1;
      }
      assert dialed[..i] == dialed && answers[..i] == answers;
    }

    /** `update_call_status`: an unknown SID changes nothing; otherwise the
      one call with that SID takes the status as given. */
    method UpdateCallStatus(store: CallStore, sid: string, status: string, now: Timestamp)
      requires store.Valid()
      modifies store
      ensures store.Valid() && store.recordings == old(store.recordings)
      ensures match FindBySid(old(store.calls), sid)
        case None => store.calls == old(store.calls)
        case Some(i) => store.calls == old(store.calls)[i := StatusApplied(old(store.calls)[i], status, now)]
    {
      var found := FindBySid(store.calls, sid);
      if found.Some? {
        var i := found.value;
        var call := store.calls[i];
        call := call.(status := status);
        if status == Answered {
          call := call.(answeredAt := Some(now));
        } else if IsTerminal(status) {
          call := call.(endedAt := Some(now));
          if call.answeredAt.Some? {
            call := call.(duration := Some(now - call.answeredAt.value));
          }
        }
        store.calls := store.calls[i := call];
      }
    }

    /** `save_recording`: a recording is stored only for a known SID.  A
      recording SID that is already stored makes the commit raise (`raised`),
      and nothing is stored. */
    method SaveRecording(store: CallStore, callSid: string, recordingSid: string, recordingUrl: string,
                         now: Timestamp)
      returns (raised: bool)
      requires store.Valid()
      modifies store
      ensures store.Valid() && store.calls == old(store.calls)
      ensures FindBySid(store.calls, callSid).None? ==> !raised && store.recordings == old(store.recordings)
      ensures raised <==> FindBySid(store.calls, callSid).Some? && RecordingSidInUse(old(store.recordings), recordingSid)
      ensures raised ==> store.recordings == old(store.recordings)
      ensures FindBySid(store.calls, callSid).Some? && !raised ==>
        store.recordings == old(store.recordings) +
          [CallRecording(|old(store.recordings)|, FindBySid(store.calls, callSid).value,
                         Some(recordingSid), Some(recordingUrl), None, None, now)]
    {
      raised := false;
      var found := FindBySid(store.calls, callSid);
      if found.Some? {
        if RecordingSidInUse(store.recordings, recordingSid) {
          raised := true;
        } else {
          var recording := CallRecording(|store.recordings|, found.value, Some(recordingSid), Some(recordingUrl),
                                         None, None, now);
          store.recordings := store.recordings + [recording];
        }
      }
    }

    /** `end_call`: asks the provider to complete the call; the answer is
      the oracle `providerAccepted`.  Nothing is written locally: the record
      changes only when the provider's status webhook arrives. */
    method EndCall(sid: Option<string>, providerAccepted: bool) returns (ok: bool)
      ensures ok == providerAccepted
    {
      ok := providerAccepted;
    }
  }

  predicate RecordingSidInUse(recordings: seq<CallRecording>, sid: string) {
    exists i :: 0 <= i < |recordings| && recordings[i].recordingSid == Some(sid)
  }

  /** The relation is declared one-to-one, but nothing stops a second
      recording for the same call: two recording webhooks with different
      recording SIDs leave two rows pointing at one call. */
  lemma TwoRecordingsForOneCall(recordings: seq<CallRecording>, callId: nat, a: CallRecording, b: CallRecording)
    requires a.callId == callId && b.callId == callId && a.recordingSid != b.recordingSid
    requires RecordingSidsUnique(recordings)
    requires a.recordingSid.Some? && !(exists i :: 0 <= i < |recordings| && recordings[i].recordingSid == a.recordingSid)
    requires b.recordingSid.Some? && !(exists i :: 0 <= i < |recordings| && recordings[i].recordingSid == b.recordingSid)
    ensures RecordingSidsUnique(recordings + [a] + [b])
  {
  }
}
