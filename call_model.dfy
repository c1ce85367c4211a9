/** The `calls` and `call_recordings` tables (`app/models/call.py`).
    Timestamps are whole seconds read from an injected clock.  Calls and
    recordings are never deleted, so each table is an append-only sequence
    whose row id is its position. */
module CallModel {
  import opened Wrappers

  type Timestamp = int

  const Initiated := "initiated"
  const Answered := "answered"
  const Outbound := "outbound"

  /** One row of `calls`.  Non-nullable columns are plain fields, nullable
      ones are `Option`s. */
  datatype Call = Call(
    id: nat,
    twilioCallSid: Option<string>,
    agentId: nat,
    contactId: Option<nat>,
    campaignId: Option<nat>,
    direction: string,
    fromNumber: string,
    toNumber: string,
    status: string,
    duration: Option<int>,
    startedAt: Timestamp,
    answeredAt: Option<Timestamp>,
    endedAt: Option<Timestamp>,
    notes: Option<string>,
    disposition: Option<string>)

  /** One row of `call_recordings`. */
  datatype CallRecording = CallRecording(
    id: nat,
    callId: nat,
    recordingSid: Option<string>,
    recordingUrl: Option<string>,
    s3Url: Option<string>,
    duration: Option<int>,
    createdAt: Timestamp)

  /** A `Call` built from the given columns, the rest taking their column
      defaults: status `initiated`, duration 0, `started_at` now, no SID and
      no answer or end time. */
  function NewCall(id: nat, agentId: nat, contactId: Option<nat>, campaignId: Option<nat>,
                   direction: string, fromNumber: string, toNumber: string, now: Timestamp): (c: Call)
    ensures c.status == Initiated && c.duration == Some(0) && c.startedAt == now
    ensures c.twilioCallSid.None? && c.answeredAt.None? && c.endedAt.None?
    ensures c.notes.None? && c.disposition.None?
    ensures c.id == id && c.agentId == agentId && c.contactId == contactId && c.campaignId == campaignId
    ensures c.direction == direction && c.fromNumber == fromNumber && c.toNumber == toNumber
  {
    Call(id, None, agentId, contactId, campaignId, direction, fromNumber, toNumber,
         Initiated, Some(0), now, None, None, None, None)
  }

  /** `twilio_call_sid` is unique (NULLs excepted). */
  ghost predicate SidsUnique(calls: seq<Call>) {
    forall i, j :: 0 <= i < j < |calls| && calls[i].twilioCallSid.Some? ==>
      calls[i].twilioCallSid != calls[j].twilioCallSid
  }

  /** `recording_sid` is unique (NULLs excepted); `call_id` is not. */
  ghost predicate RecordingSidsUnique(recordings: seq<CallRecording>) {
    forall i, j :: 0 <= i < j < |recordings| && recordings[i].recordingSid.Some? ==>
      recordings[i].recordingSid != recordings[j].recordingSid
  }

  predicate SidInUse(calls: seq<Call>, sid: string) {
    exists i :: 0 <= i < |calls| && calls[i].twilioCallSid == Some(sid)
  }

  /** `query(Call).filter(Call.twilio_call_sid == sid).first()`, as a row
      position. */
  function FindBySid(calls: seq<Call>, sid: string): (r: Option<nat>)
    ensures r.None? <==> !SidInUse(calls, sid)
    ensures r.Some? ==> r.value < |calls| && calls[r.value].twilioCallSid == Some(sid)
  {
    if calls == [] then None
    else if calls[|calls| - 1].twilioCallSid == Some(sid) then Some(|calls| - 1)
    else
      var r := FindBySid(calls[..|calls| - 1], sid);
      assert SidInUse(calls, sid) ==> SidInUse(calls[..|calls| - 1], sid) by {
        if SidInUse(calls, sid) {
          var i :| 0 <= i < |calls| && calls[i].twilioCallSid == Some(sid);
          assert i < |calls| - 1 && calls[..|calls| - 1][i] == calls[i];
        }
      }
      r
  }

  /** Because the column is unique, a SID names at most one call. */
  lemma SidNamesOneCall(calls: seq<Call>, sid: string, i: nat, j: nat)
    requires SidsUnique(calls)
    requires i < |calls| && j < |calls|
    requires calls[i].twilioCallSid == Some(sid) && calls[j].twilioCallSid == Some(sid)
    ensures i == j
  {
  }

  /** The two tables, with the constraints the schema declares: ids are
      positions, SIDs unique, and every recording points at a call. */
  class CallStore {
    var calls: seq<Call>
    var recordings: seq<CallRecording>

    ghost predicate Valid()
      reads this
    {
      && (forall i :: 0 <= i < |calls| ==> calls[i].id == i)
      && (forall i :: 0 <= i < |recordings| ==> recordings[i].id == i && recordings[i].callId < |calls|)
      && SidsUnique(calls)
      && RecordingSidsUnique(recordings)
    }

    constructor ()
      ensures Valid() && calls == [] && recordings == []
    {
      calls := [];
      recordings := [];
    }
  }
}
