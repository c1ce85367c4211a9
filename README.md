# buttdialer call-centre core, in Dafny

This project models the rule-bearing core of buttdialer, a call-centre dialer.
The backend is FastAPI with SQLAlchemy, Twilio, HubSpot and ElevenLabs. The
browser side is a softphone built on the Twilio Voice SDK. The model covers
these parts:

- **Call records** (`twilio_service.py`, `models/call.py`). A dial writes an
  `initiated` record before the provider is asked and attaches the provider SID
  afterwards. Status webhooks overwrite the status and the timestamps. Recordings
  are attached by call SID. The IVR menu is a list of TwiML verbs.
- **Call endpoints** (`calls.py`). These cover the exact-match Do-Not-Call gate,
  contact get-or-create, the parallel dial of at most three numbers, the call
  history and its statistics, and call annotation and hang-up, each with its
  404/403 order.
- **Compliance** (`compliance.py`, `models/contact.py`). The Do-Not-Call table
  and its CSV import with added and skipped counters. The exact-match status
  check against the unescaped `LIKE` list search. The TCPA calling-hours window, 08:00
  to 21:00 inclusive (47 CFR 64.1200(c)(1)).
- **The realtime connection registry** (`websocket_manager.py`). Two
  dictionaries are kept in step: client id → socket, and user id → list of client
  ids. Clients whose send fails are cleaned up afterwards.
- **Teams, users and authentication** (`teams.py`, `users.py`, `auth.py`,
  `models/team.py`, `models/user.py`, `schemas/user.py`). This covers the
  membership relation and its cascade, guard order, the update semantics the
  schema defaults produce, and the login decision order.
- **CRM** (`crm.py`, `hubspot_service.py`). This covers the truthy-wins contact
  merge, the HubSpot property map and the choice between PATCH and POST, the
  status-code classification, and the requests that log calls and create deals.
- **Message templating** (`elevenlabs_service.py`). It substitutes `{name}`,
  truncates to 500 characters, and encodes audio in Base64 as section 4 of
  RFC 4648 defines it.
- **The browser softphone** (`frontend/src/services/twilioService.ts`). The
  `device` and `activeCall` fields, the guards of `makeCall`, the device and call
  event handlers, the call controls and `disconnect`.

Conventions of the model:

- Database tables are fields of classes. Calls and recordings are append-only
  sequences whose row id is the position. Every other table is a `map` from id to
  row with a `nextId` counter.
- Each table's `Valid()` states the declared unique constraints.
- A commit that would break a unique constraint fails as a whole and stores
  nothing.
- The clock is an injected `now` in whole seconds. A calendar date is a day
  number whose midnight is `day * 86400`.
- Answers from Twilio, HubSpot, ElevenLabs and websocket sends are parameters
  (oracles): what the provider answered, or which sockets fail.
- Password hashing, password checking and token signing are function parameters.
- The FastAPI dependencies are preconditions. `get_current_active_user` becomes
  `caller.isActive`, and `get_current_admin_user` becomes
  `caller.role == Admin`.
- An endpoint's answer is `Outcome`: `Ok(value)` or `Fail(status, detail)`,
  with the status codes and detail strings of the code.

Where the code differs from the system's design documentation, the model
follows the code:

- A status webhook applies any status, with no forward-only check: a `completed`
  call can go back to `ringing` (`TwilioService.StatusCanRegress`).
- A failed dial leaves its record `initiated`, not `failed`.
- Parallel numbers are dialed one after another.
- The calling-hours check ignores the time zone and the weekday. A time given with a UTC offset cannot be compared with the naive window bounds; the `TypeError` escapes the `ValueError` handler and the answer is a 500 (`Compliance.ValidateCallingTime`).
- The history and the statistics filter dates as the queries write them: `started_at <= date_to` compares with midnight at the start of `date_to` (`CallsEndpoint.Selects`; see Findings).
- Without an e-mail, an empty phone search answer is taken as the existing contact and PATCHed at `.../contacts/None` (`HubspotService.UpsertContact`; see Findings).
- The DNC list search is SQL `LIKE` with the search text unescaped, so `%` and `_` in it act as wildcards (`Compliance.UnderscoreMatchesAnyDigit`) and a backslash escapes the next character (`Compliance.BackslashNumberIsNotFound`).
- `base64_to_audio` uses Python's lenient decoder: characters outside the alphabet are skipped and decoding stops at the padding (`Base64.NewlineIsSkipped`, `Base64.PaddingEndsTheInput`).

## Model

| member | source | states |
|---|---|---|
| Wrappers.RemoveFirst | buttdialer/backend/app/services/websocket_manager.py:28 | `list.remove`: the result is the list with the element at the first occurrence cut out, the rest in order; the count of that value falls by one |
| Wrappers.FirstIndex | buttdialer/backend/app/services/websocket_manager.py:28 | the index of the first occurrence: it holds the value and nothing before it does |
| Decimal.IntToStringRoundTrip | buttdialer/backend/app/api/v1/endpoints/auth.py:38-40 | `str(n)` of any integer parses back to `n`, so a token subject names its user |
| Decimal.IntToStringInjective | buttdialer/backend/app/api/v1/endpoints/auth.py:67-69 | different user ids never give the same subject text |
| Base64.Encode | buttdialer/backend/app/services/elevenlabs_service.py:117-119 | the encoding has `4 * ceil(n / 3)` characters |
| Base64.RoundTrip | buttdialer/backend/app/services/elevenlabs_service.py:117-123 | decoding the encoding of any byte string gives the bytes back (RFC 4648 section 4, with padding) |
| Base64.GroupRoundTrip | buttdialer/backend/app/services/elevenlabs_service.py:117-123 | every full 3-byte group encodes to four alphabet characters that decode back to the group |
| Base64.OneByteRoundTrip | buttdialer/backend/app/services/elevenlabs_service.py:117-123 | a final single byte (`xx==`) decodes back to that byte, after whatever was decoded before |
| Base64.TwoByteRoundTrip | buttdialer/backend/app/services/elevenlabs_service.py:117-123 | a final pair of bytes (`xxx=`) decodes back to those bytes, after whatever was decoded before |
| Base64.ScanGroup | buttdialer/backend/app/services/elevenlabs_service.py:123 | four alphabet characters at a quantum boundary give their three bytes and start the next quantum clean |
| Base64.ScanEncoding | buttdialer/backend/app/services/elevenlabs_service.py:117-123 | scanning the encoding of any byte string appends exactly those bytes |
| Base64.EncodingIsAscii | buttdialer/backend/app/services/elevenlabs_service.py:119 | the encoding is ASCII, so `b64decode` accepts it as a `str` |
| Base64.Decode | buttdialer/backend/app/services/elevenlabs_service.py:123 | `b64decode` without `validate`: a non-ASCII string raises; otherwise every character other than the alphabet and `=` is skipped, and completed padding ends the input |
| Base64.ScanIgnoresNoise | buttdialer/backend/app/services/elevenlabs_service.py:123 | characters outside the alphabet and `=` never change the result |
| Base64.NewlineIsSkipped | buttdialer/backend/app/services/elevenlabs_service.py:123 | `QUJD\n` decodes to `ABC`: the newline is dropped, not refused |
| Base64.PaddingEndsTheInput | buttdialer/backend/app/services/elevenlabs_service.py:123 | `QQ==QUJD` decodes to `A`: a completed padding ends the data and the rest is ignored |
| ElevenLabsService.SpokenText | buttdialer/backend/app/services/elevenlabs_service.py:108-113 | the message is at most 500 characters: the substituted text when it fits, otherwise its first 500 characters |
| ElevenLabsService.NoPlaceholderUnchanged | buttdialer/backend/app/services/elevenlabs_service.py:108 | a template with no brace is spoken exactly as written |
| ElevenLabsService.SinglePlaceholder | buttdialer/backend/app/services/elevenlabs_service.py:108 | one `{name}` between brace-free text is replaced by the contact name and nothing else changes |
| ElevenLabsService.BraceFreePrefix | buttdialer/backend/app/services/elevenlabs_service.py:108 | a brace-free prefix is copied unchanged and substitution continues after it |
| ElevenLabsService.NameCanBeCut | buttdialer/backend/app/services/elevenlabs_service.py:108-113 | truncation happens after substitution, so a name placed at character 499 is cut to its first letter |
| ElevenLabsService.CampaignMessageRequest | buttdialer/backend/app/services/elevenlabs_service.py:19-54 | the text-to-speech request goes to `/text-to-speech/{voice}` with the default model and the truncated, personalised text |
| ElevenLabsService.AudioToBase64 | buttdialer/backend/app/services/elevenlabs_service.py:117-123 | `base64_to_audio(audio_to_base64(b)) == b` for every byte string |
| ElevenLabsService.Base64ToAudio | buttdialer/backend/app/services/elevenlabs_service.py:121-123 | the encoding of any audio decodes back to it; a string that is not ASCII raises (None) |
| CallModel.NewCall | buttdialer/backend/app/models/call.py:7-22 | a new call is `initiated`, has duration 0, starts now, and has no SID, answer or end time, notes or disposition |
| CallModel.FindBySid | buttdialer/backend/app/services/twilio_service.py:167-168 | the row found carries that SID, and there is none exactly when no row carries it |
| CallModel.SidNamesOneCall | buttdialer/backend/app/models/call.py:11 | with unique call SIDs, a SID names at most one row |
| CallModel.CallStore.constructor | buttdialer/backend/app/models/call.py:7-44 | an empty call store satisfies the unique constraints |
| ContactModel.NewContact | buttdialer/backend/app/models/contact.py:7-24 | a contact created from a number has only that number, is not DNC and is stamped now |
| ContactModel.ContactByPhone | buttdialer/backend/app/models/contact.py:11 | phone numbers being unique, the lookup finds the one contact with that number, and none exactly when no contact has it |
| ContactModel.ContactTable.constructor | buttdialer/backend/app/models/contact.py:7-20 | an empty contact table satisfies its unique constraints |
| ContactModel.DncTable.constructor | buttdialer/backend/app/models/contact.py:27-34 | an empty Do-Not-Call table has at most one entry per number |
| UserModel.NewUser | buttdialer/backend/app/models/user.py:12-17 | role defaults to `agent` and `is_active` to true; the other fields are as given |
| UserModel.FullName | buttdialer/backend/app/models/user.py:31-33 | `full_name` is the first name, one space, then the last name |
| UserModel.FullNameSplits | buttdialer/backend/app/models/user.py:31-33 | when the first name has no space, splitting `full_name` at its first space gives back both names |
| UserModel.UserTable.constructor | buttdialer/backend/app/models/user.py:12 | an empty user table has unique e-mails |
| UserSchema.ParseUserCreate | buttdialer/backend/app/schemas/user.py:5-13 | a create body is accepted iff the e-mail passes the `EmailStr` check and both names and a password are present; the e-mail is the normalised address; role defaults to `agent` and `is_active` to true |
| UserSchema.ParseUserUpdate | buttdialer/backend/app/schemas/user.py:5-16 | an update body is accepted iff the e-mail passes the `EmailStr` check and both names are present; the password is optional; the same defaults apply |
| UserSchema.ParseUserLogin | buttdialer/backend/app/schemas/user.py:32-34 | a login body is accepted iff the e-mail passes the `EmailStr` check; the e-mail is the normalised address and the password is kept |
| UserSchema.NewToken | buttdialer/backend/app/schemas/user.py:36-39 | the token type defaults to `bearer` |
| TwilioService.Dial | buttdialer/backend/app/services/twilio_service.py:37-98 | the `initiated` outbound record is always appended; success iff the provider created a call whose SID is not yet stored, and only then is the SID attached; a raised error is returned as the failure |
| TwilioService.DialEach | buttdialer/backend/app/services/twilio_service.py:100-112 | dialing numbers in turn appends one `initiated` record per number, in order, with no contact and ids following the table |
| TwilioService.DialEachResults | buttdialer/backend/app/services/twilio_service.py:100-112 | the k-th result names the k-th new record and its SID; failed dials leave no SID; a raised answer is a failure |
| TwilioService.StatusApplied | buttdialer/backend/app/services/twilio_service.py:170-180 | the status becomes the string given; `answered` sets the answer time; a terminal status sets the end time and, if answered, duration = end - answer; nothing else changes |
| TwilioService.NormalLifecycle | buttdialer/backend/app/services/twilio_service.py:170-180 | ringing → answered → completed ends with the answer and end times and the talk time as duration |
| TwilioService.StatusCanRegress | buttdialer/backend/app/services/twilio_service.py:170-171 | a `ringing` event after `completed` is applied: the status goes back while the end time stays |
| TwilioService.RepeatedEventsOverwrite | buttdialer/backend/app/services/twilio_service.py:172-178 | a second `answered` overwrites the answer time; a second terminal event overwrites the end time and recomputes the duration |
| TwilioService.UnansweredKeepsDuration | buttdialer/backend/app/services/twilio_service.py:174-178 | a terminal event on an unanswered call sets the end time and keeps the duration |
| TwilioService.LastEventWins | buttdialer/backend/app/services/twilio_service.py:170-173 | for any sequence of status webhooks, the last status is kept and `answered_at` is the time of the last `answered` event, or the old one when none came |
| TwilioService.IvrResponse | buttdialer/backend/app/services/twilio_service.py:114-162 | always two verbs, every `Say` in the `alice` voice. No digits: a one-digit `Gather` (POST to the IVR handler, timeout 5) with the welcome prompt, then a redirect to the voice webhook. `1`: the connecting message, then a 30-second `Dial` of `agent-client` recorded from answer. `2`: the voicemail prompt, then a 120-second `Record` ending on `*`. Anything else: the invalid-selection message, then the redirect |
| TwilioService.TwilioClient.MakeOutboundCall | buttdialer/backend/app/services/twilio_service.py:37-98 | the call table becomes exactly what `Dial` gives and the result is its result; recordings are untouched |
| TwilioService.TwilioClient.MakeParallelCalls | buttdialer/backend/app/services/twilio_service.py:100-112 | the loop dials the first min(n, 3) numbers in order, and the table and results are exactly `DialEach` of that prefix |
| TwilioService.TwilioClient.UpdateCallStatus | buttdialer/backend/app/services/twilio_service.py:164-182 | an unknown SID changes nothing; otherwise only that row changes, to `StatusApplied` |
| TwilioService.TwilioClient.SaveRecording | buttdialer/backend/app/services/twilio_service.py:184-198 | a recording row is appended iff the SID names a call and the recording SID is new; a reused recording SID raises and stores nothing; calls are untouched |
| TwilioService.TwilioClient.EndCall | buttdialer/backend/app/services/twilio_service.py:200-207 | the result is the provider's answer, and nothing local changes |
| TwilioService.TwoRecordingsForOneCall | buttdialer/backend/app/models/call.py:30-37 | two recordings for one call satisfy every declared constraint, so the one-to-one relation is not enforced |
| CallsEndpoint.MakeOutboundCall | buttdialer/backend/app/api/v1/endpoints/calls.py:17-56 | a listed number gets 400 with nothing written; otherwise the contact is reused or created, then dialed; a failed dial gets 500; a success returns a stored call with a SID to an unlisted number |
| CallsEndpoint.AllowedNumbers | buttdialer/backend/app/api/v1/endpoints/calls.py:73-80 | the numbers dialed are exactly the requested numbers that are not listed |
| CallsEndpoint.MakeParallelCalls | buttdialer/backend/app/api/v1/endpoints/calls.py:58-97 | more than 3 numbers gets 400 before any lookup; all listed gets 400; otherwise the allowed numbers are dialed and exactly the successful calls are returned |
| CallsEndpoint.SucceededAreAllowed | buttdialer/backend/app/api/v1/endpoints/calls.py:86-97 | every returned call has a SID and was placed to a requested, unlisted number |
| CallsEndpoint.InDatesMeansDays | buttdialer/backend/app/api/v1/endpoints/calls.py:169-173 | the corrected date filter keeps exactly the calls started on a day from `date_from` to `date_to`, both included |
| CallsEndpoint.DateToDropsItsOwnDay | buttdialer/backend/app/api/v1/endpoints/calls.py:172-173 | as written, a call at 01:00 on `date_to` is excluded, although its day is in range |
| CallsEndpoint.AsWrittenDropsOnlyDateToDay | buttdialer/backend/app/api/v1/endpoints/calls.py:169-173 | the filter as written keeps a call iff the corrected one does, except a call after midnight on the `date_to` day |
| CallsEndpoint.GetCalls | buttdialer/backend/app/api/v1/endpoints/calls.py:148-176 | the page is the selection from position `skip`, at most `limit` calls, in table order; the selection is the calls visible to the caller (own calls for non-admins), within the dates as the code compares them (`started_at <= date_to` at midnight) and with the status asked |
| CallsEndpoint.GetCallsRoute | buttdialer/backend/app/api/v1/endpoints/calls.py:148-176 | `skip` and `limit` are plain integers: a negative one is refused by the database and the route answers 500; otherwise the route answers the `GetCalls` page, at most `limit` calls, each visible to the caller |
| CallsEndpoint.PagesTile | buttdialer/backend/app/api/v1/endpoints/calls.py:175 | consecutive pages concatenate to the page of their combined size, so paging lists every selected call once, in order |
| CallsEndpoint.ListedCallsAreReachable | buttdialer/backend/app/api/v1/endpoints/calls.py:162-163 | every listed call may be updated or ended by the same caller |
| CallsEndpoint.GetCallStats | buttdialer/backend/app/api/v1/endpoints/calls.py:178-210 | total = calls selected with the same date comparison, answered = `completed` among them, total duration = the sum of their durations with None as 0; both rates 0 on a zero denominator and otherwise the quotients |
| CallsEndpoint.CompletedAreFewer | buttdialer/backend/app/api/v1/endpoints/calls.py:197-198 | the `completed` calls of a selection are never more than the selection |
| CallsEndpoint.SumDurationsAppend | buttdialer/backend/app/api/v1/endpoints/calls.py:199 | the duration sum (None counted as 0) is additive over concatenation |
| CallsEndpoint.StatsAdd | buttdialer/backend/app/api/v1/endpoints/calls.py:197-199 | the counts and total duration of a history are the sums over its parts |
| CallsEndpoint.StatsCountTheHistory | buttdialer/backend/app/api/v1/endpoints/calls.py:148-199 | the stats count exactly the calls the unpaged history lists, for all calls and for completed ones |
| CallsEndpoint.Annotated | buttdialer/backend/app/api/v1/endpoints/calls.py:235-238 | disposition and notes are replaced only by truthy values; no other field changes |
| CallsEndpoint.AnnotatedIdempotent | buttdialer/backend/app/api/v1/endpoints/calls.py:235-238 | applying the same update twice equals applying it once |
| CallsEndpoint.AnnotatedCannotClear | buttdialer/backend/app/api/v1/endpoints/calls.py:235-238 | an update of empty values leaves the call unchanged, so a note can never be cleared |
| CallsEndpoint.UpdateCall | buttdialer/backend/app/api/v1/endpoints/calls.py:212-243 | 404 for an unknown id, then 403 for a non-admin non-owner, otherwise only that row is annotated and returned |
| CallsEndpoint.EndCall | buttdialer/backend/app/api/v1/endpoints/calls.py:245-275 | 404, then 403, then 500 if the provider refuses, otherwise "call ended" |
| Compliance.Strip | buttdialer/backend/app/api/v1/endpoints/compliance.py:66-67 | `str.strip()`: never longer than its input |
| Compliance.StripTrims | buttdialer/backend/app/api/v1/endpoints/compliance.py:66-67 | the stripped text is a slice of the input with only spaces removed at both ends and no space at either end |
| Compliance.StripIdempotent | buttdialer/backend/app/api/v1/endpoints/compliance.py:66-67 | stripping twice equals stripping once |
| Compliance.RequestedReason | buttdialer/backend/app/schemas/compliance.py:5-7 | the reason of a `DNCAdd` body defaults to `Customer request` when omitted |
| Compliance.AddToDnc | buttdialer/backend/app/api/v1/endpoints/compliance.py:15-43 | a listed number gets 400 and nothing changes; otherwise exactly one entry is added, with the requested reason, recorded against the caller; afterwards the number is listed |
| Compliance.RemoveFromDnc | buttdialer/backend/app/api/v1/endpoints/compliance.py:122-140 | an unknown id gets 404 and nothing changes; otherwise exactly that entry goes |
| Compliance.CheckDncStatus | buttdialer/backend/app/api/v1/endpoints/compliance.py:142-158 | `is_dnc` iff an entry equals the number exactly, with that entry's reason and time; otherwise no reason and no time |
| Compliance.SearchDnc | buttdialer/backend/app/api/v1/endpoints/compliance.py:105-120 | the list keeps exactly the entries whose number matches the unescaped `LIKE '%search%'` pattern, unchanged |
| Compliance.LikeAnyRest | buttdialer/backend/app/api/v1/endpoints/compliance.py:116-117 | a `%` matches any text |
| Compliance.LikeLeadingPercent | buttdialer/backend/app/api/v1/endpoints/compliance.py:116-117 | a leading `%` matches iff the rest of the pattern matches some suffix |
| Compliance.LikePlainPrefix | buttdialer/backend/app/api/v1/endpoints/compliance.py:116-117 | a prefix without `%`, `_` or `\` must be matched character by character |
| Compliance.PlainSearchIsSubstring | buttdialer/backend/app/api/v1/endpoints/compliance.py:116-117 | for a search without special characters, the pattern matches iff the number contains the search text |
| Compliance.LikeItself | buttdialer/backend/app/api/v1/endpoints/compliance.py:116-117 | text without a backslash matches itself as a pattern, `%` and `_` included |
| Compliance.ListedIsFound | buttdialer/backend/app/api/v1/endpoints/compliance.py:116-117 | searching a listed number without a backslash finds its entry |
| Compliance.BackslashNumberIsNotFound | buttdialer/backend/app/api/v1/endpoints/compliance.py:116-117 | a listed number `\` is not found by searching for itself, since the backslash escapes the closing `%` |
| Compliance.SearchIsLooserThanCheck | buttdialer/backend/app/api/v1/endpoints/compliance.py:116-117 | the search finds `555` in a listed number that the exact check does not report as DNC |
| Compliance.UnderscoreMatchesAnyDigit | buttdialer/backend/app/api/v1/endpoints/compliance.py:116-117 | the search is not escaped: `5_5` lists `515`, which does not contain the text `5_5` |
| Compliance.ReadRow | buttdialer/backend/app/api/v1/endpoints/compliance.py:66-71 | reading a row raises exactly when a cell it reads is missing |
| Compliance.ReadRowsMeans | buttdialer/backend/app/api/v1/endpoints/compliance.py:66-68 | the rows read are the rows of the file, one by one |
| Compliance.ImportRow | buttdialer/backend/app/api/v1/endpoints/compliance.py:69-97 | an empty number is not counted; otherwise exactly one of added and skipped grows by one, and new ids follow |
| Compliance.ImportRows | buttdialer/backend/app/api/v1/endpoints/compliance.py:66-97 | the import fails iff some row raises; otherwise added + skipped = rows with a non-empty number |
| Compliance.ImportRowsKeepsList | buttdialer/backend/app/api/v1/endpoints/compliance.py:73-97 | the import keeps every old entry, adds entries numbered from the next id against the uploader, and lists every imported number |
| Compliance.ImportCsvCrashedStays | buttdialer/backend/app/api/v1/endpoints/compliance.py:66-103 | once a row raises, the import has failed whatever follows |
| Compliance.StageRow | buttdialer/backend/app/api/v1/endpoints/compliance.py:70-89 | the loop body computes exactly `ImportRow`: an empty number is passed over, a listed one (staged ones included) counts as skipped, a new one is staged under the next id |
| Compliance.StageRows | buttdialer/backend/app/api/v1/endpoints/compliance.py:63-97 | the counting loop computes exactly the row-by-row import |
| Compliance.UploadDncList | buttdialer/backend/app/api/v1/endpoints/compliance.py:45-103 | a non-`.csv` name gets 400; success iff no row raises; then the table is the import and the counts are returned; on failure nothing is stored and the 500 detail carries the `AttributeError` text |
| Compliance.ValidateCallingTime | buttdialer/backend/app/api/v1/endpoints/compliance.py:172-201 | an unparsable time gets 400; a time with a UTC offset gets 500 (the comparison with a naive time raises `TypeError`); otherwise valid iff 08:00 ≤ t ≤ 21:00 with the matching reason; the time zone is only echoed |
| Compliance.NotAfterIsMicros | buttdialer/backend/app/api/v1/endpoints/compliance.py:188-189 | the time comparison is the order of microseconds since midnight |
| Compliance.CallingWindow | buttdialer/backend/app/api/v1/endpoints/compliance.py:186-190 | a well-formed time is accepted iff it lies in the inclusive window |
| WebsocketManager.Without | buttdialer/backend/app/services/websocket_manager.py:24-25 | removing a key from the ordered keys keeps every other key and no duplicates |
| WebsocketManager.Connected | buttdialer/backend/app/services/websocket_manager.py:13-19 | the client maps to its socket and is appended to its user's list; other users' lists are unchanged |
| WebsocketManager.ConnectedConsistent | buttdialer/backend/app/services/websocket_manager.py:13-19 | connecting keeps every active client in some user's list and no user list empty |
| WebsocketManager.Disconnected | buttdialer/backend/app/services/websocket_manager.py:23-30 | the client leaves the active map; it raises iff the user has a list without the client; otherwise one occurrence is removed; other users are unchanged |
| WebsocketManager.DisconnectedConsistent | buttdialer/backend/app/services/websocket_manager.py:23-30 | disconnecting keeps the two dictionaries consistent and deletes a list that becomes empty |
| WebsocketManager.ConnectThenDisconnect | buttdialer/backend/app/services/websocket_manager.py:13-30 | connecting a new client and disconnecting it again restores both dictionaries and does not raise |
| WebsocketManager.DisconnectEachWithin | buttdialer/backend/app/services/websocket_manager.py:46-52 | disconnecting a user's own failed clients never raises, drops their sockets and removes them from that user only |
| WebsocketManager.CleanUpRemoves | buttdialer/backend/app/services/websocket_manager.py:65-71 | broadcast clean-up removes exactly the failed clients from the active map |
| WebsocketManager.CleanUpConsistent | buttdialer/backend/app/services/websocket_manager.py:65-71 | broadcast clean-up keeps the dictionaries consistent |
| WebsocketManager.FirstHolder | buttdialer/backend/app/services/websocket_manager.py:66-71 | the user found holds the client in its list, or no listed user holds it |
| WebsocketManager.FirstHolderIsFirst | buttdialer/backend/app/services/websocket_manager.py:66-71 | the user found is the first in the order whose list holds the client |
| WebsocketManager.SendEach | buttdialer/backend/app/services/websocket_manager.py:41-48 | the send loop sends to exactly the admitted candidates, in order, and collects the ones that fail |
| WebsocketManager.ConnectionManager.constructor | buttdialer/backend/app/services/websocket_manager.py:9-11 | the registry starts empty and consistent |
| WebsocketManager.ConnectionManager.Connect | buttdialer/backend/app/services/websocket_manager.py:13-19 | the new state is `Connected` of the old, and stays consistent |
| WebsocketManager.ConnectionManager.Disconnect | buttdialer/backend/app/services/websocket_manager.py:23-30 | the new state and the raise are `Disconnected` of the old |
| WebsocketManager.ConnectionManager.SendUserMessage | buttdialer/backend/app/services/websocket_manager.py:37-52 | sends to the user's clients that have a socket; afterwards exactly the failing ones are gone, and other users are unchanged |
| WebsocketManager.ConnectionManager.Broadcast | buttdialer/backend/app/services/websocket_manager.py:54-71 | sends to every active client but the excluded one; afterwards exactly the failing ones are gone |
| WebsocketManager.ConnectionManager.DisconnectFailed | buttdialer/backend/app/services/websocket_manager.py:65-71 | disconnects each failed client from the first user whose list holds it, ending in the clean-up state and keeping the dictionaries consistent |
| WebsocketManager.ConnectionManager.SendCallUpdate | buttdialer/backend/app/services/websocket_manager.py:73-79 | wraps the data as a `call_update` message and sends it to that agent's clients only; afterwards the failing clients are disconnected from that agent and gone from the active map |
| WebsocketManager.ConnectionManager.SendCallNotification | buttdialer/backend/app/services/websocket_manager.py:81-94 | a truthy team id sends nothing and changes nothing; otherwise the `call_notification` is broadcast and the state is the clean-up of the failing clients |
| TeamModel.NewMember | buttdialer/backend/app/models/team.py:26 | a membership's role defaults to `member` |
| TeamModel.MembersOf | buttdialer/backend/app/api/v1/endpoints/teams.py:172-175 | a team's members are exactly the membership rows of that team |
| TeamModel.Cascade | buttdialer/backend/app/models/team.py:17 | deleting a team removes exactly its membership rows |
| TeamModel.CascadeLeavesNoOrphans | buttdialer/backend/app/models/team.py:17 | after the cascade nobody is a member of the deleted team, and memberships of other teams are kept |
| TeamModel.TeamStore.constructor | buttdialer/backend/app/models/team.py:33-35 | an empty team store satisfies the unique (team, user) pair |
| TeamsEndpoint.RequestedRole | buttdialer/backend/app/schemas/team.py:12 | the added member's role defaults to `member` |
| TeamsEndpoint.CreateTeam | buttdialer/backend/app/api/v1/endpoints/teams.py:12-36 | the team is stored, and its creator becomes its leader and sees it |
| TeamsEndpoint.VisibleTeams | buttdialer/backend/app/api/v1/endpoints/teams.py:38-54 | admins list every team; everyone else lists exactly the teams they belong to |
| TeamsEndpoint.TeamAccess | buttdialer/backend/app/api/v1/endpoints/teams.py:63-82 | 404 for a missing team, then 403 for a non-admin non-member; success iff admin or member |
| TeamsEndpoint.GetTeam | buttdialer/backend/app/api/v1/endpoints/teams.py:56-84 | 404 for a missing team, then 403 with "Not authorized to view this team"; success iff admin or member, with that team |
| TeamsEndpoint.GetTeamMembers | buttdialer/backend/app/api/v1/endpoints/teams.py:148-177 | the same guards; the members of that team on success |
| TeamsEndpoint.OpenIffListed | buttdialer/backend/app/api/v1/endpoints/teams.py:38-84 | a team can be opened, and its members read, iff the team is in the caller's list |
| TeamsEndpoint.AddTeamMember | buttdialer/backend/app/api/v1/endpoints/teams.py:86-146 | 404 team, 403 neither admin nor leader, 404 user, 400 already a member, in that order; otherwise one row with the requested role |
| TeamsEndpoint.RemoveTeamMember | buttdialer/backend/app/api/v1/endpoints/teams.py:179-216 | 403 when the caller is neither admin nor the team's leader, decided before the lookup and without checking the team; 404 for no membership; an admin or the team's leader removing an existing membership succeeds, and exactly that row goes |
| TeamsEndpoint.DeleteTeam | buttdialer/backend/app/api/v1/endpoints/teams.py:218-236 | 404 for a missing team; otherwise the team and all its memberships go |
| UsersEndpoint.SelfUpdated | buttdialer/backend/app/api/v1/endpoints/users.py:25-32 | self-update changes e-mail, names and password only when given; role and active flag never change |
| UsersEndpoint.AdminUpdated | buttdialer/backend/app/api/v1/endpoints/users.py:113-124 | an admin update is the self-update plus the role when non-empty and the active flag always |
| UsersEndpoint.SelfUpdateIdempotent | buttdialer/backend/app/api/v1/endpoints/users.py:25-32 | repeating the same update, by oneself or by an admin, equals one update whose password is hashed by the later call; with no password in the body it changes nothing more, even with a salted hasher |
| UsersEndpoint.AdminUpdateResetsOmittedFields | buttdialer/backend/app/schemas/user.py:9-16 | an admin update that omits role and active flag demotes to `agent` and reactivates |
| UsersEndpoint.UpdateCurrentUser | buttdialer/backend/app/api/v1/endpoints/users.py:18-37 | the caller's row becomes the self-update, or 500 with nothing stored when the new e-mail belongs to another user |
| UsersEndpoint.CreateUser | buttdialer/backend/app/api/v1/endpoints/users.py:50-78 | a taken e-mail gets 400 and nothing is inserted; otherwise one row with the requested role and active flag |
| UsersEndpoint.GetUser | buttdialer/backend/app/api/v1/endpoints/users.py:80-95 | 404 iff the id is unknown, otherwise that row |
| UsersEndpoint.UpdateUser | buttdialer/backend/app/api/v1/endpoints/users.py:97-129 | 404 for an unknown id; otherwise the admin update, or 500 on an e-mail clash |
| UsersEndpoint.DeleteUser | buttdialer/backend/app/api/v1/endpoints/users.py:131-155 | 404 first, then 400 for deleting oneself; otherwise exactly that row goes |
| AuthEndpoint.TokenFor | buttdialer/backend/app/api/v1/endpoints/auth.py:38-44 | a bearer token for the user, signed over `str(user.id)` |
| AuthEndpoint.SubjectNamesUser | buttdialer/backend/app/api/v1/endpoints/auth.py:38-40 | the token subject parses back to the user id, and two users never share one |
| AuthEndpoint.Register | buttdialer/backend/app/api/v1/endpoints/auth.py:13-46 | a taken e-mail gets 400; otherwise one active user with the requested role, and a token for it |
| AuthEndpoint.RowByEmail | buttdialer/backend/app/api/v1/endpoints/auth.py:51 | e-mails being unique, the lookup finds the user with that e-mail, or none iff no user has it |
| AuthEndpoint.Login | buttdialer/backend/app/api/v1/endpoints/auth.py:48-75 | 401 for an unknown e-mail or a wrong password, then 400 for an inactive user, otherwise that user's token |
| AuthEndpoint.RegisterThenLogin | buttdialer/backend/app/api/v1/endpoints/auth.py:13-75 | after registering, logging in with the same password yields the token for the new user |
| HubspotService.Accepted | buttdialer/backend/app/services/hubspot_service.py:76-84 | the body is the result iff the status is 200 or 201 |
| HubspotService.Found | buttdialer/backend/app/services/hubspot_service.py:94-104 | lookups and searches take the body iff the status is 200 |
| HubspotService.FoundImpliesAccepted | buttdialer/backend/app/services/hubspot_service.py:76-104 | a found answer is also accepted, while a 201 is accepted but not found |
| HubspotService.PutTruthy | buttdialer/backend/app/services/hubspot_service.py:31-40 | a key is set only when its value is truthy; other keys are kept |
| HubspotService.StandardPropertiesMeans | buttdialer/backend/app/services/hubspot_service.py:29-40 | each standard property is present iff its argument is truthy, with that text |
| HubspotService.ContactPropertiesMeans | buttdialer/backend/app/services/hubspot_service.py:29-43 | custom properties are merged last and override same-named standard ones |
| HubspotService.Existing | buttdialer/backend/app/services/hubspot_service.py:45-52 | the e-mail lookup decides when the e-mail is truthy; otherwise the first search result, if there is one |
| HubspotService.ExistingAgrees | buttdialer/backend/app/services/hubspot_service.py:45-52 | the code as written agrees with the corrected lookup everywhere except an empty search answer |
| HubspotService.ExistingAsWritten | buttdialer/backend/app/services/hubspot_service.py:45-61 | the lookup as written differs from the corrected one exactly when, without an e-mail, a truthy phone search answer has no results, and then it takes the answer as a contact with no id |
| HubspotService.UnknownPhoneIsPatchedAtNone | buttdialer/backend/app/services/hubspot_service.py:45-61 | as written, a phone-only upsert whose search finds nothing PATCHes `.../contacts/None`; the corrected lookup POSTs |
| HubspotService.ContactWrite | buttdialer/backend/app/services/hubspot_service.py:54-74 | a known contact is PATCHed at `.../contacts/{id}`; otherwise POST to `.../contacts` |
| HubspotService.UpsertContact | buttdialer/backend/app/services/hubspot_service.py:18-84 | the request carries the property map and is a PATCH iff the lookup as written found something, at `.../contacts/{id}` (`None` for an empty search answer); otherwise POST; the result is the accepted body |
| HubspotService.UpsertContactAgrees | buttdialer/backend/app/services/hubspot_service.py:18-84 | when the lookups agree, the request is the corrected write: PATCH at the found contact, or POST |
| HubspotService.ContactSearch | buttdialer/backend/app/services/hubspot_service.py:106-122 | the search asks for the query, a limit of 10 and the properties email, firstname, lastname, phone and company, in that order |
| HubspotService.SyncedContacts | buttdialer/backend/app/services/hubspot_service.py:191-216 | a 200 answer with `results` gives exactly those records; any other answer gives none |
| HubspotService.CallLogRequest | buttdialer/backend/app/services/hubspot_service.py:134-189 | the call is logged with exactly eight properties: duration in milliseconds as text, title `Call - ` + disposition, and so on |
| HubspotService.CallLogReadsBack | buttdialer/backend/app/services/hubspot_service.py:147-157 | the logged duration text parses back to seconds × 1000, and the title ends in the disposition |
| HubspotService.LogCallActivity | buttdialer/backend/app/services/hubspot_service.py:134-189 | that request is sent, and the result is the answer body iff the status is 200 or 201 |
| HubspotService.DealRequest | buttdialer/backend/app/services/hubspot_service.py:218-265 | a deal is created with its name, amount, stage and the default pipeline, associated with the contact |
| CrmEndpoint.Imported | buttdialer/backend/app/api/v1/endpoints/crm.py:47-55 | a synced record with an unknown number becomes a new, non-DNC contact with its fields |
| CrmEndpoint.Merged | buttdialer/backend/app/api/v1/endpoints/crm.py:58-63 | e-mail, names and company are replaced only by truthy values; the HubSpot id is always replaced, even by None |
| CrmEndpoint.MergeSettles | buttdialer/backend/app/api/v1/endpoints/crm.py:58-63 | merging is idempotent, changes nothing on a fresh import, and never loses a truthy field |
| CrmEndpoint.TableStaging | buttdialer/backend/app/models/contact.py:11 | a valid contact table is a valid starting point for staging |
| CrmEndpoint.Upsert | buttdialer/backend/app/api/v1/endpoints/crm.py:45-63 | a known number's row is merged, else a new row takes the next id; no other row changes, and the number is then in use |
| CrmEndpoint.UpsertIdempotent | buttdialer/backend/app/api/v1/endpoints/crm.py:45-63 | upserting the same record twice equals once |
| CrmEndpoint.SyncContacts | buttdialer/backend/app/api/v1/endpoints/crm.py:14-30 | only admins may start a sync (403 otherwise) |
| CrmEndpoint.FromHubspot | buttdialer/backend/app/api/v1/endpoints/crm.py:38-55 | a record is taken iff its phone property is truthy, with its properties and id |
| CrmEndpoint.SyncStep | buttdialer/backend/app/api/v1/endpoints/crm.py:41-63 | a record without a phone is skipped; otherwise the lookup flushes, failing on a duplicate HubSpot id, and then upserts |
| CrmEndpoint.SyncAll | buttdialer/backend/app/api/v1/endpoints/crm.py:32-68 | the sync over all records keeps unique numbers and fresh ids |
| CrmEndpoint.SyncAllExact | buttdialer/backend/app/api/v1/endpoints/crm.py:32-68 | a completed sync has a row for every synced number, keeps every old row's number, and leaves rows of other numbers untouched |
| CrmEndpoint.SyncContactsTask | buttdialer/backend/app/api/v1/endpoints/crm.py:32-68 | the loop computes exactly `SyncAll` and commits it iff it completes with unique HubSpot ids; otherwise nothing is stored |
| CrmEndpoint.CreateOrUpdateContact | buttdialer/backend/app/api/v1/endpoints/crm.py:108-153 | HubSpot is upserted first; a falsy answer gets 500 with no local write; otherwise the local contact is upserted with the returned id and returned |
| CrmEndpoint.LinkedHubspotId | buttdialer/backend/app/api/v1/endpoints/crm.py:85-89 | a call is linked iff it has a contact with a truthy HubSpot id |
| CrmEndpoint.DispositionOrCompleted | buttdialer/backend/app/api/v1/endpoints/crm.py:96 | the logged disposition is the call's when truthy, else `completed`, never empty |
| CrmEndpoint.LogCallToHubspot | buttdialer/backend/app/api/v1/endpoints/crm.py:70-106 | 404 for a missing call, 400 when unlinked, then the logged request with the defaults; 500 on a falsy answer, else the logged id |
| CrmEndpoint.LoggedCallMatchesRow | buttdialer/backend/app/api/v1/endpoints/crm.py:92-98 | the logged call is associated with the contact's HubSpot id, its duration reads back as the row's seconds × 1000, and its title names the disposition |
| CrmEndpoint.NewDealCreate | buttdialer/backend/app/schemas/crm.py:14-18 | the deal stage defaults to `appointmentscheduled` |
| CrmEndpoint.CreateDeal | buttdialer/backend/app/api/v1/endpoints/crm.py:168-198 | 400 for a missing or unsynced contact; otherwise the deal request; 500 on a falsy answer, else the deal id |
| CrmEndpoint.SearchContacts | buttdialer/backend/app/api/v1/endpoints/crm.py:155-166 | a truthy 200 answer is returned as is; anything else becomes an empty result list |
| Softphone.DialRefusal | buttdialer/frontend/src/services/twilioService.ts:106-112 | "Device not initialized" without a device, then "Already on a call" with an active call; no refusal otherwise |
| Softphone.NextCoherent | buttdialer/frontend/src/services/twilioService.ts:10-182 | every event keeps the softphone coherent (no call without a device); a dial becomes active iff the guards pass |
| Softphone.OfflineUntilInitialized | buttdialer/frontend/src/services/twilioService.ts:105-108 | without initialisation, every later dial is refused with "Device not initialized" |
| Softphone.BusyUntilEnded | buttdialer/frontend/src/services/twilioService.ts:54-112 | until a call ends or the phone is shut down, some call stays active and every dial is refused with "Already on a call" |
| Softphone.Notice | buttdialer/frontend/src/services/twilioService.ts:10-12 | a status is reported only when a callback was given |
| Softphone.TwilioVoiceService.constructor | buttdialer/frontend/src/services/twilioService.ts:5-8 | no device, no call, no callback |
| Softphone.TwilioVoiceService.Initialize | buttdialer/frontend/src/services/twilioService.ts:10-38 | without a token `error` is reported and nothing else changes; otherwise the device is created and registered and `ready` or `error` is reported |
| Softphone.TwilioVoiceService.OnRegistered | buttdialer/frontend/src/services/twilioService.ts:43-46 | reports `ready`, changing nothing |
| Softphone.TwilioVoiceService.OnDeviceError | buttdialer/frontend/src/services/twilioService.ts:48-52 | reports `error`, changing nothing |
| Softphone.TwilioVoiceService.OnIncoming | buttdialer/frontend/src/services/twilioService.ts:54-61 | the incoming call becomes the active call, replacing any other, and `incoming` is reported |
| Softphone.TwilioVoiceService.OnTokenWillExpire | buttdialer/frontend/src/services/twilioService.ts:63-71 | a fetched token is handed to the current device; nothing else changes |
| Softphone.TwilioVoiceService.OnAccept | buttdialer/frontend/src/services/twilioService.ts:75-78 | reports `connected` without changing the active call |
| Softphone.TwilioVoiceService.OnCallEnded | buttdialer/frontend/src/services/twilioService.ts:80-102 | disconnect, cancel, reject and error clear the active call and report `ready`, or `error` for an error |
| Softphone.TwilioVoiceService.MakeCall | buttdialer/frontend/src/services/twilioService.ts:105-130 | a refused dial throws its message and changes nothing; a failed connect rethrows; a connected call becomes active and `connecting` is reported |
| Softphone.TwilioVoiceService.AcceptActiveCall | buttdialer/frontend/src/services/twilioService.ts:132-136 | accepts the active call, or does nothing without one |
| Softphone.TwilioVoiceService.RejectActiveCall | buttdialer/frontend/src/services/twilioService.ts:138-142 | rejects the active call, or does nothing without one |
| Softphone.TwilioVoiceService.Hangup | buttdialer/frontend/src/services/twilioService.ts:144-148 | disconnects the active call, or does nothing without one; the call stays active until its event arrives |
| Softphone.TwilioVoiceService.SetMuted | buttdialer/frontend/src/services/twilioService.ts:150-160 | mutes or unmutes the active call, or does nothing without one |
| Softphone.TwilioVoiceService.IsMuted | buttdialer/frontend/src/services/twilioService.ts:162-164 | muted iff there is an active call and it is muted |
| Softphone.TwilioVoiceService.GetCallStatus | buttdialer/frontend/src/services/twilioService.ts:166-168 | `ready` without an active call, otherwise the call's status |
| Softphone.TwilioVoiceService.IsConnected | buttdialer/frontend/src/services/twilioService.ts:170-172 | connected iff there is a device and it is registered |
| Softphone.TwilioVoiceService.Disconnect | buttdialer/frontend/src/services/twilioService.ts:174-182 | unregisters and destroys the device if any, clears device and call, and reports `disconnected` |

## Left out

- Network and SDK calls are not modelled. This covers the Twilio REST client and Voice SDK, the HubSpot and ElevenLabs HTTP requests, and websocket `accept` and `send_text`. Each becomes an oracle parameter with the answer or failure it produces.
- Async execution, concurrent handlers and out-of-order delivery are not modelled. Handlers run one after another, as sequential steps.
- Password hashing, password verification, JWT creation and `generate_access_token` are function parameters. Their internals are not part of this model.
- `get_current_active_user` and `get_current_admin_user` are not part of this model. They appear only as the preconditions they impose.
- CSV parsing, UTF-8 decoding and `time.fromisoformat` are not modelled. The model takes parsed rows (cells may be missing) and the parsed time, naive or with a UTC offset, as inputs.
- Compliance.UploadDncList: the 500 detail is `Error processing file: ` followed by the text of the `AttributeError` a `None` cell raises. A file that fails UTF-8 decoding, whose detail would carry the codec's message, is not modelled.
- The `EmailStr` validator (the `email-validator` package) is a parameter `checkEmail` of `UserSchema.ParseUserCreate`, `UserSchema.ParseUserUpdate` and `UserSchema.ParseUserLogin`: the normalised address, or a rejection (422). Its rules are not modelled. The endpoints take bodies that have passed it.
- TwilioService.Dial: the error text of a duplicate SID is a fixed prefix standing for `str(e)` of the `IntegrityError`, whose full text comes from the database driver.
- TwiML XML serialisation is not modelled. The IVR answer is the list of verbs.
- Floats are not modelled:
  - `connect_rate` and `average_duration` are kept as a zero guard and an exact quotient (`Ratio`), not as floats.
  - The deal `amount` is the text `str(amount)` already gives.
  - `hs_timestamp` is modelled as `started_at * 1000`, from whole seconds, without the local-time conversion.
  - The ElevenLabs voice settings are omitted.
- Strings are unbounded. The `String(n)` column widths are not enforced.
- `str.strip()` removes the ASCII whitespace Python recognises: space, tab to carriage return, and the separators 0x1C to 0x1F. Unicode spaces such as U+00A0 are not removed.
- Paging keeps table order. The database gives no ordering guarantee.
- These are not modelled: the `tags`, `custom_fields` and `updated_at` columns, and `User.teams` and the call relationships beyond their foreign keys.
- UsersEndpoint.DeleteUser: deleting a user with calls, memberships or DNC entries would trip a foreign key at commit. The model does not track those references, so the deletion always succeeds.
- `get_users`, `get_current_user_profile`, `send_personal_message` and the `/tcpa/calling-hours` constants are not modelled. Each is a single read with nothing to state.
- The calls.py token and webhook endpoints (lines 99-146) only parse the form and call the service methods. Those service methods are modelled.
- `get_voices` and `get_user_info` in ElevenLabs are not modelled. They are plain GET requests.
- The exception handler of `sync_contacts_task` (crm.py line 68) calls a `logger` the module never defines, so it raises a `NameError` of its own. The task runs in the background and nothing is committed either way, which is what `CrmEndpoint.SyncContactsTask` states; the second exception is not modelled.
- Compliance.ImportRow, Compliance.StageRow, Compliance.StageRows and Compliance.UploadDncList assume the session autoflushes: a number staged earlier in the same upload is found by the lookup and counted as skipped. `app/db/session.py` is not part of this model. With autoflush off, a file that repeats a number would stage it twice and the commit would fail with a 500.
- CrmEndpoint.SyncStep, CrmEndpoint.SyncAll and CrmEndpoint.SyncContactsTask assume the same autoflush: the phone lookup in the sync loop sees contacts added earlier in the loop, and that flush is where a duplicate HubSpot id fails.
- Console logging and error toasts in the softphone are not modelled.
- The search answer of HubSpot carries no `id` at its top level. `HubspotService.ExistingAsWritten` therefore yields `None` as the id when it takes the whole answer.
- `AuthEndpoint.Register`: the response `Token.user` is modelled as the user's id.
- `CallsEndpoint.GetCallStats`: the two rates are stated as exact quotients. Float rounding is not modelled.

## Findings

| source | as written | input that shows it | evidently intended | confidence | as-written member | corrected member |
|---|---|---|---|---|---|---|
| buttdialer/backend/app/api/v1/endpoints/calls.py:172-173 | `started_at <= date_to` compares a timestamp with a date, which becomes midnight at the start of `date_to` | a call started at 01:00 on the `date_to` day, queried with that `date_to` | the `date_to` day is included, as `date_from`'s day is | not executed | CallsEndpoint.DateToDropsItsOwnDay | CallsEndpoint.InDatesMeansDays |
| buttdialer/backend/app/services/hubspot_service.py:45-61 | without an e-mail, an empty phone search answer (`{"total": 0, "results": []}`) is still truthy, so it is taken as the existing contact | `create_or_update_contact(phone="+15550100")` with no HubSpot contact for that phone | POST a new contact | not executed | HubspotService.UnknownPhoneIsPatchedAtNone | HubspotService.Existing |
