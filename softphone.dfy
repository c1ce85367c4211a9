/** The browser softphone, `TwilioVoiceService` of
    `frontend/src/services/twilioService.ts`.  The Twilio Voice SDK is
    outside the model: a device and a call are identified by numbers, what
    the service asks of them is logged as commands, and what they answer
    (a token, a registration, a connected call, their own state) comes in as
    parameters.  The optional status callback is a flag: when one was
    given, every status the service reports is appended to a log. */
module Softphone {
  import opened Wrappers

  const Ready := "ready"
  const Error := "error"
  const Incoming := "incoming"
  const Connected := "connected"
  const Connecting := "connecting"
  const Disconnected := "disconnected"
  /** The device state the SDK reports once registered. */
  const Registered := "registered"

  /** One call of the status callback: the status and the call it is about. */
  datatype Report = Report(status: string, call: Option<nat>)

  /** What the service asks of the SDK. */
  datatype Command =
    | CreateDevice(device: nat, token: string)
    | Register(device: nat)
    | UpdateToken(device: nat, token: string)
    | Connect(device: nat, to: string)
    | AcceptCall(call: nat)
    | RejectCall(call: nat)
    | DisconnectCall(call: nat)
    | MuteCall(call: nat, muted: bool)
    | Unregister(device: nat)
    | Destroy(device: nat)

  /** How the SDK's `device.connect` ends: a call, or the error it throws. */
  datatype ConnectAnswer = Established(call: nat) | ConnectFailed(message: string)

  /** A method's result: its value, or the message of the `Error` it throws. */
  datatype Thrown<T> = Returned(value: T) | Threw(message: string)

  // ---------------------------------------------------------------- the state machine

  /** The two fields the service keeps: the device and the active call. */
  datatype Phone = Phone(device: Option<nat>, activeCall: Option<nat>)

  /** What changes those fields: a device created with a fetched token, an
      incoming call, a call placed by `makeCall`, a call event that ends the
      active call (`disconnect`, `cancel`, `reject` or `error`), and
      `disconnect()` of the service. */
  datatype Event = Initialized(device: nat) | Rang(call: nat) | Dialed(call: nat) | Ended | ShutDown

  /** The guards of `makeCall`, in order: the error it throws, if any. */
  function DialRefusal(p: Phone): (r: Option<string>)
    ensures r.None? <==> p.device.Some? && p.activeCall.None?
    ensures p.device.None? ==> r == Some("Device not initialized")
    ensures p.device.Some? && p.activeCall.Some? ==> r == Some("Already on a call")
  {
    if p.device.None? then Some("Device not initialized")
    else if p.activeCall.Some? then Some("Already on a call")
    else None
  }

  /** The fields after one event.  An incoming call replaces any active
      call; a refused dial changes nothing; an ending call event clears the
      active call whichever call it comes from. */
  function Next(p: Phone, e: Event): Phone {
    match e
    case Initialized(d) => p.(device := Some(d))
    case Rang(c) => p.(activeCall := Some(c))
    case Dialed(c) => if DialRefusal(p).None? then p.(activeCall := Some(c)) else p
    case Ended => p.(activeCall := None)
    case ShutDown => Phone(None, None)
  }

  /** The fields after a run of events. */
  function Run(p: Phone, events: seq<Event>): Phone
    decreases |events|
  {
    if events == [] then p else Run(Next(p, events[0]), events[1..])
  }

  /** A call is only ever active on an initialised device. */
  predicate Coherent(p: Phone) {
    p.activeCall.Some? ==> p.device.Some?
  }

  /** Incoming calls come from a live device: the listeners hang on the
      device, and `disconnect()` destroys it. */
  predicate Possible(p: Phone, e: Event) {
    e.Rang? ==> p.device.Some?
  }

  /** Every possible event keeps the fields coherent, and a dial is
      admitted exactly when the guards of `makeCall` pass. */
  lemma NextCoherent(p: Phone, e: Event)
    requires Coherent(p) && Possible(p, e)
    ensures Coherent(Next(p, e))
    ensures e.Dialed? ==> (Next(p, e).activeCall == Some(e.call) <==> DialRefusal(p).None? || p.activeCall == Some(e.call))
  {
  }

  /** Once the service is shut down, every later dial is refused with
      "Device not initialized" until a device is created again, whatever
      else happens. */
  lemma {:induction false} OfflineUntilInitialized(p: Phone, events: seq<Event>)
    requires p.device.None?
    requires forall i :: 0 <= i < |events| ==> !events[i].Initialized?
    ensures Run(p, events).device.None?
    ensures DialRefusal(Run(p, events)) == Some("Device not initialized")
    decreases |events|
  {
    if events != [] {
      OfflineUntilInitialized(Next(p, events[0]), events[1..]);
    }
  }

  /** While a call is active and no ending event or shutdown comes, the
      call stays active (an incoming call may take its place) and every
      dial on a device is refused with "Already on a call". */
  lemma {:induction false} BusyUntilEnded(p: Phone, events: seq<Event>)
    requires p.activeCall.Some?
    requires forall i :: 0 <= i < |events| ==> !events[i].Ended? && !events[i].ShutDown?
    ensures Run(p, events).activeCall.Some?
    ensures p.device.Some? ==> DialRefusal(Run(p, events)) == Some("Already on a call")
    decreases |events|
  {
    if events != [] {
      BusyUntilEnded(Next(p, events[0]), events[1..]);
    }
  }

  /** The status log entry of one report: nothing without a callback. */
  function Notice(listening: bool, status: string, call: Option<nat>): (r: seq<Report>)
    ensures listening ==> r == [Report(status, call)]
    ensures !listening ==> r == []
  {
    if listening then [Report(status, call)] else []
  }

  // ---------------------------------------------------------------- the service

  class TwilioVoiceService {
    var device: Option<nat>
    var activeCall: Option<nat>
    /** A status callback was given to `initialize`. */
    var listening: bool
    var reports: seq<Report>
    var commands: seq<Command>

    function State(): Phone
      reads this
    {
      Phone(device, activeCall)
    }

    ghost predicate Valid()
      reads this
    {
      Coherent(State())
    }

    /** The module-level instance: no device, no call, no callback. */
    constructor ()
      ensures Valid() && State() == Phone(None, None) && !listening && reports == [] && commands == []
    {
      device, activeCall := None, None;
      listening := false;
      reports, commands := [], [];
    }

    /** Appends one report when a callback was given. */
    method Notify(status: string, call: Option<nat>)
      modifies this
      ensures reports == old(reports) + Notice(listening, status, call)
      ensures State() == old(State()) && listening == old(listening) && commands == old(commands)
    {
      if listening {
        reports := reports + [Report(status, call)];
      }
    }

    /** `initialize`: the callback is stored first; without a token nothing
        else changes and `error` is reported.  With one a device is created
        and stored before it registers, so a failed registration reports
        `error` but leaves the device in place. */
    method Initialize(callback: bool, token: Option<string>, registers: bool, newDevice: nat)
      requires Valid()
      modifies this
      ensures Valid() && listening == callback
      ensures token.None? ==>
        && State() == old(State()) && commands == old(commands)
        && reports == old(reports) + Notice(callback, Error, None)
      ensures token.Some? ==>
        && State() == Next(old(State()), Initialized(newDevice))
        && commands == old(commands) + [CreateDevice(newDevice, token.value), Register(newDevice)]
        && reports == old(reports) + Notice(callback, if registers then Ready else Error, None)
    {
      listening := callback;
      if token.None? {
        Notify(Error, None);
        return;
      }
      device := Some(newDevice);
      commands := commands + [CreateDevice(newDevice, token.value), Register(newDevice)];
      if registers {
        Notify(Ready, None);
      } else {
        Notify(Error, None);
      }
    }

    /** The device's `registered` event. */
    method OnRegistered()
      modifies this
      ensures State() == old(State()) && listening == old(listening) && commands == old(commands)
      ensures reports == old(reports) + Notice(listening, Ready, None)
    {
      Notify(Ready, None);
    }

    /** The device's `error` event: reported, the call is kept. */
    method OnDeviceError()
      modifies this
      ensures State() == old(State()) && listening == old(listening) && commands == old(commands)
      ensures reports == old(reports) + Notice(listening, Error, None)
    {
      Notify(Error, None);
    }

    /** The device's `incoming` event: the call becomes the active call,
        replacing any other, and is reported. */
    method OnIncoming(call: nat)
      requires Valid() && Possible(State(), Rang(call))
      modifies this
      ensures Valid() && State() == Next(old(State()), Rang(call)) && activeCall == Some(call)
      ensures listening == old(listening) && commands == old(commands)
      ensures reports == old(reports) + Notice(listening, Incoming, Some(call))
    {
      activeCall := Some(call);
      Notify(Incoming, Some(call));
    }

    /** The device's `tokenWillExpire` event: a freshly fetched token is
        handed to the current device, if there is one; a failed fetch is
        only logged. */
    method OnTokenWillExpire(token: Option<string>)
      modifies this
      ensures State() == old(State()) && listening == old(listening) && reports == old(reports)
      ensures token.Some? && device.Some? ==> commands == old(commands) + [UpdateToken(device.value, token.value)]
      ensures token.None? || device.None? ==> commands == old(commands)
    {
      if token.Some? && device.Some? {
        commands := commands + [UpdateToken(device.value, token.value)];
      }
    }

    /** A call's `accept` event: reported, nothing changes. */
    method OnAccept(call: nat)
      modifies this
      ensures State() == old(State()) && listening == old(listening) && commands == old(commands)
      ensures reports == old(reports) + Notice(listening, Connected, Some(call))
    {
      Notify(Connected, Some(call));
    }

    /** A call's `disconnect`, `cancel` or `reject` event (`failed` false)
        or its `error` event (`failed` true): the active call is cleared,
        whichever call it is, and `ready` or `error` is reported. */
    method OnCallEnded(failed: bool)
      requires Valid()
      modifies this
      ensures Valid() && State() == Next(old(State()), Ended) && activeCall.None? && device == old(device)
      ensures listening == old(listening) && commands == old(commands)
      ensures reports == old(reports) + Notice(listening, if failed then Error else Ready, None)
    {
      activeCall := None;
      Notify(if failed then Error else Ready, None);
    }

    /** `makeCall`: the guards throw with nothing changed; otherwise the
        device is asked to connect, an error it throws is rethrown with
        nothing else changed, and a connected call becomes the active call
        and is reported as `connecting`. */
    method MakeCall(phoneNumber: string, answer: ConnectAnswer) returns (r: Thrown<nat>)
      requires Valid()
      modifies this
      ensures Valid() && listening == old(listening)
      ensures DialRefusal(old(State())).Some? ==>
        && r == Threw(DialRefusal(old(State())).value)
        && State() == old(State()) && reports == old(reports) && commands == old(commands)
      ensures DialRefusal(old(State())).None? ==>
        && commands == old(commands) + [Connect(old(device).value, phoneNumber)]
        && (answer.ConnectFailed? ==> r == Threw(answer.message) && State() == old(State()) && reports == old(reports))
        && (answer.Established? ==>
              && r == Returned(answer.call)
              && State() == Next(old(State()), Dialed(answer.call))
              && reports == old(reports) + Notice(listening, Connecting, Some(answer.call)))
    {
      var refusal := DialRefusal(State());
      if refusal.Some? {
        return Threw(refusal.value);
      }
      commands := commands + [Connect(device.value, phoneNumber)];
      match answer
      case ConnectFailed(message) =>
        r := Threw(message);
      case Established(call) =>
        activeCall := Some(call);
        Notify(Connecting, Some(call));
        r := Returned(call);
    }

    /** The call controls `acceptCall`, `rejectCall`, `hangup`, `mute` and
        `unmute`: one command to the active call, nothing at all without
        one. */
    method Control(c: nat -> Command)
      modifies this
      ensures State() == old(State()) && listening == old(listening) && reports == old(reports)
      ensures activeCall.None? ==> commands == old(commands)
      ensures activeCall.Some? ==> commands == old(commands) + [c(activeCall.value)]
    {
      if activeCall.Some? {
        commands := commands + [c(activeCall.value)];
      }
    }

    method AcceptActiveCall()
      modifies this
      ensures State() == old(State()) && listening == old(listening) && reports == old(reports)
      ensures activeCall.None? ==> commands == old(commands)
      ensures activeCall.Some? ==> commands == old(commands) + [AcceptCall(activeCall.value)]
    {
      Control((c: nat) => AcceptCall(c));
    }

    method RejectActiveCall()
      modifies this
      ensures State() == old(State()) && listening == old(listening) && reports == old(reports)
      ensures activeCall.None? ==> commands == old(commands)
      ensures activeCall.Some? ==> commands == old(commands) + [RejectCall(activeCall.value)]
    {
      Control((c: nat) => RejectCall(c));
    }

    /** `hangup`: the active call is asked to disconnect; the field is
        cleared only by the `disconnect` event that follows. */
    method Hangup()
      modifies this
      ensures State() == old(State()) && listening == old(listening) && reports == old(reports)
      ensures activeCall.None? ==> commands == old(commands)
      ensures activeCall.Some? ==> commands == old(commands) + [DisconnectCall(activeCall.value)]
    {
      Control((c: nat) => DisconnectCall(c));
    }

    /** `mute` (`muted` true) and `unmute` (`muted` false). */
    method SetMuted(muted: bool)
      modifies this
      ensures State() == old(State()) && listening == old(listening) && reports == old(reports)
      ensures activeCall.None? ==> commands == old(commands)
      ensures activeCall.Some? ==> commands == old(commands) + [MuteCall(activeCall.value, muted)]
    {
      Control((c: nat) => MuteCall(c, muted));
    }

    /** `isMuted`, given what the SDK call answers. */
    function IsMuted(callMuted: bool): (r: bool)
      reads this
      ensures r <==> activeCall.Some? && callMuted
    {
      activeCall.Some? && callMuted
    }

    /** `getCallStatus`, given what the SDK call answers: `ready` without a
        call, and also when the SDK answers with an empty status. */
    function GetCallStatus(callStatus: string): (r: string)
      reads this
      ensures activeCall.None? || callStatus == "" ==> r == Ready
      ensures activeCall.Some? && callStatus != "" ==> r == callStatus
    {
      if activeCall.Some? && callStatus != "" then callStatus else Ready
    }

    /** `isConnected`, given the SDK device's state. */
    function IsConnected(deviceState: string): (r: bool)
      reads this
      ensures r <==> device.Some? && deviceState == Registered
    {
      device.Some? && deviceState == Registered
    }

    /** `disconnect()`: a device is unregistered, destroyed and dropped; the
        active call is dropped without being hung up; `disconnected` is
        reported. */
    method Disconnect()
      modifies this
      ensures Valid() && State() == Next(old(State()), ShutDown) && State() == Phone(None, None)
      ensures listening == old(listening)
      ensures old(device).Some? ==> commands == old(commands) + [Unregister(old(device).value), Destroy(old(device).value)]
      ensures old(device).None? ==> commands == old(commands)
      ensures reports == old(reports) + Notice(listening, Disconnected, None)
    {
      if device.Some? {
        commands := commands + [Unregister(device.value), Destroy(device.value)];
        device := None;
      }
      activeCall := None;
      Notify(Disconnected, None);
    }
  }
}
