/** The realtime connection registry of `app/services/websocket_manager.py`.
    `ConnectionManager` keeps two dictionaries: client id to socket, and
    user id to the list of that user's client ids.  Python dictionaries
    iterate in insertion order, so each dictionary is modelled as a map
    together with the order of its keys.  Sockets are opaque; whether a
    send fails is an oracle, the set of clients whose socket fails. */
module WebsocketManager {
  import opened Wrappers

  type Socket = nat

  const CallUpdateType := "call_update"
  const CallNotificationType := "call_notification"

  /** The `{"type": ..., "data": ...}` envelope; the payload is opaque. */
  datatype Envelope = Envelope(kind: string, data: string)

  /** The two dictionaries, each with the order in which its keys were
      inserted. */
  datatype Registry = Registry(active: map<string, Socket>, activeOrder: seq<string>,
                               userClients: map<nat, seq<string>>, userOrder: seq<nat>)

  predicate NoDups<T(==)>(s: seq<T>) {
    forall i, j :: 0 <= i < j < |s| ==> s[i] != s[j]
  }

  /** Some user's list holds the client. */
  ghost predicate Held(r: Registry, c: string) {
    exists u :: u in r.userClients && c in r.userClients[u]
  }

  /** What every operation keeps: each key order lists exactly the keys,
      once; no user maps to an empty list; every active client is in some
      user's list. */
  ghost predicate Consistent(r: Registry) {
    && NoDups(r.activeOrder) && (forall c :: c in r.active <==> c in r.activeOrder)
    && NoDups(r.userOrder) && (forall u :: u in r.userClients <==> u in r.userOrder)
    && (forall u :: u in r.userClients ==> r.userClients[u] != [])
    && (forall c :: c in r.active ==> Held(r, c))
  }

  /** A user's client ids, empty when the user has no entry. */
  function Clients(r: Registry, u: nat): seq<string> {
    if u in r.userClients then r.userClients[u] else []
  }

  /** A key order with one key deleted. */
  function Without<T(==,!new)>(order: seq<T>, x: T): (r: seq<T>)
    ensures forall y :: y in r <==> y in order && y != x
    ensures NoDups(order) ==> NoDups(r)
  {
    if order == [] then []
    else if order[0] == x then Without(order[1..], x)
    else
      var rest := Without(order[1..], x);
      assert NoDups(order) ==> order[0] !in rest && NoDups(rest) by {
        if NoDups(order) {
          assert forall i, j :: 0 <= i < j < |order[1..]| ==> order[1..][i] == order[i + 1] && order[1..][j] == order[j + 1];
        }
      }
      [order[0]] + rest
  }

  // ---------------------------------------------------------------- connect / disconnect

  /** `connect`: the client's socket is (re)stored, and the client id is
      appended to the user's list, which is created when absent. */
  function Connected(r: Registry, c: string, s: Socket, u: nat): (r': Registry)
    ensures r'.active == r.active[c := s]
    ensures Clients(r', u) == Clients(r, u) + [c]
    ensures forall v :: v != u ==> Clients(r', v) == Clients(r, v)
  {
    Registry(r.active[c := s], if c in r.active then r.activeOrder else r.activeOrder + [c],
             r.userClients[u := Clients(r, u) + [c]], if u in r.userClients then r.userOrder else r.userOrder + [u])
  }

  lemma ConnectedConsistent(r: Registry, c: string, s: Socket, u: nat)
    requires Consistent(r)
    ensures Consistent(Connected(r, c, s, u))
  {
    var r' := Connected(r, c, s, u);
    forall d | d in r'.active
      ensures Held(r', d)
    {
      if d == c {
        assert c in r'.userClients[u];
      } else {
        var v :| v in r.userClients && d in r.userClients[v];
        if v == u {
          assert d in r'.userClients[u];
        } else {
          assert r'.userClients[v] == r.userClients[v];
        }
      }
    }
  }

  /** `disconnect`: the client's socket is dropped if present; then, if the
      user has an entry, one occurrence of the client leaves the user's
      list, and an emptied list is deleted.  `list.remove` raises when the
      client is not in the user's list: the socket is already gone by
      then, and the lists are left as they were (the second result). */
  function Disconnected(r: Registry, c: string, u: nat): (result: (Registry, bool))
    ensures result.0.active == r.active - {c}
    ensures result.1 <==> u in r.userClients && c !in r.userClients[u]
    ensures result.1 ==> result.0.userClients == r.userClients
    ensures !result.1 && c in Clients(r, u) ==> Clients(result.0, u) == RemoveFirst(Clients(r, u), c)
    ensures !result.1 && c !in Clients(r, u) ==> Clients(result.0, u) == Clients(r, u)
    ensures forall v :: v != u ==> Clients(result.0, v) == Clients(r, v)
  {
    var r1 := r.(active := r.active - {c}, activeOrder := Without(r.activeOrder, c));
    if u !in r.userClients then (r1, false)
    else if c !in r.userClients[u] then (r1, true)
    else
      var rest := RemoveFirst(r.userClients[u], c);
      if rest == [] then (r1.(userClients := r.userClients - {u}, userOrder := Without(r.userOrder, u)), false)
      else (r1.(userClients := r.userClients[u := rest]), false)
  }

  /** `disconnect` undoes `connect` for a client id that was new: the
      socket map and every user's list are as before. */
  lemma ConnectThenDisconnect(r: Registry, c: string, s: Socket, u: nat)
    requires c !in r.active && c !in Clients(r, u)
    ensures var (r', raised) := Disconnected(Connected(r, c, s, u), c, u);
      && !raised && r'.active == r.active
      && forall v :: Clients(r', v) == Clients(r, v)
  {
    RemoveAppended(Clients(r, u), c);
    var r1 := Connected(r, c, s, u);
    assert r1.active - {c} == r.active;
  }

  /** An occurrence of another client survives the removal of one
      occurrence of `c`. */
  lemma RemoveFirstKeepsOthers(s: seq<string>, c: string, d: string)
    requires c in s && d != c
    ensures d in RemoveFirst(s, c) <==> d in s
  {
    CountPositive(s, d);
    CountPositive(RemoveFirst(s, c), d);
  }

  lemma DisconnectedConsistent(r: Registry, c: string, u: nat)
    requires Consistent(r)
    ensures Consistent(Disconnected(r, c, u).0)
  {
    var r' := Disconnected(r, c, u).0;
    forall d | d in r'.active
      ensures Held(r', d)
    {
      var v :| v in r.userClients && d in r.userClients[v];
      if v == u && u in r.userClients && c in r.userClients[u] {
        RemoveFirstKeepsOthers(r.userClients[u], c, d);
        assert d in Clients(r', u);
      } else {
        assert d in Clients(r', v);
      }
    }
  }

  // ---------------------------------------------------------------- sending to one user

  /** The clients a message to user `u` is sent to: the user's list, in
      order and with repetitions, keeping those that have a socket. */
  function UserTargets(r: Registry, u: nat): seq<string> {
    Filter(Clients(r, u), HasSocket(r))
  }

  /** Whether a client has a socket. */
  function HasSocket(r: Registry): string -> bool {
    c => c in r.active
  }

  /** Whether a client is not the excluded one. */
  function NotExcluded(exclude: Option<string>): string -> bool {
    c => exclude != Some(c)
  }

  /** The sends that fail, in the order they were attempted. */
  function Failing(targets: seq<string>, failing: set<string>): seq<string> {
    Filter(targets, FailsIn(failing))
  }

  /** Whether sending to a client raises. */
  function FailsIn(failing: set<string>): string -> bool {
    c => c in failing
  }

  /** The clean-up loop of `send_user_message`: disconnect each failed
      client from user `u` in turn, stopping at the first `disconnect` that
      raises. */
  function DisconnectEach(r: Registry, cs: seq<string>, u: nat): (Registry, bool)
    decreases |cs|
  {
    if cs == [] then (r, false)
    else
      var step := Disconnected(r, cs[0], u);
      if step.1 then step else DisconnectEach(step.0, cs[1..], u)
  }

  /** The clients a sequence mentions. */
  function Elements(cs: seq<string>): set<string> {
    set c | c in cs
  }

  /** Dropping the first client of `cs` and then the rest drops them all. */
  lemma {:induction false} DropElementsCons(m: map<string, Socket>, cs: seq<string>)
    requires cs != []
    ensures (m - {cs[0]}) - Elements(cs[1..]) == m - Elements(cs)
  {
    assert Elements(cs) == {cs[0]} + Elements(cs[1..]);
  }

  lemma ElementsEmpty(cs: seq<string>)
    requires cs == []
    ensures Elements(cs) == {}
  {
  }

  /** Sequential removal of one occurrence of each of `cs`. */
  function RemoveEach(s: seq<string>, cs: seq<string>): seq<string>
    decreases |cs|
  {
    if cs == [] then s
    else if cs[0] in s then RemoveEach(RemoveFirst(s, cs[0]), cs[1..])
    else RemoveEach(s, cs[1..])
  }

  /** Every client occurs in `cs` at most as often as in `s`. */
  ghost predicate Within(cs: seq<string>, s: seq<string>) {
    forall x :: Count(cs, x) <= Count(s, x)
  }

  /** The clean-up never raises when the clients removed come from the
      user's own list; it drops their sockets, removes one occurrence of
      each from that user's list, and leaves every other user's list alone. */
  lemma {:induction false} DisconnectEachWithin(r: Registry, cs: seq<string>, u: nat)
    requires Within(cs, Clients(r, u))
    ensures var (r', raised) := DisconnectEach(r, cs, u);
      && !raised
      && r'.active == r.active - Elements(cs)
      && Clients(r', u) == RemoveEach(Clients(r, u), cs)
      && forall v :: v != u ==> Clients(r', v) == Clients(r, v)
    decreases |cs|
  {
    if cs != [] {
      var c := cs[0];
      assert Count(cs, c) > 0;
      CountPositive(Clients(r, u), c);
      var step := Disconnected(r, c, u);
      var rest := RemoveFirst(Clients(r, u), c);
      forall x
        ensures Count(cs[1..], x) <= Count(Clients(step.0, u), x)
      {
      }
      DisconnectEachWithin(step.0, cs[1..], u);
      assert !step.1 && step.0.active == r.active - {c};
      assert DisconnectEach(r, cs, u) == DisconnectEach(step.0, cs[1..], u);
      DropElementsCons(r.active, cs);
    } else {
      ElementsEmpty(cs);
    }
  }

  lemma {:induction false} DisconnectEachConsistent(r: Registry, cs: seq<string>, u: nat)
    requires Consistent(r)
    ensures Consistent(DisconnectEach(r, cs, u).0)
    decreases |cs|
  {
    if cs != [] {
      DisconnectedConsistent(r, cs[0], u);
      var step := Disconnected(r, cs[0], u);
      if !step.1 {
        DisconnectEachConsistent(step.0, cs[1..], u);
      }
    }
  }

  lemma {:induction false} FilterWithin(s: seq<string>, p: string -> bool)
    ensures Within(Filter(s, p), s)
  {
    if s != [] {
      FilterWithin(s[1..], p);
    }
  }

  /** The failed sends of a message to `u` come from `u`'s list. */
  lemma FailingWithin(r: Registry, u: nat, failing: set<string>)
    ensures Within(Failing(UserTargets(r, u), failing), Clients(r, u))
  {
    FilterWithin(UserTargets(r, u), FailsIn(failing));
    FilterWithin(Clients(r, u), HasSocket(r));
  }

  // ---------------------------------------------------------------- broadcast

  /** The first user, in key order, whose list holds `c`. */
  function FirstHolder(order: seq<nat>, clients: map<nat, seq<string>>, c: string): (r: Option<nat>)
    ensures r.Some? ==> r.value in order && r.value in clients && c in clients[r.value]
    ensures r.None? ==> forall u :: u in order && u in clients ==> c !in clients[u]
  {
    if order == [] then None
    else if order[0] in clients && c in clients[order[0]] then Some(order[0])
    else FirstHolder(order[1..], clients, c)
  }

  /** Whether user `u`'s list holds `c`. */
  predicate Holds(clients: map<nat, seq<string>>, u: nat, c: string) {
    u in clients && c in clients[u]
  }

  /** The holder found is the first one in key order: no user before it
      holds the client. */
  lemma {:induction false} FirstHolderIsFirst(order: seq<nat>, clients: map<nat, seq<string>>, c: string)
    ensures var r := FirstHolder(order, clients, c);
      r.Some? ==> exists i :: 0 <= i < |order| && order[i] == r.value &&
                              forall j :: 0 <= j < i ==> !Holds(clients, order[j], c)
  {
    var r := FirstHolder(order, clients, c);
    if order != [] && r.Some? {
      if Holds(clients, order[0], c) {
        assert order[0] == r.value;
      } else {
        var rest := order[1..];
        FirstHolderIsFirst(rest, clients, c);
        var i :| 0 <= i < |rest| && rest[i] == r.value && forall j :: 0 <= j < i ==> !Holds(clients, rest[j], c);
        assert order[i + 1] == r.value;
        forall j | 0 <= j < i + 1
          ensures !Holds(clients, order[j], c)
        {
          if j > 0 {
            assert order[j] == rest[j - 1];
          }
        }
      }
    }
  }

  /** The clients a broadcast is sent to: every client with a socket, in
      key order, except the excluded one. */
  function BroadcastTargets(r: Registry, exclude: Option<string>): seq<string> {
    Filter(r.activeOrder, NotExcluded(exclude))
  }

  /** The clean-up loop of `broadcast`: each failed client is disconnected
      from the first user whose list holds it; a client no list holds is
      left alone. */
  function CleanUp(r: Registry, cs: seq<string>): Registry
    decreases |cs|
  {
    if cs == [] then r
    else
      match FirstHolder(r.userOrder, r.userClients, cs[0])
      case None => CleanUp(r, cs[1..])
      case Some(u) => CleanUp(Disconnected(r, cs[0], u).0, cs[1..])
  }

  /** Every active client has a holder. */
  lemma ActiveHasHolder(r: Registry, c: string)
    requires Consistent(r) && c in r.active
    ensures FirstHolder(r.userOrder, r.userClients, c).Some?
  {
    var u :| u in r.userClients && c in r.userClients[u];
    assert u in r.userOrder;
  }

  /** A broadcast's clean-up keeps the registry consistent. */
  lemma {:induction false} CleanUpConsistent(r: Registry, cs: seq<string>)
    requires Consistent(r)
    ensures Consistent(CleanUp(r, cs))
    decreases |cs|
  {
    if cs != [] {
      var h := FirstHolder(r.userOrder, r.userClients, cs[0]);
      if h.Some? {
        DisconnectedConsistent(r, cs[0], h.value);
        CleanUpConsistent(Disconnected(r, cs[0], h.value).0, cs[1..]);
      } else {
        CleanUpConsistent(r, cs[1..]);
      }
    }
  }

  /** One step of a broadcast's clean-up takes the first failed client's
      socket away and keeps the registry consistent. */
  lemma CleanUpFirst(r: Registry, cs: seq<string>) returns (next: Registry)
    requires Consistent(r) && cs != []
    ensures CleanUp(r, cs) == CleanUp(next, cs[1..])
    ensures Consistent(next) && next.active == r.active - {cs[0]}
  {
    var h := FirstHolder(r.userOrder, r.userClients, cs[0]);
    if h.Some? {
      next := Disconnected(r, cs[0], h.value).0;
      DisconnectedConsistent(r, cs[0], h.value);
    } else {
      if cs[0] in r.active {
        ActiveHasHolder(r, cs[0]);
      }
      next := r;
    }
  }

  /** One step of the clean-up loop: `next` is the registry after the first
      failed client has been handled. */
  lemma CleanUpUnfold(r: Registry, cs: seq<string>, next: Registry)
    requires cs != []
    requires FirstHolder(r.userOrder, r.userClients, cs[0]).None? ==> next == r
    requires FirstHolder(r.userOrder, r.userClients, cs[0]).Some? ==>
      next == Disconnected(r, cs[0], FirstHolder(r.userOrder, r.userClients, cs[0]).value).0
    ensures CleanUp(r, cs) == CleanUp(next, cs[1..])
  {
  }

  /** After a broadcast's clean-up exactly the failed clients have lost
      their sockets; every other client keeps its own. */
  lemma {:induction false} CleanUpRemoves(r: Registry, cs: seq<string>)
    requires Consistent(r)
    ensures CleanUp(r, cs).active == r.active - Elements(cs)
    decreases |cs|
  {
    if cs != [] {
      var next := CleanUpFirst(r, cs);
      CleanUpRemoves(next, cs[1..]);
      DropElementsCons(r.active, cs);
    } else {
      ElementsEmpty(cs);
    }
  }

  // ---------------------------------------------------------------- the manager

  class ConnectionManager {
    var active: map<string, Socket>
    var activeOrder: seq<string>
    var userClients: map<nat, seq<string>>
    var userOrder: seq<nat>

    function State(): Registry
      reads this
    {
      Registry(active, activeOrder, userClients, userOrder)
    }

    ghost predicate Valid()
      reads this
    {
      Consistent(State())
    }

    constructor ()
      ensures Valid() && active == map[] && userClients == map[]
    {
      active, activeOrder := map[], [];
      userClients, userOrder := map[], [];
    }

    method Assign(r: Registry)
      modifies this
      ensures State() == r
    {
      active, activeOrder := r.active, r.activeOrder;
      userClients, userOrder := r.userClients, r.userOrder;
    }

    /** `connect`. */
    method Connect(socket: Socket, client: string, user: nat)
      requires Valid()
      modifies this
      ensures State() == Connected(old(State()), client, socket, user)
      ensures Valid()
    {
      ghost var before := State();
      if client !in active {
        activeOrder := activeOrder + [client];
      }
      active := active[client := socket];
      if user !in userClients {
        userClients := userClients[user := []];
        userOrder := userOrder + [user];
      }
      userClients := userClients[user := userClients[user] + [client]];
      assert State() == Connected(before, client, socket, user);
      ConnectedConsistent(before, client, socket, user);
    }

    /** `disconnect`; `raised` reports the `ValueError` of `list.remove`. */
    method Disconnect(client: string, user: nat) returns (raised: bool)
      requires Valid()
      modifies this
      ensures Valid() && (State(), raised) == Disconnected(old(State()), client, user)
    {
      DisconnectedConsistent(State(), client, user);
      var next;
      next, raised := Disconnected(State(), client, user).0, Disconnected(State(), client, user).1;
      Assign(next);
    }

    /** `send_user_message`: the message goes to each client of the user's
      list that has a socket (`sent`, in order); the clients whose send
      failed are then disconnected from that user. */
    method SendUserMessage(message: Envelope, user: nat, failing: set<string>) returns (sent: seq<string>)
      requires Valid()
      modifies this
      ensures Valid()
      ensures sent == UserTargets(old(State()), user)
      ensures State() == DisconnectEach(old(State()), Failing(sent, failing), user).0
      ensures active == old(active) - Elements(Failing(sent, failing))
      ensures Clients(State(), user) == RemoveEach(Clients(old(State()), user), Failing(sent, failing))
      ensures forall v :: v != user ==> Clients(State(), v) == Clients(old(State()), v)
    {
      var list := if user in userClients then userClients[user] else [];
      var failed;
      sent, failed := SendEach(list, HasSocket(State()), failing);
      ghost var start := State();
      FailingWithin(start, user, failing);
      DisconnectEachWithin(start, failed, user);
      DisconnectEachConsistent(start, failed, user);
      var j := 0;
      while j < |failed|
        invariant 0 <= j <= |failed|
        invariant Valid()
        invariant DisconnectEach(State(), failed[j..], user) == DisconnectEach(start, failed, user)
      {
        ghost var before := State();
        var raised := Disconnect(failed[j], user);
        assert failed[j..][1..] == failed[j + 1..];
        assert DisconnectEach(before, failed[j..], user) == DisconnectEach(State(), failed[j + 1..], user);
        j := j + 1;
      }
    }

    /** `broadcast`: the message goes to every client with a socket except
      `exclude` (`sent`, in key order); each client whose send failed is
      then disconnected from the first user whose list holds it. */
    method Broadcast(message: Envelope, exclude: Option<string>, failing: set<string>) returns (sent: seq<string>)
      requires Valid()
      modifies this
      ensures Valid()
      ensures sent == BroadcastTargets(old(State()), exclude)
      ensures State() == CleanUp(old(State()), Failing(sent, failing))
      ensures active == old(active) - Elements(Failing(sent, failing))
    {
      var failed;
      sent, failed := SendEach(activeOrder, NotExcluded(exclude), failing);
      CleanUpRemoves(State(), failed);
      DisconnectFailed(failed);
    }

    /** The clean-up loop of `broadcast`. */
    method DisconnectFailed(failed: seq<string>)
      requires Valid()
      modifies this
      ensures Valid()
      ensures State() == CleanUp(old(State()), failed)
    {
      ghost var start := State();
      var j := 0;
      while j < |failed|
        invariant 0 <= j <= |failed|
        invariant Valid()
        invariant CleanUp(State(), failed[j..]) == CleanUp(start, failed)
      {
        ghost var before := State();
        var holder := FirstHolder(userOrder, userClients, failed[j]);
        if holder.Some? {
          var _ := Disconnect(failed[j], holder.value);
        }
        CleanUpUnfold(before, failed[j..], State());
        assert failed[j..][1..] == failed[j + 1..];
        j := j + 1;
      }
      assert failed[j..] == [];
    }

    /** `send_call_update`: the call data, wrapped as a `call_update`, goes
      to the agent's clients only. */
    method SendCallUpdate(callData: string, agent: nat, failing: set<string>) returns (message: Envelope, sent: seq<string>)
      requires Valid()
      modifies this
      ensures Valid()
      ensures message == Envelope(CallUpdateType, callData)
      ensures sent == UserTargets(old(State()), agent)
      ensures State() == DisconnectEach(old(State()), Failing(sent, failing), agent).0
      ensures active == old(active) - Elements(Failing(sent, failing))
      ensures forall v :: v != agent ==> Clients(State(), v) == Clients(old(State()), v)
    {
      message := Envelope(CallUpdateType, callData);
      sent := SendUserMessage(message, agent, failing);
    }

    /** `send_call_notification`: with a truthy team id nothing is sent (the
      team branch is a placeholder); otherwise the notification is
      broadcast to every client. */
    method SendCallNotification(notification: string, teamId: Option<int>, failing: set<string>)
      returns (message: Envelope, sent: seq<string>)
      requires Valid()
      modifies this
      ensures Valid()
      ensures message == Envelope(CallNotificationType, notification)
      ensures teamId.Some? && teamId.value != 0 ==> sent == [] && State() == old(State())
      ensures !(teamId.Some? && teamId.value != 0) ==> sent == BroadcastTargets(old(State()), None)
      ensures !(teamId.Some? && teamId.value != 0) ==> State() == CleanUp(old(State()), Failing(sent, failing))
      ensures active == old(active) - Elements(Failing(sent, failing))
    {
      message := Envelope(CallNotificationType, notification);
      if teamId.Some? && teamId.value != 0 {
        sent := [];
      } else {
        sent := Broadcast(message, None, failing);
      }
    }
  }

  /** The send loop shared by `send_user_message` and `broadcast`: each
      candidate that `keep` admits is sent to, and the sends that fail are
      collected in the order they were attempted. */
  method SendEach(candidates: seq<string>, keep: string -> bool, failing: set<string>)
    returns (sent: seq<string>, failed: seq<string>)
    ensures sent == Filter(candidates, keep)
    ensures failed == Failing(sent, failing)
  {
    sent, failed := [], [];
    var i := 0;
    while i < |candidates|
      invariant 0 <= i <= |candidates|
      invariant sent == Filter(candidates[..i], keep)
      invariant failed == Failing(sent, failing)
    {
      var c := candidates[i];
      SendStep(candidates, i, keep);
      if keep(c) {
        FilterAppendOne(sent, c, FailsIn(failing));
        sent := sent + [c];
        if c in failing {
          failed := failed + [c];
        }
      }
      i := i + 1;
    }
    assert candidates[..i] == candidates;
  }

  lemma {:induction false} SendStep(candidates: seq<string>, i: nat, keep: string -> bool)
    requires i < |candidates|
    ensures Filter(candidates[..i + 1], keep)
      == Filter(candidates[..i], keep) + (if keep(candidates[i]) then [candidates[i]] else [])
  {
    assert candidates[..i + 1] == candidates[..i] + [candidates[i]];
    FilterAppendOne(candidates[..i], candidates[i], keep);
  }

  lemma FilterAppendOne(s: seq<string>, x: string, p: string -> bool)
    ensures Filter(s + [x], p) == Filter(s, p) + (if p(x) then [x] else [])
  {
    FilterAppend(s, [x], p);
  }
}
