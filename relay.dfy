/**
 * The presence and notification relay (SocketServer/server.js).
 *
 * The server keeps, per user id, the set of sockets registered for it, and
 * per socket the one work item (registro) that socket claims to be working
 * on. Messages route notifications to every open socket of a user. When a
 * socket that claims an item closes, a grace check runs five seconds later:
 * unless an open socket of the same user claims the same item again, the
 * item is moved from "in progress" (2) to "paused" (3) in the store and the
 * user's other sockets are told so.
 *
 * Every event handler runs to completion (Node's event loop), so each is one
 * method. The `setTimeout` body is `GraceCheck`, the `setInterval` body is
 * `HeartbeatTick`; the store is a map from item id to state code and every
 * `ws.send` is appended to `outbox`.
 */
module Relay {
  import opened Core
  import opened Strings

  // ---------------------------------------------------------------------
  // JSON values of incoming messages
  // ---------------------------------------------------------------------

  /** The JSON values a message field can hold (integral numbers only). */
  datatype Json = Undefined | Null | Bool(b: bool) | Num(n: int) | Str(s: string)

  /** JavaScript truthiness. */
  predicate Truthy(v: Json) {
    match v
    case Undefined => false
    case Null => false
    case Bool(b) => b
    case Num(n) => n != 0
    case Str(s) => s != []
  }

  /** JavaScript's `v || d`. */
  function Or(v: Json, d: Json): Json {
    if Truthy(v) then v else d
  }

  /** The white space and line terminators JavaScript's `String.prototype.trim` removes. */
  predicate IsJsWhiteSpace(c: char) {
    c == '\t' || c == '\n' || c == '\U{000B}' || c == '\U{000C}' || c == '\r' || c == ' '
    || c == '\U{00A0}' || c == '\U{1680}' || ('\U{2000}' <= c <= '\U{200A}')
    || c == '\U{2028}' || c == '\U{2029}' || c == '\U{202F}' || c == '\U{205F}'
    || c == '\U{3000}' || c == '\U{FEFF}'
  }

  function JsTrim(s: string): string {
    TrimWith(s, IsJsWhiteSpace)
  }

  /**
   * The user id a `register`, `assignment` or `status_update` message names:
   * present only when the field is a string that is not blank, and then trimmed.
   */
  function TargetUser(v: Json): (r: Option<string>)
    ensures r.Some? <==> v.Str? && exists i :: 0 <= i < |v.s| && !IsJsWhiteSpace(v.s[i])
    ensures r.Some? ==> r.value == JsTrim(v.s) && r.value != []
  {
    if !v.Str? then None
    else
      TrimEmptyIffAll(v.s, IsJsWhiteSpace);
      var t := JsTrim(v.s);
      if t == [] then None else Some(t)
  }

  /** A parsed message object; only the fields the relay reads or that clients send. */
  datatype Message = Message(
    kind: Json, userId: Json, toUserId: Json, registroId: Json,
    tipo: Json, titulo: Json, prioridad: Json, estado: Json, proyecto: Json,
    tiempoTranscurrido: Json, empresa: Json, codigo: Json, headerTitle: Json)

  /** What the relay sends; `fromUserId` is the sender's id or `null`. */
  datatype Payload =
    | Assignment(registroId: Json, tipo: Json, titulo: Json, prioridad: Json,
                 estado: Json, proyecto: Json, fromUserId: Json)
    | StatusUpdate(registroId: Json, estado: Json, tiempoTranscurrido: Json, fromUserId: Json)

  function SenderId(userId: Option<string>): Json {
    if userId.Some? && userId.value != [] then Str(userId.value) else Null
  }

  function AssignmentOf(m: Message, from: Option<string>): Payload {
    Assignment(Or(m.registroId, Str("")), Or(m.tipo, Str("")), Or(m.titulo, Str("")),
               Or(m.prioridad, Str("")), Or(m.estado, Str("")), Or(m.proyecto, Str("")),
               SenderId(from))
  }

  function StatusUpdateOf(m: Message, from: Option<string>): Payload {
    StatusUpdate(Or(m.registroId, Str("")), Or(m.estado, Str("")),
                 Or(m.tiempoTranscurrido, Num(0)), SenderId(from))
  }

  /** The message parsed to an object whose `type` is the string `k`. */
  predicate KindIs(m: Option<Message>, k: string) {
    m.Some? && m.value.kind.Str? && m.value.kind.s == k
  }

  /** The update the grace check announces after pausing an item. */
  function SystemPause(itemId: Json): Payload {
    StatusUpdate(itemId, Str("En Pausa"), Num(0), Str("SYSTEM"))
  }

  /**
   * Every forwarded field is either the sender's truthy value or the
   * default, so no field is ever dropped from the JSON text; the sender is a
   * non-empty id or null.
   */
  lemma ForwardedFields(m: Message, from: Option<string>)
    ensures var p := AssignmentOf(m, from);
      ((p.registroId == m.registroId && Truthy(m.registroId)) || p.registroId == Str(""))
      && ((p.titulo == m.titulo && Truthy(m.titulo)) || p.titulo == Str(""))
      && (p.fromUserId == Null || (p.fromUserId.Str? && p.fromUserId.s != [] && from == Some(p.fromUserId.s)))
    ensures var p := StatusUpdateOf(m, from);
      ((p.tiempoTranscurrido == m.tiempoTranscurrido && Truthy(m.tiempoTranscurrido)) || p.tiempoTranscurrido == Num(0))
      && ((p.estado == m.estado && Truthy(m.estado)) || p.estado == Str(""))
  {
  }

  /** The text the store compares the item id with (`sql.VarChar`). */
  function VarCharText(v: Json): string {
    match v
    case Str(s) => s
    case Num(n) => IntText(n)
    case Bool(b) => if b then "true" else "false"
    case _ => ""
  }

  // ---------------------------------------------------------------------
  // Sockets and the server
  // ---------------------------------------------------------------------

  datatype ReadyState = Open | Closing | Closed

  /** A WebSocket connection and the two properties the relay adds to it. */
  class Socket {
    var userId: Option<string>
    var isAlive: bool
    var readyState: ReadyState

    constructor ()
      ensures userId == None && isAlive && readyState == Open
    {
      userId := None;
      isAlive := true;
      readyState := Open;
    }
  }

  datatype Delivery = Delivery(to: Socket, payload: Payload)

  /** A pending `setTimeout`: the closed socket's user and the item it claimed. */
  datatype GraceTimer = GraceTimer(userId: string, itemId: Json)

  predicate HasUserId(u: Option<string>) {
    u.Some? && u.value != []
  }

  /** `m` with `ws` taken out of every set, dropping sets left empty. */
  ghost function Without(m: map<string, set<Socket>>, ws: Socket): map<string, set<Socket>> {
    map u | u in m && m[u] - {ws} != {} :: m[u] - {ws}
  }

  /** When only `u`'s set can hold `ws`, taking `ws` out of every set touches that set alone. */
  lemma WithoutOwnerSet(m: map<string, set<Socket>>, ws: Socket, u: string)
    requires u in m
    requires forall v | v in m :: m[v] != {}
    requires forall v | v in m && ws in m[v] :: v == u
    ensures Without(m, ws) == if m[u] - {ws} == {} then m - {u} else m[u := m[u] - {ws}]
  {
    var r := if m[u] - {ws} == {} then m - {u} else m[u := m[u] - {ws}];
    assert forall v :: v in r <==> v in Without(m, ws);
    assert forall v | v in r :: r[v] == Without(m, ws)[v];
  }

  /** A socket in no set leaves every set as it is. */
  lemma WithoutNoOwner(m: map<string, set<Socket>>, ws: Socket)
    requires forall v | v in m :: m[v] != {} && ws !in m[v]
    ensures Without(m, ws) == m
  {
    assert forall v :: v in m <==> v in Without(m, ws);
    assert forall v | v in m :: m[v] == m[v] - {ws};
  }

  /** `m` after `ws` moves to user `u`: out of every other set, into `u`'s. */
  ghost function Moved(m: map<string, set<Socket>>, ws: Socket, u: string): map<string, set<Socket>> {
    Without(m, ws)[u := (if u in m then m[u] else {}) + {ws}]
  }

  /** Taking `ws` out, then adding it to `u`'s set (created when missing), is the move. */
  lemma MovedStepwise(m: map<string, set<Socket>>, ws: Socket, u: string)
    ensures var w := Without(m, ws);
      var w1 := if u !in w then w[u := {}] else w;
      w1[u := w1[u] + {ws}] == Moved(m, ws, u)
  {
    var w := Without(m, ws);
    var w1 := if u !in w then w[u := {}] else w;
    assert w1[u] + {ws} == (if u in m then m[u] else {}) + {ws};
  }

  /** What a move keeps: non-empty sets under non-empty ids, `ws` only under `u`, everyone else where they were. */
  lemma MovedShape(m: map<string, set<Socket>>, ws: Socket, u: string)
    requires u != []
    requires forall v | v in m :: v != [] && m[v] != {}
    ensures var r := Moved(m, ws, u);
      && u in r && ws in r[u]
      && (forall v | v in r :: v != [] && r[v] != {})
      && (forall v | v in r :: ws in r[v] <==> v == u)
      && (forall v, s | v in r && s in r[v] && s != ws :: v in m && s in m[v])
  {
  }

  /** The sockets distinct deliveries went to. */
  ghost function Recipients(sent: seq<Delivery>): set<Socket> {
    set i | 0 <= i < |sent| :: sent[i].to
  }

  lemma RecipientsAppend(sent: seq<Delivery>, d: Delivery)
    ensures Recipients(sent + [d]) == Recipients(sent) + {d.to}
  {
    var r := sent + [d];
    assert r[|sent|] == d;
    forall s | s in Recipients(sent) ensures s in Recipients(r) {
      var i :| 0 <= i < |sent| && sent[i].to == s;
      assert r[i] == sent[i];
    }
  }

  ghost predicate DistinctRecipients(sent: seq<Delivery>) {
    forall i, j :: 0 <= i < j < |sent| ==> sent[i].to != sent[j].to
  }

  class RelayServer {
    /** Every socket the server has accepted. */
    ghost var sockets: set<Socket>
    /** `wss.clients`: the connections not yet closed. */
    var clients: set<Socket>
    var clientsByUserId: map<string, set<Socket>>
    var activeTasksBySocket: map<Socket, Json>
    /** `Registros.Estado` by item id. */
    var store: map<string, int>
    var outbox: seq<Delivery>
    var graceTimers: seq<GraceTimer>

    ghost predicate Valid()
      reads this, sockets
    {
      && clients <= sockets
      && activeTasksBySocket.Keys <= sockets
      && (forall u | u in clientsByUserId :: u != [] && clientsByUserId[u] != {} && clientsByUserId[u] <= sockets)
      && (forall u, s | u in clientsByUserId && s in clientsByUserId[u] :: s.userId == Some(u))
    }

    /** The open sockets `sendToUser(userId, …)` writes to. */
    ghost function OpenSocketsOf(userId: string): set<Socket>
      reads this, if userId in clientsByUserId then clientsByUserId[userId] else {}
    {
      if userId in clientsByUserId then set s | s in clientsByUserId[userId] && s.readyState == Open else {}
    }

    /** Some open socket of `userId` claims `itemId`. */
    ghost predicate ResumedElsewhere(userId: string, itemId: Json)
      reads this, if userId in clientsByUserId then clientsByUserId[userId] else {}
    {
      userId in clientsByUserId &&
      exists s :: s in clientsByUserId[userId] && s.readyState == Open
        && s in activeTasksBySocket && activeTasksBySocket[s] == itemId
    }

    constructor (initialStore: map<string, int>)
      ensures Valid() && fresh(this)
      ensures sockets == {} && clients == {} && clientsByUserId == map[] && activeTasksBySocket == map[]
      ensures store == initialStore && outbox == [] && graceTimers == []
    {
      sockets := {};
      clients := {};
      clientsByUserId := map[];
      activeTasksBySocket := map[];
      store := initialStore;
      outbox := [];
      graceTimers := [];
    }

    /** A new connection: alive, open, anonymous. */
    method OnConnection() returns (ws: Socket)
      requires Valid()
      modifies this`sockets, this`clients
      ensures Valid() && fresh(ws)
      ensures ws.userId == None && ws.isAlive && ws.readyState == Open
      ensures sockets == old(sockets) + {ws} && clients == old(clients) + {ws}
    {
      ws := new Socket();
      sockets := sockets + {ws};
      clients := clients + {ws};
    }

    /** `ws.on('pong')`. */
    method OnPong(ws: Socket)
      modifies ws`isAlive
      ensures ws.isAlive
    {
      ws.isAlive := true;
    }

    /**
     * The step `registerClient` and the close handler share: `ws` leaves the
     * set of the user it is registered for, and that set goes when empty.
     */
    method LeaveUserSet(ws: Socket)
      requires Valid() && ws in sockets
      modifies this`clientsByUserId
      ensures Valid()
      ensures clientsByUserId == Without(old(clientsByUserId), ws)
    {
      if HasUserId(ws.userId) && ws.userId.value in clientsByUserId {
        var prev := ws.userId.value;
        WithoutOwnerSet(clientsByUserId, ws, prev);
        var prevSet := clientsByUserId[prev] - {ws};
        if prevSet == {} {
          clientsByUserId := clientsByUserId - {prev};
        } else {
          clientsByUserId := clientsByUserId[prev := prevSet];
        }
      } else {
        WithoutNoOwner(clientsByUserId, ws);
      }
    }

    /**
     * `registerClient`: `ws` now belongs to `userId` and to no other user;
     * a set emptied by the move is deleted.
     */
    method RegisterClient(userId: string, ws: Socket)
      requires Valid() && ws in sockets && userId != []
      modifies this`clientsByUserId, ws`userId
      ensures Valid()
      ensures ws.userId == Some(userId)
      ensures clientsByUserId == Moved(old(clientsByUserId), ws, userId)
      ensures forall u | u in clientsByUserId :: ws in clientsByUserId[u] <==> u == userId
    {
      ghost var m0 := clientsByUserId;
      LeaveUserSet(ws);
      assert clientsByUserId == Without(m0, ws);
      MovedShape(m0, ws, userId);
      ghost var r := Moved(m0, ws, userId);
      ws.userId := Some(userId);
      if userId !in clientsByUserId {
        clientsByUserId := clientsByUserId[userId := {}];
      }
      var userSet := clientsByUserId[userId];
      clientsByUserId := clientsByUserId[userId := userSet + {ws}];
      MovedStepwise(m0, ws, userId);
      assert clientsByUserId == r;
      forall u: string, s: Socket | u in r && s in r[u] ensures s.userId == Some(u) {
        if s != ws {
          assert u in m0 && s in m0[u];
        }
      }
    }

    /**
     * `sendToUser`: one delivery of `payload` to each open socket of the
     * user and to nothing else; nothing for an unknown user.
     */
    method SendToUser(userId: string, payload: Payload)
      modifies this`outbox
      ensures |outbox| >= |old(outbox)| && outbox[..|old(outbox)|] == old(outbox)
      ensures forall d | d in outbox[|old(outbox)|..] :: d.payload == payload
      ensures Recipients(outbox[|old(outbox)|..]) == OpenSocketsOf(userId)
      ensures DistinctRecipients(outbox[|old(outbox)|..])
    {
      if userId !in clientsByUserId || clientsByUserId[userId] == {} {
        assert outbox[|old(outbox)|..] == [];
        return;
      }
      var userSet := clientsByUserId[userId];
      var remaining := userSet;
      ghost var n0 := |outbox|;
      while remaining != {}
        invariant remaining <= userSet
        invariant |outbox| >= n0 && outbox[..n0] == old(outbox)
        invariant forall d | d in outbox[n0..] :: d.payload == payload
        invariant Recipients(outbox[n0..]) == set s | s in userSet - remaining && s.readyState == Open
        invariant DistinctRecipients(outbox[n0..])
        invariant forall d | d in outbox[n0..] :: d.to !in remaining
        decreases remaining
      {
        var ws :| ws in remaining;
        if ws.readyState == Open {
          ghost var before := outbox[n0..];
          outbox := outbox + [Delivery(ws, payload)];
          assert outbox[n0..] == before + [Delivery(ws, payload)];
          RecipientsAppend(before, Delivery(ws, payload));
        }
        remaining := remaining - {ws};
      }
    }

    /** A `register` message: a non-blank string id registers the socket under its trimmed form. */
    method OnRegister(ws: Socket, m: Message)
      requires Valid() && ws in sockets
      modifies this`clientsByUserId, ws`userId
      ensures Valid()
      ensures TargetUser(m.userId).None? ==> clientsByUserId == old(clientsByUserId) && ws.userId == old(ws.userId)
      ensures TargetUser(m.userId).Some? ==>
        ws.userId == TargetUser(m.userId) &&
        clientsByUserId == Moved(old(clientsByUserId), ws, TargetUser(m.userId).value)
    {
      var id := TargetUser(m.userId);
      if id.None? {
        return;
      }
      RegisterClient(id.value, ws);
    }

    /** An `assignment` message: forwarded to the named user's open sockets. */
    method OnAssignment(ws: Socket, m: Message)
      modifies this`outbox
      ensures TargetUser(m.toUserId).None? ==> outbox == old(outbox)
      ensures TargetUser(m.toUserId).Some? ==>
        |outbox| >= |old(outbox)| && outbox[..|old(outbox)|] == old(outbox)
        && (forall d | d in outbox[|old(outbox)|..] :: d.payload == AssignmentOf(m, ws.userId))
        && Recipients(outbox[|old(outbox)|..]) == OpenSocketsOf(TargetUser(m.toUserId).value)
    {
      var to := TargetUser(m.toUserId);
      if to.None? {
        return;
      }
      SendToUser(to.value, AssignmentOf(m, ws.userId));
    }

    /** A `status_update` message: forwarded to the named user's open sockets. */
    method OnStatusUpdate(ws: Socket, m: Message)
      modifies this`outbox
      ensures TargetUser(m.toUserId).None? ==> outbox == old(outbox)
      ensures TargetUser(m.toUserId).Some? ==>
        |outbox| >= |old(outbox)| && outbox[..|old(outbox)|] == old(outbox)
        && (forall d | d in outbox[|old(outbox)|..] :: d.payload == StatusUpdateOf(m, ws.userId))
        && Recipients(outbox[|old(outbox)|..]) == OpenSocketsOf(TargetUser(m.toUserId).value)
    {
      var to := TargetUser(m.toUserId);
      if to.None? {
        return;
      }
      SendToUser(to.value, StatusUpdateOf(m, ws.userId));
    }

    /**
     * A `register_task` message: an anonymous socket first takes a truthy
     * string `userId` from the message (untrimmed); then a socket with a
     * user records `registroId` as its one claim when that is truthy.
     */
    method OnRegisterTask(ws: Socket, m: Message)
      requires Valid() && ws in sockets
      modifies this`clientsByUserId, this`activeTasksBySocket, ws`userId
      ensures Valid()
      ensures var recovered := !HasUserId(old(ws.userId)) && m.userId.Str? && m.userId.s != [];
        (recovered ==> ws.userId == Some(m.userId.s) && clientsByUserId == Moved(old(clientsByUserId), ws, m.userId.s))
        && (!recovered ==> ws.userId == old(ws.userId) && clientsByUserId == old(clientsByUserId))
      ensures activeTasksBySocket ==
        if HasUserId(ws.userId) && Truthy(m.registroId)
        then old(activeTasksBySocket)[ws := m.registroId]
        else old(activeTasksBySocket)
    {
      if !HasUserId(ws.userId) && Truthy(m.userId) && m.userId.Str? {
        RegisterClient(m.userId.s, ws);
      }
      if HasUserId(ws.userId) && Truthy(m.registroId) {
        activeTasksBySocket := activeTasksBySocket[ws := m.registroId];
      }
    }

    /** An `unregister_task` message: drops the socket's claim, whatever item the message names. */
    method OnUnregisterTask(ws: Socket)
      requires Valid()
      modifies this`activeTasksBySocket
      ensures Valid()
      ensures activeTasksBySocket ==
        if HasUserId(ws.userId) then old(activeTasksBySocket) - {ws} else old(activeTasksBySocket)
    {
      if HasUserId(ws.userId) {
        if ws in activeTasksBySocket {
          activeTasksBySocket := activeTasksBySocket - {ws};
        }
      }
    }

    /**
     * `ws.on('message')`: each known string `type` runs its handler and
     * touches nothing else; a message that did not parse to an object with a
     * string `type`, or whose type is unknown, changes nothing.
     */
    method OnMessage(ws: Socket, m: Option<Message>)
      requires Valid() && ws in sockets
      modifies this`clientsByUserId, this`activeTasksBySocket, this`outbox, ws`userId
      ensures Valid()
      ensures KindIs(m, "register") ==>
        activeTasksBySocket == old(activeTasksBySocket) && outbox == old(outbox)
        && (TargetUser(m.value.userId).None? ==> clientsByUserId == old(clientsByUserId) && ws.userId == old(ws.userId))
        && (TargetUser(m.value.userId).Some? ==>
              ws.userId == TargetUser(m.value.userId) &&
              clientsByUserId == Moved(old(clientsByUserId), ws, TargetUser(m.value.userId).value))
      ensures KindIs(m, "assignment") ==>
        clientsByUserId == old(clientsByUserId) && activeTasksBySocket == old(activeTasksBySocket)
        && ws.userId == old(ws.userId)
        && (TargetUser(m.value.toUserId).None? ==> outbox == old(outbox))
        && (TargetUser(m.value.toUserId).Some? ==>
              |outbox| >= |old(outbox)| && outbox[..|old(outbox)|] == old(outbox)
              && (forall d | d in outbox[|old(outbox)|..] :: d.payload == AssignmentOf(m.value, ws.userId))
              && Recipients(outbox[|old(outbox)|..]) == OpenSocketsOf(TargetUser(m.value.toUserId).value))
      ensures KindIs(m, "status_update") ==>
        clientsByUserId == old(clientsByUserId) && activeTasksBySocket == old(activeTasksBySocket)
        && ws.userId == old(ws.userId)
        && (TargetUser(m.value.toUserId).None? ==> outbox == old(outbox))
        && (TargetUser(m.value.toUserId).Some? ==>
              |outbox| >= |old(outbox)| && outbox[..|old(outbox)|] == old(outbox)
              && (forall d | d in outbox[|old(outbox)|..] :: d.payload == StatusUpdateOf(m.value, ws.userId))
              && Recipients(outbox[|old(outbox)|..]) == OpenSocketsOf(TargetUser(m.value.toUserId).value))
      ensures KindIs(m, "register_task") ==>
        outbox == old(outbox)
        && (var recovered := !HasUserId(old(ws.userId)) && m.value.userId.Str? && m.value.userId.s != [];
            (recovered ==> ws.userId == Some(m.value.userId.s) && clientsByUserId == Moved(old(clientsByUserId), ws, m.value.userId.s))
            && (!recovered ==> ws.userId == old(ws.userId) && clientsByUserId == old(clientsByUserId)))
        && activeTasksBySocket ==
             (if HasUserId(ws.userId) && Truthy(m.value.registroId)
              then old(activeTasksBySocket)[ws := m.value.registroId]
              else old(activeTasksBySocket))
      ensures KindIs(m, "unregister_task") ==>
        clientsByUserId == old(clientsByUserId) && outbox == old(outbox) && ws.userId == old(ws.userId)
        && activeTasksBySocket ==
             (if HasUserId(ws.userId) then old(activeTasksBySocket) - {ws} else old(activeTasksBySocket))
      ensures (m.None? || !m.value.kind.Str?
               || m.value.kind.s !in {"register", "assignment", "status_update", "register_task", "unregister_task"})
        ==> clientsByUserId == old(clientsByUserId) && activeTasksBySocket == old(activeTasksBySocket)
            && outbox == old(outbox) && ws.userId == old(ws.userId)
    {
      if m.None? || !m.value.kind.Str? {
        return;
      }
      var msg := m.value;
      match msg.kind.s {
        case "register" => OnRegister(ws, msg);
        case "assignment" => OnAssignment(ws, msg);
        case "status_update" => OnStatusUpdate(ws, msg);
        case "register_task" => OnRegisterTask(ws, msg);
        case "unregister_task" => OnUnregisterTask(ws);
        case _ =>
      }
    }

    /**
     * `ws.on('close')`: the connection leaves `wss.clients`; for a socket
     * with a user, its claim and its set membership go at once, and a
     * claimed item gets a grace check.
     */
    method OnClose(ws: Socket)
      requires Valid() && ws in sockets
      modifies this`clients, this`clientsByUserId, this`activeTasksBySocket, this`graceTimers, ws`readyState
      ensures Valid()
      ensures ws.readyState == Closed && clients == old(clients) - {ws}
      ensures HasUserId(ws.userId) ==>
        activeTasksBySocket == old(activeTasksBySocket) - {ws}
        && clientsByUserId == Without(old(clientsByUserId), ws)
        && graceTimers == old(graceTimers) +
             (if ws in old(activeTasksBySocket) && Truthy(old(activeTasksBySocket)[ws])
              then [GraceTimer(ws.userId.value, old(activeTasksBySocket)[ws])] else [])
      ensures !HasUserId(ws.userId) ==>
        activeTasksBySocket == old(activeTasksBySocket) && clientsByUserId == old(clientsByUserId)
        && graceTimers == old(graceTimers)
    {
      clients := clients - {ws};
      ws.readyState := Closed;
      var userId := ws.userId;
      if HasUserId(userId) {
        var closedTask := Null;
        if ws in activeTasksBySocket {
          closedTask := activeTasksBySocket[ws];
          activeTasksBySocket := activeTasksBySocket - {ws};
        }
        LeaveUserSet(ws);
        if Truthy(closedTask) {
          graceTimers := graceTimers + [GraceTimer(userId.value, closedTask)];
        }
      }
    }

    /**
     * The grace check five seconds after a close: unless an open socket of
     * the user claims the same item, the store moves that item from 2 to 3
     * and, only when a row changed, the user's open sockets get a `SYSTEM`
     * "En Pausa" update. An unreachable store changes nothing.
     */
    method GraceCheck(userId: string, itemId: Json, storeAvailable: bool) returns (resumed: bool)
      requires Valid()
      modifies this`store, this`outbox
      ensures Valid()
      ensures resumed == ResumedElsewhere(userId, itemId)
      ensures var key := VarCharText(itemId);
        var paused := !resumed && storeAvailable && key in old(store) && old(store)[key] == 2;
        store == (if paused then old(store)[key := 3] else old(store))
        && (!paused ==> outbox == old(outbox))
        && (paused ==>
              |outbox| >= |old(outbox)| && outbox[..|old(outbox)|] == old(outbox)
              && (forall d | d in outbox[|old(outbox)|..] :: d.payload == SystemPause(itemId))
              && Recipients(outbox[|old(outbox)|..]) == OpenSocketsOf(userId))
    {
      resumed := false;
      if userId in clientsByUserId && clientsByUserId[userId] != {} {
        var userSockets: set<Socket> := clientsByUserId[userId];
        var remaining: set<Socket> := userSockets;
        while remaining != {}
          invariant remaining <= userSockets
          invariant !resumed
          invariant forall s | s in userSockets - remaining ::
            !(s.readyState == Open && s in activeTasksBySocket && activeTasksBySocket[s] == itemId)
          decreases remaining
        {
          var s :| s in remaining;
          if s.readyState == Open && s in activeTasksBySocket {
            if activeTasksBySocket[s] == itemId {
              resumed := true;
              break;
            }
          }
          remaining := remaining - {s};
        }
      }
      if !resumed && storeAvailable {
        var key := VarCharText(itemId);
        if key in store && store[key] == 2 {
          store := store[key := 3];
          SendToUser(userId, SystemPause(itemId));
        }
      }
    }

    /** The earliest pending grace timer fires (all share the same delay). */
    method FireGraceTimer(storeAvailable: bool)
      requires Valid()
      modifies this`store, this`outbox, this`graceTimers
      ensures Valid()
      ensures graceTimers == if old(graceTimers) == [] then [] else old(graceTimers)[1..]
      ensures old(graceTimers) == [] ==> store == old(store) && outbox == old(outbox)
      ensures old(graceTimers) != [] ==>
        var t := old(graceTimers)[0];
        var key := VarCharText(t.itemId);
        var paused := !ResumedElsewhere(t.userId, t.itemId) && storeAvailable && key in old(store) && old(store)[key] == 2;
        store == (if paused then old(store)[key := 3] else old(store))
        && (!paused ==> outbox == old(outbox))
        && (paused ==>
              |outbox| >= |old(outbox)| && outbox[..|old(outbox)|] == old(outbox)
              && (forall d | d in outbox[|old(outbox)|..] :: d.payload == SystemPause(t.itemId))
              && Recipients(outbox[|old(outbox)|..]) == OpenSocketsOf(t.userId))
    {
      if graceTimers == [] {
        return;
      }
      var t := graceTimers[0];
      graceTimers := graceTimers[1..];
      var _ := GraceCheck(t.userId, t.itemId, storeAvailable);
    }

    /**
     * One heartbeat tick over `wss.clients`: a socket that has not answered
     * the previous ping is terminated (it starts closing); every other one
     * is marked not alive and pinged.
     */
    method HeartbeatTick()
      requires Valid()
      modifies clients
      ensures Valid()
      ensures forall s | s in clients ::
        if old(s.isAlive) then !s.isAlive && s.readyState == old(s.readyState)
        else !s.isAlive && s.readyState == (if old(s.readyState) == Closed then Closed else Closing)
      ensures forall s | s in clients :: s.userId == old(s.userId)
    {
      var remaining := clients;
      while remaining != {}
        invariant remaining <= clients
        invariant forall s | s in clients - remaining ::
          if old(s.isAlive) then !s.isAlive && s.readyState == old(s.readyState)
          else !s.isAlive && s.readyState == (if old(s.readyState) == Closed then Closed else Closing)
        invariant forall s | s in remaining :: s.isAlive == old(s.isAlive) && s.readyState == old(s.readyState)
        invariant forall s | s in clients :: s.userId == old(s.userId)
        decreases remaining
      {
        var ws :| ws in remaining;
        if !ws.isAlive {
          if ws.readyState != Closed {
            ws.readyState := Closing;
          }
        } else {
          ws.isAlive := false;
        }
        remaining := remaining - {ws};
      }
    }

    /** Two ticks with no pong between them terminate an open connection. */
    method MissedPongTerminates(ws: Socket)
      requires Valid() && ws in clients && ws.readyState == Open
      modifies clients
      ensures ws.readyState == Closing
    {
      HeartbeatTick();
      HeartbeatTick();
    }

    /** A pong between two ticks keeps an open connection open. */
    method PongKeepsAlive(ws: Socket)
      requires Valid() && ws in clients && ws.readyState == Open && ws.isAlive
      modifies clients
      ensures ws.readyState == Open && !ws.isAlive
    {
      HeartbeatTick();
      OnPong(ws);
      HeartbeatTick();
    }
  }
}
