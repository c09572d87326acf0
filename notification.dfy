/**
 * The client's side of the relay (`NotificationService`): reading a state
 * from text, the labels it shows, the filter on incoming messages, the
 * display defaults of an assignment alarm, and the bookkeeping of the
 * current user and of the one work item this client claims as active.
 * The socket is a flag saying whether it is open; what is sent over it is
 * appended to an outbox.
 */
module Notifications {
  import opened Core
  import opened Strings
  import opened Registros

  // ---------------------------------------------------------------------
  // States as text
  // ---------------------------------------------------------------------

  /** `GetEstadoTexto`: the label the service shows for a state. */
  function GetEstadoTexto(e: EstadoRegistro): string {
    match e
    case Pendiente => "Por Planificar"
    case EnEspera => "En Espera"
    case EnProceso => "En Curso"
    case Pausado => "En Pausa"
    case Cerrado => "Completado"
  }

  /** The service and the work item label every state the same way. */
  lemma GetEstadoTextoAgrees(e: EstadoRegistro)
    ensures GetEstadoTexto(e) == EstadoTexto(e)
  {
  }

  /**
   * `ParseEstado`: blank or missing text is Pendiente; otherwise the trimmed
   * text with its spaces removed is tried as a state name, then the trimmed
   * text is compared with the five labels, and anything else is Pendiente.
   */
  function ParseEstado(raw: Option<string>): EstadoRegistro {
    if IsNullOrWhiteSpace(raw) then Pendiente else ParseTrimmed(Trim(raw.value))
  }

  /** The part of `ParseEstado` after trimming. */
  function ParseTrimmed(value: string): EstadoRegistro {
    match ParseEstadoName(RemoveSpaces(value))
    case Some(e) => e
    case None => EstadoFromLabel(value)
  }

  /** The labels `ParseEstado` accepts, ignoring case; anything else is Pendiente. */
  function EstadoFromLabel(value: string): EstadoRegistro {
    if EqualsIgnoreCase(value, "Por Planificar") then Pendiente
    else if EqualsIgnoreCase(value, "En Espera") then EnEspera
    else if EqualsIgnoreCase(value, "En Curso") then EnProceso
    else if EqualsIgnoreCase(value, "En Pausa") then Pausado
    else if EqualsIgnoreCase(value, "Completado") then Cerrado
    else Pendiente
  }

  /** Anything but Pendiente comes from a state name or from a label. */
  lemma ParseEstadoSources(raw: Option<string>)
    ensures var e := ParseEstado(raw);
      e != Pendiente ==>
        && !IsNullOrWhiteSpace(raw)
        && (EqualsIgnoreCase(Trim(RemoveSpaces(Trim(raw.value))), EstadoName(e))
            || EqualsIgnoreCase(Trim(raw.value), GetEstadoTexto(e)))
  {
  }

  /**
   * Text naming a state, in any case and with spaces anywhere
   * ("en proceso"), parses as that state.
   */
  lemma ParseEstadoIgnoresCaseAndSpaces(s: string, e: EstadoRegistro)
    requires EqualsIgnoreCase(RemoveSpaces(Trim(s)), EstadoName(e))
    ensures ParseEstado(Some(s)) == e
  {
    var x := RemoveSpaces(Trim(s));
    ParseEstadoNameAnyCase(x, e);
    if IsNullOrWhiteSpace(Some(s)) {
      TrimEmptyIffAll(s, IsWhiteSpace);
      assert false;
    }
  }

  /** Reading back the label of a state gives the state. */
  lemma ParseEstadoRoundTrip(e: EstadoRegistro)
    ensures ParseEstado(Some(GetEstadoTexto(e))) == e
  {
    LabelTrimmed(e);
    ParseTrimmedLabel(e);
  }

  lemma LabelTrimmed(e: EstadoRegistro)
    ensures !IsNullOrWhiteSpace(Some(GetEstadoTexto(e))) && Trim(GetEstadoTexto(e)) == GetEstadoTexto(e)
  {
    LabelIsTrimmed(GetEstadoTexto(e));
  }

  lemma ParseTrimmedLabel(e: EstadoRegistro)
    ensures ParseTrimmed(GetEstadoTexto(e)) == e
  {
    LabelsReadBack(e);
    LabelsAsNames(e);
  }

  /** A label is read as itself: not blank, and unchanged by trimming. */
  lemma LabelIsTrimmed(t: string)
    requires t != [] && 'A' <= t[0] <= 'Z' && 'a' <= t[|t| - 1] <= 'z'
    ensures !IsNullOrWhiteSpace(Some(t)) && Trim(t) == t
  {
    TrimNoop(t, IsWhiteSpace);
    assert !IsWhiteSpace(t[0]);
  }

  /** The label list of `ParseEstado` reads every label back as its state. */
  lemma LabelsReadBack(e: EstadoRegistro)
    ensures EstadoFromLabel(GetEstadoTexto(e)) == e
  {
    if e == Pausado {
      assert ToUpper("En Pausa")[3] != ToUpper("En Curso")[3];
    }
  }

  /**
   * With its spaces removed, only the label of EnEspera is a state name
   * (its own); the others are left to the label list.
   */
  lemma LabelsAsNames(e: EstadoRegistro)
    ensures ParseEstadoName(RemoveSpaces(GetEstadoTexto(e))) == if e == EnEspera then Some(EnEspera) else None
  {
    match e
    case Pendiente => SpacedNotName("Por", "Planificar", "PorPlanificar", "Por Planificar");
    case EnEspera => EnEsperaLabelIsName();
    case EnProceso => SpacedNotName("En", "Curso", "EnCurso", "En Curso");
    case Pausado => SpacedNotName("En", "Pausa", "EnPausa", "En Pausa");
    case Cerrado => CompletadoIsNoName();
  }

  lemma EnEsperaLabelIsName()
    ensures ParseEstadoName(RemoveSpaces("En Espera")) == Some(EnEspera)
  {
    EstadoNameRoundTrip(EnEspera);
    SpacedLabel("En", "Espera");
    assert "En" + " " + "Espera" == "En Espera" && "En" + "Espera" == EstadoName(EnEspera);
  }

  lemma CompletadoIsNoName()
    ensures ParseEstadoName(RemoveSpaces("Completado")).None?
  {
    NotAName("Completado");
    RemoveSpacesNone("Completado");
  }

  /** A two-word label whose joined words are no state name is no state name either. */
  lemma SpacedNotName(a: string, b: string, w: string, text: string)
    requires ' ' !in a && ' ' !in b && w == a + b && text == a + " " + b
    requires w in {"PorPlanificar", "EnCurso", "EnPausa"}
    ensures ParseEstadoName(RemoveSpaces(text)).None?
  {
    NotAName(w);
    SpacedLabel(a, b);
  }

  /** Words that are no state name, whatever their case. */
  lemma NotAName(w: string)
    requires w in {"PorPlanificar", "EnCurso", "EnPausa", "Completado"}
    ensures ParseEstadoName(w).None?
  {
    TrimNoop(w, IsWhiteSpace);
    forall e: EstadoRegistro
      ensures !EqualsIgnoreCase(w, EstadoName(e))
    {
      var n := EstadoName(e);
      if |w| == |n| {
        assert ToUpper(w)[0] != ToUpper(n)[0];
      }
    }
  }

  /** Blank or missing text is Pendiente. */
  lemma ParseEstadoBlank(raw: Option<string>)
    requires IsNullOrWhiteSpace(raw)
    ensures ParseEstado(raw) == Pendiente
  {
  }

  // ---------------------------------------------------------------------
  // Incoming messages
  // ---------------------------------------------------------------------

  /** The fields of an incoming JSON message the client reads (absent fields are null, the time 0). */
  datatype SocketMessage = SocketMessage(
    msgType: Option<string>,
    registroId: Option<string>,
    tipo: Option<string>,
    titulo: Option<string>,
    prioridad: Option<string>,
    estado: Option<string>,
    proyecto: Option<string>,
    empresa: Option<string>,
    codigo: Option<string>,
    headerTitle: Option<string>,
    fromUserId: Option<string>,
    tiempoTranscurrido: Int32)

  datatype AssignmentAlarmData = AssignmentAlarmData(
    registroId: string,
    tipo: string,
    titulo: string,
    prioridad: Option<string>,
    estado: EstadoRegistro,
    proyecto: Option<string>,
    empresa: Option<string>,
    codigo: string,
    headerTitle: string)

  datatype StatusUpdateData = StatusUpdateData(
    registroId: string,
    estado: EstadoRegistro,
    tiempoTranscurrido: Int32,
    fromUserId: Option<string>)

  /** The texts of the toast that announces an assignment. */
  datatype AssignmentDisplay = AssignmentDisplay(tipo: string, prioridad: string, estado: string, proyecto: string)

  /** What an incoming message makes the client do. */
  datatype Event =
    | Alarm(display: AssignmentDisplay, alarm: AssignmentAlarmData)
    | StatusUpdate(data: StatusUpdateData)

  const DefaultHeader: string := "¡Nueva Asignación!"

  /** A text to show: the trimmed text, or `fallback` when it is blank. */
  function ShownOr(s: Option<string>, fallback: string): (r: string)
    ensures IsNullOrWhiteSpace(s) ==> r == fallback
    ensures !IsNullOrWhiteSpace(s) ==> r == Trim(s.value) && r != [] && !IsWhiteSpace(r[0])
  {
    if IsNullOrWhiteSpace(s) then fallback
    else
      TrimEmptyIffAll(s.value, IsWhiteSpace);
      TrimBounds(s.value, IsWhiteSpace);
      Trim(s.value)
  }

  /**
   * `ShowAssignmentNotification`: blank type, priority and project show as
   * "Registro", "Sin prioridad" and "Sin proyecto"; the alarm carries the
   * shown type and the other fields as given.
   */
  function AssignmentEvent(registroId: string, tipo: string, titulo: string, prioridad: Option<string>,
                           estado: EstadoRegistro, proyecto: Option<string>, empresa: Option<string>,
                           codigo: string, headerTitle: string): (ev: Event)
    ensures ev.Alarm?
    ensures ev.display.tipo == ShownOr(Some(tipo), "Registro") == ev.alarm.tipo
    ensures ev.display.prioridad == ShownOr(prioridad, "Sin prioridad")
    ensures ev.display.proyecto == ShownOr(proyecto, "Sin proyecto")
    ensures ev.display.estado == GetEstadoTexto(estado)
    ensures ev.alarm == AssignmentAlarmData(registroId, ev.alarm.tipo, titulo, prioridad, estado, proyecto, empresa, codigo, headerTitle)
  {
    var tipoShown := ShownOr(Some(tipo), "Registro");
    Alarm(AssignmentDisplay(tipoShown, ShownOr(prioridad, "Sin prioridad"), GetEstadoTexto(estado), ShownOr(proyecto, "Sin proyecto")),
          AssignmentAlarmData(registroId, tipoShown, titulo, prioridad, estado, proyecto, empresa, codigo, headerTitle))
  }

  /**
   * `HandleIncomingMessage`: an `assignment` with an id and a title raises
   * the alarm; a `status_update` with an id raises a status event; every
   * other message is ignored.
   */
  function HandleIncoming(m: SocketMessage): (r: Option<Event>)
    ensures r.Some? <==>
      || (m.msgType == Some("assignment") && !IsNullOrEmpty(m.registroId) && !IsNullOrEmpty(m.titulo))
      || (m.msgType == Some("status_update") && !IsNullOrEmpty(m.registroId))
    ensures r.Some? && r.value.StatusUpdate? ==>
      m.registroId.Some? && r.value.data == StatusUpdateData(m.registroId.value, ParseEstado(m.estado), m.tiempoTranscurrido, m.fromUserId)
    ensures r.Some? && r.value.Alarm? ==>
      && m.registroId.Some? && m.titulo.Some?
      && r.value.alarm.registroId == m.registroId.value && r.value.alarm.titulo == m.titulo.value
      && r.value.alarm.estado == ParseEstado(m.estado)
      && r.value.alarm.codigo == (if m.codigo.Some? then m.codigo.value else "0000")
      && r.value.alarm.headerTitle == (if m.headerTitle.Some? then m.headerTitle.value else DefaultHeader)
  {
    if IsNullOrEmpty(m.msgType) then None
    else if m.msgType.value == "assignment" && !IsNullOrEmpty(m.registroId) && !IsNullOrEmpty(m.titulo) then
      Some(AssignmentEvent(
        m.registroId.value,
        if m.tipo.Some? then m.tipo.value else "",
        m.titulo.value,
        m.prioridad,
        ParseEstado(m.estado),
        m.proyecto,
        m.empresa,
        if m.codigo.Some? then m.codigo.value else "0000",
        if m.headerTitle.Some? then m.headerTitle.value else DefaultHeader))
    else if m.msgType.value == "status_update" && !IsNullOrEmpty(m.registroId) then
      Some(StatusUpdate(StatusUpdateData(m.registroId.value, ParseEstado(m.estado), m.tiempoTranscurrido, m.fromUserId)))
    else None
  }

  // ---------------------------------------------------------------------
  // The service object
  // ---------------------------------------------------------------------

  /** What the client writes to the socket. */
  datatype Outgoing =
    | Register(user: string)
    | RegisterTask(registroId: string, userId: Option<string>)
    | UnregisterTask(registroId: string)
    | SendStatus(toUserId: string, registroId: string, estado: string, tiempoTranscurrido: Int32)

  /** What a fresh connection sends: the user, then the active work item if there is one. */
  function Greeting(user: string, active: Option<string>): (g: seq<Outgoing>)
    ensures |g| == (if IsNullOrEmpty(active) then 1 else 2) && g[0] == Register(user)
    ensures |g| == 2 ==> g[1] == RegisterTask(active.value, Some(user))
  {
    [Register(user)] + (if IsNullOrEmpty(active) then [] else [RegisterTask(active.value, Some(user))])
  }

  /** Whether the socket is open after a send path's reconnection attempt. */
  predicate OpenAfterRetry(wasOpen: bool, user: Option<string>, reconnects: bool) {
    wasOpen || (!IsNullOrEmpty(user) && reconnects)
  }

  /** What a send path's reconnection attempt writes before the message itself. */
  function RetryGreeting(wasOpen: bool, user: Option<string>, active: Option<string>, reconnects: bool): (g: seq<Outgoing>)
    ensures g != [] <==> !wasOpen && OpenAfterRetry(wasOpen, user, reconnects)
  {
    if wasOpen || IsNullOrEmpty(user) || !reconnects then [] else Greeting(user.value, active)
  }

  class NotificationService {
    var currentUserId: Option<string>
    var currentActiveRegistroId: Option<string>
    var socketOpen: bool
    var outbox: seq<Outgoing>

    constructor()
      ensures currentUserId.None? && currentActiveRegistroId.None? && !socketOpen && outbox == []
    {
      currentUserId := None;
      currentActiveRegistroId := None;
      socketOpen := false;
      outbox := [];
    }

    /** `StartPolling`: remember the user and connect (`connects`: whether the server answers). */
    method StartPolling(userId: string, connects: bool)
      modifies this
      ensures currentUserId == Some(userId) && currentActiveRegistroId == old(currentActiveRegistroId)
      ensures userId == [] ==> socketOpen == old(socketOpen) && outbox == old(outbox)
      ensures userId != [] ==> (socketOpen == connects
        && outbox == old(outbox) + (if connects then Greeting(userId, currentActiveRegistroId) else []))
    {
      currentUserId := Some(userId);
      ConnectAndListen(connects);
    }

    /** `StopPolling`: forget the user and drop the socket. */
    method StopPolling()
      modifies this
      ensures currentUserId.None? && !socketOpen
      ensures currentActiveRegistroId == old(currentActiveRegistroId) && outbox == old(outbox)
    {
      currentUserId := None;
      socketOpen := false;
    }

    /**
     * `ConnectAndListenAsync`: without a user it returns at once. Otherwise
     * it drops any old socket; when the new one opens it registers the
     * user and then re-claims the active work item, if there is one.
     */
    method ConnectAndListen(connects: bool)
      modifies this
      ensures currentUserId == old(currentUserId) && currentActiveRegistroId == old(currentActiveRegistroId)
      ensures IsNullOrEmpty(currentUserId) ==> socketOpen == old(socketOpen) && outbox == old(outbox)
      ensures !IsNullOrEmpty(currentUserId) ==> (socketOpen == connects
        && outbox == old(outbox) + (if connects then Greeting(currentUserId.value, currentActiveRegistroId) else []))
    {
      if IsNullOrEmpty(currentUserId) {
        return;
      }
      socketOpen := false;
      if connects {
        socketOpen := true;
        outbox := outbox + [Register(currentUserId.value)];
        if !IsNullOrEmpty(currentActiveRegistroId) {
          outbox := outbox + [RegisterTask(currentActiveRegistroId.value, currentUserId)];
        }
      }
    }

    /** The send paths' reconnection: only when the socket is closed and there is a user. */
    method EnsureOpen(reconnects: bool)
      modifies this
      ensures currentUserId == old(currentUserId) && currentActiveRegistroId == old(currentActiveRegistroId)
      ensures socketOpen == OpenAfterRetry(old(socketOpen), currentUserId, reconnects)
      ensures outbox == old(outbox) + RetryGreeting(old(socketOpen), currentUserId, currentActiveRegistroId, reconnects)
    {
      if !socketOpen && !IsNullOrEmpty(currentUserId) {
        ConnectAndListen(reconnects);
      }
    }

    /**
     * `RegistrarTareaActivaAsync`: the id is always recorded as the active
     * work item; the claim is sent when the socket is (or gets) open.
     */
    method RegistrarTareaActiva(registroId: string, reconnects: bool)
      modifies this
      ensures currentActiveRegistroId == Some(registroId) && currentUserId == old(currentUserId)
      ensures socketOpen == OpenAfterRetry(old(socketOpen), currentUserId, reconnects)
      ensures outbox == old(outbox) + RetryGreeting(old(socketOpen), currentUserId, Some(registroId), reconnects)
        + (if socketOpen then [RegisterTask(registroId, currentUserId)] else [])
    {
      currentActiveRegistroId := Some(registroId);
      EnsureOpen(reconnects);
      if socketOpen {
        outbox := outbox + [RegisterTask(registroId, currentUserId)];
      }
    }

    /**
     * `DesregistrarTareaActivaAsync`: the record is cleared only when it
     * holds this id; the release is sent when the socket is (or gets) open.
     */
    method DesregistrarTareaActiva(registroId: string, reconnects: bool)
      modifies this
      ensures currentActiveRegistroId == (if old(currentActiveRegistroId) == Some(registroId) then None else old(currentActiveRegistroId))
      ensures currentUserId == old(currentUserId)
      ensures socketOpen == OpenAfterRetry(old(socketOpen), currentUserId, reconnects)
      ensures outbox == old(outbox) + RetryGreeting(old(socketOpen), currentUserId, currentActiveRegistroId, reconnects)
        + (if socketOpen then [UnregisterTask(registroId)] else [])
    {
      if currentActiveRegistroId == Some(registroId) {
        currentActiveRegistroId := None;
      }
      EnsureOpen(reconnects);
      if socketOpen {
        outbox := outbox + [UnregisterTask(registroId)];
      }
    }

    /** `SendStatusUpdateAsync`: the state goes out under its enumeration name. */
    method SendStatusUpdate(toUserId: string, registroId: string, estado: EstadoRegistro, tiempo: Int32, reconnects: bool)
      modifies this
      ensures currentUserId == old(currentUserId) && currentActiveRegistroId == old(currentActiveRegistroId)
      ensures socketOpen == OpenAfterRetry(old(socketOpen), currentUserId, reconnects)
      ensures outbox == old(outbox) + RetryGreeting(old(socketOpen), currentUserId, currentActiveRegistroId, reconnects)
        + (if socketOpen then [SendStatus(toUserId, registroId, EstadoName(estado), tiempo)] else [])
    {
      EnsureOpen(reconnects);
      if socketOpen {
        outbox := outbox + [SendStatus(toUserId, registroId, EstadoName(estado), tiempo)];
      }
    }
  }

  /**
   * A claim made while the socket is closed is not lost: the next
   * connection re-sends it right after the user's registration.
   */
  method ClaimSurvivesReconnect(s: NotificationService, u: string, registroId: string)
    requires !s.socketOpen && u != [] && s.currentUserId == Some(u) && registroId != []
    modifies s
    ensures s.socketOpen && s.outbox == old(s.outbox) + [Register(u), RegisterTask(registroId, Some(u))]
  {
    s.RegistrarTareaActiva(registroId, false);
    s.ConnectAndListen(true);
  }

  /** After `StopPolling` a connection attempt does nothing at all. */
  method StopThenConnect(s: NotificationService, connects: bool)
    modifies s
    ensures s.currentUserId.None? && !s.socketOpen && s.outbox == old(s.outbox)
  {
    s.StopPolling();
    s.ConnectAndListen(connects);
  }
}
