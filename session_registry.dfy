/**
 * The session registry of the TypeScript server (`src/server.ts`): the table of capture
 * sessions, keyed by session id, and the table from socket id to session id, with the
 * QR-code and mobile-page routes and the Socket.IO handlers that read and update them.
 *
 * Each handler is a method of `Registry` whose new state is given by a transition
 * function over `Tables`; the lemmas state what each transition promises and that all
 * of them keep the registry consistent. Emitted events are returned as values; their
 * delivery is not modelled. Timestamps, generated session ids and the QR image are
 * parameters.
 */
module SessionRegistry {
  import opened Wrappers
  import opened JsValues
  import NetConfig

  datatype Status = Waiting | Connected | Capturing | Analyzing

  datatype Session = Session(pcSocketId: string, mobileSocketId: Option<string>, status: Status, createdAt: int)

  /** The two tables of the registry. */
  datatype Tables = Tables(sessions: map<string, Session>, socketToSession: map<string, string>)

  const Empty: Tables := Tables(map[], map[])

  /** A new session, owned by `owner`, with no mobile yet. */
  function NewSession(owner: string, now: int): Session {
    Session(owner, None, Waiting, now)
  }

  /**
   * Only `waiting` and `connected` are ever set, and a session is `connected` exactly
   * when it has a mobile socket.
   */
  predicate SessionValid(s: Session) {
    (s.status == Waiting || s.status == Connected) && (s.status == Connected <==> s.mobileSocketId.Some?)
  }

  /** Every mapped socket points at a session that exists, and every session is well formed. */
  predicate Valid(t: Tables) {
    && (forall socket :: socket in t.socketToSession ==> t.socketToSession[socket] in t.sessions)
    && (forall id :: id in t.sessions ==> SessionValid(t.sessions[id]))
  }

  // ---------------------------------------------------------------------------
  // Transitions

  /** `GET /api/generate-qr` for session `sessionId`: register it if it is new. */
  function AfterGenerateQr(t: Tables, sessionId: string, now: int): Tables {
    if sessionId in t.sessions then t
    else t.(sessions := t.sessions[sessionId := NewSession(sessionId, now)])
  }

  /** `pc-join`: create the session for this socket, or make this socket its PC; map the socket. */
  function AfterPcJoin(t: Tables, socket: string, sessionId: string, now: int): Tables {
    var sessions :=
      if sessionId !in t.sessions then t.sessions[sessionId := NewSession(socket, now)]
      else t.sessions[sessionId := t.sessions[sessionId].(pcSocketId := socket)];
    Tables(sessions, t.socketToSession[socket := sessionId])
  }

  /** `mobile-join`: attach this socket as the session's mobile, if the session exists. */
  function AfterMobileJoin(t: Tables, socket: string, sessionId: string): Tables {
    if sessionId !in t.sessions then t
    else
      var s := t.sessions[sessionId];
      Tables(t.sessions[sessionId := s.(mobileSocketId := Some(socket), status := Connected)],
             t.socketToSession[socket := sessionId])
  }

  /**
   * `disconnect`: a mapped socket (with a non-empty session id) is unmapped, and if it is
   * the session's mobile but not its PC, the session waits for a mobile again.
   */
  function AfterDisconnect(t: Tables, socket: string): Tables {
    if socket !in t.socketToSession || t.socketToSession[socket] == "" then t
    else
      var id := t.socketToSession[socket];
      var sessions :=
        if id in t.sessions && t.sessions[id].pcSocketId != socket && t.sessions[id].mobileSocketId == Some(socket)
        then t.sessions[id := t.sessions[id].(mobileSocketId := None, status := Waiting)]
        else t.sessions;
      Tables(sessions, t.socketToSession - {socket})
  }

  // ---------------------------------------------------------------------------
  // What each transition promises

  /** generate-qr inserts a waiting session only when the id is absent; an existing session is untouched. */
  lemma GenerateQrEffect(t: Tables, sessionId: string, now: int)
    ensures var u := AfterGenerateQr(t, sessionId, now);
      && u.sessions.Keys == t.sessions.Keys + {sessionId}
      && u.socketToSession == t.socketToSession
      && (sessionId in t.sessions ==> u.sessions[sessionId] == t.sessions[sessionId])
      && (sessionId !in t.sessions ==> u.sessions[sessionId] == Session(sessionId, None, Waiting, now))
      && (forall id :: id in t.sessions ==> u.sessions[id] == t.sessions[id])
  {
  }

  /**
   * pc-join on an absent id creates a waiting session owned by the socket; on an existing
   * id it changes only the PC socket. Either way the socket now maps to the session and
   * no other session changes.
   */
  lemma PcJoinEffect(t: Tables, socket: string, sessionId: string, now: int)
    ensures var u := AfterPcJoin(t, socket, sessionId, now);
      && u.sessions.Keys == t.sessions.Keys + {sessionId}
      && u.socketToSession == t.socketToSession[socket := sessionId]
      && (sessionId !in t.sessions ==> u.sessions[sessionId] == Session(socket, None, Waiting, now))
      && (sessionId in t.sessions ==>
            var old_ := t.sessions[sessionId];
            var new_ := u.sessions[sessionId];
            new_.pcSocketId == socket && new_.mobileSocketId == old_.mobileSocketId
            && new_.status == old_.status && new_.createdAt == old_.createdAt)
      && (forall id :: id in t.sessions && id != sessionId ==> u.sessions[id] == t.sessions[id])
  {
  }

  /**
   * mobile-join on an unknown session changes nothing; on a known one it records the
   * socket as the mobile, marks the session connected and maps the socket.
   */
  lemma MobileJoinEffect(t: Tables, socket: string, sessionId: string)
    ensures var u := AfterMobileJoin(t, socket, sessionId);
      && (sessionId !in t.sessions ==> u == t)
      && (sessionId in t.sessions ==>
            && u.sessions.Keys == t.sessions.Keys
            && u.sessions[sessionId].mobileSocketId == Some(socket)
            && u.sessions[sessionId].status == Connected
            && u.sessions[sessionId].pcSocketId == t.sessions[sessionId].pcSocketId
            && u.sessions[sessionId].createdAt == t.sessions[sessionId].createdAt
            && u.socketToSession == t.socketToSession[socket := sessionId]
            && (forall id :: id in t.sessions && id != sessionId ==> u.sessions[id] == t.sessions[id]))
  {
  }

  /**
   * disconnect of a mapped socket: its mapping is deleted; if it is the session's mobile
   * and not its PC, the mobile is cleared and the session waits again; if it is the PC,
   * the session is untouched. No session is ever removed.
   */
  lemma DisconnectEffect(t: Tables, socket: string)
    ensures var u := AfterDisconnect(t, socket);
      && u.sessions.Keys == t.sessions.Keys
      && (socket !in t.socketToSession || t.socketToSession[socket] == "" ==> u == t)
      && (socket in t.socketToSession && t.socketToSession[socket] != "" ==>
            var id := t.socketToSession[socket];
            && u.socketToSession == t.socketToSession - {socket}
            && (id in t.sessions && t.sessions[id].pcSocketId == socket ==> u.sessions == t.sessions)
            && (id in t.sessions && t.sessions[id].pcSocketId != socket && t.sessions[id].mobileSocketId == Some(socket) ==>
                  u.sessions[id] == t.sessions[id].(mobileSocketId := None, status := Waiting))
            && (id in t.sessions && t.sessions[id].pcSocketId != socket && t.sessions[id].mobileSocketId != Some(socket) ==>
                  u.sessions == t.sessions)
            && (forall other :: other in t.sessions && other != id ==> u.sessions[other] == t.sessions[other]))
  {
  }

  /** Every transition keeps the registry consistent. */
  lemma TransitionsPreserveValid(t: Tables, socket: string, sessionId: string, now: int)
    requires Valid(t)
    ensures Valid(AfterGenerateQr(t, sessionId, now))
    ensures Valid(AfterPcJoin(t, socket, sessionId, now))
    ensures Valid(AfterMobileJoin(t, socket, sessionId))
    ensures Valid(AfterDisconnect(t, socket))
  {
    var u := AfterDisconnect(t, socket);
    forall s | s in u.socketToSession ensures u.socketToSession[s] in u.sessions {
      assert s in t.socketToSession && u.socketToSession[s] == t.socketToSession[s];
    }
  }

  // ---------------------------------------------------------------------------
  // Runs of events

  /** An event that changes the registry. */
  datatype Action =
    | QrRequested(sessionId: string, now: int)
    | PcJoined(socket: string, sessionId: string, now: int)
    | MobileJoined(socket: string, sessionId: string)
    | Disconnected(socket: string)

  function Step(t: Tables, a: Action): Tables {
    match a
    case QrRequested(sessionId, now) => AfterGenerateQr(t, sessionId, now)
    case PcJoined(socket, sessionId, now) => AfterPcJoin(t, socket, sessionId, now)
    case MobileJoined(socket, sessionId) => AfterMobileJoin(t, socket, sessionId)
    case Disconnected(socket) => AfterDisconnect(t, socket)
  }

  /** The registry after the events, in order. */
  function Run(t: Tables, actions: seq<Action>): Tables
    decreases |actions|
  {
    if actions == [] then t else Run(Step(t, actions[0]), actions[1..])
  }

  /**
   * Along any sequence of events the registry stays consistent and no session is ever
   * removed: sessions only accumulate.
   */
  lemma {:induction false} RunPreservesValid(t: Tables, actions: seq<Action>)
    requires Valid(t)
    ensures Valid(Run(t, actions))
    ensures t.sessions.Keys <= Run(t, actions).sessions.Keys
    decreases |actions|
  {
    if actions != [] {
      var a := actions[0];
      match a {
        case QrRequested(sessionId, now) => TransitionsPreserveValid(t, "", sessionId, now);
        case PcJoined(socket, sessionId, now) => TransitionsPreserveValid(t, socket, sessionId, now);
        case MobileJoined(socket, sessionId) => TransitionsPreserveValid(t, socket, sessionId, 0);
        case Disconnected(socket) => TransitionsPreserveValid(t, socket, "", 0);
      }
      RunPreservesValid(Step(t, a), actions[1..]);
    }
  }

  /** From the empty registry, every reachable state is consistent. */
  lemma ReachableValid(actions: seq<Action>)
    ensures Valid(Run(Empty, actions))
  {
    RunPreservesValid(Empty, actions);
  }

  // ---------------------------------------------------------------------------
  // Replies and emitted events

  /** The events the handlers emit. */
  datatype Event =
    | ErrorEvent(message: string)
    | MobileConnected
    | SessionReady
    | PhotoReceived(imageData: string)
    | CaptureRequested

  /** An event sent to a socket or a room, named by its id. */
  datatype Emission = Emission(to: string, event: Event)

  /** The reply of `GET /mobile-capture`. */
  datatype PageReply =
    | CapturePage(sessionId: string)   // the capture page for this session
    | PageNotFound                     // 404 "Session invalide ou expirée"

  /** The reply of `GET /api/generate-qr`. */
  datatype QrReply =
    | QrGenerated(sessionId: string, qrCode: string, mobileUrl: string)
    | QrFailed                         // 500 "Failed to generate QR code"

  /** The address the QR code encodes. */
  function MobileUrl(cfg: NetConfig.Config, sessionId: string): string {
    "http://" + cfg.networkIP + ":" + NumberToString(cfg.port) + "/mobile-capture?session=" + sessionId
  }

  function MobileCapture(t: Tables, session: Option<string>): PageReply {
    if !Truthy(session) || session.value !in t.sessions then PageNotFound else CapturePage(session.value)
  }

  function MobileJoinEmissions(t: Tables, socket: string, sessionId: string): seq<Emission> {
    if sessionId !in t.sessions then [Emission(socket, ErrorEvent("Session not found"))]
    else [Emission(t.sessions[sessionId].pcSocketId, MobileConnected), Emission(socket, SessionReady)]
  }

  function PhotoEmissions(t: Tables, sessionId: string, imageData: string): seq<Emission> {
    if sessionId !in t.sessions then [] else [Emission(t.sessions[sessionId].pcSocketId, PhotoReceived(imageData))]
  }

  function TriggerEmission(t: Tables, socket: string, sessionId: string): Emission {
    if sessionId !in t.sessions || !Truthy(t.sessions[sessionId].mobileSocketId) then
      Emission(socket, ErrorEvent("Mobile not connected"))
    else Emission(t.sessions[sessionId].mobileSocketId.value, CaptureRequested)
  }

  /**
   * The page the QR code points at exists: after generate-qr (with a non-empty generated id),
   * the mobile page for the returned session id is served, whatever the registry held.
   */
  lemma QrPointsAtLiveSession(t: Tables, requested: Option<string>, generatedId: string, now: int)
    requires generatedId != ""
    ensures var id := Or(requested, generatedId);
      MobileCapture(AfterGenerateQr(t, id, now), Some(id)) == CapturePage(id)
  {
  }

  /** The mobile page is refused exactly when the query is missing, empty or names no session. */
  lemma MobileCaptureRefusal(t: Tables, session: Option<string>)
    ensures MobileCapture(t, session) == PageNotFound <==>
      session.None? || session.value == "" || session.value !in t.sessions
  {
  }

  /**
   * In a consistent registry, trigger-capture reaches a mobile exactly when the session is
   * connected (and its mobile id is not empty); otherwise the requesting socket is told
   * "Mobile not connected".
   */
  lemma TriggerNeedsConnectedMobile(t: Tables, socket: string, sessionId: string)
    requires Valid(t)
    ensures var e := TriggerEmission(t, socket, sessionId);
      && (e.event == CaptureRequested <==>
            sessionId in t.sessions && t.sessions[sessionId].status == Connected
            && t.sessions[sessionId].mobileSocketId != Some(""))
      && (e.event == CaptureRequested ==> Some(e.to) == t.sessions[sessionId].mobileSocketId)
      && (e.event != CaptureRequested ==> e == Emission(socket, ErrorEvent("Mobile not connected")))
  {
    if sessionId in t.sessions {
      assert SessionValid(t.sessions[sessionId]);
    }
  }

  /** mobile-join tells the PC and the mobile, or tells only the joining socket that the session is unknown. */
  lemma MobileJoinNotifies(t: Tables, socket: string, sessionId: string)
    ensures var es := MobileJoinEmissions(t, socket, sessionId);
      && (sessionId !in t.sessions ==> es == [Emission(socket, ErrorEvent("Session not found"))])
      && (sessionId in t.sessions ==>
            es == [Emission(AfterMobileJoin(t, socket, sessionId).sessions[sessionId].pcSocketId, MobileConnected),
                   Emission(socket, SessionReady)])
  {
  }

  // ---------------------------------------------------------------------------
  // The registry as the server holds it

  class Registry {
    var sessions: map<string, Session>
    var socketToSession: map<string, string>

    function State(): Tables
      reads this
    {
      Tables(sessions, socketToSession)
    }

    /** The registry's tables are consistent (`Valid`). */
    ghost predicate Consistent()
      reads this
    {
      Valid(State())
    }

    constructor()
      ensures State() == Empty && Consistent()
    {
      sessions := map[];
      socketToSession := map[];
    }

    /**
     * `GET /api/generate-qr`: the requested id, or the generated one when it is missing or
     * empty, is registered if new; the reply carries the mobile URL and the QR image, or is
     * the 500 reply when the QR library fails (the session stays registered).
     */
    method GenerateQr(cfg: NetConfig.Config, requested: Option<string>, generatedId: string, now: int, qrImage: Option<string>)
      returns (reply: QrReply)
      requires Consistent()
      modifies this
      ensures State() == AfterGenerateQr(old(State()), Or(requested, generatedId), now)
      ensures Consistent()
      ensures qrImage.None? ==> reply == QrFailed
      ensures qrImage.Some? ==>
        reply == QrGenerated(Or(requested, generatedId), qrImage.value, MobileUrl(cfg, Or(requested, generatedId)))
    {
      var sessionId := if Truthy(requested) then requested.value else generatedId;
      TransitionsPreserveValid(State(), "", sessionId, now);
      if sessionId !in sessions {
        sessions := sessions[sessionId := Session(sessionId, None, Waiting, now)];
      }
      var mobileUrl := MobileUrl(cfg, sessionId);
      if qrImage.None? {
        return QrFailed;
      }
      reply := QrGenerated(sessionId, qrImage.value, mobileUrl);
    }

    /** `GET /mobile-capture`. */
    method MobileCapturePage(session: Option<string>) returns (reply: PageReply)
      ensures reply == MobileCapture(State(), session)
    {
      if session.None? || session.value == "" || session.value !in sessions {
        return PageNotFound;
      }
      reply := CapturePage(session.value);
    }

    /** `pc-join`. */
    method PcJoin(socket: string, sessionId: string, now: int)
      requires Consistent()
      modifies this
      ensures State() == AfterPcJoin(old(State()), socket, sessionId, now)
      ensures Consistent()
    {
      TransitionsPreserveValid(State(), socket, sessionId, now);
      if sessionId !in sessions {
        sessions := sessions[sessionId := Session(socket, None, Waiting, now)];
      } else {
        var session := sessions[sessionId];
        sessions := sessions[sessionId := session.(pcSocketId := socket)];
      }
      socketToSession := socketToSession[socket := sessionId];
    }

    /** `mobile-join`. */
    method MobileJoin(socket: string, sessionId: string) returns (emitted: seq<Emission>)
      requires Consistent()
      modifies this
      ensures State() == AfterMobileJoin(old(State()), socket, sessionId)
      ensures emitted == MobileJoinEmissions(old(State()), socket, sessionId)
      ensures Consistent()
    {
      TransitionsPreserveValid(State(), socket, sessionId, 0);
      if sessionId !in sessions {
        return [Emission(socket, ErrorEvent("Session not found"))];
      }
      var session := sessions[sessionId];
      session := session.(mobileSocketId := Some(socket), status := Connected);
      sessions := sessions[sessionId := session];
      socketToSession := socketToSession[socket := sessionId];
      emitted := [Emission(session.pcSocketId, MobileConnected), Emission(socket, SessionReady)];
    }

    /** `photo-captured`: forward the image to the session's PC, if the session exists. */
    method PhotoCaptured(sessionId: string, imageData: string) returns (emitted: seq<Emission>)
      ensures emitted == PhotoEmissions(State(), sessionId, imageData)
      ensures sessionId !in sessions ==> emitted == []
    {
      if sessionId !in sessions {
        return [];
      }
      emitted := [Emission(sessions[sessionId].pcSocketId, PhotoReceived(imageData))];
    }

    /** `trigger-capture`. */
    method TriggerCapture(socket: string, sessionId: string) returns (emitted: Emission)
      ensures emitted == TriggerEmission(State(), socket, sessionId)
    {
      if sessionId !in sessions || sessions[sessionId].mobileSocketId.None? || sessions[sessionId].mobileSocketId.value == "" {
        return Emission(socket, ErrorEvent("Mobile not connected"));
      }
      emitted := Emission(sessions[sessionId].mobileSocketId.value, CaptureRequested);
    }

    /** `disconnect`. */
    method Disconnect(socket: string)
      requires Consistent()
      modifies this
      ensures State() == AfterDisconnect(old(State()), socket)
      ensures Consistent()
    {
      TransitionsPreserveValid(State(), socket, "", 0);
      if socket in socketToSession && socketToSession[socket] != "" {
        var sessionId := socketToSession[socket];
        if sessionId in sessions {
          var session := sessions[sessionId];
          if session.pcSocketId == socket {
            // the PC left: the session is kept as it is
          } else if session.mobileSocketId == Some(socket) {
            sessions := sessions[sessionId := session.(mobileSocketId := None, status := Waiting)];
          }
        }
        socketToSession := socketToSession - {socket};
      }
    }
  }
}
