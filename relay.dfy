/**
 * The session relay of bin/server.ts: a table from session id to session,
 * each session holding at most two WebSocket clients, and the rules by which
 * HTTP requests allocate sessions, upgrades join them, text frames are passed
 * to the other client and a close tears the session down.
 *
 * Writes to sockets are not performed here: the handlers return what they
 * would send (a `Delivery`, the socket to close, the rejection to write).
 */
module Relay {
  import opened Wrappers
  import opened JsString
  import opened SessionIds

  const SESSION_PREFIX := "/session/"
  const ASSETS_PREFIX := "/assets/"

  /** A WebSocket connection; `new Socket()` stands for the fresh `ws` of `handleUpgrade`. */
  class Socket {
    constructor ()
    {
    }
  }

  datatype Frame = Text(text: string) | Binary(bytes: seq<bv8>)

  /** `counterpart.send(text)` */
  datatype Delivery = Delivery(to: Socket, text: string)

  predicate Distinct<T(==)>(s: seq<T>)
  {
    forall i, j :: 0 <= i < j < |s| ==> s[i] != s[j]
  }

  /** `clients.find(client => client !== ws)` */
  function FirstOther(clients: seq<Socket>, ws: Socket): (c: Option<Socket>)
    ensures c.Some? ==> c.value in clients && c.value != ws
    ensures c.None? <==> forall k :: 0 <= k < |clients| ==> clients[k] == ws
    ensures c.Some? ==> exists k :: 0 <= k < |clients| && clients[k] == c.value && forall j :: 0 <= j < k ==> clients[j] == ws
  {
    if |clients| == 0 then None
    else if clients[0] != ws then Some(clients[0])
    else
      var c := FirstOther(clients[1..], ws);
      if c.Some? then
        var k :| 0 <= k < |clients| - 1 && clients[1..][k] == c.value && forall j :: 0 <= j < k ==> clients[1..][j] == ws;
        assert clients[k + 1] == c.value && forall j :: 0 <= j < k + 1 ==> clients[j] == ws;
        c
      else c
  }

  /** The redirect target of a freshly allocated session. */
  function SessionPath(id: string): string
  {
    SESSION_PREFIX + id
  }

  /** `pathname.substring('/session/'.length)` behind a `startsWith('/session/')` test. */
  function StripSessionPrefix(pathname: string): (id: Option<string>)
    ensures id.Some? <==> StartsWith(pathname, SESSION_PREFIX)
    ensures id.Some? ==> SessionPath(id.value) == pathname
  {
    if StartsWith(pathname, SESSION_PREFIX) then Some(pathname[|SESSION_PREFIX|..]) else None
  }

  /** The path a client is redirected to leads back to the same session id. */
  lemma SessionPathRoundTrip(id: string)
    ensures StripSessionPrefix(SessionPath(id)) == Some(id)
  {
    assert SessionPath(id)[..|SESSION_PREFIX|] == SESSION_PREFIX;
  }

  /** What the plain HTTP handler does with a request, before any state is touched. */
  datatype Route = NewSession | Asset(path: string) | AssetRejected | SessionPage(id: string) | NoRoute

  function RouteOf(requestMethod: string, pathname: string): (r: Route)
    ensures r.NewSession? <==> requestMethod == "GET" && pathname == "/"
    ensures r.Asset? ==> requestMethod == "GET" && ASSETS_PREFIX + r.path == pathname && !Contains(r.path, "..")
    ensures r.AssetRejected? <==>
      requestMethod == "GET" && StartsWith(pathname, ASSETS_PREFIX) && Contains(pathname[|ASSETS_PREFIX|..], "..")
    ensures r.SessionPage? ==> requestMethod == "GET" && SessionPath(r.id) == pathname
    ensures r.NoRoute? <==>
      requestMethod != "GET" ||
      (pathname != "/" && !StartsWith(pathname, ASSETS_PREFIX) && !StartsWith(pathname, SESSION_PREFIX))
  {
    if requestMethod == "GET" && pathname == "/" then NewSession
    else if requestMethod == "GET" && StartsWith(pathname, ASSETS_PREFIX) then
      var path := pathname[|ASSETS_PREFIX|..];
      if IndexOf(path, "..") > -1 then AssetRejected else Asset(path)
    else if requestMethod == "GET" && StartsWith(pathname, SESSION_PREFIX) then
      SessionPage(pathname[|SESSION_PREFIX|..])
    else NoRoute
  }

  /** An asset path that holds `..` anywhere is refused and never read. */
  lemma DotDotNeverRead(requestMethod: string, path: string)
    requires Contains(path, "..")
    ensures !RouteOf(requestMethod, ASSETS_PREFIX + path).Asset?
    ensures requestMethod == "GET" ==> RouteOf(requestMethod, ASSETS_PREFIX + path) == AssetRejected
  {
    var pathname := ASSETS_PREFIX + path;
    assert pathname[..|ASSETS_PREFIX|] == ASSETS_PREFIX;
    assert pathname[|ASSETS_PREFIX|..] == path;
  }

  datatype HttpResponse = SeeOther(location: string) | AssetFile(path: string) | IndexPage | NotFound404

  /** Why an upgrade is refused. */
  datatype Rejection = BadRequest | NoSuchSession | SessionFull

  datatype UpgradeOutcome = Accepted(ws: Socket) | Rejected(reason: Rejection) | Unhandled

  /** One room: its id and the clients that joined it, in join order. */
  class Session {
    const sessionId: string
    var clients: seq<Socket>

    ghost predicate Valid()
      reads this
    {
      |clients| <= 2 && Distinct(clients)
    }

    constructor (sessionId: string)
      ensures this.sessionId == sessionId && clients == [] && Valid()
    {
      this.sessionId := sessionId;
      clients := [];
    }

    /** The other client of `ws`; while the session is valid it exists exactly when two have joined. */
    function Counterpart(ws: Socket): (c: Option<Socket>)
      reads this
      ensures c.Some? ==> c.value in clients && c.value != ws
      ensures Valid() && ws in clients ==> (c.Some? <==> |clients| == 2)
    {
      assert |clients| == 2 && Distinct(clients) ==> clients[0] != ws || clients[1] != ws;
      assert |clients| == 1 ==> clients == [clients[0]];
      FirstOther(clients, ws)
    }

    /**
     * The `message` handler of client `ws`: a text frame goes verbatim to the
     * other client once two have joined; anything else is dropped.
     */
    function OnMessage(ws: Socket, frame: Frame): (d: Option<Delivery>)
      reads this
      requires Valid() && ws in clients
      ensures d.Some? <==> |clients| == 2 && frame.Text?
      ensures d.Some? ==> d.value.to in clients && d.value.to != ws && d.value.text == frame.text
    {
      if |clients| < 2 then None
      else if frame.Binary? then None
      else
        match Counterpart(ws)
        case Some(other) => Some(Delivery(other, frame.text))
        case None => None
    }
  }

  /** The `SESSIONS` map with the handlers that change it. */
  class Registry {
    var sessions: map<string, Session>

    ghost predicate Valid()
      reads this, sessions.Values
    {
      forall id | id in sessions :: sessions[id].sessionId == id && sessions[id].Valid()
    }

    constructor ()
      ensures Valid() && sessions == map[]
    {
      sessions := map[];
    }

    /** `GET /`: a new id from ten draws, stored with no clients; an existing entry under that id is replaced. */
    method Allocate(draws: seq<nat>) returns (id: string)
      requires Valid()
      requires ID_LENGTH <= |draws| && ValidDraws(draws)
      modifies this
      ensures Valid()
      ensures id == IdOf(draws[..ID_LENGTH]) && |id| == ID_LENGTH
      ensures sessions.Keys == old(sessions.Keys) + {id}
      ensures fresh(sessions[id]) && sessions[id].clients == []
      ensures forall k | k in old(sessions) && k != id :: sessions[k] == old(sessions[k])
    {
      id := RandomId(ID_LENGTH, draws);
      var session := new Session(id);
      sessions := sessions[id := session];
    }

    /** The plain HTTP handler; reading files and writing the response are left to the caller. */
    method HandleRequest(requestMethod: string, pathname: string, draws: seq<nat>) returns (response: HttpResponse)
      requires Valid()
      requires ID_LENGTH <= |draws| && ValidDraws(draws)
      modifies this
      ensures Valid()
      ensures match RouteOf(requestMethod, pathname)
        case NewSession =>
          var id := IdOf(draws[..ID_LENGTH]);
          && response == SeeOther(SessionPath(id))
          && sessions.Keys == old(sessions.Keys) + {id}
          && fresh(sessions[id]) && sessions[id].clients == []
          && (forall k | k in old(sessions) && k != id :: sessions[k] == old(sessions[k]))
        case Asset(path) => response == AssetFile(path) && sessions == old(sessions)
        case AssetRejected => response == NotFound404 && sessions == old(sessions)
        case SessionPage(id) =>
          response == (if id in sessions then IndexPage else NotFound404) && sessions == old(sessions)
        case NoRoute => response == NotFound404 && sessions == old(sessions)
    {
      match RouteOf(requestMethod, pathname)
      case NewSession =>
        var id := Allocate(draws);
        response := SeeOther(SessionPath(id));
      case Asset(path) =>
        response := AssetFile(path);
      case AssetRejected =>
        response := NotFound404;
      case SessionPage(id) =>
        response := if id in sessions then IndexPage else NotFound404;
      case NoRoute =>
        response := NotFound404;
    }

    /**
     * The `upgrade` handler: a join is refused when the id is unknown or two
     * clients are already in; otherwise the fresh socket is appended. The
     * capacity test and the append are one step here.
     */
    method HandleUpgrade(upgrade: string, pathname: string) returns (outcome: UpgradeOutcome)
      requires Valid()
      modifies sessions.Values
      ensures Valid() && sessions == old(sessions)
      ensures upgrade != "websocket" ==> outcome == Rejected(BadRequest)
      ensures upgrade == "websocket" && !StartsWith(pathname, SESSION_PREFIX) ==> outcome == Unhandled
      ensures upgrade == "websocket" && StartsWith(pathname, SESSION_PREFIX) ==>
        var id := pathname[|SESSION_PREFIX|..];
        && (id !in sessions ==> outcome == Rejected(NoSuchSession))
        && (id in sessions && |old(sessions[id].clients)| >= 2 ==> outcome == Rejected(SessionFull))
        && (id in sessions && |old(sessions[id].clients)| < 2 ==>
              outcome.Accepted? && fresh(outcome.ws) &&
              sessions[id].clients == old(sessions[id].clients) + [outcome.ws])
      ensures forall id | id in sessions && !(outcome.Accepted? && StripSessionPrefix(pathname) == Some(id)) ::
        sessions[id].clients == old(sessions[id].clients)
    {
      if upgrade != "websocket" {
        return Rejected(BadRequest);
      }
      if !StartsWith(pathname, SESSION_PREFIX) {
        return Unhandled;
      }
      var id := pathname[|SESSION_PREFIX|..];
      if id !in sessions {
        return Rejected(NoSuchSession);
      }
      var session := sessions[id];
      if |session.clients| > 1 {
        return Rejected(SessionFull);
      }
      var ws := new Socket();
      session.clients := session.clients + [ws];
      outcome := Accepted(ws);
    }

    /**
     * The `close` handler of client `ws` in `session`: the other client, if
     * any, is to be closed, and the session's id is deleted from the table.
     */
    method Close(session: Session, ws: Socket) returns (toClose: Option<Socket>)
      requires Valid()
      modifies this
      ensures Valid()
      ensures toClose == session.Counterpart(ws)
      ensures sessions == old(sessions) - {session.sessionId}
      ensures session.sessionId !in old(sessions) ==> sessions == old(sessions)
    {
      toClose := session.Counterpart(ws);
      sessions := sessions - {session.sessionId};
    }
  }

  /**
   * Allocate, two joins and a third, a text frame from the first client, then
   * both close handlers: the third join is refused, the frame reaches the
   * second client unchanged, the first close closes the second client and
   * removes the session, and the second close finds nothing left to remove.
   */
  method PairingScenario(draws: seq<nat>, payload: string)
    returns (third: UpgradeOutcome, relayed: Option<Delivery>, firstClose: Option<Socket>,
             secondClose: Option<Socket>, liveAfterFirst: bool, liveAfterSecond: bool, second: Socket)
    requires ID_LENGTH <= |draws| && ValidDraws(draws)
    ensures third == Rejected(SessionFull)
    ensures relayed == Some(Delivery(second, payload))
    ensures firstClose == Some(second) && secondClose.Some? && secondClose.value != second
    ensures !liveAfterFirst && !liveAfterSecond
  {
    var registry := new Registry();
    var id := registry.Allocate(draws);
    SessionPathRoundTrip(id);
    var path := SessionPath(id);
    var a := registry.HandleUpgrade("websocket", path);
    var b := registry.HandleUpgrade("websocket", path);
    third := registry.HandleUpgrade("websocket", path);
    second := b.ws;
    var session := registry.sessions[id];
    relayed := session.OnMessage(a.ws, Text(payload));
    firstClose := registry.Close(session, a.ws);
    liveAfterFirst := id in registry.sessions;
    secondClose := registry.Close(session, b.ws);
    liveAfterSecond := id in registry.sessions;
  }

  /**
   * Nothing stops two allocations from drawing the same id: the second
   * replaces the first session, and a client of the replaced session deletes
   * the new one when it closes.
   */
  method CollidingAllocation(draws: seq<nat>)
    returns (firstId: string, secondId: string, joinedReplaced: bool, liveAfterStaleClose: bool)
    requires ID_LENGTH <= |draws| && ValidDraws(draws)
    ensures firstId == secondId
    ensures !joinedReplaced
    ensures !liveAfterStaleClose
  {
    var registry := new Registry();
    firstId := registry.Allocate(draws);
    SessionPathRoundTrip(firstId);
    var a := registry.HandleUpgrade("websocket", SessionPath(firstId));
    var stale := registry.sessions[firstId];
    secondId := registry.Allocate(draws);
    joinedReplaced := registry.sessions[secondId] == stale;
    var b := registry.HandleUpgrade("websocket", SessionPath(secondId));
    var _ := registry.Close(stale, a.ws);
    liveAfterStaleClose := secondId in registry.sessions;
  }

  // The bytes written to a refused upgrade before the socket is destroyed.

  predicate IsDigit(c: char)
  {
    '0' <= c <= '9'
  }

  /** `HTTP/` DIGIT `.` DIGIT SP 3DIGIT SP, the head of a status line in section 4 of RFC 9112. */
  predicate IsStatusLine(s: string)
  {
    && |s| >= 13 && s[..5] == "HTTP/" && IsDigit(s[5]) && s[6] == '.' && IsDigit(s[7]) && s[8] == ' '
    && IsDigit(s[9]) && IsDigit(s[10]) && IsDigit(s[11]) && s[12] == ' '
  }

  function StatusCodeOf(s: string): nat
    requires IsStatusLine(s)
  {
    (s[9] as int - '0' as int) * 100 + (s[10] as int - '0' as int) * 10 + (s[11] as int - '0' as int)
  }

  function StatusCode(reason: Rejection): nat
  {
    match reason
    case BadRequest => 400
    case NoSuchSession => 404
    case SessionFull => 400
  }

  /** The three literals of the upgrade handler, as the source writes them. */
  function WrittenRejection(reason: Rejection): string
  {
    match reason
    case BadRequest => "HTTP/1.1 400 Bad Request\r\n\r\n"
    case NoSuchSession => "HTTP/1.1 404 Not Found\r\n\r\n"
    case SessionFull => "HTTP 400 Bad Request\r\n\r\n"
  }

  /** The refusal of a full session lacks the protocol version, so it is not a status line. */
  lemma FullRejectionIsNotStatusLine()
    ensures !IsStatusLine(WrittenRejection(SessionFull))
    ensures forall reason :: reason != SessionFull ==> WrittenRejection(reason) == RejectionResponse(reason)
  {
  }

  /** The rejection every refused upgrade is meant to receive. */
  function RejectionResponse(reason: Rejection): (s: string)
    ensures IsStatusLine(s) && StatusCodeOf(s) == StatusCode(reason)
  {
    match reason
    case BadRequest => "HTTP/1.1 400 Bad Request\r\n\r\n"
    case NoSuchSession => "HTTP/1.1 404 Not Found\r\n\r\n"
    case SessionFull => "HTTP/1.1 400 Bad Request\r\n\r\n"
  }
}
