/** The WebSocket front door of the gateway: token authentication of new
    connections and JSON-RPC dispatch of the messages they send. */
module Gateway {
  import opened Common
  import opened JsonValues
  import opened Utf8
  import opened RpcRouters

  /** The parts of a WebSocket opening handshake the gateway reads: the
      Authorization header (null when absent) and the request target, such
      as "/ws?token=abc". */
  datatype Handshake = Handshake(authorization: Option<string>, resourceDescriptor: string)

  /** A client connection; its remote address is the key of the client table. */
  datatype Connection = Connection(remoteAddress: string, socket: nat)

  /** What onOpen does with a new connection: keep it, or close it with a
      close code and a reason. */
  datatype OpenOutcome = Accepted | Closed(code: int, reason: string)

  /** A JSON-RPC message as the gateway reads it; absent members are nulls. */
  datatype RpcRequest = RpcRequest(id: Option<string>, methodName: Option<string>, params: Option<Json>)

  /** The body of the message sent back: a result node or an error object. */
  datatype ReplyBody = RpcResult(node: Json) | RpcError(code: int, message: string)

  datatype Reply = Reply(id: Option<string>, body: ReplyBody)

  const UNAUTHORIZED_CLOSE_CODE: int := 1008
  const METHOD_NOT_FOUND_CODE: int := -32601
  const INTERNAL_ERROR_CODE: int := -32603

  /** The header starts with "bearer ", in any letter case. */
  predicate IsBearer(header: string)
  {
    StartsWith(ToLowerAscii(header), "bearer ")
  }

  /** The request target carries a token query parameter. */
  predicate HasTokenParam(d: string)
  {
    Contains(d, "?token=") || Contains(d, "&token=")
  }

  /** An occurrence of `c` followed by `part` holds an occurrence of `part`. */
  lemma ContainsTail(s: string, c: char, part: string)
    requires Contains(s, [c] + part)
    ensures Contains(s, part)
  {
    var i: nat :| i <= |s| && OccursAt(s, [c] + part, i);
    assert s[i + 1..i + 1 + |part|] == ([c] + part)[1..];
    assert OccursAt(s, part, i + 1);
  }

  /** The text before the first '&', or all of it when there is none. */
  function UpToAmpersand(s: string): (t: string)
    ensures StartsWith(s, t) && '&' !in t
    ensures |t| == |s| || s[|t|] == '&'
  {
    match IndexOfChar(s, '&')
    case Some(end) => s[..end]
    case None => s
  }

  /** The value of the first `key` in `d`: what follows it, up to the next
      '&' or the end. */
  function ValueAfter(d: string, key: string): string
    requires Contains(d, key)
  {
    UpToAmpersand(d[IndexOf(d, key).value + |key|..])
  }

  /** extractToken: the bearer credential of the Authorization header, or
      else the token query parameter, or else null. */
  function ExtractToken(h: Handshake): (t: Option<string>)
    ensures h.authorization.Some? && IsBearer(h.authorization.value) ==>
      t == Some(Trim(h.authorization.value[7..]))
    ensures !(h.authorization.Some? && IsBearer(h.authorization.value)) ==>
      (t.Some? <==> HasTokenParam(h.resourceDescriptor))
    ensures !(h.authorization.Some? && IsBearer(h.authorization.value)) && t.Some? ==>
      Contains(h.resourceDescriptor, "token=") && t.value == ValueAfter(h.resourceDescriptor, "token=")
  {
    if h.authorization.Some? && IsBearer(h.authorization.value) then
      Some(Trim(h.authorization.value[7..]))
    else if HasTokenParam(h.resourceDescriptor) then
      assert Contains(h.resourceDescriptor, "token=") by {
        assert "?token=" == ['?'] + "token=" && "&token=" == ['&'] + "token=";
        if Contains(h.resourceDescriptor, "?token=") {
          ContainsTail(h.resourceDescriptor, '?', "token=");
        } else {
          ContainsTail(h.resourceDescriptor, '&', "token=");
        }
      }
      Some(ValueAfter(h.resourceDescriptor, "token="))
    else
      None
  }

  /** Trimming a string without blank ends leaves it as it is. */
  lemma TrimKeeps(s: string)
    requires s == [] || (!IsTrimmable(s[0]) && !IsTrimmable(s[|s| - 1]))
    ensures Trim(s) == s
  {
    assert TrimStart(s) == s;
  }

  /** A client sending "Authorization: Bearer <token>" (any letter case of
      the scheme) presents exactly its token, whatever the request target. */
  lemma {:induction false} BearerTokenExtracted(scheme: string, token: string, target: string)
    requires ToLowerAscii(scheme) == "bearer "
    requires token == [] || (!IsTrimmable(token[0]) && !IsTrimmable(token[|token| - 1]))
    ensures ExtractToken(Handshake(Some(scheme + token), target)) == Some(token)
  {
    var header := scheme + token;
    assert ToLowerAscii(header)[..7] == ToLowerAscii(scheme);
    assert header[7..] == token;
    TrimKeeps(token);
  }

  /** When `key` follows a character `c` it does not hold, and nothing
      before `c` holds `key`, the first `key` is the one after `c`. */
  lemma FirstKeyAfter(path: string, c: char, key: string, rest: string)
    requires c !in key
    requires !Contains(path, key)
    ensures IndexOf(path + [c] + key + rest, key) == Some(|path| + 1)
  {
    var d := path + [c] + key + rest;
    var p, n := |path|, |key|;
    assert d[p + 1..p + 1 + n] == key;
    forall j: nat | j < p + 1 ensures !OccursAt(d, key, j) {
      if j + n <= p {
        assert d[j..j + n] == path[j..j + n];
        assert !OccursAt(path, key, j);
      } else if j + n <= |d| {
        assert d[p] == c;
        assert d[j..j + n][p - j] == d[p];
      }
    }
    IndexOfFinds(d, key, p + 1);
  }

  /** The first '&' of a token free of them followed by `more` is the one
      `more` starts with, if any. */
  lemma {:induction false} FirstAmpersand(token: string, more: string)
    requires '&' !in token
    requires more == [] || more[0] == '&'
    ensures IndexOfChar(token + more, '&') == if more == [] then None else Some(|token|)
  {
    if token != [] {
      assert (token + more)[1..] == token[1..] + more;
      FirstAmpersand(token[1..], more);
    } else {
      assert token + more == more;
    }
  }

  /** The value of a parameter that is the first to hold `key` is the text
      up to the next '&'. */
  lemma ValueAfterKey(path: string, c: char, key: string, token: string, more: string)
    requires c !in key
    requires !Contains(path, key)
    requires '&' !in token
    requires more == [] || more[0] == '&'
    ensures Contains(path + [c] + key + token + more, key)
    ensures ValueAfter(path + [c] + key + token + more, key) == token
  {
    var d := path + [c] + key + token + more;
    assert d == path + [c] + key + (token + more);
    FirstKeyAfter(path, c, key, token + more);
    assert d[|path| + 1 + |key|..] == token + more;
    FirstAmpersand(token, more);
  }

  /** A client connecting to "<path>?token=<token>[&...]" presents exactly its
      token, provided the path does not itself contain "token=" and the token
      holds no '&'. */
  lemma QueryTokenExtracted(path: string, token: string, more: string)
    requires !Contains(path, "token=")
    requires '&' !in token
    requires more == [] || more[0] == '&'
    ensures ExtractToken(Handshake(None, path + "?token=" + token + more)) == Some(token)
  {
    var d := path + "?token=" + token + more;
    assert d == path + ['?'] + "token=" + token + more;
    assert OccursAt(d, "?token=", |path|);
    ValueAfterKey(path, '?', "token=", token, more);
  }

  /** constantTimeEquals: equality of the UTF-8 encodings, which for strings
      of Unicode scalar values is equality of the strings. */
  function ConstantTimeEquals(a: string, b: string): (r: bool)
    ensures r <==> a == b
  {
    if Encode(a) == Encode(b) then
      EncodeInjective(a, b);
      true
    else
      false
  }

  /** Who may connect: anyone when no token (or an empty one) is configured,
      otherwise a client whose handshake presents exactly that token. */
  predicate Authorized(expected: Option<string>, h: Handshake)
  {
    expected.None? || expected.value == "" || ExtractToken(h) == Some(expected.value)
  }

  class GatewayServer {
    /** gateway.authToken of the configuration. */
    const authToken: Option<string>
    const router: RpcRouter
    /** The authenticated clients by remote address. */
    var clients: map<string, Connection>
    /** Every connection ever admitted by onOpen. */
    ghost var admitted: set<Connection>

    ghost predicate Valid()
      reads this`clients, this`admitted
    {
      clients.Values <= admitted
    }

    constructor (authToken: Option<string>, router: RpcRouter)
      ensures this.authToken == authToken && this.router == router
      ensures clients == map[] && admitted == {}
      ensures Valid()
    {
      this.authToken := authToken;
      this.router := router;
      clients := map[];
      admitted := {};
    }

    /** onOpen: a client that is authorized joins the client table under its
        remote address; any other is closed with 1008 "Unauthorized" and the
        table stays as it was. */
    method OnOpen(conn: Connection, h: Handshake) returns (o: OpenOutcome)
      requires Valid()
      modifies this`clients, this`admitted
      ensures Valid()
      ensures o.Accepted? <==> Authorized(authToken, h)
      ensures o.Accepted? ==> clients == old(clients)[conn.remoteAddress := conn] && admitted == old(admitted) + {conn}
      ensures o.Closed? ==> o == Closed(UNAUTHORIZED_CLOSE_CODE, "Unauthorized")
      ensures o.Closed? ==> clients == old(clients) && admitted == old(admitted)
    {
      if authToken.None? || authToken.value == "" {
        clients := clients[conn.remoteAddress := conn];
        admitted := admitted + {conn};
        return Accepted;
      }
      var provided := ExtractToken(h);
      if provided.None? || !ConstantTimeEquals(authToken.value, provided.value) {
        return Closed(UNAUTHORIZED_CLOSE_CODE, "Unauthorized");
      }
      clients := clients[conn.remoteAddress := conn];
      admitted := admitted + {conn};
      o := Accepted;
    }

    /** onClose: the entry under the connection's remote address is removed. */
    method OnClose(conn: Connection)
      requires Valid()
      modifies this`clients
      ensures Valid()
      ensures clients == old(clients) - {conn.remoteAddress}
    {
      clients := clients - {conn.remoteAddress};
    }

    /** onMessage: the one message sent back, if any. A message from a
        connection outside the client table, one that does not parse and one
        without a method get no answer; a request gets the routed result
        under its own id, -32601 when the handler returned null and -32603
        when it threw. */
    function OnMessage(conn: Connection, request: Result<RpcRequest, string>): (reply: Option<Reply>)
      reads this`clients, router`routes
      ensures reply.Some? <==> conn in clients.Values && request.Success? && request.value.methodName.Some?
      ensures reply.Some? ==> reply.value.id == request.value.id
      ensures reply.Some? ==> var m := request.value.methodName.value;
        reply.value.body == Respond(m, router.Route(m, request.value.params))
    {
      if conn !in clients.Values then None
      else
        match request
        case Failure(_) => None
        case Success(req) =>
          match req.methodName
          case None => None
          case Some(m) => Some(Reply(req.id, Respond(m, router.Route(m, req.params))))
    }
  }

  /** The answer to a routed request: the handler's node, -32601 for a null
      node, -32603 with the exception's message for an exception. */
  function Respond(m: string, outcome: HandlerOutcome): (b: ReplyBody)
    ensures b.RpcResult? <==> outcome.Returned? && outcome.node.Some?
    ensures b.RpcResult? ==> b.node == outcome.node.value
    ensures b.RpcError? && b.code == METHOD_NOT_FOUND_CODE <==> outcome == Returned(None)
    ensures outcome == Returned(None) ==> b.message == "Method not found: " + m
    ensures b.RpcError? && b.code == INTERNAL_ERROR_CODE <==> outcome.Threw?
    ensures outcome.Threw? ==> b.message == "Internal error: " + NullText(outcome.message)
  {
    match outcome
    case Returned(None) => RpcError(METHOD_NOT_FOUND_CODE, "Method not found: " + m)
    case Returned(Some(n)) => RpcResult(n)
    case Threw(msg) => RpcError(INTERNAL_ERROR_CODE, "Internal error: " + NullText(msg))
  }

  /** Only admitted connections are ever answered. */
  lemma RepliesOnlyToAdmitted(server: GatewayServer, conn: Connection, request: Result<RpcRequest, string>)
    requires server.Valid()
    requires server.OnMessage(conn, request).Some?
    ensures conn in server.admitted
  {
  }

  /** A request for a method nobody registered is answered with a result
      (the router's "Method not found" object), never with error -32601:
      that code is reserved for a registered handler that returned null. */
  lemma UnknownMethodAnsweredAsResult(server: GatewayServer, conn: Connection, req: RpcRequest)
    requires conn in server.clients.Values
    requires req.methodName.Some? && req.methodName.value !in server.router.routes
    ensures server.OnMessage(conn, Success(req))
      == Some(Reply(req.id, RpcResult(MethodNotFound(req.methodName.value))))
  {
  }
}
