/** The method-name to handler table of the gateway. */
module RpcRouters {
  import opened Common
  import opened JsonValues

  /** What a handler does with the request's params: it returns a node (a
      Java null when it returns null) or it throws an exception whose
      message may be null. */
  datatype HandlerOutcome = Returned(node: Option<Json>) | Threw(message: Option<string>)

  /** A Function<JsonNode, JsonNode>; the params handed to it are a Java
      null when the request carried none. */
  type Handler = Option<Json> -> HandlerOutcome

  /** The object route returns for a method with no handler. */
  function MethodNotFound(m: string): (j: Json)
    ensures j.JObj? && j.fields.Keys == {"error"}
    ensures Get(j, "error") == Some(JStr("Method not found: " + m))
  {
    JObj(map["error" := JStr("Method not found: " + m)])
  }

  class RpcRouter {
    var routes: map<string, Handler>

    /** A new router has no routes. */
    constructor ()
      ensures routes == map[]
    {
      routes := map[];
    }

    /** register: the handler for `m` from now on, replacing any earlier one;
        the other methods keep theirs. */
    method Register(m: string, h: Handler)
      modifies this`routes
      ensures routes == old(routes)[m := h]
      ensures routes.Keys == old(routes.Keys) + {m}
      ensures forall k :: k in routes && k != m ==> routes[k] == old(routes[k])
    {
      routes := routes[m := h];
    }

    /** route: the registered handler applied to the params; for an unknown
        method, an object naming it as not found, and never a null. A null
        result comes only from a registered handler that returned null. */
    function Route(m: string, params: Option<Json>): (r: HandlerOutcome)
      reads this`routes
      ensures m in routes ==> r == routes[m](params)
      ensures m !in routes ==> r == Returned(Some(MethodNotFound(m)))
      ensures r == Returned(None) ==> m in routes && routes[m](params) == Returned(None)
      ensures r.Threw? ==> m in routes
    {
      if m in routes then routes[m](params) else Returned(Some(MethodNotFound(m)))
    }
  }

  /** After register(m, h), route(m, p) is h(p) for every p, whatever was
      registered before. */
  method RegisterThenRoute(router: RpcRouter, m: string, h: Handler, p: Option<Json>) returns (r: HandlerOutcome)
    modifies router`routes
    ensures r == h(p)
    ensures router.routes == old(router.routes)[m := h]
  {
    router.Register(m, h);
    r := router.Route(m, p);
  }
}
