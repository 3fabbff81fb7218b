/**
 * The request handler mounted at '/:service/:path?': reject unknown services
 * with 404, ask the selector for a live backend (500 when none), forward the
 * request to it (500 when forwarding or reading the reply throws), and
 * otherwise relay the backend's status, headers and body.
 *
 * The forward call is the oracle `forward`: what the backend answers, that
 * reading its body threw, or that the call threw.
 */
module Router {
  import opened Wrappers
  import opened Registry
  import opened Selector
  import opened Forwarding

  /** A response body: the gateway's own `{error: ...}` JSON, or the backend's body text. */
  datatype Payload = ErrorJson(error: string) | Text(text: string)

  datatype Response = Response(status: int, headers: Headers, payload: Payload)

  /**
   * What the forward call yields: the backend's full reply; a reply whose
   * status and headers arrived (and were already copied onto the answer) but
   * whose body could not be read; or an exception before any reply.
   */
  datatype ForwardResult =
    | Replied(status: int, headers: Headers, text: string)
    | ReadFailed(status: int, headers: Headers)
    | Threw

  const NotFound: Response := Response(404, map[], ErrorJson("Service not found"))
  const AllDown: Response := Response(500, map[], ErrorJson("All servers are down"))
  const ForwardFailedMessage: string := "Failed to forward request"

  /** The 500 answer to a failed forward, keeping whatever headers were already copied from the backend. */
  function ForwardFailed(copied: Headers): Response {
    Response(500, copied, ErrorJson(ForwardFailedMessage))
  }

  /** The response for a registered service, given the selector's pick and the forward's outcome. */
  function Dispatch(selected: Option<Endpoint>, req: Request, forward: OutboundRequest -> ForwardResult): (r: Response)
    ensures r.payload.ErrorJson? <==> selected.None? || !forward(OutboundFor(selected.value, req)).Replied?
    ensures r.payload.ErrorJson? ==> r.status == 500
    ensures r != NotFound
  {
    match selected
    case None => AllDown
    case Some(server) =>
      match forward(OutboundFor(server, req))
      case Threw => ForwardFailed(map[])
      case ReadFailed(_, headers) => ForwardFailed(headers)
      case Replied(status, headers, text) => Response(status, headers, Text(text))
  }

  /**
   * Everything one request does: the response, the cursor table afterwards,
   * the candidates probed, and the request forwarded to a backend, if any.
   */
  datatype Outcome = Outcome(response: Response, cursors: Cursors, probed: seq<Endpoint>, forwarded: Option<OutboundRequest>)

  /** One request to service `name`, from cursor table `cursors`. */
  function Route(table: Table, cursors: Cursors, name: ServiceName, req: Request,
                 isUp: Endpoint -> bool, forward: OutboundRequest -> ForwardResult): (o: Outcome)
    requires name in table ==> name in cursors
    ensures o.response == NotFound <==> name !in table
    ensures name !in table ==> o.probed == [] && o.forwarded == None && o.cursors == cursors
    ensures o.cursors.Keys == cursors.Keys
    ensures forall other :: other in cursors && other != name ==> o.cursors[other] == cursors[other]
    ensures o.forwarded.Some? ==>
      name in table && |o.probed| > 0 && o.forwarded.value == OutboundFor(o.probed[|o.probed| - 1], req)
  {
    if name !in table then
      Outcome(NotFound, cursors, [], None)
    else
      var s := Select(table[name], cursors[name], isUp);
      var forwarded := if s.server.Some? then Some(OutboundFor(s.server.value, req)) else None;
      Outcome(Dispatch(s.server, req, forward), cursors[name := s.cursor], s.probed, forwarded)
  }

  /**
   * The 404 answer comes exactly for unregistered names; it then probes
   * nothing, forwards nothing, changes no cursor, and does not depend on the
   * backends at all.
   */
  lemma UnknownServiceIff(table: Table, cursors: Cursors, name: ServiceName, req: Request,
                          isUp: Endpoint -> bool, forward: OutboundRequest -> ForwardResult,
                          isUp': Endpoint -> bool, forward': OutboundRequest -> ForwardResult)
    requires CursorsFit(table, cursors)
    ensures var o := Route(table, cursors, name, req, isUp, forward);
      (o.response == NotFound <==> name !in table)
      && (name !in table ==>
            o.probed == [] && o.forwarded == None && o.cursors == cursors
            && o == Route(table, cursors, name, req, isUp', forward'))
  {
  }

  /**
   * For a registered service the answer is 500 "All servers are down" exactly
   * when no endpoint of the service is up; every endpoint has then been probed
   * once, nothing is forwarded, and the cursor is back where it was.
   */
  lemma AllDownIff(table: Table, cursors: Cursors, name: ServiceName, req: Request,
                   isUp: Endpoint -> bool, forward: OutboundRequest -> ForwardResult)
    requires CursorsFit(table, cursors) && name in table
    ensures var o := Route(table, cursors, name, req, isUp, forward);
      (o.response == AllDown <==> forall p :: 0 <= p < |table[name]| ==> !isUp(table[name][p]))
      && (o.response == AllDown ==>
            |o.probed| == |table[name]| && o.forwarded == None && o.cursors == cursors)
  {
    SelectNoneIffAllDown(table[name], cursors[name], isUp);
  }

  /**
   * 500 "Failed to forward request" comes exactly when a request was
   * forwarded and either the call threw (no headers copied) or reading the
   * reply's body threw (the backend's headers stay on the answer).
   */
  lemma ForwardFailedIff(table: Table, cursors: Cursors, name: ServiceName, req: Request,
                         isUp: Endpoint -> bool, forward: OutboundRequest -> ForwardResult)
    requires CursorsFit(table, cursors)
    ensures var o := Route(table, cursors, name, req, isUp, forward);
      (o.response.payload == ErrorJson(ForwardFailedMessage) <==>
         o.forwarded.Some? && !forward(o.forwarded.value).Replied?)
      && (o.forwarded.Some? && forward(o.forwarded.value).Threw? ==> o.response == ForwardFailed(map[]))
      && (o.forwarded.Some? && forward(o.forwarded.value).ReadFailed? ==>
            o.response == ForwardFailed(forward(o.forwarded.value).headers))
  {
  }

  /**
   * For a registered service the router follows the round-robin selector:
   * it probes exactly the selector's candidates, leaves the service's cursor
   * where the selector left it, and forwards to the selector's pick and to
   * nothing else. Whenever some endpoint of the service is up, a request is
   * forwarded.
   */
  lemma RouteFollowsSelect(table: Table, cursors: Cursors, name: ServiceName, req: Request,
                           isUp: Endpoint -> bool, forward: OutboundRequest -> ForwardResult)
    requires CursorsFit(table, cursors) && name in table
    ensures var o := Route(table, cursors, name, req, isUp, forward);
      var s := Select(table[name], cursors[name], isUp);
      o.probed == s.probed && o.cursors[name] == s.cursor
      && (o.forwarded.Some? <==> s.server.Some?)
      && (s.server.Some? ==> o.forwarded == Some(OutboundFor(s.server.value, req)))
      && ((exists p :: 0 <= p < |table[name]| && isUp(table[name][p])) ==> o.forwarded.Some?)
  {
    SelectNoneIffAllDown(table[name], cursors[name], isUp);
  }

  /**
   * A forwarded request goes to the endpoint the selector picked, which is a
   * live endpoint of the requested service, at that endpoint's base URL
   * followed by the normalised original URL; whatever the backend answers,
   * any status included, is relayed verbatim.
   */
  lemma ForwardedToLiveMemberAndRelayed(table: Table, cursors: Cursors, name: ServiceName, req: Request,
                                        isUp: Endpoint -> bool, forward: OutboundRequest -> ForwardResult)
    requires CursorsFit(table, cursors)
    ensures var o := Route(table, cursors, name, req, isUp, forward);
      o.forwarded.Some? ==>
        (name in table
         && var pick := Select(table[name], cursors[name], isUp).server;
         pick.Some? && pick.value in table[name] && isUp(pick.value)
         && o.forwarded.value == OutboundFor(pick.value, req)
         && o.forwarded.value.url == pick.value + StripTrailingSlash(req.originalUrl)
         && (forward(o.forwarded.value).Replied? ==>
               var b := forward(o.forwarded.value);
               o.response == Response(b.status, b.headers, Text(b.text))))
  {
    if name in table {
      SelectResultIsLiveMember(table[name], cursors[name], isUp);
    }
  }

  /**
   * Only the requested service's cursor moves, it stays in range, and every
   * other cursor is untouched.
   */
  lemma OnlyRequestedCursorMoves(table: Table, cursors: Cursors, name: ServiceName, req: Request,
                                 isUp: Endpoint -> bool, forward: OutboundRequest -> ForwardResult)
    requires CursorsFit(table, cursors)
    ensures var o := Route(table, cursors, name, req, isUp, forward);
      CursorsFit(table, o.cursors)
      && o.cursors.Keys == cursors.Keys
      && forall other :: other in cursors && other != name ==> o.cursors[other] == cursors[other]
  {
  }

  /**
   * The handler: `gw` holds the service table and the shared cursor table.
   * `probed` and `forwarded` record the outbound calls made.
   */
  method Handle(gw: Balancer, name: ServiceName, req: Request,
                isUp: Endpoint -> bool, forward: OutboundRequest -> ForwardResult)
    returns (response: Response, ghost probed: seq<Endpoint>, ghost forwarded: Option<OutboundRequest>)
    requires gw.Valid()
    modifies gw
    ensures gw.Valid()
    ensures Outcome(response, gw.serviceIndex, probed, forwarded)
         == Route(gw.services, old(gw.serviceIndex), name, req, isUp, forward)
  {
    if name !in gw.services {
      return NotFound, [], None;
    }
    var server;
    server, probed := gw.NextAvailable(name, isUp);
    if server.None? {
      return AllDown, probed, None;
    }
    var outbound := OutboundFor(server.value, req);
    forwarded := Some(outbound);
    var result := forward(outbound);
    match result
    case Threw =>
      response := ForwardFailed(map[]);
    case ReadFailed(_, headers) =>
      response := ForwardFailed(headers);
    case Replied(status, headers, text) =>
      response := Response(status, headers, Text(text));
  }

  // ---------------------------------------------------------------------------
  // The unknown-service test as written

  /** The members every plain JavaScript object inherits from Object.prototype. */
  const ObjectPrototypeMembers: set<string> := {
    "constructor", "hasOwnProperty", "isPrototypeOf", "propertyIsEnumerable",
    "toLocaleString", "toString", "valueOf", "__proto__",
    "__defineGetter__", "__defineSetter__", "__lookupGetter__", "__lookupSetter__"
  }

  /**
   * The handler's test `!services[serviceName]` as written: a property lookup
   * on a plain object also finds the inherited members, each of them truthy.
   */
  predicate PassesGuardAsWritten(table: Table, name: ServiceName)
    ensures name in table ==> PassesGuardAsWritten(table, name)
    ensures name !in table && name !in ObjectPrototypeMembers ==> !PassesGuardAsWritten(table, name)
  {
    name in table || name in ObjectPrototypeMembers
  }

  /**
   * The response as the handler computes it. For an inherited member name the
   * selector's "endpoint list" is a function or Object.prototype: its
   * `length` is 0, 1, 2 or undefined and its elements are undefined, so every
   * probe of "undefined/health" throws and the selector returns null.
   */
  function ResponseAsWritten(table: Table, cursors: Cursors, name: ServiceName, req: Request,
                             isUp: Endpoint -> bool, forward: OutboundRequest -> ForwardResult): (r: Response)
    requires name in table ==> name in cursors
    ensures name !in ObjectPrototypeMembers ==> r == Route(table, cursors, name, req, isUp, forward).response
  {
    if !PassesGuardAsWritten(table, name) then NotFound
    else if name in table then Route(table, cursors, name, req, isUp, forward).response
    else AllDown
  }

  /**
   * A request naming any member inherited from Object.prototype that is not a
   * registered service is answered 500 "All servers are down" by the handler
   * as written, where Route answers 404 "Service not found"; no member of
   * Object.prototype is a registered service.
   */
  lemma InheritedNameAnsweredAllDown(table: Table, cursors: Cursors, name: ServiceName, req: Request,
                                     isUp: Endpoint -> bool, forward: OutboundRequest -> ForwardResult)
    requires name in ObjectPrototypeMembers && name !in table
    ensures ResponseAsWritten(table, cursors, name, req, isUp, forward) == AllDown
    ensures Route(table, cursors, name, req, isUp, forward).response == NotFound
    ensures forall member :: member in ObjectPrototypeMembers ==> member !in Services()
  {
  }
}
