/**
 * Building the request the gateway sends to the chosen backend: the target URL
 * (backend base + original URL with one trailing slash stripped), the method
 * and headers as received, and a body only for methods other than GET and HEAD.
 */
module Forwarding {
  import opened Wrappers
  import opened Registry

  type Headers = map<string, string>

  /**
   * An inbound request as the handler sees it. `originalUrl` is the full path
   * and query string, `/service` segment included; `body` is the parsed JSON
   * body in the serialized form the gateway would send on.
   */
  datatype Request = Request(verb: string, originalUrl: string, headers: Headers, body: string)

  /** The request issued to a backend; `body` is None when no body is sent. */
  datatype OutboundRequest = OutboundRequest(url: string, verb: string, headers: Headers, body: Option<string>)

  /**
   * Strips exactly one trailing '/' from a path longer than one character;
   * the root path "/" is left alone.
   */
  function StripTrailingSlash(path: string): (r: string)
    ensures r <= path && |path| - 1 <= |r|
    ensures |r| < |path| <==> (|path| > 1 && path[|path| - 1] == '/')
    ensures |r| < |path| ==> path == r + "/"
  {
    if |path| > 1 && path[|path| - 1] == '/' then path[..|path| - 1] else path
  }

  /** Stripping undoes appending a slash to any non-empty path. */
  lemma StripUndoesAppend(path: string)
    requires path != []
    ensures StripTrailingSlash(path + "/") == path
  {
  }

  /**
   * Only one slash goes: a path ending in two slashes keeps one, so stripping
   * is not idempotent. The root path "/" is left as it is.
   */
  lemma StripRemovesOnlyOne(path: string)
    requires path != []
    ensures StripTrailingSlash(path + "//") == path + "/"
    ensures StripTrailingSlash(StripTrailingSlash(path + "//")) == path
    ensures StripTrailingSlash("/") == "/"
  {
    assert (path + "//")[..|path| + 1] == path + "/";
  }

  /** Whether the method carries a body to the backend. */
  predicate SendsBody(verb: string) {
    verb != "GET" && verb != "HEAD"
  }

  /** The backend URL for a request: the backend's base URL followed by the normalised original URL. */
  function TargetUrl(server: Endpoint, originalUrl: string): (u: string)
    ensures server <= u
    ensures u[|server|..] <= originalUrl && |originalUrl| <= |u[|server|..]| + 1
    ensures u == server + originalUrl || u + "/" == server + originalUrl
    ensures u == server + originalUrl <==> !(|originalUrl| > 1 && originalUrl[|originalUrl| - 1] == '/')
    ensures u[|server|..] == StripTrailingSlash(originalUrl)
  {
    server + StripTrailingSlash(originalUrl)
  }

  /**
   * The original URL is forwarded whole, service segment included: for
   * /<service><rest> with a non-empty rest, the target starts with
   * <backend>/<service>, and a trailing slash after the rest is the only
   * thing dropped (/user/profile/ goes to <backend>/user/profile).
   */
  lemma TargetKeepsServiceSegment(server: Endpoint, service: string, rest: string)
    requires rest != []
    ensures server + "/" + service <= TargetUrl(server, "/" + service + rest)
    ensures TargetUrl(server, "/" + service + rest + "/") == server + "/" + service + rest
  {
    var url := "/" + service + rest;
    var prefix := server + "/" + service;
    var u := TargetUrl(server, url);
    assert server + url == prefix + rest;
    if u != server + url {
      assert u + "/" == prefix + rest;
      assert u == (prefix + rest)[..|u|];
      assert prefix == (prefix + rest)[..|prefix|];
    }
    StripUndoesAppend(url);
    assert url + "/" == "/" + service + rest + "/";
  }

  /** A slash followed by a query string is not a trailing slash and stays. */
  lemma QueryAfterSlashKept()
    ensures TargetUrl("http://localhost:8081", "/user/profile/?id=7") == "http://localhost:8081/user/profile/?id=7"
  {
  }

  /**
   * The outbound request for a request sent to `server`: GET and HEAD
   * requests reach the backend without a body, every other method carries it.
   */
  function OutboundFor(server: Endpoint, req: Request): (o: OutboundRequest)
    ensures o.url == TargetUrl(server, req.originalUrl)
    ensures o.verb == req.verb && o.headers == req.headers
    ensures o.body.Some? <==> SendsBody(req.verb)
    ensures o.body.Some? ==> o.body.value == req.body
  {
    OutboundRequest(
      TargetUrl(server, req.originalUrl),
      req.verb,
      req.headers,
      if SendsBody(req.verb) then Some(req.body) else None)
  }
}
