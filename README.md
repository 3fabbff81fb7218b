# API gateway routing core, in Dafny

This project models the routing core of a small Node.js API gateway (`server.js`).
The gateway keeps a static table from service name (`user`, `restaurant`, `order`, `delivery`)
to an ordered list of backend base URLs. It also keeps one round-robin cursor per service.
A request to `/<service>/...` goes through these steps:

1. An unknown service is answered `404 {error: 'Service not found'}`.
2. For a known service, `getNextAvailableServer` walks the service's list from its cursor, trying at most N candidates.
   Before each liveness probe it advances the cursor by one modulo N.
   It returns the first candidate whose probe succeeds, or `null` when all N fail.
3. `null` is answered `500 {error: 'All servers are down'}`.
4. Otherwise the request is sent to `<backend><originalUrl>`, with one trailing `/` stripped from a URL longer than one character.
   The method and headers are passed on as received. A body is sent only when the method is neither GET nor HEAD.
5. A forward that throws is answered `500 {error: 'Failed to forward request'}`.
   The same answer comes when the backend replied but reading its body threw. The backend's headers have already been copied by then, and they stay on the 500 answer.
   Otherwise the backend's status, headers and body text are relayed, whatever the status is.

Modules:

- `Wrappers` (wrappers.dfy): `Option`.
- `Registry` (registry.dfy): the service table `Services()` and the initial cursor table.
- `Selector` (selector.dfy): the specification of one selection as functions on values:
  - `At`, `Candidates`, `FirstUp` and `Select`, plus `Served` for consecutive selections;
  - the lemmas about them;
  - the class `Balancer`. It holds the service table and the mutable `serviceIndex` map. Its method `NextAvailable` is the source's loop, proved equal to `Select`.
- `Forwarding` (forwarding.dfy): trailing-slash stripping, the target URL, and the outbound request with the GET/HEAD body rule.
- `Router` (router.dfy): the handler's decision as a function (`Dispatch`, `Route`), the lemmas about its outcomes, and the imperative handler `Handle`. `Handle` calls `Balancer.NextAvailable` and is proved equal to `Route`.

The network calls are oracles passed in as parameters:

- the health probe is `isUp: Endpoint -> bool`, true when the `GET <endpoint>/health` call returns an ok (2xx) response;
- the forward is `forward: OutboundRequest -> ForwardResult`. It is one of three results:
  - `Replied`: the backend's full reply.
  - `ReadFailed`: the status and headers arrived, but reading the body threw.
  - `Threw`: the call itself threw.

The handler forwards `req.originalUrl`, which still holds the `/service` segment. So `/user/profile/` goes to `<backend>/user/profile`, not to `<backend>/profile`: the path after the service segment is not what is forwarded. `Forwarding.TargetKeepsServiceSegment` states this for every service name and path.

## Model

| member | source | states |
|---|---|---|
| `Registry.Services` | server.js:5-10 | four services, each with two distinct backend URLs; no list is empty |
| `Registry.InitialCursors` | server.js:13-18 | one cursor per registered service, all starting at 0 |
| `Selector.Candidates` | server.js:25-27 | the k-th candidate probed is `servers[(start + k) % N]` |
| `Selector.FirstUp` | server.js:25-41 | the offset of the first candidate whose probe succeeds: every earlier candidate failed, and the one found is up (N when none is) |
| `Selector.Select` | server.js:21-46 | the specification of one selection: at most N probes; a returned endpoint is the last candidate probed; None only after all N were probed. Its full meaning is carried by the lemmas below |
| `Selector.SelectCursorInRange` | server.js:26-30 | a cursor in `[0, N)` stays in `[0, N)` after a selection |
| `Selector.SelectAdvancesOncePerProbe` | server.js:25-30 | at most N probes; the cursor advances exactly once per probe, whether or not the probe succeeded; probes follow list order from the cursor |
| `Selector.SelectResultIsLiveMember` | server.js:26-38 | a returned endpoint is an element of the service's list, its probe succeeded, and it is the last candidate probed |
| `Selector.SelectFirstSuccess` | server.js:26-37 | if the first success is the k-th candidate, the result is `servers[(c+k) % N]`, the cursor ends at `(c+k+1) % N`, and only k+1 candidates were probed |
| `Selector.SelectNoneIffAllDown` | server.js:25-45 | the selector returns None exactly when no endpoint is up; it then probed exactly N candidates and the cursor is back at its start |
| `Selector.SelectSingleLive` | server.js:25-41 | when exactly one position p is up, `servers[p]` is returned wherever the cursor started, and the cursor ends at `(p+1) % N` |
| `Selector.Served` | server.js:21-46 | the results of `count` consecutive selections, each starting where the previous one left the cursor; one result per selection. Its order is stated by the next two lemmas |
| `Selector.AllUpServesInOrder` | server.js:26-37 | with every probe succeeding, consecutive selections return the endpoints in list order from the cursor |
| `Selector.AllUpRoundIsFair` | server.js:26-37 | with every probe succeeding, N consecutive selections return each endpoint exactly once (the round is a permutation of the list) |
| `Selector.Balancer.constructor` | server.js:12-18 | the initial state: the given service table and every cursor at 0, satisfying the cursor invariant |
| `Selector.Balancer.NextAvailable` | server.js:21-46 | the loop returns what `Select` specifies, sets the requested service's cursor to where `Select` leaves it, keeps every cursor in range, and changes no other service's cursor |
| `Forwarding.StripTrailingSlash` | server.js:65-68 | the result is a prefix of the path, at most one character shorter; it is shorter exactly when the path ends in `/` and is longer than 1, and then the path is the result plus `/` |
| `Forwarding.StripUndoesAppend` | server.js:66-67 | stripping undoes appending one `/` to a non-empty path |
| `Forwarding.StripRemovesOnlyOne` | server.js:66-67 | for every non-empty path, only one of two trailing slashes is removed, so stripping is not idempotent; `/` is unchanged |
| `Forwarding.TargetUrl` | server.js:65-70 | the target is the backend base followed by the original URL; the URL's final `/` is dropped exactly when the URL ends in `/` and is longer than 1 |
| `Forwarding.TargetKeepsServiceSegment` | server.js:65-70 | for every `/<service><rest>` with a non-empty rest, the target starts with `<backend>/<service>`; with a trailing slash after the rest, only that slash is dropped |
| `Forwarding.QueryAfterSlashKept` | server.js:66 | a slash followed by a query string is not a trailing slash and stays |
| `Forwarding.OutboundFor` | server.js:74-78 | the outbound request goes to the target URL with the inbound method and headers; it carries the request body exactly when the method is neither GET nor HEAD, and no body for GET and HEAD |
| `Router.Dispatch` | server.js:59-87 | for a registered service: the answer is a gateway error exactly when no endpoint was selected or the forward did not yield a full reply; every gateway error has status 500; it is never the 404 answer |
| `Router.Route` | server.js:52-88 | one request: 404 exactly for unregistered names, which probe and forward nothing and keep the cursors; no cursor of another service moves; a forwarded request goes to the last candidate probed. Its tie to the selector and the outcome-by-outcome statements are the lemmas below |
| `Router.UnknownServiceIff` | server.js:55-57 | the answer is 404 `Service not found` exactly when the service is not registered; no probe, no forward, no cursor change, and the answer does not depend on the backends |
| `Router.AllDownIff` | server.js:59-63 | for a registered service, 500 `All servers are down` exactly when no endpoint is up; then N probes were made, nothing was forwarded, and the cursor is unchanged |
| `Router.ForwardFailedIff` | server.js:73-87 | 500 `Failed to forward request` exactly when a request was forwarded and the call threw, or the reply's body could not be read. No headers are kept when the call threw; the backend's headers are kept when the body read threw |
| `Router.RouteFollowsSelect` | server.js:52-72 | for a registered service the router probes exactly the selector's candidates, leaves that service's cursor where the selector put it, forwards exactly when the selector picked an endpoint and then to that pick; whenever some endpoint of the service is up, the request is forwarded |
| `Router.ForwardedToLiveMemberAndRelayed` | server.js:65-83 | a forwarded request goes to the selector's round-robin pick, a live endpoint of the service, at its base plus the stripped original URL; a backend reply, any status included, is relayed with its status, headers and body |
| `Router.OnlyRequestedCursorMoves` | server.js:30 | only the requested service's cursor changes; every cursor stays in range |
| `Router.Handle` | server.js:52-88 | the handler's response, final cursor table, probes and forward are those `Route` specifies |
| `Router.PassesGuardAsWritten` | server.js:55 | the 404 test as written passes every registered name; of the unregistered names, only Object.prototype member names pass it |
| `Router.ResponseAsWritten` | server.js:55-63 | the guard as written; for every name not inherited from Object.prototype it answers as `Route` does |
| `Router.InheritedNameAnsweredAllDown` | server.js:55-63 | for any of the twelve Object.prototype member names that is not a registered service, the handler as written answers 500 `All servers are down`, while `Route` answers 404; none of those names is registered |

## Left out

- Express setup, `express.json()` body parsing, `app.listen` and the port constant (server.js:48-50, 90-93): framework plumbing.
- Extracting the service name from the path (`req.params.service`, including Express's URL decoding) is done by Express; the name is an input of `Route` and `Handle`.
- The HTTP calls themselves (server.js:35, 74-78): the health probe is the oracle `isUp`, and the forward is the oracle `forward`. Because `isUp` is a function, one endpoint URL listed twice gets the same probe answer both times in one selection.
- `JSON.stringify` of the body: the request's `body` field stands for the already-serialized text.
- Copying headers with `response.headers.forEach`/`res.set`, and `response.text()`: headers are an opaque map and the body an opaque string.
- Headers that Express adds or rewrites on an answer are not modelled. Examples are `Content-Type` on the gateway's own JSON errors (kept from the backend when a body read failed) and `Content-Length`.
- Console logging (server.js:40, 71, 85).
- Concurrent requests interleaving on the shared `serviceIndex`: the model handles one request at a time.
- The gateway variant without failover (a plain round-robin `next` that never probes) is not part of this model.
- Router.ResponseAsWritten: models the response only. For the inherited names whose `length` is 1 or 2, the loop runs and writes a `NaN` entry into `serviceIndex`. Those names are `constructor`, `hasOwnProperty`, `isPrototypeOf`, `propertyIsEnumerable` and the four `__defineGetter__`/`__defineSetter__`/`__lookupGetter__`/`__lookupSetter__` names. That side effect is not modelled. For `toString`, `valueOf`, `toLocaleString` (length 0) and `__proto__` (length undefined), the loop never runs and nothing is written.

## Findings

| source | as written | input that shows it | evidently intended | confidence | as-written member | corrected member |
|---|---|---|---|---|---|---|
| server.js:55-63 | `!services[serviceName]` is a property lookup that also finds members inherited from Object.prototype. Those are truthy, so the name passes the 404 test. The selector then finds no usable endpoint and returns null. | `GET /toString/anything` | 404 `{error: 'Service not found'}` for every name not in the table | medium; not executed | `Router.ResponseAsWritten` (with `Router.InheritedNameAnsweredAllDown`) | `Router.Route` (with `Router.UnknownServiceIff`) |
