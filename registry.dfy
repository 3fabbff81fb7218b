/**
 * The gateway's registry: the static table from service name to its ordered
 * list of backend base URLs, and the round-robin cursor table that starts at
 * position 0 for every service.
 */
module Registry {
  type ServiceName = string
  type Endpoint = string
  type Table = map<ServiceName, seq<Endpoint>>
  type Cursors = map<ServiceName, nat>

  /** The services the gateway routes to, each with its two backend instances. */
  function Services(): (t: Table)
    ensures t.Keys == {"user", "restaurant", "order", "delivery"}
    ensures forall name :: name in t ==> |t[name]| == 2 && t[name][0] != t[name][1]
  {
    map[
      "user" := ["http://localhost:8081", "http://localhost:8085"],
      "restaurant" := ["http://localhost:8082", "http://localhost:8086"],
      "order" := ["http://localhost:8083", "http://localhost:8087"],
      "delivery" := ["http://localhost:8090", "http://localhost:8091"]
    ]
  }

  /** The initial cursor table: one cursor per registered service, all at position 0. */
  function InitialCursors(t: Table): (c: Cursors)
    ensures c.Keys == t.Keys
    ensures forall name :: name in c ==> c[name] == 0
  {
    map name | name in t :: 0
  }
}
