/**
 * Route metadata (src/decorators/index.ts). The `@Route` and `@Controller`
 * decorators record, per controller class, an ordered list of route
 * definitions and a path prefix. The reflection store behind them is modelled
 * as an object holding two maps keyed by class identity.
 */
module Decorators {

  /** The four HTTP verbs a route can answer; each carries its lowercase string value. */
  datatype HttpMethod = GET | POST | PUT | DELETE {
    function Value(): string {
      match this
      case GET => "get"
      case POST => "post"
      case PUT => "put"
      case DELETE => "delete"
    }

    /** The member's name as written in the enum. */
    function Name(): string {
      match this
      case GET => "GET"
      case POST => "POST"
      case PUT => "PUT"
      case DELETE => "DELETE"
    }
  }

  /** The enum has exactly four members, with four distinct string values. */
  lemma HttpMethodValues()
    ensures forall m: HttpMethod :: m.Value() in ["get", "post", "put", "delete"]
    ensures forall m: HttpMethod, n: HttpMethod :: m.Value() == n.Value() ==> m == n
    ensures [GET.Value(), POST.Value(), PUT.Value(), DELETE.Value()] == ["get", "post", "put", "delete"]
  {
  }

  /** A declared route: the path suffix, the verb and the name of the handler method. */
  datatype RouteDefinition = RouteDefinition(path: string, httpMethod: HttpMethod, methodName: string)

  /** The identity of a controller class (the `target` the decorators receive). */
  type ClassId = nat

  /** The routes recorded for `target` in `routes`, empty when there are none. */
  function RoutesIn(routes: map<ClassId, seq<RouteDefinition>>, target: ClassId): seq<RouteDefinition> {
    if target in routes then routes[target] else []
  }

  /**
   * The process-wide metadata store: the 'routes' entry and the 'controller'
   * entry (the prefix) of each decorated class.
   */
  class MetadataStore {
    var routes: map<ClassId, seq<RouteDefinition>>
    var prefixes: map<ClassId, string>

    /** Before any class is decorated, nothing is recorded. */
    constructor ()
      ensures routes == map[] && prefixes == map[]
    {
      routes := map[];
      prefixes := map[];
    }

    /**
     * `@Route(httpMethod, path)` on method `propertyKey` of class `target`: creates
     * an empty list for the class if it has none, then appends exactly one
     * definition at its end. Earlier definitions are kept (no de-duplication),
     * and no other class's routes or prefix change.
     */
    method Route(target: ClassId, httpMethod: HttpMethod, path: string, propertyKey: string)
      modifies this
      ensures routes == old(routes)[target := RoutesIn(old(routes), target) + [RouteDefinition(path, httpMethod, propertyKey)]]
      ensures prefixes == old(prefixes)
    {
      if target !in routes {
        routes := routes[target := []];
      }
      var list := routes[target];
      list := list + [RouteDefinition(path, httpMethod, propertyKey)];
      routes := routes[target := list];
    }

    /**
     * `@Controller(prefix)` on class `target`: records the prefix, overwriting
     * any earlier one (last write wins). Nothing else changes.
     */
    method Controller(target: ClassId, prefix: string)
      modifies this
      ensures prefixes == old(prefixes)[target := prefix]
      ensures routes == old(routes)
    {
      prefixes := prefixes[target := prefix];
    }
  }
}
