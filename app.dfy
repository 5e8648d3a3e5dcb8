/**
 * Route registration (`registerRoutes` in src/app.ts): for each controller
 * class in order, make one instance, then for each route recorded for the
 * class, resolve the handler on the instance, compose the full path from the
 * class prefix and the route suffix, and register the handler on the shared
 * router. A route whose handler cannot be resolved is skipped; the rest are
 * still registered.
 */
module App {
  import opened Wrappers
  import opened Decorators
  import CustomerControllers

  /** `String.prototype.toLowerCase` on one character, for the ASCII letters the verbs use. */
  function LowerChar(c: char): char {
    if 'A' <= c <= 'Z' then (c as int + 32) as char else c
  }

  /** `String.prototype.toUpperCase` on one character, for ASCII letters. */
  function UpperChar(c: char): char {
    if 'a' <= c <= 'z' then (c as int - 32) as char else c
  }

  /** `String.prototype.toLowerCase`, character by character. */
  function Lower(s: string): string {
    if s == [] then [] else [LowerChar(s[0])] + Lower(s[1..])
  }

  /** `String.prototype.toUpperCase`, character by character. */
  function Upper(s: string): string {
    if s == [] then [] else [UpperChar(s[0])] + Upper(s[1..])
  }

  /** Lowercasing keeps the length and maps each character on its own. */
  lemma {:induction false} LowerPointwise(s: string)
    ensures |Lower(s)| == |s|
    ensures forall k :: 0 <= k < |s| ==> Lower(s)[k] == LowerChar(s[k])
  {
    if s != [] {
      LowerPointwise(s[1..]);
    }
  }

  /** Uppercasing keeps the length and maps each character on its own. */
  lemma {:induction false} UpperPointwise(s: string)
    ensures |Upper(s)| == |s|
    ensures forall k :: 0 <= k < |s| ==> Upper(s)[k] == UpperChar(s[k])
  {
    if s != [] {
      UpperPointwise(s[1..]);
    }
  }

  /** A string without uppercase letters is its own lowercase. */
  lemma LowerOfLowercase(s: string)
    requires forall k :: 0 <= k < |s| ==> !('A' <= s[k] <= 'Z')
    ensures Lower(s) == s
  {
    LowerPointwise(s);
  }

  /**
   * Lowercasing a declared verb gives its value back, so the router method
   * called is the enum's own value; uppercasing it gives the member's name.
   */
  lemma VerbCase(m: HttpMethod)
    ensures Lower(m.Value()) == m.Value()
    ensures Upper(m.Value()) == m.Name()
  {
    var v := m.Value();
    LowerOfLowercase(v);
    UpperOf(v, m.Name());
  }

  /** `Upper(v)` is `name` when `name` is `v` uppercased character by character. */
  lemma UpperOf(v: string, name: string)
    requires |v| == |name| && forall k :: 0 <= k < |v| ==> UpperChar(v[k]) == name[k]
    ensures Upper(v) == name
  {
    UpperPointwise(v);
  }

  /** The object `new Controller()` made for the `ordinal`-th entry of the controller list. */
  datatype Instance = Instance(cls: ClassId, ordinal: nat)

  /** `instance[methodName].bind(instance)`. */
  datatype Handler = Handler(instance: Instance, methodName: string)

  /** One `router[verb](path, handler)` call. */
  datatype Registration = Registration(verb: string, path: string, handler: Handler)

  /**
   * The full path: `${prefix}${suffix}` when the class has a truthy (present,
   * non-empty) prefix, the bare suffix otherwise.
   */
  function FullPath(prefix: Option<string>, suffix: string): string {
    if prefix.Some? && prefix.value != "" then prefix.value + suffix else suffix
  }

  /** The composed path is always the prefix (empty when absent) followed by the suffix. */
  lemma FullPathIsConcatenation(prefix: Option<string>, suffix: string)
    ensures FullPath(prefix, suffix) == prefix.GetOr("") + suffix
    ensures |FullPath(prefix, suffix)| == |prefix.GetOr("")| + |suffix|
  {
    if prefix.None? || prefix.value == "" {
      assert "" + suffix == suffix;
    }
  }

  /** The registration of route `r` on `instance` under `prefix`. */
  function Bind(instance: Instance, prefix: Option<string>, r: RouteDefinition): Registration {
    Registration(Lower(r.httpMethod.Value()), FullPath(prefix, r.path), Handler(instance, r.methodName))
  }

  /**
   * The registrations the inner loop makes for `routes`, in order: every route
   * whose handler name resolves on the instance (is in `callable`) is bound,
   * every other one is skipped.
   */
  function RouteBindings(instance: Instance, prefix: Option<string>, routes: seq<RouteDefinition>,
                         callable: set<string>): seq<Registration>
  {
    if routes == [] then []
    else
      var last := routes[|routes| - 1];
      RouteBindings(instance, prefix, routes[..|routes| - 1], callable)
      + (if last.methodName in callable then [Bind(instance, prefix, last)] else [])
  }

  /**
   * The registrations the outer loop makes for `controllers`, in order: class
   * by class, each class's routes bound on that entry's own instance, with
   * the class's prefix (if any), its recorded routes (`|| []`) and the handler
   * names its instances have.
   */
  function Bindings(controllers: seq<ClassId>, routes: map<ClassId, seq<RouteDefinition>>,
                    prefixes: map<ClassId, string>, callable: map<ClassId, set<string>>): seq<Registration>
  {
    if controllers == [] then []
    else
      var k := |controllers| - 1;
      Bindings(controllers[..k], routes, prefixes, callable)
      + ClassBindings(controllers[k], k, routes, prefixes, callable)
  }

  function ClassBindings(c: ClassId, ordinal: nat, routes: map<ClassId, seq<RouteDefinition>>,
                         prefixes: map<ClassId, string>, callable: map<ClassId, set<string>>): seq<Registration>
  {
    RouteBindings(Instance(c, ordinal), if c in prefixes then Some(prefixes[c]) else None,
                  RoutesIn(routes, c), if c in callable then callable[c] else {})
  }

  /** The line `console.log` prints for a registration. */
  function LogLine(r: Registration): string {
    "Register route: " + Upper(r.verb) + " " + r.path
  }

  function LogLines(rs: seq<Registration>): seq<string> {
    if rs == [] then [] else LogLines(rs[..|rs| - 1]) + [LogLine(rs[|rs| - 1])]
  }

  /** Exactly one log line per registration, in registration order. */
  lemma {:induction false} LogLinesMatch(rs: seq<Registration>)
    ensures |LogLines(rs)| == |rs|
    ensures forall k :: 0 <= k < |rs| ==> LogLines(rs)[k] == LogLine(rs[k])
  {
    if rs != [] {
      LogLinesMatch(rs[..|rs| - 1]);
    }
  }

  /** Binding a list of routes is binding its two halves one after the other. */
  lemma {:induction false} RouteBindingsAppend(instance: Instance, prefix: Option<string>,
                                               a: seq<RouteDefinition>, b: seq<RouteDefinition>, callable: set<string>)
    ensures RouteBindings(instance, prefix, a + b, callable)
         == RouteBindings(instance, prefix, a, callable) + RouteBindings(instance, prefix, b, callable)
    decreases |b|
  {
    if b == [] {
      assert a + b == a;
    } else {
      var b' := b[..|b| - 1];
      assert (a + b)[..|a + b| - 1] == a + b';
      assert (a + b)[|a + b| - 1] == b[|b| - 1];
      RouteBindingsAppend(instance, prefix, a, b', callable);
    }
  }

  /**
   * A route whose handler does not resolve is skipped and nothing else: the
   * routes before and after it are bound exactly as if it were not declared.
   */
  lemma SkipOnlyThatRoute(instance: Instance, prefix: Option<string>, a: seq<RouteDefinition>,
                          r: RouteDefinition, b: seq<RouteDefinition>, callable: set<string>)
    requires r.methodName !in callable
    ensures RouteBindings(instance, prefix, a + [r] + b, callable)
         == RouteBindings(instance, prefix, a + b, callable)
  {
    RouteBindingsAppend(instance, prefix, a + [r], b, callable);
    RouteBindingsAppend(instance, prefix, a, [r], callable);
    RouteBindingsAppend(instance, prefix, a, b, callable);
    assert [r][..0] == [];
  }

  /**
   * When every handler resolves, each route gives exactly one registration, in
   * route order: verb from the route, path composed from prefix and suffix,
   * handler bound to the one instance.
   */
  lemma {:induction false} AllResolvedAllBound(instance: Instance, prefix: Option<string>,
                                               routes: seq<RouteDefinition>, callable: set<string>)
    requires forall k :: 0 <= k < |routes| ==> routes[k].methodName in callable
    ensures |RouteBindings(instance, prefix, routes, callable)| == |routes|
    ensures forall k :: 0 <= k < |routes| ==>
      RouteBindings(instance, prefix, routes, callable)[k] == Bind(instance, prefix, routes[k])
  {
    if routes != [] {
      var init := routes[..|routes| - 1];
      AllResolvedAllBound(instance, prefix, init, callable);
      var rs := RouteBindings(instance, prefix, routes, callable);
      assert rs == RouteBindings(instance, prefix, init, callable) + [Bind(instance, prefix, routes[|routes| - 1])];
      forall k | 0 <= k < |routes|
        ensures rs[k] == Bind(instance, prefix, routes[k])
      {
        if k < |init| {
          assert routes[k] == init[k];
        }
      }
    }
  }

  /**
   * Every registration made for one class uses that class's single instance,
   * a handler name the instance has, and a route the class declared.
   */
  lemma {:induction false} OneInstancePerClass(instance: Instance, prefix: Option<string>,
                                               routes: seq<RouteDefinition>, callable: set<string>)
    ensures |RouteBindings(instance, prefix, routes, callable)| <= |routes|
    ensures forall reg :: reg in RouteBindings(instance, prefix, routes, callable) ==>
      && reg.handler.instance == instance
      && reg.handler.methodName in callable
      && exists r :: r in routes && reg == Bind(instance, prefix, r)
  {
    if routes != [] {
      var init := routes[..|routes| - 1];
      OneInstancePerClass(instance, prefix, init, callable);
      forall reg | reg in RouteBindings(instance, prefix, init, callable)
        ensures exists r :: r in routes && reg == Bind(instance, prefix, r)
      {
        var r :| r in init && reg == Bind(instance, prefix, r);
        assert r in routes;
      }
    }
  }

  /** A class with no recorded routes contributes no registrations. */
  lemma NoRoutesNoBindings(controllers: seq<ClassId>, k: nat, routes: map<ClassId, seq<RouteDefinition>>,
                           prefixes: map<ClassId, string>, callable: map<ClassId, set<string>>)
    requires k < |controllers| && controllers[k] !in routes
    ensures ClassBindings(controllers[k], k, routes, prefixes, callable) == []
  {
  }

  /**
   * The router: the registrations made on it, in order. A later registration
   * of the same verb and path does not replace an earlier one here; which of
   * them serves a request is the HTTP framework's business.
   */
  class Router {
    var registrations: seq<Registration>

    constructor ()
      ensures registrations == []
    {
      registrations := [];
    }

    /** `router[verb](path, handler)`. */
    method Register(verb: string, path: string, handler: Handler)
      modifies this
      ensures registrations == old(registrations) + [Registration(verb, path, handler)]
    {
      registrations := registrations + [Registration(verb, path, handler)];
    }
  }

  /**
   * `registerRoutes`: appends to the router exactly the registrations
   * `Bindings` describes and returns the lines it logs, one per registration.
   * `callable` gives, per class, the handler names its instances have.
   */
  method RegisterRoutes(router: Router, controllers: seq<ClassId>, store: MetadataStore,
                        callable: map<ClassId, set<string>>) returns (printed: seq<string>)
    modifies router
    ensures router.registrations
         == old(router.registrations) + Bindings(controllers, store.routes, store.prefixes, callable)
    ensures printed == LogLines(Bindings(controllers, store.routes, store.prefixes, callable))
  {
    ghost var initial := router.registrations;
    var allRoutes, allPrefixes := store.routes, store.prefixes;
    var i := 0;
    printed := [];
    assert controllers[..0] == [];
    while i < |controllers|
      invariant 0 <= i <= |controllers|
      invariant router.registrations == initial + Bindings(controllers[..i], allRoutes, allPrefixes, callable)
      invariant printed == LogLines(Bindings(controllers[..i], allRoutes, allPrefixes, callable))
    {
      var c := controllers[i];
      var instance := Instance(c, i);
      var prefix := if c in allPrefixes then Some(allPrefixes[c]) else None;
      var routes := RoutesIn(allRoutes, c);
      var names := if c in callable then callable[c] else {};
      ghost var done := Bindings(controllers[..i], allRoutes, allPrefixes, callable);
      var lines := RegisterClassRoutes(router, instance, prefix, routes, names);
      ghost var added := RouteBindings(instance, prefix, routes, names);
      LogLinesAppend(done, added);
      AppendAssoc(initial, done, added);
      printed := printed + lines;
      OuterStep(controllers, i, allRoutes, allPrefixes, callable, routes);
      i := i + 1;
    }
    assert controllers[..i] == controllers;
  }

  /**
   * The inner `routes.forEach` for one class: registers, in order, each route
   * whose handler resolves on `instance`, and returns the lines it logs.
   */
  method RegisterClassRoutes(router: Router, instance: Instance, prefix: Option<string>,
                             routes: seq<RouteDefinition>, names: set<string>) returns (lines: seq<string>)
    modifies router
    ensures router.registrations == old(router.registrations) + RouteBindings(instance, prefix, routes, names)
    ensures lines == LogLines(RouteBindings(instance, prefix, routes, names))
  {
    ghost var initial := router.registrations;
    lines := [];
    var j := 0;
    assert routes[..0] == [];
    while j < |routes|
      invariant 0 <= j <= |routes|
      invariant router.registrations == initial + RouteBindings(instance, prefix, routes[..j], names)
      invariant lines == LogLines(RouteBindings(instance, prefix, routes[..j], names))
    {
      var route := routes[j];
      ghost var made := RouteBindings(instance, prefix, routes[..j], names);
      RouteBindingsStep(instance, prefix, routes, j, names);
      if route.methodName in names {
        var path := FullPath(prefix, route.path);
        var verb := Lower(route.httpMethod.Value());
        router.Register(verb, path, Handler(instance, route.methodName));
        lines := lines + ["Register route: " + Upper(verb) + " " + path];
        ghost var bound := Bind(instance, prefix, route);
        LogLinesStep(made, bound);
        AppendAssoc(initial, made, [bound]);
      } else {
        assert made + [] == made;
      }
      j := j + 1;
    }
    assert routes[..j] == routes;
  }

  lemma AppendAssoc(a: seq<Registration>, b: seq<Registration>, c: seq<Registration>)
    ensures (a + b) + c == a + (b + c)
  {
  }

  /** Logging two runs of registrations one after the other logs both runs' lines, in order. */
  lemma {:induction false} LogLinesAppend(a: seq<Registration>, b: seq<Registration>)
    ensures LogLines(a + b) == LogLines(a) + LogLines(b)
    decreases |b|
  {
    if b == [] {
      assert a + b == a;
    } else {
      var b' := b[..|b| - 1];
      assert (a + b)[..|a + b| - 1] == a + b';
      assert (a + b)[|a + b| - 1] == b[|b| - 1];
      LogLinesAppend(a, b');
    }
  }

  /** One turn of the outer loop: class `i`'s routes, all bound, extend the registrations. */
  lemma OuterStep(controllers: seq<ClassId>, i: nat, routes: map<ClassId, seq<RouteDefinition>>,
                  prefixes: map<ClassId, string>, callable: map<ClassId, set<string>>, all: seq<RouteDefinition>)
    requires i < |controllers| && all == RoutesIn(routes, controllers[i])
    ensures Bindings(controllers[..i + 1], routes, prefixes, callable)
         == Bindings(controllers[..i], routes, prefixes, callable)
            + RouteBindings(Instance(controllers[i], i),
                            if controllers[i] in prefixes then Some(prefixes[controllers[i]]) else None,
                            all, if controllers[i] in callable then callable[controllers[i]] else {})
  {
    BindingsStep(controllers, i, routes, prefixes, callable);
  }

  lemma RouteBindingsStep(instance: Instance, prefix: Option<string>, routes: seq<RouteDefinition>, j: nat,
                          callable: set<string>)
    requires j < |routes|
    ensures RouteBindings(instance, prefix, routes[..j + 1], callable)
         == RouteBindings(instance, prefix, routes[..j], callable)
            + (if routes[j].methodName in callable then [Bind(instance, prefix, routes[j])] else [])
  {
    assert routes[..j + 1][..j] == routes[..j];
  }

  lemma LogLinesStep(rs: seq<Registration>, r: Registration)
    ensures LogLines(rs + [r]) == LogLines(rs) + [LogLine(r)]
  {
    assert (rs + [r])[..|rs|] == rs;
  }

  lemma BindingsStep(controllers: seq<ClassId>, i: nat, routes: map<ClassId, seq<RouteDefinition>>,
                     prefixes: map<ClassId, string>, callable: map<ClassId, set<string>>)
    requires i < |controllers|
    ensures Bindings(controllers[..i + 1], routes, prefixes, callable)
         == Bindings(controllers[..i], routes, prefixes, callable)
            + ClassBindings(controllers[i], i, routes, prefixes, callable)
  {
    assert controllers[..i + 1][..i] == controllers[..i];
  }

  /**
   * Two controller classes with prefixes '/a' and '/b' and one GET '' route
   * each end up as exactly two registrations, GET /a and GET /b, each bound to
   * its own class's instance.
   */
  lemma TwoPrefixesTwoRoutes()
    ensures
      var routes := map[1 := [RouteDefinition("", GET, "list")], 2 := [RouteDefinition("", GET, "list")]];
      var prefixes := map[1 := "/a", 2 := "/b"];
      var callable := map[1 := {"list"}, 2 := {"list"}];
      Bindings([1, 2], routes, prefixes, callable) == [
        Registration("get", "/a", Handler(Instance(1, 0), "list")),
        Registration("get", "/b", Handler(Instance(2, 1), "list"))
      ]
  {
    var routes := map[1 := [RouteDefinition("", GET, "list")], 2 := [RouteDefinition("", GET, "list")]];
    var prefixes := map[1 := "/a", 2 := "/b"];
    var callable := map[1 := {"list"}, 2 := {"list"}];
    VerbCase(GET);
    assert [1, 2][..1] == [1];
    assert [1][..0] == [];
    assert ClassBindings(1, 0, routes, prefixes, callable)
        == [Registration("get", "/a", Handler(Instance(1, 0), "list"))] by {
      assert FullPath(Some("/a"), "") == "/a";
    }
    assert ClassBindings(2, 1, routes, prefixes, callable)
        == [Registration("get", "/b", Handler(Instance(2, 1), "list"))] by {
      assert FullPath(Some("/b"), "") == "/b";
    }
  }

  /** A route bound under a non-empty prefix: the verb is the enum value, the path prefix + suffix. */
  lemma BindUnderPrefix(instance: Instance, prefix: string, r: RouteDefinition)
    requires prefix != ""
    ensures Bind(instance, Some(prefix), r) == Registration(r.httpMethod.Value(), prefix + r.path, Handler(instance, r.methodName))
  {
    VerbCase(r.httpMethod);
  }

  /** The five registrations the customer controller's routes give on `inst`, in declaration order. */
  function CustomerRegistrations(inst: Instance): seq<Registration> {
    [ Registration("post", "/customers", Handler(inst, "createCustomer")),
      Registration("get", "/customers", Handler(inst, "getAllCustomers")),
      Registration("get", "/customers/:id", Handler(inst, "getCustomerById")),
      Registration("put", "/customers/:id", Handler(inst, "updateCustomer")),
      Registration("delete", "/customers/:id", Handler(inst, "deleteCustomer")) ]
  }

  /** The five lines logged while registering them. */
  const CustomerLogText: seq<string> := [
    "Register route: POST /customers",
    "Register route: GET /customers",
    "Register route: GET /customers/:id",
    "Register route: PUT /customers/:id",
    "Register route: DELETE /customers/:id"
  ]

  /**
   * Registering the customer controller, once its decorators have recorded its
   * route table and prefix and its instances have the five handlers, yields
   * the five routes in declaration order under '/customers', one log line each.
   */
  lemma CustomerControllerRegistrations(routes: map<ClassId, seq<RouteDefinition>>,
                                        prefixes: map<ClassId, string>, callable: map<ClassId, set<string>>)
    requires RoutesIn(routes, CustomerControllers.CustomerControllerClass) == CustomerControllers.CustomerRouteTable
    requires CustomerControllers.CustomerControllerClass in prefixes
    requires prefixes[CustomerControllers.CustomerControllerClass] == CustomerControllers.CustomerPrefix
    requires CustomerControllers.CustomerControllerClass in callable
    requires CustomerControllers.CustomerHandlerNames <= callable[CustomerControllers.CustomerControllerClass]
    ensures
      var regs := Bindings([CustomerControllers.CustomerControllerClass], routes, prefixes, callable);
      && regs == CustomerRegistrations(Instance(CustomerControllers.CustomerControllerClass, 0))
      && LogLines(regs) == CustomerLogText
  {
    var c := CustomerControllers.CustomerControllerClass;
    SingleClassBindings(c, routes, prefixes, callable);
    CustomerTableBindings(Instance(c, 0), callable[c]);
    CustomerLogLines(Instance(c, 0));
  }

  /** With a single controller class, the registrations are that class's own, on instance 0. */
  lemma SingleClassBindings(c: ClassId, routes: map<ClassId, seq<RouteDefinition>>,
                            prefixes: map<ClassId, string>, callable: map<ClassId, set<string>>)
    ensures Bindings([c], routes, prefixes, callable) == ClassBindings(c, 0, routes, prefixes, callable)
  {
    assert [c][..0] == [];
    assert [c][..1] == [c];
    BindingsStep([c], 0, routes, prefixes, callable);
  }

  /** The customer route table bound under '/customers' on one instance. */
  lemma CustomerTableBindings(inst: Instance, names: set<string>)
    requires CustomerControllers.CustomerHandlerNames <= names
    ensures RouteBindings(inst, Some(CustomerControllers.CustomerPrefix), CustomerControllers.CustomerRouteTable, names)
         == CustomerRegistrations(inst)
  {
    var table := CustomerControllers.CustomerRouteTable;
    var prefix := CustomerControllers.CustomerPrefix;
    var regs := RouteBindings(inst, Some(prefix), table, names);
    AllResolvedAllBound(inst, Some(prefix), table, names);
    assert regs == [regs[0], regs[1], regs[2], regs[3], regs[4]];
    assert regs[0] == Registration("post", "/customers", Handler(inst, "createCustomer")) by {
      BindUnderPrefix(inst, prefix, table[0]);
    }
    assert regs[1] == Registration("get", "/customers", Handler(inst, "getAllCustomers")) by {
      BindUnderPrefix(inst, prefix, table[1]);
    }
    assert regs[2] == Registration("get", "/customers/:id", Handler(inst, "getCustomerById")) by {
      BindUnderPrefix(inst, prefix, table[2]);
    }
    assert regs[3] == Registration("put", "/customers/:id", Handler(inst, "updateCustomer")) by {
      BindUnderPrefix(inst, prefix, table[3]);
    }
    assert regs[4] == Registration("delete", "/customers/:id", Handler(inst, "deleteCustomer")) by {
      BindUnderPrefix(inst, prefix, table[4]);
    }
  }

  /** The log line of a registration made for verb `m`: the member's name, then the path. */
  lemma LogLineOfVerb(r: Registration, m: HttpMethod)
    requires r.verb == m.Value()
    ensures LogLine(r) == "Register route: " + m.Name() + " " + r.path
  {
    VerbCase(m);
  }

  /** The log lines of the five customer registrations. */
  lemma CustomerLogLines(inst: Instance)
    ensures LogLines(CustomerRegistrations(inst)) == CustomerLogText
  {
    var regs := CustomerRegistrations(inst);
    LogLinesMatch(regs);
    var lines := LogLines(regs);
    assert lines == [lines[0], lines[1], lines[2], lines[3], lines[4]];
    LogLineOfVerb(regs[0], POST);
    LogLineOfVerb(regs[1], GET);
    LogLineOfVerb(regs[2], GET);
    LogLineOfVerb(regs[3], PUT);
    LogLineOfVerb(regs[4], DELETE);
    CustomerLineTexts();
  }

  /** The five log lines, spelled out. */
  lemma CustomerLineTexts()
    ensures "Register route: " + "POST" + " " + "/customers" == "Register route: POST /customers"
    ensures "Register route: " + "GET" + " " + "/customers" == "Register route: GET /customers"
    ensures "Register route: " + "GET" + " " + "/customers/:id" == "Register route: GET /customers/:id"
    ensures "Register route: " + "PUT" + " " + "/customers/:id" == "Register route: PUT /customers/:id"
    ensures "Register route: " + "DELETE" + " " + "/customers/:id" == "Register route: DELETE /customers/:id"
  {
  }
}
