/**
 * The customer controller (src/controllers/customerController.ts): five HTTP
 * handlers that validate the request, call the customer service and choose
 * the status and body of the one response each of them writes; plus the
 * route table its decorators declare.
 */
module CustomerControllers {
  import opened Wrappers
  import opened Repository
  import opened CustomerServices
  import opened Decorators

  const NameRequired: string := "Valid customer name is required"
  const NotFound: string := "Customer not found"

  /**
   * The code points `String.prototype.trim` strips: ECMAScript WhiteSpace
   * (tab, vertical tab, form feed, space, no-break space, byte order mark and
   * the Unicode space separators) and LineTerminator (LF, CR, U+2028, U+2029).
   */
  const Trimmable: set<char> := {
    '\U{0009}', '\U{000A}', '\U{000B}', '\U{000C}', '\U{000D}', '\U{0020}', '\U{00A0}', '\U{1680}',
    '\U{2000}', '\U{2001}', '\U{2002}', '\U{2003}', '\U{2004}', '\U{2005}', '\U{2006}', '\U{2007}',
    '\U{2008}', '\U{2009}', '\U{200A}', '\U{2028}', '\U{2029}', '\U{202F}', '\U{205F}', '\U{3000}',
    '\U{FEFF}'
  }

  predicate IsTrimmable(c: char) {
    c in Trimmable
  }

  /** The first position from `i` on that holds a non-whitespace character, or `|s|`. */
  function SkipLeading(s: string, i: nat): (k: nat)
    requires i <= |s|
    ensures i <= k <= |s|
    ensures forall j :: i <= j < k ==> IsTrimmable(s[j])
    ensures k < |s| ==> !IsTrimmable(s[k])
    decreases |s| - i
  {
    if i < |s| && IsTrimmable(s[i]) then SkipLeading(s, i + 1) else i
  }

  /** Where `s[lo..hi]` ends once its trailing whitespace is dropped. */
  function SkipTrailing(s: string, lo: nat, hi: nat): (k: nat)
    requires lo <= hi <= |s|
    ensures lo <= k <= hi
    ensures forall j :: k <= j < hi ==> IsTrimmable(s[j])
    ensures lo < k ==> !IsTrimmable(s[k - 1])
  {
    if lo < hi && IsTrimmable(s[hi - 1]) then SkipTrailing(s, lo, hi - 1) else hi
  }

  /** `String.prototype.trim`: the part of `s` between its leading and trailing whitespace. */
  function Trim(s: string): (t: string)
    ensures exists k :: InfixAt(t, s, k)
  {
    var a := SkipLeading(s, 0);
    var b := SkipTrailing(s, a, |s|);
    assert InfixAt(s[a..b], s, a);
    s[a..b]
  }

  /**
   * What trimming leaves: nothing exactly when `s` is whitespace only, and
   * otherwise a part of `s` that starts and ends with a non-whitespace
   * character, with only whitespace before and after it.
   */
  lemma TrimSpec(s: string)
    ensures Trim(s) == [] <==> forall i :: 0 <= i < |s| ==> IsTrimmable(s[i])
    ensures Trim(s) != [] ==> !IsTrimmable(Trim(s)[0]) && !IsTrimmable(Trim(s)[|Trim(s)| - 1])
    ensures exists k :: InfixAt(Trim(s), s, k) && OnlyWhitespace(s, 0, k) && OnlyWhitespace(s, k + |Trim(s)|, |s|)
  {
    var a := SkipLeading(s, 0);
    var b := SkipTrailing(s, a, |s|);
    var t := s[a..b];
    assert Trim(s) == t;
    assert InfixAt(t, s, a) && OnlyWhitespace(s, 0, a) && OnlyWhitespace(s, a + |t|, |s|);
    if a < |s| {
      assert !IsTrimmable(s[a]);
      assert a < b;
      assert t[0] == s[a] && t[|t| - 1] == s[b - 1];
    }
  }

  /** Every character of `s` from position `lo` up to `hi` is whitespace. */
  predicate OnlyWhitespace(s: string, lo: int, hi: int)
    requires 0 <= lo && hi <= |s|
  {
    forall j :: lo <= j < hi ==> IsTrimmable(s[j])
  }

  /** `t` occurs in `s` starting at position `k`. */
  predicate InfixAt(t: string, s: string, k: int) {
    0 <= k && k + |t| <= |s| && t == s[k..k + |t|]
  }

  /** A string that neither starts nor ends with whitespace is its own trim. */
  lemma TrimUntouched(s: string)
    requires s != [] && !IsTrimmable(s[0]) && !IsTrimmable(s[|s| - 1])
    ensures Trim(s) == s
  {
    assert SkipLeading(s, 0) == 0;
    assert SkipTrailing(s, 0, |s|) == |s|;
    assert s[0..|s|] == s;
  }

  /** Trimming twice changes nothing more than trimming once. */
  lemma TrimIdempotent(s: string)
    ensures Trim(Trim(s)) == Trim(s)
  {
    var t := Trim(s);
    TrimSpec(s);
    if t != [] {
      TrimUntouched(t);
    }
  }

  /** The `name` property of a request body, as far as validation tells values apart. */
  datatype NameProperty = Absent | StringValue(s: string) | OtherValue

  /**
   * The validation in `createCustomer`: a name that is missing, not a
   * string, or whitespace only is refused with the thrown string
   * 'Valid customer name is required'; any other name is accepted, trimmed.
   */
  function ValidatedName(name: NameProperty): (r: Result<string, Thrown>)
    ensures r.Success? <==> name.StringValue? && exists i :: 0 <= i < |name.s| && !IsTrimmable(name.s[i])
    ensures r.Success? ==> r.value != [] && r.value == Trim(name.s)
    ensures r.Failure? ==> r.error == ThrownString(NameRequired)
  {
    match name
    case StringValue(s) =>
      var t := Trim(s);
      TrimSpec(s);
      if |t| == 0 then Failure(ThrownString(NameRequired)) else Success(t)
    case _ => Failure(ThrownString(NameRequired))
  }

  /** A record holding only a name is a valid payload: `name` is not an identity field. */
  lemma NamePayload(v: string)
    ensures IsPayload(map["name" := v])
  {
    assert map["name" := v].Keys == {"name"};
    assert "name" !in IdentityKeys by {
      assert "name"[0] != "id"[0] && "name"[0] != "createdAt"[0] && "name"[0] != "updatedAt"[0];
    }
  }

  /** A JSON response body, or none (`send()` with no argument). */
  datatype Body =
    | CustomerJson(customer: Customer)
    | CustomerListJson(customers: seq<Customer>)
    | ErrorJson(error: Thrown)  // `{ error }` of a caught value
    | MessageJson(message: string)  // `{ error: '...' }` written directly
    | NoBody

  /** The one response a handler writes: `res.status(status).json(body)` or `.send()`. */
  datatype Response = Response(status: int, body: Body)

  /** The body of every 404 the handlers write. */
  const NotFoundBody: Body := MessageJson(NotFound)

  /** The controller, holding the service it calls. */
  class CustomerController {
    const service: CustomerService

    constructor (service: CustomerService)
      ensures this.service == service
    {
      this.service := service;
    }

    /**
     * POST /customers. An invalid name gives 500 with the validation error
     * and does not reach the service; a duplicate name gives 500 with the
     * service's error; otherwise the trimmed name is stored and 201 returns
     * the new customer.
     */
    method CreateCustomer(name: NameProperty, now: Time) returns (res: Response)
      requires service.repo.Valid()
      modifies service.repo
      ensures service.repo.Valid()
      ensures ValidatedName(name).Failure? ==>
        && res == Response(500, ErrorJson(ThrownString(NameRequired)))
        && service.repo.items == old(service.repo.items)
        && service.repo.idCount == old(service.repo.idCount)
      ensures ValidatedName(name).Success? && NameTaken(old(service.repo.items), Some(ValidatedName(name).value)) ==>
        && res == Response(500, ErrorJson(ThrownError(NameExists)))
        && service.repo.items == old(service.repo.items)
        && service.repo.idCount == old(service.repo.idCount)
      ensures ValidatedName(name).Success? && !NameTaken(old(service.repo.items), Some(ValidatedName(name).value)) ==>
        var c := Entity(old(service.repo.idCount) + 1, now, now, map["name" := ValidatedName(name).value]);
        && res == Response(201, CustomerJson(c))
        && service.repo.items == old(service.repo.items) + [c]
        && service.repo.idCount == old(service.repo.idCount) + 1
    {
      var valid := ValidatedName(name);
      if valid.Failure? {
        return Response(500, ErrorJson(valid.error));
      }
      var fields := map["name" := valid.value];
      assert NameOf(fields) == Some(valid.value);
      NamePayload(valid.value);
      ghost var taken := NameTaken(service.repo.items, Some(valid.value));
      ghost var expected := Entity(service.repo.idCount + 1, now, now, fields);
      var created := service.CreateCustomer(fields, now);
      match created
      case Failure(e) =>
        assert taken;
        res := Response(500, ErrorJson(e));
      case Success(c) =>
        assert !taken && c == expected;
        res := Response(201, CustomerJson(c));
    }

    /** GET /customers: 200 with every customer, in insertion order. */
    method GetAllCustomers() returns (res: Response)
      ensures res == Response(200, CustomerListJson(service.repo.items))
    {
      var all := service.GetAllCustomers();
      res := Response(200, CustomerListJson(all));
    }

    /** GET /customers/:id: 404 when no customer has the id, otherwise 200 with that customer. */
    method GetCustomerById(id: int) returns (res: Response)
      ensures !HasId(service.repo.items, id) ==> res == Response(404, NotFoundBody)
      ensures HasId(service.repo.items, id) ==>
        && res.status == 200 && res.body.CustomerJson? && res.body.customer.id == id
        && Find(service.repo.items, id) == Some(res.body.customer)
    {
      var found := service.GetCustomerById(id);
      if found.None? {
        return Response(404, NotFoundBody);
      }
      res := Response(200, CustomerJson(found.value));
    }

    /**
     * PUT /customers/:id: 404 (and no change) when no customer has the id,
     * otherwise 200 with the merged record that replaced the stored one.
     */
    method UpdateCustomer(id: int, body: map<string, string>, now: Time) returns (res: Response)
      requires service.repo.Valid() && IsPayload(body)
      modifies service.repo
      ensures service.repo.Valid() && service.repo.idCount == old(service.repo.idCount)
      ensures !HasId(old(service.repo.items), id) ==>
        res == Response(404, NotFoundBody) && service.repo.items == old(service.repo.items)
      ensures HasId(old(service.repo.items), id) ==>
        var i := FindIndex(old(service.repo.items), id);
        var u := Merged(old(service.repo.items)[i], body, now);
        && res == Response(200, CustomerJson(u))
        && service.repo.items == old(service.repo.items)[i := u]
    {
      var updated := service.UpdateCustomer(id, body, now);
      if updated.None? {
        return Response(404, NotFoundBody);
      }
      res := Response(200, CustomerJson(updated.value));
    }

    /**
     * DELETE /customers/:id: 404 when the service reports false, otherwise
     * 204 with no body. The service as written always reports true, so the
     * response is always 204 (see Repository.DeleteAbsentDropsLast).
     */
    method DeleteCustomer(id: int) returns (res: Response)
      requires service.repo.Valid()
      modifies service.repo
      ensures service.repo.Valid() && service.repo.idCount == old(service.repo.idCount)
      ensures res == Response(204, NoBody)
      ensures service.repo.items == SpliceOne(old(service.repo.items), FindIndex(old(service.repo.items), id))
    {
      var deleted := service.DeleteCustomer(id);
      res := if deleted then Response(204, NoBody) else Response(404, NotFoundBody);
    }
  }

  /** The class identity the customer controller's metadata is recorded under. */
  const CustomerControllerClass: ClassId := 0

  /** `@Controller('/customers')`. */
  const CustomerPrefix: string := "/customers"

  /** The five `@Route` declarations, in declaration order. */
  const CustomerRouteTable: seq<RouteDefinition> := [
    RouteDefinition("", POST, "createCustomer"),
    RouteDefinition("", GET, "getAllCustomers"),
    RouteDefinition("/:id", GET, "getCustomerById"),
    RouteDefinition("/:id", PUT, "updateCustomer"),
    RouteDefinition("/:id", DELETE, "deleteCustomer")
  ]

  /** The handler methods an instance of the controller class has. */
  const CustomerHandlerNames: set<string> :=
    {"createCustomer", "getAllCustomers", "getCustomerById", "updateCustomer", "deleteCustomer"}

  /**
   * Loading the controller class runs its decorators: the five method
   * decorators in declaration order, then the class decorator. Afterwards the
   * class's route list ends with exactly the route table and its prefix is
   * '/customers'; no other class's metadata changes.
   */
  method DecorateCustomerController(store: MetadataStore)
    modifies store
    ensures store.routes == old(store.routes)[CustomerControllerClass :=
      RoutesIn(old(store.routes), CustomerControllerClass) + CustomerRouteTable]
    ensures store.prefixes == old(store.prefixes)[CustomerControllerClass := CustomerPrefix]
  {
    ghost var before := store.routes;
    ghost var own := RoutesIn(before, CustomerControllerClass);
    store.Route(CustomerControllerClass, POST, "", "createCustomer");
    ghost var declared := [CustomerRouteTable[0]];
    store.Route(CustomerControllerClass, GET, "", "getAllCustomers");
    RouteStep(before, CustomerControllerClass, own, declared, CustomerRouteTable[1]);
    declared := declared + [CustomerRouteTable[1]];
    store.Route(CustomerControllerClass, GET, "/:id", "getCustomerById");
    RouteStep(before, CustomerControllerClass, own, declared, CustomerRouteTable[2]);
    declared := declared + [CustomerRouteTable[2]];
    store.Route(CustomerControllerClass, PUT, "/:id", "updateCustomer");
    RouteStep(before, CustomerControllerClass, own, declared, CustomerRouteTable[3]);
    declared := declared + [CustomerRouteTable[3]];
    store.Route(CustomerControllerClass, DELETE, "/:id", "deleteCustomer");
    RouteStep(before, CustomerControllerClass, own, declared, CustomerRouteTable[4]);
    declared := declared + [CustomerRouteTable[4]];
    assert declared == CustomerRouteTable;
    store.Controller(CustomerControllerClass, CustomerPrefix);
  }

  /** One more `@Route` on class `c`, seen as extending the definitions already declared. */
  lemma RouteStep(m: map<ClassId, seq<RouteDefinition>>, c: ClassId, own: seq<RouteDefinition>,
                  declared: seq<RouteDefinition>, d: RouteDefinition)
    ensures var m' := m[c := own + declared];
      m'[c := RoutesIn(m', c) + [d]] == m[c := own + (declared + [d])]
  {
    assert own + declared + [d] == own + (declared + [d]);
  }

  /**
   * A client run: create John, read him back, delete him, read again. The
   * responses are 201 (identity 1), 200 with the same record, 204, then 404.
   */
  method CreateReadDeleteRead() returns (created: Response, read: Response, deleted: Response, again: Response)
    ensures created == Response(201, CustomerJson(Entity(1, 10, 10, map["name" := "John"])))
    ensures read == created.(status := 200)
    ensures deleted == Response(204, NoBody)
    ensures again == Response(404, NotFoundBody)
  {
    var repo := new BaseRepo<string>();
    var service := new CustomerService(repo);
    var controller := new CustomerController(service);
    var john := Entity(1, 10, 10, map["name" := "John"]);

    TrimUntouched("John");
    created := controller.CreateCustomer(StringValue("John"), 10);
    assert created == Response(201, CustomerJson(john));

    FindStored(repo.items, 0);
    read := controller.GetCustomerById(1);
    assert read == Response(200, CustomerJson(john));

    deleted := controller.DeleteCustomer(1);
    assert repo.items == [];

    again := controller.GetCustomerById(1);
  }
}
