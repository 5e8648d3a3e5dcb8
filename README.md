# Customer API boilerplate: repository, service, controller and route registration

This project models, in Dafny, the core of a small TypeScript/Express REST
boilerplate that manages customers:

- **`BaseRepo<T>`**: a generic in-memory repository. It keeps an ordered
  array of records and a private identity counter, and offers `create`,
  `getAll`, `getById`, `update` and `delete` on that array in place.
  Identities are handed out by pre-incrementing the counter.
- **`CustomerService`**: one business rule on top of the repository. A
  customer name must not already be stored when the customer is created.
  Every other operation is delegated unchanged.
- **`CustomerController`**: five HTTP handlers. They validate and trim the
  name, call the service, and pick the status and body of the single
  response each writes (201/200/204, 404 for a missing customer, 500 for a
  thrown error).
- **The `@Route` / `@Controller` decorators**: they record, per controller
  class, an ordered list of route definitions and a path prefix in a
  metadata store.
- **`registerRoutes`**: it walks the controller classes in order and makes
  one instance per class. For each recorded route it resolves the handler
  by name, composes the full path from prefix and suffix, and registers the
  handler on the shared router. It logs one line per registration. A route
  whose handler cannot be resolved is skipped, and the rest are still
  registered.

Files:

- `wrappers.dfy`: `Option` and `Result`.
- `repository.dfy`: the record type, the repository invariant, the
  specification functions (`FindIndex`, `Find`, `SpliceOne`, `Merged`) and
  the `BaseRepo` class.
- `customer_service.dfy`: the name-uniqueness rule and the `CustomerService`
  class, which owns its repository.
- `decorators.dfy`: `HttpMethod`, `RouteDefinition` and the
  `MetadataStore` class whose `Route` and `Controller` methods are the
  decorator bodies.
- `customer_controller.dfy`: `String.prototype.trim`, name validation,
  responses, the `CustomerController` class, the controller's route table
  and the effect of its decorators.
- `app.dfy`: the `Router` class, `RegisterRoutes` (two nested loops),
  the specification function `Bindings` it is proved against, and the
  lemmas about ordering, path composition, skipping and logging.

Clock readings (`new Date()`) are passed in as an integer `now`. The
reflection store is an object holding two maps keyed by class identity. A
controller instance is identified by its class and its position in the
controller list. Which handler names an instance resolves is a
per-class parameter (`callable`).

Where the code and its accompanying test disagree, the model follows the
code. `tests/controller.test.ts:97-108` expects status 500 for an unknown
customer, but `getCustomerById` answers 404
(`src/controllers/customerController.ts:37-38`), and so does
`CustomerController.GetCustomerById`. The log line is
`Register route: <VERB> <path>`, as `src/app.ts:20` writes it.

## Model

| member | source | states |
|---|---|---|
| Repository.FindIndex | src/repositories/baseRepo.ts:30-31 | `findIndex(i => i.id === id)`: -1 exactly when no record has the identity; otherwise the index of the first record that has it |
| Repository.Find | src/repositories/baseRepo.ts:25-27 | `find(...) \|\| null`: None exactly when no record has the identity; otherwise the first record with that identity |
| Repository.SpliceStart | src/repositories/baseRepo.ts:47 | where `splice(start, 1)` acts on an array of length len: a start in 0..len-1 is kept; a start in -len..-1 counts back from the end; a start below -len clamps to 0; a start at or past len clamps to len |
| Repository.SpliceOne | src/repositories/baseRepo.ts:47 | `splice(start, 1)`: when the clamped start is inside the array, one element fewer, with the elements before it kept and the ones after it shifted down by one; otherwise the array is unchanged |
| Repository.Merged | src/repositories/baseRepo.ts:34-38 | the updated record keeps identity and creation time and takes `updatedAt = now`; its field names are the old ones plus the supplied ones; supplied fields override, other old fields stay |
| Repository.FindStored | src/repositories/baseRepo.ts:25-27 | with distinct identities, looking up the identity of any stored record returns that record |
| Repository.AppendKeepsInv | src/repositories/baseRepo.ts:9-19 | appending a record with identity `idCount + 1` keeps the invariant (distinct identities, each in 1..idCount, clean payloads); the identity was not stored before and is found afterwards |
| Repository.ReplaceKeepsInv | src/repositories/baseRepo.ts:40 | replacing a record by one with the same identity keeps the invariant |
| Repository.RemoveKeepsInv | src/repositories/baseRepo.ts:47 | removing one record keeps the invariant |
| Repository.SpliceKeepsInv | src/repositories/baseRepo.ts:44-50 | `splice(findIndex, 1)` keeps the invariant, wherever it starts |
| Repository.DeletePresentRemovesIt | src/repositories/baseRepo.ts:45-47 | deleting a stored identity removes exactly that record: one fewer record, the rest in their order, identity no longer found, every other record still present |
| Repository.DeleteAbsentDropsLast | src/repositories/baseRepo.ts:45-49 | as written, deleting an identity that is not stored from a non-empty repository removes the last record |
| Repository.DeleteAbsentExample | src/repositories/baseRepo.ts:44-50 | concrete case: deleting absent identity 7 from records 1 and 2 leaves only record 1 |
| Repository.EmptyUpdateOnlyTouchesUpdatedAt | src/repositories/baseRepo.ts:34-38 | an update with no fields changes only `updatedAt` |
| Repository.BaseRepo.constructor | src/repositories/baseRepo.ts:5-6 | a new repository is empty, its counter is 0, and the invariant holds |
| Repository.BaseRepo.GenerateId | src/repositories/baseRepo.ts:7 | pre-increment: the counter grows by one and the new value is returned |
| Repository.BaseRepo.Create | src/repositories/baseRepo.ts:9-19 | the record gets identity `idCount + 1` and both timestamps `now`; it is appended at the end and earlier records are unchanged; its identity exceeds every stored one, `getById` finds it, and the invariant is kept |
| Repository.BaseRepo.GetAll | src/repositories/baseRepo.ts:21-23 | returns the records in insertion order |
| Repository.BaseRepo.FindIndexOf | src/repositories/baseRepo.ts:30 | the scan loop computes exactly `FindIndex` |
| Repository.BaseRepo.GetById | src/repositories/baseRepo.ts:25-27 | None exactly when the identity is absent, otherwise `Find`'s record |
| Repository.BaseRepo.Update | src/repositories/baseRepo.ts:29-42 | absent identity: None and nothing changes; present: only that index is replaced, by `Merged`, and the result is the new record; counter unchanged, invariant kept |
| Repository.BaseRepo.Delete | src/repositories/baseRepo.ts:44-50 | as written: always true, and the records become `splice(findIndex(id), 1)` of the old ones; counter unchanged, invariant kept |
| Repository.BaseRepo.DeleteChecked | src/repositories/baseRepo.ts:44-50 | corrected delete: true exactly when the identity was stored; absent leaves the records alone; present removes exactly that record, keeping the others' order |
| CustomerServices.NameTaken | src/services/customerService.ts:6 | `some(c => c.name === name)`: some stored customer carries the same name; `CustomerService.CreateCustomer` fails exactly when it holds |
| CustomerServices.AppendUntakenKeepsNamesDistinct | src/services/customerService.ts:6-9 | appending a customer whose name is not taken keeps names pairwise distinct |
| CustomerServices.UpdateCanDuplicateNames | src/services/customerService.ts:20-22 | an update may rename a customer to another's name, so names stop being distinct |
| CustomerServices.CustomerService.constructor | src/services/customerService.ts:2 | the service works on the one repository it is given |
| CustomerServices.CustomerService.CreateCustomer | src/services/customerService.ts:5-10 | fails with "Customer name already exists" exactly when a stored customer has the same name, leaving the repository unchanged; otherwise has exactly the result and effect of `create`; distinct names stay distinct |
| CustomerServices.CustomerService.GetAllCustomers | src/services/customerService.ts:12-14 | same result as `getAll` |
| CustomerServices.CustomerService.GetCustomerById | src/services/customerService.ts:16-18 | same result as `getById` |
| CustomerServices.CustomerService.UpdateCustomer | src/services/customerService.ts:20-22 | same result and effect as `update`, with no name check |
| CustomerServices.CustomerService.DeleteCustomer | src/services/customerService.ts:24-26 | same result and effect as `delete` as written |
| Decorators.HttpMethodValues | src/decorators/index.ts:3-8 | the enum has four members whose values are the distinct strings get, post, put, delete |
| Decorators.RoutesIn | src/app.ts:12 | `getMetadata('routes', ...) \|\| []`: the class's recorded routes, or none; used by `App.ClassBindings` and stated by `App.NoRoutesNoBindings` |
| Decorators.MetadataStore.constructor | src/decorators/index.ts:1 | before any decoration nothing is recorded |
| Decorators.MetadataStore.Route | src/decorators/index.ts:16-33 | appends exactly one definition at the end of the class's list, starting from an empty list if there is none; earlier entries are kept; prefixes and other classes are untouched |
| Decorators.MetadataStore.Controller | src/decorators/index.ts:35-43 | records the class's prefix, overwriting any earlier one; routes and other classes are untouched |
| CustomerControllers.SkipLeading | src/controllers/customerController.ts:11 | the first position from `i` on that is not whitespace; everything skipped is whitespace |
| CustomerControllers.SkipTrailing | src/controllers/customerController.ts:11 | the end of a range once its trailing whitespace is dropped; everything dropped is whitespace |
| CustomerControllers.Trim | src/controllers/customerController.ts:11 | `trim()` returns a contiguous part of its input |
| CustomerControllers.TrimSpec | src/controllers/customerController.ts:11 | `trim()` is empty exactly when the string is all whitespace; otherwise it starts and ends with a non-whitespace character and only whitespace surrounds it in the input |
| CustomerControllers.TrimUntouched | src/controllers/customerController.ts:15 | a name that neither starts nor ends with whitespace is stored as given |
| CustomerControllers.TrimIdempotent | src/controllers/customerController.ts:15 | trimming a trimmed name changes nothing |
| CustomerControllers.ValidatedName | src/controllers/customerController.ts:11-16 | accepted exactly when the name is a string with a non-whitespace character; the accepted value is its trim; otherwise the thrown value is 'Valid customer name is required' |
| CustomerControllers.NamePayload | src/controllers/customerController.ts:14-16 | `{ name }` names no identity field, so it is a valid payload |
| CustomerControllers.CustomerController.constructor | src/controllers/customerController.ts:6 | the controller calls the service it is given |
| CustomerControllers.CustomerController.CreateCustomer | src/controllers/customerController.ts:7-21 | invalid name: 500 with the validation error, repository untouched; duplicate trimmed name: 500 with the service's error, repository untouched; otherwise 201 with the new customer, which holds the trimmed name and is appended |
| CustomerControllers.CustomerController.GetAllCustomers | src/controllers/customerController.ts:23-31 | 200 with every customer |
| CustomerControllers.CustomerController.GetCustomerById | src/controllers/customerController.ts:33-45 | 404 'Customer not found' when absent, otherwise 200 with the first customer with that identity |
| CustomerControllers.CustomerController.UpdateCustomer | src/controllers/customerController.ts:47-59 | 404 and no change when absent; otherwise 200 with the merged record, which replaces the stored one |
| CustomerControllers.CustomerController.DeleteCustomer | src/controllers/customerController.ts:61-73 | always 204 with no body, because the service always reports true; the records become `splice(findIndex(id), 1)` |
| CustomerControllers.DecorateCustomerController | src/controllers/customerController.ts:5-61 | loading the class appends exactly the five-route table, in declaration order, to the class's routes and sets its prefix to '/customers'; other classes are untouched |
| CustomerControllers.CreateReadDeleteRead | src/controllers/customerController.ts:7-73 | create John gives 201 with identity 1; reading him back gives 200 with the same record; delete gives 204 and empties the repository; reading again gives 404 |
| App.Lower | src/app.ts:17 | `toLowerCase` on ASCII letters; its properties are stated by `App.LowerPointwise` and `App.LowerOfLowercase` |
| App.Upper | src/app.ts:20 | `toUpperCase` on ASCII letters; its properties are stated by `App.UpperPointwise` and `App.UpperOf` |
| App.LowerPointwise | src/app.ts:17 | `toLowerCase` keeps the length and maps each character on its own |
| App.UpperPointwise | src/app.ts:20 | `toUpperCase` keeps the length and maps each character on its own |
| App.LowerOfLowercase | src/app.ts:17 | a string without uppercase letters is its own lowercase |
| App.UpperOf | src/app.ts:20 | `toUpperCase` gives the character-by-character uppercase string |
| App.VerbCase | src/app.ts:17-20 | lowercasing an enum value gives the value back; uppercasing it gives the member's name |
| App.FullPath | src/app.ts:16 | the path a route is registered at, from the prefix (absent or empty counts as no prefix) and the route's path; stated by `App.FullPathIsConcatenation` |
| App.Bind | src/app.ts:15-19 | the registration of one route: verb `toLowerCase` of the enum value, `FullPath`, and the handler bound to the instance; `App.BindUnderPrefix` states it for a non-empty prefix |
| App.RouteBindings | src/app.ts:13-23 | the registrations the inner `forEach` makes, in route order, skipping routes whose handler does not resolve; stated by `App.RouteBindingsAppend`, `App.SkipOnlyThatRoute`, `App.AllResolvedAllBound` and `App.OneInstancePerClass` |
| App.ClassBindings | src/app.ts:10-13 | one class's registrations: its own instance, its prefix if recorded, its routes or `[]`; stated by `App.NoRoutesNoBindings` |
| App.Bindings | src/app.ts:9-24 | the registrations of the whole `forEach` over the controllers, class by class in the given order; `App.RegisterRoutes` is proved against it |
| App.LogLine | src/app.ts:20 | the logged line for one registration; `App.LogLineOfVerb` states it as 'Register route: ', the upper-case verb name, a space and the path |
| App.FullPathIsConcatenation | src/app.ts:16 | the full path is the prefix (empty when absent) followed by the route's path |
| App.BindUnderPrefix | src/app.ts:15-19 | under a non-empty prefix, a route registers the enum value as verb, at prefix + path, with its handler bound to the instance |
| App.LogLinesMatch | src/app.ts:20 | exactly one log line per registration, in registration order |
| App.LogLinesAppend | src/app.ts:20 | the log of two runs of registrations is the two logs in order |
| App.RouteBindingsAppend | src/app.ts:13-24 | registering a list of routes is registering its two halves one after the other |
| App.SkipOnlyThatRoute | src/app.ts:14-23 | a route whose handler does not resolve is skipped and nothing else: the routes around it register as if it were absent |
| App.AllResolvedAllBound | src/app.ts:13-24 | when every handler resolves, route k gives registration k, in route order |
| App.OneInstancePerClass | src/app.ts:10-20 | every registration for a class uses that class's one instance, a resolvable handler name, and is the `Bind` of a route the class declared; there are never more registrations than routes |
| App.NoRoutesNoBindings | src/app.ts:12 | a class with no recorded routes contributes no registrations |
| App.Router.constructor | src/app.ts:6 | a new router has no registrations |
| App.Router.Register | src/app.ts:19 | adds exactly one registration at the end |
| App.RegisterRoutes | src/app.ts:8-26 | appends exactly `Bindings(...)` to the router (class by class in the given order, routes in stored order, unresolvable handlers skipped) and logs exactly one line per registration |
| App.RegisterClassRoutes | src/app.ts:13-24 | the inner loop appends exactly the class's bindings and logs their lines |
| App.TwoPrefixesTwoRoutes | src/app.ts:9-24 | two classes with prefixes '/a' and '/b' and one GET route each give GET /a then GET /b, each bound to its own instance |
| App.CustomerTableBindings | src/app.ts:13-20 | the customer route table under '/customers' registers the five routes in declaration order |
| App.LogLineOfVerb | src/app.ts:20 | the log line is 'Register route: ', the verb's upper-case name, a space and the path |
| App.CustomerLogLines | src/app.ts:20 | the five customer registrations log the five expected lines |
| App.CustomerControllerRegistrations | src/app.ts:8-26 | with the customer controller decorated and resolvable, registration yields POST/GET /customers and GET/PUT/DELETE /customers/:id in that order, each logged once |

## Left out

- Express server setup, `express.json()`, `app.listen` and the port lookup (`src/app.ts:28-36`) are I/O plumbing and are not modelled. The router is a sequence of registrations; request dispatch is the framework's business.
- `console.log` is modelled as the returned sequence of log lines. `console.error` in the `catch` blocks of `registerRoutes` and the decorators is not modelled.
- The `try`/`catch` in the decorators guards only reflection calls, which cannot fail in the model.
- `RegisterRoutes`: in `registerRoutes` the only failure modelled is an unresolvable handler name. A `new Controller()` that throws and a property that exists but is not a function (its `.bind` throws) are not modelled. Object.prototype names that resolve on every instance are likewise outside the model. A call `router[method](path, handler)` that itself throws is caught at `src/app.ts:21` in the source; the model's `Router.Register` cannot fail, so this case is not modelled either.
- `new Date()` is a parameter `now`. `create` reads the clock twice; the model uses one reading for both timestamps.
- `Number(req.params.id)` parsing and the NaN identity are not modelled; the handlers take an `int`.
- JSON serialisation and `res.status().json()` chaining are not modelled; a response is a `(status, body)` value.
- Decorators.MetadataStore.Route: `Reflect.hasMetadata`/`getMetadata` also read metadata inherited from a parent class (`src/decorators/index.ts:19-22`, `src/app.ts:11-12`). So the first `@Route` on a subclass pushes onto its parent's array, and a subclass inherits its parent's prefix. The model keys metadata by class alone, with no inheritance. For such classes, "other classes are untouched" does not hold in the source.
- Repository.BaseRepo.GenerateId: `idCount` is a JavaScript number. Past 2^53, `++this.idCount` no longer grows and identities repeat. The model's counter is an unbounded integer, so it does not capture that.
- CustomerControllers.CustomerController.UpdateCustomer: the PUT body reaches `update` untyped (`src/controllers/customerController.ts:50`), so a field may hold a number, `null` or an object. The model's fields are strings only (`map<string, string>`).
- Repository.IsPayload: payloads never name `id`, `createdAt` or `updatedAt`, as the source's `Omit<>` types promise. An untyped request body that carries them would, through the object spread, override the stored identity at run time. That case is not modelled.
- Repository.BaseRepo.GetAll: it returns the record sequence as a value. The source returns the live array, which a caller could mutate (aliasing); this is not modelled.
- App.Lower / App.Upper: case conversion is modelled for ASCII letters only, which is all the verbs use.
- The 500 branches of `getAllCustomers`, `getCustomerById`, `updateCustomer` and `deleteCustomer` are unreachable in the model, because the service calls they guard cannot throw here. They are not modelled.
- A request with no body at all (`req.body` undefined makes `body.name` throw, which answers 500) is not modelled. `CustomerController.CreateCustomer` takes the `name` property as absent, a string or another value.
- `src/repositories/customerRepo.ts` is a trivial subclass plus a module singleton. It is modelled as the one `BaseRepo<string>` the service owns.
- Concurrency: Node runs the handlers one at a time, and the model does the same.

## Findings

| source | as written | input that shows it | evidently intended | confidence | as-written member | corrected member |
|---|---|---|---|---|---|---|
| src/repositories/baseRepo.ts:44-50 | `delete` splices at `findIndex(...)` without checking for -1 and always returns true | delete of identity 7 from a repository holding records 1 and 2: `splice(-1, 1)` removes record 2, and the call returns true | an absent identity returns false and removes nothing | high (not executed) | Repository.DeleteAbsentDropsLast | Repository.BaseRepo.DeleteChecked |

The service and the controller delegate to `delete` as written
(`Repository.BaseRepo.Delete`). So `DELETE /customers/:id` of an unknown
identity answers 204 and loses the last customer, and the 404 branch of
`deleteCustomer` is unreachable.
