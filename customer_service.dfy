/**
 * The customer service (src/services/customerService.ts): one business rule,
 * customer names are unique at creation, on top of a repository of customers.
 * The source reaches a module-level repository singleton; here the service
 * owns its repository explicitly.
 */
module CustomerServices {
  import opened Wrappers
  import opened Repository

  /** A customer record; its one field is `name`. */
  type Customer = Entity<string>

  /** A value thrown by the service or the controller, caught by the controller. */
  datatype Thrown =
    | ThrownString(s: string)    // `throw '...'`
    | ThrownError(message: string)  // `throw new Error('...')`

  const NameExists: string := "Customer name already exists"

  /** `customer.name`: the value of the `name` field, or None (`undefined`) when it is absent. */
  function NameOf(fields: map<string, string>): Option<string> {
    if "name" in fields then Some(fields["name"]) else None
  }

  /**
   * `items.some(c => c.name === name)`: some stored customer carries the same
   * name (two absent names compare equal, as `undefined === undefined` does).
   */
  predicate NameTaken(items: seq<Customer>, name: Option<string>) {
    exists j :: 0 <= j < |items| && NameOf(items[j].fields) == name
  }

  /** No two stored customers carry the same name. */
  predicate NamesDistinct(items: seq<Customer>) {
    forall i, j :: 0 <= i < j < |items| ==> NameOf(items[i].fields) != NameOf(items[j].fields)
  }

  /** Appending a customer whose name is not taken keeps names distinct. */
  lemma AppendUntakenKeepsNamesDistinct(items: seq<Customer>, c: Customer)
    requires NamesDistinct(items) && !NameTaken(items, NameOf(c.fields))
    ensures NamesDistinct(items + [c])
  {
    var s := items + [c];
    forall i, j | 0 <= i < j < |s|
      ensures NameOf(s[i].fields) != NameOf(s[j].fields)
    {
      if j == |items| {
        assert s[i] == items[i];
      }
    }
  }

  /**
   * Updates are not checked against the rule: renaming customer 2 to the
   * name of customer 1 produces two customers with the same name.
   */
  lemma UpdateCanDuplicateNames()
    ensures var items := [Entity(1, 0, 0, map["name" := "Ann"]), Entity(2, 0, 0, map["name" := "Bob"])];
      && NamesDistinct(items)
      && FindIndex(items, 2) == 1
      && !NamesDistinct(items[1 := Merged(items[1], map["name" := "Ann"], 1)])
  {
    var items := [Entity(1, 0, 0, map["name" := "Ann"]), Entity(2, 0, 0, map["name" := "Bob"])];
    var after := items[1 := Merged(items[1], map["name" := "Ann"], 1)];
    assert NameOf(after[0].fields) == Some("Ann") == NameOf(after[1].fields);
  }

  /** The service, holding the one customer repository. */
  class CustomerService {
    const repo: BaseRepo<string>

    constructor (repo: BaseRepo<string>)
      ensures this.repo == repo
    {
      this.repo := repo;
    }

    /**
     * `createCustomer`: fails with "Customer name already exists", leaving the
     * repository untouched, exactly when a stored customer has the same name;
     * otherwise does exactly what the repository's `create` does. Names that
     * were distinct stay distinct.
     */
    method CreateCustomer(customer: map<string, string>, now: Time) returns (r: Result<Customer, Thrown>)
      requires repo.Valid() && IsPayload(customer)
      modifies repo
      ensures repo.Valid()
      ensures r.Failure? <==> NameTaken(old(repo.items), NameOf(customer))
      ensures r.Failure? ==>
        && r.error == ThrownError(NameExists)
        && repo.items == old(repo.items) && repo.idCount == old(repo.idCount)
      ensures r.Success? ==>
        && r.value == Entity(old(repo.idCount) + 1, now, now, customer)
        && repo.items == old(repo.items) + [r.value]
        && repo.idCount == old(repo.idCount) + 1
      ensures old(NamesDistinct(repo.items)) ==> NamesDistinct(repo.items)
    {
      if NameTaken(repo.items, NameOf(customer)) {
        return Failure(ThrownError(NameExists));
      }
      ghost var before := repo.items;
      var c := repo.Create(customer, now);
      if NamesDistinct(before) {
        AppendUntakenKeepsNamesDistinct(before, c);
      }
      r := Success(c);
    }

    /** `getAllCustomers`: the repository's `getAll`. */
    method GetAllCustomers() returns (all: seq<Customer>)
      ensures all == repo.items
    {
      all := repo.GetAll();
    }

    /** `getCustomerById`: the repository's `getById`. */
    method GetCustomerById(id: int) returns (r: Option<Customer>)
      ensures r.None? <==> !HasId(repo.items, id)
      ensures r.Some? ==> r.value.id == id && r == Find(repo.items, id)
    {
      r := repo.GetById(id);
    }

    /** `updateCustomer`: the repository's `update`, with no check on names. */
    method UpdateCustomer(id: int, data: map<string, string>, now: Time) returns (r: Option<Customer>)
      requires repo.Valid() && IsPayload(data)
      modifies repo
      ensures repo.Valid() && repo.idCount == old(repo.idCount)
      ensures r.None? <==> !HasId(old(repo.items), id)
      ensures r.None? ==> repo.items == old(repo.items)
      ensures r.Some? ==>
        var i := FindIndex(old(repo.items), id);
        && r.value == Merged(old(repo.items)[i], data, now)
        && repo.items == old(repo.items)[i := r.value]
    {
      r := repo.Update(id, data, now);
    }

    /** `deleteCustomer`: the repository's `delete` as written (always true). */
    method DeleteCustomer(id: int) returns (deleted: bool)
      requires repo.Valid()
      modifies repo
      ensures repo.Valid() && repo.idCount == old(repo.idCount)
      ensures deleted
      ensures repo.items == SpliceOne(old(repo.items), FindIndex(old(repo.items), id))
    {
      deleted := repo.Delete(id);
    }
  }
}
