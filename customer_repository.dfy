/** The customer store: the `customers` table, here an in-memory map from account id to row, and the
    repository that maps rows to domain customers and implements the store's queries and writes. */
module Repository {
  import opened Wrappers
  import opened Customers
  import opened DomainErrors

  /** A row of the `customers` table. `dateCreated` is unset on an entity built from a customer that
      has no creation instant yet; saving it fills the column. */
  datatype CustomerEntity = CustomerEntity(
    accountId: string,
    firstName: string,
    lastName: string,
    email: string,
    phoneNumber: Option<string>,
    address: Option<string>,
    city: Option<string>,
    state: Option<string>,
    country: Option<string>,
    dateCreated: Option<Timestamp>)

  /** `toDomain`: a row as a domain customer, field for field. */
  function ToDomain(e: CustomerEntity): (c: Customer)
    ensures c.accountId == e.accountId && c.firstName == e.firstName && c.lastName == e.lastName
    ensures c.email == e.email && c.phoneNumber == e.phoneNumber && c.address == e.address
    ensures c.city == e.city && c.state == e.state && c.country == e.country
    ensures c.dateCreated == e.dateCreated
  {
    Customer(e.accountId, e.firstName, e.lastName, e.email, e.phoneNumber, e.address,
             e.city, e.state, e.country, e.dateCreated)
  }

  /** `toEntity`: a domain customer as a row; the creation instant is copied only when present. */
  function ToEntity(c: Customer): (e: CustomerEntity)
    ensures e.accountId == c.accountId && e.firstName == c.firstName && e.lastName == c.lastName
    ensures e.email == c.email && e.phoneNumber == c.phoneNumber && e.address == c.address
    ensures e.city == c.city && e.state == c.state && e.country == c.country
    ensures c.dateCreated.Some? ==> e.dateCreated == c.dateCreated
  {
    CustomerEntity(c.accountId, c.firstName, c.lastName, c.email, c.phoneNumber, c.address,
                   c.city, c.state, c.country, c.dateCreated)
  }

  /** Mapping to a row and back loses nothing, and neither does mapping a row out and back. */
  lemma MappingRoundTrip(c: Customer, e: CustomerEntity)
    ensures ToDomain(ToEntity(c)) == c
    ensures ToEntity(ToDomain(e)) == e
  {
  }

  /** What `save` does to the creation column of a new row: `@CreateDateColumn` sets it to the current
      instant when the entity does not carry one. */
  function Stamped(e: CustomerEntity, now: Timestamp): (r: CustomerEntity)
    ensures r.dateCreated.Some?
    ensures e.dateCreated.Some? ==> r == e
    ensures e.dateCreated.None? ==> r == e.(dateCreated := Some(now))
  {
    if e.dateCreated.Some? then e else e.(dateCreated := Some(now))
  }

  /** The data fields of `Partial<Customer>` that `update` reads; `None` is `undefined`, "leave alone". */
  datatype CustomerPatch = CustomerPatch(
    firstName: Option<string>,
    lastName: Option<string>,
    email: Option<string>,
    phoneNumber: Option<string>,
    address: Option<string>,
    city: Option<string>,
    state: Option<string>,
    country: Option<string>)

  /** The patch that mentions no field. */
  const NoChanges := CustomerPatch(None, None, None, None, None, None, None, None)

  /** The patched value of a required field. */
  function Patched(current: string, given: Option<string>): string {
    if given.Some? then given.value else current
  }

  /** The patched value of an optional field: a given value is stored as present. */
  function PatchedOptional(current: Option<string>, given: Option<string>): Option<string> {
    if given.Some? then given else current
  }

  /** The field-by-field assignment of `update`: every field the patch carries overwrites the row's
      value, an empty string included; the others, the account id and the creation instant stay. */
  function ApplyPatch(e: CustomerEntity, p: CustomerPatch): (r: CustomerEntity)
    ensures r.accountId == e.accountId && r.dateCreated == e.dateCreated
    ensures r.firstName == Patched(e.firstName, p.firstName)
    ensures r.lastName == Patched(e.lastName, p.lastName)
    ensures r.email == Patched(e.email, p.email)
    ensures r.phoneNumber == PatchedOptional(e.phoneNumber, p.phoneNumber)
    ensures r.address == PatchedOptional(e.address, p.address)
    ensures r.city == PatchedOptional(e.city, p.city)
    ensures r.state == PatchedOptional(e.state, p.state)
    ensures r.country == PatchedOptional(e.country, p.country)
  {
    e.(firstName := Patched(e.firstName, p.firstName),
       lastName := Patched(e.lastName, p.lastName),
       email := Patched(e.email, p.email),
       phoneNumber := PatchedOptional(e.phoneNumber, p.phoneNumber),
       address := PatchedOptional(e.address, p.address),
       city := PatchedOptional(e.city, p.city),
       state := PatchedOptional(e.state, p.state),
       country := PatchedOptional(e.country, p.country))
  }

  /** The empty patch changes nothing, and applying a patch a second time changes nothing more. */
  lemma ApplyPatchLaws(e: CustomerEntity, p: CustomerPatch)
    ensures ApplyPatch(e, NoChanges) == e
    ensures ApplyPatch(ApplyPatch(e, p), p) == ApplyPatch(e, p)
  {
  }

  /** The table: primary key to row. */
  type Table = map<string, CustomerEntity>

  /** Every row sits under its own account id. */
  predicate KeyedByOwnId(t: Table) {
    forall id :: id in t ==> t[id].accountId == id
  }

  /** No two rows share an email (the column's unique constraint). */
  predicate EmailsUnique(t: Table) {
    forall a, b :: a in t && b in t && t[a].email == t[b].email ==> a == b
  }

  /** Every stored row has its creation instant (the column is NOT NULL). */
  predicate AllStamped(t: Table) {
    forall id :: id in t ==> t[id].dateCreated.Some?
  }

  /** The store's invariant. */
  predicate TableInvariant(t: Table) {
    KeyedByOwnId(t) && EmailsUnique(t) && AllStamped(t)
  }

  /** Some row has this email. */
  predicate EmailTaken(t: Table, email: string) {
    exists id :: id in t && t[id].email == email
  }

  /** A row other than `self` has this email. */
  predicate EmailTakenByOther(t: Table, email: string, self: string) {
    exists id :: id in t && id != self && t[id].email == email
  }

  /** Account ids and creation instants of rows present in both tables agree. */
  predicate IdentityKept(before: Table, after: Table) {
    forall id :: id in before && id in after ==>
      after[id].accountId == before[id].accountId && after[id].dateCreated == before[id].dateCreated
  }

  /** The repository over the table. Its queries see the table as it is; `create`, `update` and
      `delete` change it and keep the invariant. A write that the unique constraint or the primary key
      would refuse is excluded by its precondition instead of being raised as a database error. */
  class CustomerRepository {
    var table: Table

    ghost predicate Valid()
      reads this
    {
      TableInvariant(table)
    }

    /** `findById`: the row with that primary key, or none; absence is not an error. */
    function FindById(id: string): (r: Option<Customer>)
      reads this
      requires Valid()
      ensures r.Some? <==> id in table
      ensures r.Some? ==> r.value.accountId == id && r.value == ToDomain(table[id])
    {
      if id in table then Some(ToDomain(table[id])) else None
    }

    /** `findByEmail`: the row with exactly that email, or none; by the unique constraint at most one
        row qualifies. */
    function FindByEmail(email: string): (r: Option<Customer>)
      reads this
      requires Valid()
      ensures r.Some? <==> EmailTaken(table, email)
      ensures r.Some? ==> r.value.email == email && r.value.accountId in table
                          && r.value == ToDomain(table[r.value.accountId])
      ensures r.Some? ==> forall id :: id in table && table[id].email == email ==> id == r.value.accountId
    {
      if exists id :: id in table && table[id].email == email then
        var id :| id in table && table[id].email == email;
        Some(ToDomain(table[id]))
      else None
    }

    /** A stored customer: the domain image of the row its account id names. */
    ghost predicate IsStored(c: Customer)
      reads this
    {
      c.accountId in table && c == ToDomain(table[c.accountId])
    }

    /** The rows a `where: { country }` clause selects, or all rows for no clause. */
    static predicate Selected(country: Option<string>, c: Customer) {
      country.None? || c.country == country
    }

    /** The query behind `findAll` and `findByCountry`: every row the optional country filter selects,
        each exactly once, ordered by creation instant with the newest first. */
    method Select(country: Option<string>) returns (r: seq<Customer>)
      requires Valid()
      ensures NewestFirst(r)
      ensures forall c {:trigger multiset(r)[c]} ::
                multiset(r)[c] == if IsStored(c) && Selected(country, c) then 1 else 0
      ensures country.None? ==> |r| == |table|
    {
      r := [];
      var rest := table.Keys;
      ghost var kept: set<string> := {};
      while rest != {}
        invariant rest <= table.Keys
        invariant kept <= table.Keys - rest
        invariant |r| == |kept|
        invariant forall id :: id in table.Keys - rest ==> (id in kept <==> Selected(country, ToDomain(table[id])))
        invariant NewestFirst(r)
        invariant forall c {:trigger multiset(r)[c]} ::
                    multiset(r)[c] == if IsStored(c) && c.accountId !in rest && Selected(country, c) then 1 else 0
        decreases rest
      {
        var id :| id in rest;
        var c := ToDomain(table[id]);
        if Selected(country, c) {
          InsertKeepsNewestFirst(r, c);
          r := InsertNewestFirst(r, c);
          kept := kept + {id};
        }
        rest := rest - {id};
      }
      assert country.None? ==> kept == table.Keys;
    }

    /** `findAll`: every stored customer exactly once, newest first. */
    method FindAll() returns (r: seq<Customer>)
      requires Valid()
      ensures NewestFirst(r)
      ensures forall c {:trigger multiset(r)[c]} :: multiset(r)[c] == if IsStored(c) then 1 else 0
      ensures |r| == |table|
    {
      r := Select(None);
    }

    /** `findByCountry`: exactly the stored customers whose country equals `country`, each once,
        newest first; none is the empty list. */
    method FindByCountry(country: string) returns (r: seq<Customer>)
      requires Valid()
      ensures NewestFirst(r)
      ensures forall c {:trigger multiset(r)[c]} ::
                multiset(r)[c] == if IsStored(c) && c.country == Some(country) then 1 else 0
      ensures forall k :: 0 <= k < |r| ==> r[k].country == Some(country)
    {
      r := Select(Some(country));
      forall k | 0 <= k < |r| ensures r[k].country == Some(country) {
        assert multiset(r)[r[k]] > 0;
      }
    }

    /** `create`: inserts the customer's row, stamping it when it has no creation instant, and returns
        it with the caller's account id. */
    method Create(customer: Customer, now: Timestamp) returns (r: Customer)
      requires Valid()
      requires customer.accountId !in table
      requires !EmailTaken(table, customer.email)
      modifies this
      ensures Valid()
      ensures table == old(table)[customer.accountId := Stamped(ToEntity(customer), now)]
      ensures r == ToDomain(table[customer.accountId])
      ensures r.accountId == customer.accountId
    {
      var saved := Stamped(ToEntity(customer), now);
      table := table[customer.accountId := saved];
      r := ToDomain(saved);
    }

    /** `update`: on a missing id, CustomerNotFoundError and no change; otherwise the row is patched
        field by field and returned. */
    method Update(id: string, patch: CustomerPatch) returns (r: Result<Customer, AppError>)
      requires Valid()
      requires id in table && patch.email.Some? ==> !EmailTakenByOther(table, patch.email.value, id)
      modifies this
      ensures Valid()
      ensures id !in old(table) ==> r == Failure(NotFoundError(Some(id), ById)) && table == old(table)
      ensures id in old(table) ==>
                && table == old(table)[id := ApplyPatch(old(table)[id], patch)]
                && r == Success(ToDomain(table[id]))
      ensures IdentityKept(old(table), table)
    {
      if id !in table {
        return Failure(NotFoundError(Some(id), ById));
      }
      var updated := ApplyPatch(table[id], patch);
      table := table[id := updated];
      r := Success(ToDomain(updated));
    }

    /** `delete`: removes the row with that primary key; CustomerNotFoundError when no row was
        affected. */
    method Delete(id: string) returns (r: Outcome<AppError>)
      requires Valid()
      modifies this
      ensures Valid()
      ensures table == old(table) - {id}
      ensures r == if id in old(table) then Pass else Fail(NotFoundError(Some(id), ById))
    {
      var affected := if id in table then 1 else 0;
      table := table - {id};
      if affected == 0 {
        return Fail(NotFoundError(Some(id), ById));
      }
      r := Pass;
    }
  }
}
