/** The response shape of a customer and the mapping from the domain record. The current instant,
    read when a customer has no creation instant, is a parameter. */
module CustomerResponseDto {
  import opened Wrappers
  import opened Customers
  import opened Repository

  /** `CustomerResponseDTO`: as the domain record, with the creation instant always present. */
  datatype CustomerResponse = CustomerResponse(
    accountId: string,
    firstName: string,
    lastName: string,
    email: string,
    phoneNumber: Option<string>,
    address: Option<string>,
    city: Option<string>,
    state: Option<string>,
    country: Option<string>,
    dateCreated: Timestamp)

  /** `toCustomerResponseDTO`. */
  function ToResponse(c: Customer, now: Timestamp): (d: CustomerResponse)
  {
    CustomerResponse(c.accountId, c.firstName, c.lastName, c.email, c.phoneNumber, c.address,
                     c.city, c.state, c.country,
                     if c.dateCreated.Some? then c.dateCreated.value else now)
  }

  /** Every field but the creation instant is copied as is, an absent optional field staying absent;
      a present instant is kept and only an absent one becomes `now`. */
  lemma ToResponseCopies(c: Customer, now: Timestamp)
    ensures var d := ToResponse(c, now);
            && d.accountId == c.accountId && d.firstName == c.firstName && d.lastName == c.lastName
            && d.email == c.email && d.phoneNumber == c.phoneNumber && d.address == c.address
            && d.city == c.city && d.state == c.state && d.country == c.country
            && (c.dateCreated.Some? ==> d.dateCreated == c.dateCreated.value)
            && (c.dateCreated.None? ==> d.dateCreated == now)
  {
  }

  /** The response determines the record it came from whenever the record had its creation
      instant. */
  lemma ToResponseInjective(a: Customer, b: Customer, now: Timestamp)
    requires a.dateCreated.Some? && b.dateCreated.Some?
    requires ToResponse(a, now) == ToResponse(b, now)
    ensures a == b
  {
  }

  /** A customer read from the store answers with its stored instant: the clock is never consulted. */
  lemma StoredCustomersIgnoreClock(t: Table, id: string, now1: Timestamp, now2: Timestamp)
    requires TableInvariant(t) && id in t
    ensures ToResponse(ToDomain(t[id]), now1) == ToResponse(ToDomain(t[id]), now2)
    ensures ToResponse(ToDomain(t[id]), now1).dateCreated == t[id].dateCreated.value
  {
  }

  /** `customers.map(toCustomerResponseDTO)`: one response per customer, in the same order. */
  function ToResponses(cs: seq<Customer>, now: Timestamp): (ds: seq<CustomerResponse>)
    ensures |ds| == |cs|
    ensures forall k :: 0 <= k < |cs| ==> ds[k] == ToResponse(cs[k], now)
  {
    if cs == [] then [] else [ToResponse(cs[0], now)] + ToResponses(cs[1..], now)
  }
}
