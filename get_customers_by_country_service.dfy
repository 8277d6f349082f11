/** The get-by-country use case: the store's country query, passed through. */
module GetCustomersByCountryService {
  import opened Wrappers
  import opened Customers
  import opened Repository

  /** `execute`: exactly the stored customers whose country equals `country` as given, each once,
      newest first; no match is the empty list. */
  method Execute(repo: CustomerRepository, country: string) returns (r: seq<Customer>)
    requires repo.Valid()
    ensures NewestFirst(r)
    ensures forall c {:trigger multiset(r)[c]} ::
              multiset(r)[c] == if repo.IsStored(c) && c.country == Some(country) then 1 else 0
    ensures forall k :: 0 <= k < |r| ==> r[k].country == Some(country)
  {
    r := repo.FindByCountry(country);
  }
}
