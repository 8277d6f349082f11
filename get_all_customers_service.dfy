/** The get-all use case: the store's full listing, passed through. */
module GetAllCustomersService {
  import opened Customers
  import opened Repository

  /** `execute`: every stored customer exactly once, newest first; an empty store gives the empty
      list. */
  method Execute(repo: CustomerRepository) returns (r: seq<Customer>)
    requires repo.Valid()
    ensures NewestFirst(r)
    ensures forall c {:trigger multiset(r)[c]} :: multiset(r)[c] == if repo.IsStored(c) then 1 else 0
    ensures |r| == |repo.table|
    ensures repo.table == map[] ==> r == []
  {
    r := repo.FindAll();
  }
}
