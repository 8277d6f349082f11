/** The delete use case: an explicit existence check, then the store's delete with the same id. Over
    HTTP a success answers 204 with an empty body. */
module DeleteCustomerService {
  import opened Wrappers
  import opened DomainErrors
  import opened Repository

  /** `execute`. A missing id is CustomerNotFoundError and the store is untouched; otherwise exactly
      that row is removed, every other row is kept, and a later lookup of the id finds nothing. */
  method Execute(repo: CustomerRepository, id: string) returns (r: Outcome<AppError>)
    requires repo.Valid()
    modifies repo
    ensures repo.Valid()
    ensures id !in old(repo.table) ==> r == Fail(NotFoundError(Some(id), ById)) && repo.table == old(repo.table)
    ensures id in old(repo.table) ==> r == Pass && repo.table == old(repo.table) - {id}
    ensures repo.FindById(id).None?
  {
    var customer := repo.FindById(id);
    if customer.None? {
      return Fail(NotFoundError(Some(id), ById));
    }
    r := repo.Delete(id);
  }
}
