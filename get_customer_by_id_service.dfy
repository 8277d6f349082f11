/** The get-by-id use case: one lookup, CustomerNotFoundError on absence. */
module GetCustomerByIdService {
  import opened Wrappers
  import opened Customers
  import opened DomainErrors
  import opened Repository

  /** `execute`: the stored customer under `id`, or CustomerNotFoundError naming the id. */
  function Execute(repo: CustomerRepository, id: string): (r: Result<Customer, AppError>)
    reads repo
    requires repo.Valid()
    ensures r.Success? <==> id in repo.table
    ensures r.Success? ==> r.value.accountId == id && r.value == ToDomain(repo.table[id])
    ensures r.Failure? ==> r.error == NotFoundError(Some(id), ById)
    ensures r.Failure? && id != "" ==> Message(r.error) == "Customer with id " + id + " not found"
  {
    match repo.FindById(id)
    case Some(customer) => Success(customer)
    case None => Failure(NotFoundError(Some(id), ById))
  }
}
