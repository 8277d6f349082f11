/** The get-by-email use case: one lookup with the key as given (no format check), CustomerNotFoundError
    of kind email on absence. */
module GetCustomerByEmailService {
  import opened Wrappers
  import opened Customers
  import opened DomainErrors
  import opened Repository

  /** `execute`: the stored customer whose email equals `email` exactly, or CustomerNotFoundError naming
      the email. */
  function Execute(repo: CustomerRepository, email: string): (r: Result<Customer, AppError>)
    reads repo
    requires repo.Valid()
    ensures r.Success? <==> EmailTaken(repo.table, email)
    ensures r.Success? ==> r.value.email == email && repo.IsStored(r.value)
    ensures r.Failure? ==> r.error == NotFoundError(Some(email), ByEmail)
    ensures r.Failure? && email != "" ==> Message(r.error) == "Customer with email " + email + " not found"
  {
    match repo.FindByEmail(email)
    case Some(customer) => Success(customer)
    case None => Failure(NotFoundError(Some(email), ByEmail))
  }

  /** A `+`-tagged address that is stored is found: the key is not validated first. */
  lemma TaggedAddressIsLookedUpVerbatim(repo: CustomerRepository)
    requires repo.Valid()
    requires EmailTaken(repo.table, "john.doe+test@example.com")
    ensures Execute(repo, "john.doe+test@example.com").Success?
  {
  }
}
