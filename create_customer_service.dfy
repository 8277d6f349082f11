/** The create use case: required fields, email format, email uniqueness, then insertion of a new
    record with a fresh account id and the current instant. The fresh id (`uuidv4()`) and the instant
    (`new Date()`) are parameters. Over HTTP a success answers 201 with the customer's response shape. */
module CreateCustomerService {
  import opened Wrappers
  import opened Customers
  import opened DomainErrors
  import opened Repository
  import opened EmailFormat

  /** The create payload; a field the request body lacks is `None`. */
  datatype CreateCustomerDto = CreateCustomerDto(
    firstName: Option<string>,
    lastName: Option<string>,
    email: Option<string>,
    phoneNumber: Option<string>,
    address: Option<string>,
    city: Option<string>,
    state: Option<string>,
    country: Option<string>)

  const RequiredFieldsMessage := "First name, last name, and email are required"

  /** A JavaScript-truthy string: present and not empty. */
  predicate Truthy(o: Option<string>) {
    o.Some? && o.value != ""
  }

  predicate HasRequiredFields(data: CreateCustomerDto) {
    Truthy(data.firstName) && Truthy(data.lastName) && Truthy(data.email)
  }

  /** `execute`. The checks run in a fixed order, and the first that fails decides the error: missing
      names or email, then a malformed email, then an email already stored. Any failure leaves the
      store as it was. On success the store gains exactly the new row under `newId`, holding the
      payload's fields verbatim and the instant `now`, and the result is what the store's `create`
      returns for it. The store's invariant, unique emails included, holds afterwards. */
  method Execute(repo: CustomerRepository, data: CreateCustomerDto, newId: string, now: Timestamp)
    returns (r: Result<Customer, AppError>)
    requires repo.Valid()
    requires newId !in repo.table
    modifies repo
    ensures repo.Valid()
    ensures !HasRequiredFields(data) ==> r == Failure(OtherError("Error", RequiredFieldsMessage))
    ensures HasRequiredFields(data) && !IsEmailFormat(data.email.value) ==>
              r == Failure(OtherError("Error", InvalidEmailFormatMessage))
    ensures HasRequiredFields(data) && IsEmailFormat(data.email.value)
            && EmailTaken(old(repo.table), data.email.value) ==>
              r == Failure(EmailExistsError(data.email.value))
    ensures r.Failure? ==> repo.table == old(repo.table)
    ensures r.Success? <==>
              HasRequiredFields(data) && IsEmailFormat(data.email.value)
              && !EmailTaken(old(repo.table), data.email.value)
    ensures r.Success? ==>
              && r.value == Customer(newId, data.firstName.value, data.lastName.value, data.email.value,
                                     data.phoneNumber, data.address, data.city, data.state, data.country,
                                     Some(now))
              && repo.table == old(repo.table)[newId := ToEntity(r.value)]
  {
    if !Truthy(data.firstName) || !Truthy(data.lastName) || !Truthy(data.email) {
      return Failure(OtherError("Error", RequiredFieldsMessage));
    }
    var email := data.email.value;
    if !IsEmailFormat(email) {
      return Failure(OtherError("Error", InvalidEmailFormatMessage));
    }
    var existing := repo.FindByEmail(email);
    if existing.Some? {
      return Failure(EmailExistsError(email));
    }
    var customer := Customer(newId, data.firstName.value, data.lastName.value, email,
                             data.phoneNumber, data.address, data.city, data.state, data.country,
                             Some(now));
    var created := repo.Create(customer, now);
    r := Success(created);
  }
}
