/** The update use case: existence, then, only when the payload carries an email, its format and its
    uniqueness with the customer's own row exempt, then the store's partial update with the payload
    unchanged. Over HTTP a success answers 200 with the customer's response shape. */
module UpdateCustomerService {
  import opened Wrappers
  import opened Customers
  import opened DomainErrors
  import opened Repository
  import opened EmailFormat

  /** `execute`. A missing id is CustomerNotFoundError whatever the payload holds. A carried email that
      is malformed is "Invalid email format"; one stored on another customer's row is
      EmailAlreadyExistsError, and the customer's own current email is not a conflict. Any failure
      leaves the store as it was. Otherwise exactly the target row is patched with the payload as
      given, the result is the patched customer, and the store's invariant, unique emails included,
      holds afterwards. */
  method Execute(repo: CustomerRepository, id: string, data: CustomerPatch)
    returns (r: Result<Customer, AppError>)
    requires repo.Valid()
    modifies repo
    ensures repo.Valid()
    ensures id !in old(repo.table) ==> r == Failure(NotFoundError(Some(id), ById))
    ensures id in old(repo.table) && data.email.Some? && !IsEmailFormat(data.email.value) ==>
              r == Failure(OtherError("Error", InvalidEmailFormatMessage))
    ensures id in old(repo.table) && data.email.Some? && IsEmailFormat(data.email.value)
            && EmailTakenByOther(old(repo.table), data.email.value, id) ==>
              r == Failure(EmailExistsError(data.email.value))
    ensures r.Failure? ==> repo.table == old(repo.table)
    ensures r.Success? <==>
              && id in old(repo.table)
              && (data.email.Some? ==>
                    IsEmailFormat(data.email.value)
                    && !EmailTakenByOther(old(repo.table), data.email.value, id))
    ensures r.Success? ==>
              && repo.table == old(repo.table)[id := ApplyPatch(old(repo.table)[id], data)]
              && r.value == ToDomain(repo.table[id])
    ensures IdentityKept(old(repo.table), repo.table)
  {
    var existing := repo.FindById(id);
    if existing.None? {
      return Failure(NotFoundError(Some(id), ById));
    }
    if data.email.Some? {
      var email := data.email.value;
      if !IsEmailFormat(email) {
        return Failure(OtherError("Error", InvalidEmailFormatMessage));
      }
      var withEmail := repo.FindByEmail(email);
      if withEmail.Some? && withEmail.value.accountId != id {
        return Failure(EmailExistsError(email));
      }
    }
    r := repo.Update(id, data);
  }

  /** Re-sending a customer's own current email is never a uniqueness conflict. */
  lemma OwnEmailIsNoConflict(t: Table, id: string)
    requires TableInvariant(t) && id in t
    ensures !EmailTakenByOther(t, t[id].email, id)
  {
  }
}
