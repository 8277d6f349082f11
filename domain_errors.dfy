/** The two typed domain errors and the plain errors the services throw, with the message and `name`
    each one carries. */
module DomainErrors {
  import opened Wrappers

  /** What a not-found identifier is: the constructor's `type` parameter, `'id'` by default. */
  datatype IdKind = ById | ByEmail

  /** An error as it reaches the error middleware. `NotFoundError` and `EmailExistsError` are instances of
      the two domain error classes; `OtherError` is any other `Error` object, with its own `name` and
      `message` (a plain `new Error(m)` has the name "Error"). */
  datatype AppError =
    | NotFoundError(identifier: Option<string>, kind: IdKind)
    | EmailExistsError(email: string)
    | OtherError(name: string, message: string)

  /** The message CustomerNotFoundError chooses: generic when the identifier is missing or empty (both
      falsy), otherwise naming the identifier and its kind. */
  function NotFoundMessage(identifier: Option<string>, kind: IdKind): (m: string)
    ensures identifier.None? || identifier == Some("") ==> m == "Customer not found"
    ensures identifier.Some? && identifier.value != "" && kind == ByEmail ==>
              m == "Customer with email " + identifier.value + " not found"
    ensures identifier.Some? && identifier.value != "" && kind == ById ==>
              m == "Customer with id " + identifier.value + " not found"
  {
    if identifier.None? || identifier.value == "" then "Customer not found"
    else if kind == ByEmail then "Customer with email " + identifier.value + " not found"
    else "Customer with id " + identifier.value + " not found"
  }

  /** The message of EmailAlreadyExistsError, with the email verbatim. */
  function EmailExistsMessage(email: string): (m: string)
    ensures m == "Customer with email " + email + " already exists"
  {
    "Customer with email " + email + " already exists"
  }

  /** `error.message`. */
  function Message(e: AppError): string {
    match e
    case NotFoundError(identifier, kind) => NotFoundMessage(identifier, kind)
    case EmailExistsError(email) => EmailExistsMessage(email)
    case OtherError(_, message) => message
  }

  /** `error.name`: fixed for the two domain classes. */
  function Name(e: AppError): (n: string)
    ensures e.NotFoundError? ==> n == "CustomerNotFoundError"
    ensures e.EmailExistsError? ==> n == "EmailAlreadyExistsError"
    ensures e.OtherError? ==> n == e.name
  {
    match e
    case NotFoundError(_, _) => "CustomerNotFoundError"
    case EmailExistsError(_) => "EmailAlreadyExistsError"
    case OtherError(name, _) => name
  }

  /** `a + x + b == a + y + b` only when `x == y`. */
  lemma {:induction false} FramedInjective(a: string, x: string, y: string, b: string)
    requires a + x + b == a + y + b
    ensures x == y
  {
    var sx, sy := a + x + b, a + y + b;
    assert |x| == |y|;
    forall k | 0 <= k < |x| ensures x[k] == y[k] {
      assert x[k] == sx[|a| + k];
      assert y[k] == sy[|a| + k];
    }
  }

  /** The two kinds of not-found message differ in the word after "Customer with ". */
  lemma IdMessageIsNotEmailMessage(x: string, y: string)
    requires x != "" && y != ""
    ensures NotFoundMessage(Some(x), ById) != NotFoundMessage(Some(y), ByEmail)
  {
    assert NotFoundMessage(Some(x), ById)[14] == 'i';
    assert NotFoundMessage(Some(y), ByEmail)[14] == 'e';
  }

  /** A not-found message names its identifier unambiguously: distinct present identifiers of the same
      kind give distinct messages, and an id message is never an email message. */
  lemma NotFoundMessageDeterminesIdentifier(x: string, y: string, kx: IdKind, ky: IdKind)
    requires x != "" && y != ""
    requires NotFoundMessage(Some(x), kx) == NotFoundMessage(Some(y), ky)
    ensures kx == ky && x == y
  {
    if kx == ById && ky == ByEmail {
      IdMessageIsNotEmailMessage(x, y);
    } else if kx == ByEmail && ky == ById {
      IdMessageIsNotEmailMessage(y, x);
    } else if kx == ByEmail {
      FramedInjective("Customer with email ", x, y, " not found");
    } else {
      FramedInjective("Customer with id ", x, y, " not found");
    }
  }

  /** A not-found error and a duplicate-email error never carry the same message: the first ends in
      "not found" and the second in "already exists". */
  lemma NotFoundIsNotEmailExists(identifier: Option<string>, kind: IdKind, email: string)
    ensures Message(NotFoundError(identifier, kind)) != Message(EmailExistsError(email))
  {
    var a := NotFoundMessage(identifier, kind);
    var b := EmailExistsMessage(email);
    assert a[|a| - 1] == 'd';
    assert b[|b| - 1] == 's';
  }

  /** The duplicate-email message names its email unambiguously. */
  lemma EmailExistsMessageDeterminesEmail(x: string, y: string)
    requires EmailExistsMessage(x) == EmailExistsMessage(y)
    ensures x == y
  {
    FramedInjective("Customer with email ", x, y, " already exists");
  }
}
