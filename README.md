# Customer store and CRUD services, modelled in Dafny

This project models the core of a customer-records web service written in TypeScript: the customer
store (the `customers` table and its repository), the seven use-case services that validate requests
and call the store, the two domain errors, the error middleware that turns errors into HTTP
responses, the response mapping of a customer, the update request schema, and the CORS origin rule.

The table is an in-memory map from account id to row. It is held in the field `table` of the class
`Repository.CustomerRepository`. The class invariant `Valid()` (the predicate `TableInvariant`) is
the store's main invariant:

- every row sits under its own account id;
- no two rows share an email;
- every stored row has its creation instant.

Every mutating operation keeps it. Account ids and creation instants never change: `Update` and
`UpdateCustomerService.Execute` ensure `IdentityKept`. The database's unique constraint on email is
not modelled. Instead the repository's writes require that no other row has the email, and the
services meet that requirement with their own checks. So email uniqueness follows from the service
logic alone.

Modules follow the source files: `Customers` (domain entity), `DomainErrors` (both error classes),
`Repository` (entity mapping, partial update, repository class), one module per service
(`CreateCustomerService`, `UpdateCustomerService`, `DeleteCustomerService`, `GetCustomerByIdService`,
`GetCustomerByEmailService`, `GetCustomersByCountryService`, `GetAllCustomersService`, each with
`Execute`), `EmailFormat` (the services' regular expression), `ErrorMiddleware`,
`CustomerResponseDto`, `UpdateCustomerDto` and `Cors`. `Wrappers` holds Option/Result/Outcome.
`JsText` holds the JavaScript string built-ins the core uses: the `\s` class, `trim`, `split`, `join`
and UTF-16 `length`.

Where the code and the program's own API documentation disagree, the model follows the code. The
OpenAPI description lists 400 as a response of create and update (`src/presentation/routes/customer.routes.ts`
lines 227 and 282), and its example 400 body is `{ error: "Validation error", message: "Invalid email
format" }` (`src/presentation/config/swagger.config.ts` lines 254-265). The services' own checks
(required fields, email format) throw plain `Error` objects, whose name is `"Error"`. The middleware therefore answers them with 500
"Internal server error", and outside development it shows a fixed text instead of the message.
`ErrorMiddleware.ServiceValidationErrorsAnswer500` states this.

On success, create answers 201, update 200 and delete 204. These codes are recorded as comments
only.

## Model

| member | source | states |
|---|---|---|
| `Customers.NotOlderTotalPreorder` | src/infrastructure/repositories/CustomerRepository.ts:50 | the `dateCreated DESC` comparison is reflexive, total and transitive |
| `Customers.InsertNewestFirst` | src/infrastructure/repositories/CustomerRepository.ts:49-51 | inserting a customer into a list adds exactly that customer (multiset) and one element |
| `Customers.InsertKeepsNewestFirst` | src/infrastructure/repositories/CustomerRepository.ts:49-51 | insertion keeps a newest-first list newest first |
| `DomainErrors.NotFoundMessage` | src/domain/errors/CustomerNotFoundError.ts:2-9 | missing or empty identifier gives "Customer not found"; kind email gives "Customer with email X not found"; the default kind id gives "Customer with id X not found" |
| `DomainErrors.IdMessageIsNotEmailMessage` | src/domain/errors/CustomerNotFoundError.ts:5-8 | an id message never equals an email message |
| `DomainErrors.NotFoundMessageDeterminesIdentifier` | src/domain/errors/CustomerNotFoundError.ts:3-9 | equal messages for present identifiers mean the same identifier and the same kind |
| `DomainErrors.EmailExistsMessage` | src/domain/errors/EmailAlreadyExistsError.ts:3 | the message is "Customer with email E already exists" with E verbatim |
| `DomainErrors.EmailExistsMessageDeterminesEmail` | src/domain/errors/EmailAlreadyExistsError.ts:3 | the message determines the email |
| `DomainErrors.Message` | src/domain/errors/CustomerNotFoundError.ts:3-9 | `error.message`: the not-found template, the duplicate-email template (EmailAlreadyExistsError.ts line 3) or an other error's own message; the injectivity lemmas are stated over the two templates it dispatches to |
| `DomainErrors.NotFoundIsNotEmailExists` | src/domain/errors/CustomerNotFoundError.ts:3-9 | a not-found error's message never equals a duplicate-email error's message (EmailAlreadyExistsError.ts line 3) |
| `DomainErrors.Name` | src/domain/errors/CustomerNotFoundError.ts:10 | a not-found error is always named "CustomerNotFoundError" and a duplicate-email error "EmailAlreadyExistsError" (EmailAlreadyExistsError.ts line 4); any other error keeps its own name |
| `Repository.ToDomain` | src/infrastructure/repositories/CustomerRepository.ts:15-28 | all ten fields of the row are copied to the domain customer |
| `Repository.ToEntity` | src/infrastructure/repositories/CustomerRepository.ts:30-45 | the nine data fields are copied, and the creation instant is copied when it is present |
| `Repository.MappingRoundTrip` | src/infrastructure/repositories/CustomerRepository.ts:15-45 | `toDomain(toEntity(c)) == c` for every customer, and `toEntity(toDomain(e)) == e` for every row |
| `Repository.Stamped` | src/infrastructure/entities/Customer.entity.ts:33-34 | saving gives a new row a creation instant: its own if present, else the current one |
| `Repository.ApplyPatch` | src/infrastructure/repositories/CustomerRepository.ts:90-97 | each of the eight fields the patch carries overwrites the old value (an empty string too); absent fields, account id and creation instant are kept |
| `Repository.ApplyPatchLaws` | src/infrastructure/repositories/CustomerRepository.ts:90-97 | the empty patch is the identity; applying a patch twice equals applying it once |
| `Repository.CustomerRepository.FindById` | src/infrastructure/repositories/CustomerRepository.ts:55-59 | returns the row under that id, or none exactly when no row has that id |
| `Repository.CustomerRepository.FindByEmail` | src/infrastructure/repositories/CustomerRepository.ts:61-65 | returns the one stored customer with exactly that email (no other row has it), or none exactly when no row has it |
| `Repository.CustomerRepository.Select` | src/infrastructure/repositories/CustomerRepository.ts:47-74 | every stored customer the country clause selects appears exactly once and nothing else does; the list is newest first; without a clause its length is the table size |
| `Repository.CustomerRepository.FindAll` | src/infrastructure/repositories/CustomerRepository.ts:47-53 | every stored customer exactly once, no other element, newest first, length equal to the table size |
| `Repository.CustomerRepository.FindByCountry` | src/infrastructure/repositories/CustomerRepository.ts:67-74 | exactly the stored customers whose country equals the argument, each once, newest first; every element has that country |
| `Repository.CustomerRepository.Create` | src/infrastructure/repositories/CustomerRepository.ts:76-81 | the table gains exactly the customer's row, stamped; the result is that row with the caller's account id; the invariant is kept |
| `Repository.CustomerRepository.Update` | src/infrastructure/repositories/CustomerRepository.ts:83-101 | a missing id gives CustomerNotFoundError(id) and the table is unchanged; otherwise only that row is replaced by its patched version, which is returned; ids and instants are kept |
| `Repository.CustomerRepository.Delete` | src/infrastructure/repositories/CustomerRepository.ts:103-109 | only the row with that id is removed; CustomerNotFoundError(id) exactly when no row was affected |
| `EmailFormat.IsEmailFormat` | src/application/services/CreateCustomerService.ts:32-33 | the regular-expression test the services apply; an accepted address has at least five characters and neither starts nor ends with `@` |
| `EmailFormat.IsEmailFormatMatchesRegex` | src/application/services/CreateCustomerService.ts:32-33 | the executable test accepts exactly the strings that `^[^\s@]+@[^\s@]+\.[^\s@]+$` matches: no whitespace, one `@` that is not first, and a `.` inside the domain |
| `EmailFormat.AcceptedExample` | src/application/services/UpdateCustomerService.ts:34-35 | a `+`-tagged address passes the test |
| `EmailFormat.RejectedExamples` | src/application/services/__tests__/CreateCustomerService.test.ts:83-94 | "invalid-email" fails, and so do an address with a second `@`, one with an empty local part, one whose domain ends in its dot, and one with a space |
| `CreateCustomerService.Execute` | src/application/services/CreateCustomerService.ts:25-58 | the checks run in order (required fields, then format, then uniqueness) and the first failure decides the error; a failure leaves the store unchanged; a success adds exactly one row under the fresh id with the payload's fields verbatim and the current instant, returns what `create` stored, and keeps emails unique |
| `UpdateCustomerService.Execute` | src/application/services/UpdateCustomerService.ts:25-48 | a missing id gives NotFound before any email check; a carried malformed email gives "Invalid email format"; an email on another id's row gives EmailAlreadyExists; a failure leaves the store unchanged; a success patches only the target row with the payload as given and keeps emails unique |
| `UpdateCustomerService.OwnEmailIsNoConflict` | src/application/services/UpdateCustomerService.ts:40-43 | a customer's own current email is never taken by another row, so resending it is allowed |
| `DeleteCustomerService.Execute` | src/application/services/DeleteCustomerService.ts:12-20 | a missing id gives NotFound and the store is untouched; otherwise only that row is removed; afterwards `findById` finds nothing |
| `GetCustomerByIdService.Execute` | src/application/services/GetCustomerByIdService.ts:13-19 | returns the stored customer with that id, or NotFound(id) with message "Customer with id X not found"; reads only |
| `GetCustomerByEmailService.Execute` | src/application/services/GetCustomerByEmailService.ts:13-19 | returns the stored customer whose email equals the key, or NotFound(email, 'email') with message "Customer with email X not found"; reads only |
| `GetCustomerByEmailService.TaggedAddressIsLookedUpVerbatim` | src/application/services/__tests__/GetCustomerByEmailService.test.ts:48-57 | a stored address with `+` is found, because the key is not validated |
| `GetCustomersByCountryService.Execute` | src/application/services/GetCustomersByCountryService.ts:12-14 | the country query's result: the matching stored customers, each once, newest first; empty when none match |
| `GetAllCustomersService.Execute` | src/application/services/GetAllCustomersService.ts:12-14 | the full listing: every stored customer once, newest first; the empty list for an empty store |
| `ErrorMiddleware.HandleError` | src/presentation/middleware/error.middleware.ts:5-47 | the first matching case answers; the status is always one of 400, 404, 409 and 500; every answer but a production 500 carries the error's own message; a 500 is labelled "Database error" for the QueryFailedError and TypeORMError names and "Internal server error" otherwise, in every mode |
| `ErrorMiddleware.ClientErrorBodies` | src/presentation/middleware/error.middleware.ts:7-28 | a not-found error answers 404 "Customer not found", a duplicate email 409 "Email already exists", a ZodError 400 "Validation error", each with the error's own message |
| `ErrorMiddleware.StatusByKind` | src/presentation/middleware/error.middleware.ts:7-46 | exactly one of 404 (not-found class), 409 (duplicate-email class), 400 (name "ZodError") or 500 (anything else) is answered |
| `ErrorMiddleware.ClientErrorsCarryMessage` | src/presentation/middleware/error.middleware.ts:7-28 | 404, 409 and 400 responses carry the error's own message |
| `ErrorMiddleware.ProductionHidesInternalMessages` | src/presentation/middleware/error.middleware.ts:31-46 | outside development a 500 carries "Database error" with its fixed text for QueryFailedError/TypeORMError names, otherwise "Internal server error" with its fixed text |
| `ErrorMiddleware.DevelopmentShowsMessage` | src/presentation/middleware/error.middleware.ts:32-45 | in development every response carries the error's own message |
| `ErrorMiddleware.NameAloneIsNotTheClass` | src/presentation/middleware/error.middleware.ts:7-15 | an error that merely has a domain error's name is not matched by class and answers 500 |
| `ErrorMiddleware.ServiceValidationErrorsAnswer500` | src/presentation/middleware/error.middleware.ts:40-46 | a plain `Error` from a service check answers 500 "Internal server error" |
| `CustomerResponseDto.ToResponse` | src/presentation/dto/customer-response.dto.ts:16-28 | the response mapping of one customer; what it keeps is stated by `ToResponseCopies`, `ToResponseInjective` and `StoredCustomersIgnoreClock` |
| `CustomerResponseDto.ToResponseCopies` | src/presentation/dto/customer-response.dto.ts:16-28 | every field is copied as is, and an absent optional field stays absent; a present instant is kept, an absent one becomes the current instant |
| `CustomerResponseDto.ToResponseInjective` | src/presentation/dto/customer-response.dto.ts:16-28 | for customers with an instant, the response determines the customer |
| `CustomerResponseDto.StoredCustomersIgnoreClock` | src/presentation/dto/customer-response.dto.ts:27 | a customer read from a valid store answers with its stored instant, whatever the clock says |
| `CustomerResponseDto.ToResponses` | src/presentation/controllers/CustomerController.ts:26 | mapping a list gives one response per customer, same length, same order |
| `UpdateCustomerDto.ValidUpdatePayload` | src/presentation/dto/update-customer.dto.ts:3-12 | every field optional; names 1 to 255, email valid and at most 255, phone at most 20, city, state and country at most 100 UTF-16 units; the address unbounded; its consequences are stated by the three lemmas below |
| `UpdateCustomerDto.EmptyPayloadAccepted` | src/presentation/dto/update-customer.dto.ts:3-12 | the payload with no fields is accepted |
| `UpdateCustomerDto.AcceptedPayloadBounds` | src/presentation/dto/update-customer.dto.ts:4-8 | an accepted payload has names of 1 to 255 characters and an email of at most 255 characters when present, and every address whatsoever keeps it accepted |
| `UpdateCustomerDto.PhoneNumberBound` | src/presentation/dto/update-customer.dto.ts:7 | a phone number longer than 20 code units is rejected whatever the other fields hold |
| `JsText.IsWhitespace` | src/application/services/CreateCustomerService.ts:32 | the ECMAScript WhiteSpace and LineTerminator code points, the set `\s` matches and `trim` (app.ts line 19) strips |
| `JsText.Trim` | src/presentation/app.ts:19 | the result has no whitespace at either end and is the input with only whitespace removed around it |
| `JsText.TrimIdempotent` | src/presentation/app.ts:19 | trimming twice equals trimming once |
| `JsText.Split` | src/presentation/app.ts:19 | a split gives at least one piece, no piece contains the separator, and a string without the separator is its own only piece |
| `JsText.JoinSplit` | src/presentation/app.ts:19 | joining the pieces with the separator gives back the input |
| `JsText.Utf16Length` | src/presentation/dto/update-customer.dto.ts:4-11 | the length is between the number of code points and twice that |
| `Cors.AllowedOrigins` | src/presentation/app.ts:11-19 | an unset or empty FRONTEND_URL gives the empty list; otherwise the list holds the comma-separated pieces, each trimmed, in order |
| `Cors.AllowedOriginsCount` | src/presentation/app.ts:19 | the list has one entry more than FRONTEND_URL has commas |
| `Cors.DecideOrigin` | src/presentation/app.ts:23-41 | no origin is always allowed; an empty list allows every origin; otherwise an origin is allowed exactly when it is listed; a refusal says "Not allowed by CORS" |
| `Cors.ConfiguredUrlRestricts` | src/presentation/app.ts:19-40 | once FRONTEND_URL is non-empty (even only spaces) an unlisted origin is refused |
| `Cors.ListedOriginAdmitted` | src/presentation/app.ts:19-37 | each configured piece, once trimmed, is an admitted origin, an empty piece included |

## Left out

- HTTP routing, the controller glue, the health endpoint, Swagger and the request-validation middleware are left out. They are plumbing, and the middleware formats the validation library's error objects. `create-customer.dto.ts` is not part of this model.
- The dependency-injection container, the bootstrap and signal handling, the database connection and the migration are left out. They are wiring and I/O. Each service is a module whose `Execute` takes the repository as a parameter, instead of a class with an injected repository.
- SQL, TypeORM `save` semantics and storage failures are left out. The table is a map, and every store call succeeds. One observable consequence: the entity declares the key a generated UUID column (`src/infrastructure/entities/Customer.entity.ts` line 5), so if the table follows the entity, a lookup, update or delete with an id that is not a UUID (such as "123") makes the database raise a QueryFailedError, which answers 500 "Database error"; the model answers NotFound for every absent key.
- `Repository.CustomerRepository.Create`: a taken primary key or email is excluded by its precondition. The source would get a database error from the unique constraint (or an upsert on the key). The unique constraint is not modelled. Uniqueness here rests on the services' checks.
- `Repository.CustomerRepository.Update`: an email held by another row is excluded by its precondition, for the same reason. The source would get a database error.
- `CreateCustomerService.Execute`: the id from `uuidv4()` is a parameter assumed not to be in the table, and `new Date()` is the parameter `now`.
- `process.env.NODE_ENV` and `FRONTEND_URL` are parameters. The CORS middleware registration (`app.use`) and the warning printed when FRONTEND_URL is unset are left out.
- Console logging is left out.
- The race between concurrent check-then-write requests is left out, because the model runs one operation at a time.
- `undefined` and `null` are both `None`, so a JSON `null` in an update body is not representable, and the schema rejects it anyway. Had it reached the service, the source would treat it differently per field: a `null` email passes the `!== undefined` test and the regular expression tests the text "null", so the service throws "Invalid email format"; a `null` first or last name reaches `save` and the NOT NULL columns raise a database error; a `null` in one of the five nullable fields would be stored.
- `UpdateCustomerDto.ValidUpdatePayload`: the validation library's `.email()` rule is the parameter `isEmail`, because its definition is not part of this model.
- `CustomerResponseDto.ToResponses`: one `now` serves the whole list. The source reads the clock once per customer that lacks a creation instant, and stored customers never lack one.
- Rows with equal creation instants come back in an order the database leaves open. The contracts of `FindAll` and `FindByCountry` leave that order open too.
- The column widths (varchar 255/20/100) are not enforced on writes.
- The update payload has the eight data fields. `Partial<Customer>`'s `accountId` and `dateCreated` are never read by the repository's update.
