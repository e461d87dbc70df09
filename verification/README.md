# EazyBank accounts provisioning, modelled in Dafny

This project models the account-provisioning core of the EazyBank `accounts`
microservice and the two stream functions of the `message` microservice.

- `AccountsServiceImpl` is modelled as a sequential state machine. It works over
  an immutable store of two tables: customers keyed by their generated
  `customerId`, and accounts keyed by `accountNumber`. The store also holds the
  next value of the customer IDENTITY column.
- Every service operation is a pure function. Each writing operation returns a
  `Step`: the store afterwards, paired with what the Java method returned
  (`Ok`) or threw (`Err`). `FetchAccount` writes nothing and returns a
  `Result`.
- The service is not transactional. A write made before an exception therefore
  stays in the returned store. This is visible in `updateAccount`, which saves
  the account before it looks up the owner.
- The `updateCommunication` stream consumer forwards an acknowledged account
  number to the service.
- The `email` and `sms` message functions are pure transforms of the
  notification payload.
- The controller contributes three pure decisions: the mobile-number pattern,
  the mapping from the service's boolean to an HTTP status, and the fixed
  fallback answers of the two diagnostic endpoints.

Files, one module each:

- `wrappers.dfy`: `Option` (Java `null` / `Optional`) and `Result`.
- `entities.dfy`: the `Customer` and `Accounts` rows, the request DTOs, the
  service's errors, the store, and the database invariant `Valid`.
- `repository.dfy`: the repository queries the service calls. An
  `Optional`-returning derived query yields nothing, the one matching row, or
  `IncorrectResultSize` when several rows match.
- `message_functions.dfy`: `email`, `sms` and the payload record.
- `accounts_service.dfy`: `createAccount`, `createNewAccount`,
  `sendCommunication`, `fetchAccount`, `updateAccount`, `deleteAccount` and
  `updateCommunicationStatus`, with their lemmas.
- `accounts_function.dfy`: the `updateCommunication` consumer.
- `accounts_controller.dfy`: the controller decisions.

Parameters stand in for code the model cannot see:

- The random draw of `new Random().nextInt(900000000)` is a `Draw` parameter
  in `[0, 900000000)`.
- The broker's answer to `streamBridge.send` is a `published` parameter. The
  source only logs it.
- `CustomerMapper.mapToCustomer` and `AccountsMapper.mapToAccounts` are opaque
  function parameters.
- The build version and the `JAVA_HOME` lookup are parameters of the
  diagnostic endpoints.

Consequences of the code as written:

- `createNewAccount` never sets `communicationSw`, so a new account's flag is
  null (`None`), not `false`.
- Nothing in `AccountsServiceImpl` checks the drawn account number against the
  existing accounts, so `CreateAccount` requires the drawn number to be fresh.
- `Accounts.customerId` is a plain column with no foreign key. `CreateAccount`
  therefore requires only that customer keys lie below the IDENTITY counter,
  not the full invariant `Valid`, whose owner conjunct an update can break.

## Model

| member | source | states |
|---|---|---|
| `AccountsService.CreateAccount` | accounts/src/main/java/com/eazybytes/accounts/service/impl/AccountsServiceImpl.java:38-52 | A number registered to exactly one customer fails with CustomerAlreadyExists. One registered to several customers fails with a result-size error. Neither writes. An unregistered one adds exactly one customer, under the next generated id, and exactly one account. The account is owned by that customer and numbered 1000000000 plus the draw, which lies in [1000000000, 1899999999], and every earlier row is untouched. The success value is the published payload: the account number plus the saved customer's name, email and mobile number. |
| `AccountsService.CreateNewAccount` | accounts/src/main/java/com/eazybytes/accounts/service/impl/AccountsServiceImpl.java:67-76 | The new account belongs to the saved customer. Its number lies in [1000000000, 1899999999], its type is SAVINGS and its branch is ADDRESS. Its communication flag is unset, never true. |
| `AccountsService.Notification` | accounts/src/main/java/com/eazybytes/accounts/service/impl/AccountsServiceImpl.java:55-61 | The published payload carries the saved account's number and the saved customer's name, email and mobile number. |
| `AccountsService.AccountNumberHasTenDigits` | accounts/src/main/java/com/eazybytes/accounts/service/impl/AccountsServiceImpl.java:70 | Every generated account number has exactly ten decimal digits. |
| `AccountsService.CreatePreservesValid` | accounts/src/main/java/com/eazybytes/accounts/service/impl/AccountsServiceImpl.java:46-50 | Provisioning keeps the database invariant: rows sit under their own keys, customer ids lie below the IDENTITY counter, and each account references an existing customer. |
| `AccountsService.CreateKeepsMobileNumbersUnique` | accounts/src/main/java/com/eazybytes/accounts/service/impl/AccountsServiceImpl.java:39-47 | If mobile numbers are unique before a create, and the mapper stores the requested mobile number, they are unique after it. |
| `AccountsService.CreateIgnoresPublishResult` | accounts/src/main/java/com/eazybytes/accounts/service/impl/AccountsServiceImpl.java:59-60 | Whether the broker accepts the notification changes neither the writes nor the outcome of createAccount. |
| `AccountsService.NotificationThroughMessageFunctions` | accounts/src/main/java/com/eazybytes/accounts/service/impl/AccountsServiceImpl.java:51-61 | The published payload comes out of `email` unchanged. Out of `sms` it yields the number of the account just created, which the new customer owns. |
| `AccountsService.FetchAccount` | accounts/src/main/java/com/eazybytes/accounts/service/impl/AccountsServiceImpl.java:79-90 | No customer under the number means NotFound("Customer"). Several customers mean a result-size failure. On success the customer is the only one registered under the number, and the account is the only one that customer owns. |
| `AccountsService.FetchOutcome` | accounts/src/main/java/com/eazybytes/accounts/service/impl/AccountsServiceImpl.java:84-89 | Once the customer is found, a customer with no account yields NotFound("Account", customer id), and one with several accounts a result-size failure. The fetch succeeds iff the customer owns exactly one account. |
| `AccountsService.CreatedRowsAreTheOnlyMatches` | accounts/src/main/java/com/eazybytes/accounts/service/impl/AccountsServiceImpl.java:46-50 | On a valid store (so no existing account already points at the next IDENTITY id), when the number is unregistered and the mapper stores the requested mobile number: after the create, the new customer is the only one under that number, and the new account is the only one that customer owns. |
| `AccountsService.AcknowledgementKeepsLookups` | accounts/src/main/java/com/eazybytes/accounts/service/impl/AccountsServiceImpl.java:137-141 | Setting the flag changes neither which customer a mobile number finds nor which accounts a customer owns. |
| `AccountsService.ProvisionFetchAcknowledge` | accounts/src/main/java/com/eazybytes/accounts/service/impl/AccountsServiceImpl.java:38-145 | On a valid store (so no existing account already points at the next IDENTITY id), when the number is unregistered and the mapper stores the requested mobile number: after the create, fetching by the number returns the new account with its flag unset. After the acknowledgement for that account, the same fetch returns it with the flag set. |
| `AccountsService.UpdateAccount` | accounts/src/main/java/com/eazybytes/accounts/service/impl/AccountsServiceImpl.java:93-112 | The result is false exactly when the account part is null, and then nothing is written. An unknown account number is NotFound("Account") with no write. A missing owner is NotFound("Customer"), but the mapped account has already been saved. An existing account whose mapped owner exists answers true. On success only that account and its owner change, and no row is added or removed. |
| `AccountsService.UpdatePreservesValid` | accounts/src/main/java/com/eazybytes/accounts/service/impl/AccountsServiceImpl.java:97-109 | On a valid store, if the account mapper keeps the owner reference, update keeps the invariant. It then succeeds iff the account part is null or names an existing account, so the owner NotFound cannot occur. |
| `AccountsService.DeleteAccount` | accounts/src/main/java/com/eazybytes/accounts/service/impl/AccountsServiceImpl.java:119-126 | The result is never false. The delete succeeds iff exactly one customer has the number. An unregistered number is NotFound("Customer") with no write, and a number registered to several customers is a result-size error with no write. When exactly one customer has the number, the delete removes exactly that customer and exactly the accounts whose `customerId` is its id, leaves every other row as it was, and no customer has the number afterwards. |
| `AccountsService.DeleteRemovesCustomerAndAccounts` | accounts/src/main/java/com/eazybytes/accounts/service/impl/AccountsServiceImpl.java:119-126 | On a valid store, deleting the only customer under the number keeps the invariant, and a later fetch by the number fails NotFound("Customer"). |
| `AccountsService.UpdateCommunicationStatus` | accounts/src/main/java/com/eazybytes/accounts/service/impl/AccountsServiceImpl.java:134-145 | A null number answers false with no write. An unknown number is NotFound("Account") with no write. Otherwise the answer is true and only that account's flag changes, to true. |
| `AccountsService.UpdateCommunicationStatusIdempotent` | accounts/src/main/java/com/eazybytes/accounts/service/impl/AccountsServiceImpl.java:136-144 | Applying the status update twice gives the same store and answer as applying it once. |
| `AccountsService.UpdateCommunicationStatusPreservesValid` | accounts/src/main/java/com/eazybytes/accounts/service/impl/AccountsServiceImpl.java:137-141 | The status update keeps the database invariant. |
| `AccountsFunction.UpdateCommunication` | accounts/src/main/java/com/eazybytes/accounts/functions/AccountsFunction.java:18-22 | A null number fails with a null dereference and writes nothing. Otherwise the store is what the service leaves, the service's exception propagates, and the boolean answer is dropped. |
| `AccountsFunction.ConsumerNeverReachesNullBranch` | accounts/src/main/java/com/eazybytes/accounts/functions/AccountsFunction.java:20-21 | When the consumer completes, the number was present and the service answered true. The service's null branch is never reached from here, and a null delivery changes nothing. |
| `AccountsFunction.ConsumerPropagatesNotFound` | accounts/src/main/java/com/eazybytes/accounts/functions/AccountsFunction.java:21 | An unknown account number fails with the service's NotFound("Account") and writes nothing. |
| `AccountsFunction.ConsumerSetsFlag` | accounts/src/main/java/com/eazybytes/accounts/functions/AccountsFunction.java:21 | For a known account the consumer completes, and the only change is that account's flag, now true: its other fields, every other row and the id counter are unchanged. |
| `AccountsFunction.ConsumerIdempotent` | accounts/src/main/java/com/eazybytes/accounts/functions/AccountsFunction.java:18-22 | Delivering the same number twice gives the same store and outcome as delivering it once. |
| `MessageFunctions.Email` | message/src/main/java/com/eazybytes/message/functions/MessageFunctions.java:18-23 | `email` returns every message unchanged. |
| `MessageFunctions.Sms` | message/src/main/java/com/eazybytes/message/functions/MessageFunctions.java:27-32 | `sms` returns the message's account number. |
| `MessageFunctions.EmailIdempotent` | message/src/main/java/com/eazybytes/message/functions/MessageFunctions.java:21 | `email(email(m)) == email(m)`. |
| `MessageFunctions.SmsAfterEmail` | message/src/main/java/com/eazybytes/message/functions/MessageFunctions.java:21-30 | `sms(email(m)) == sms(m)`. |
| `MessageFunctions.EmailInjectiveSmsByAccountNumber` | message/src/main/java/com/eazybytes/message/functions/MessageFunctions.java:17-32 | `email` tells apart every two different messages. `sms` tells apart exactly the messages with different account numbers. |
| `AccountsController.MobileNumberPattern` | accounts/src/main/java/com/eazybytes/accounts/controller/AccountsController.java:78 | The `@Pattern` constraint holds iff the number is empty or exactly ten characters, each in '0'-'9'. Fetch and delete use it. |
| `AccountsController.MatchesMobileNumberPattern` | accounts/src/main/java/com/eazybytes/accounts/controller/AccountsController.java:78 | Accepts a mobile number iff it is empty or exactly ten characters, each in '0'-'9'. |
| `AccountsController.CreateAccountDetails` | accounts/src/main/java/com/eazybytes/accounts/controller/AccountsController.java:65-71 | Answers 201 iff the service returns normally. Otherwise the service's exception propagates with the store it left. |
| `AccountsController.FetchAccountDetails` | accounts/src/main/java/com/eazybytes/accounts/controller/AccountsController.java:76-82 | A number outside the pattern is a constraint violation. A matching number answers 200 with the fetched customer and account whenever the service succeeds, and otherwise the service's exception propagates. |
| `AccountsController.UpdateAccountDetails` | accounts/src/main/java/com/eazybytes/accounts/controller/AccountsController.java:88-98 | Answers 200 iff the service answers true and 417 iff it answers false. The service's exception propagates. |
| `AccountsController.DeleteAccountDetails` | accounts/src/main/java/com/eazybytes/accounts/controller/AccountsController.java:104-115 | A number outside the pattern is a constraint violation with no write. Otherwise it answers 200 iff the service answers true and 417 iff it answers false. |
| `AccountsController.UpdateExpectationFailedIffNoAccountPart` | accounts/src/main/java/com/eazybytes/accounts/controller/AccountsController.java:88-98 | Combined with the service, update answers 417 exactly when the request has no account part, and then writes nothing. |
| `AccountsController.DeleteNeverExpectationFailed` | accounts/src/main/java/com/eazybytes/accounts/controller/AccountsController.java:104-115 | Combined with the service, delete never answers 417. It answers 200 iff the number matches the pattern and exactly one customer has it. |
| `AccountsController.RejectedMobileNumberNeverReachesService` | accounts/src/main/java/com/eazybytes/accounts/controller/AccountsController.java:76-107 | A number outside the pattern gives fetch and delete an outcome that does not depend on the store, and delete writes nothing. |
| `AccountsController.BuildInfo` | accounts/src/main/java/com/eazybytes/accounts/controller/AccountsController.java:122-125 | Answers 200 with the configured build version. |
| `AccountsController.JavaVersion` | accounts/src/main/java/com/eazybytes/accounts/controller/AccountsController.java:137-139 | Answers 200 with the `JAVA_HOME` property, and with no body when the property is unset. |
| `AccountsController.BuildInfoFallback` | accounts/src/main/java/com/eazybytes/accounts/controller/AccountsController.java:127-130 | Answers 200 with "0.9", whatever the throwable. |
| `AccountsController.JavaVersionFallback` | accounts/src/main/java/com/eazybytes/accounts/controller/AccountsController.java:141-143 | Answers 200 with "Java 17", whatever the throwable. |
| `AccountsController.Decorated` | accounts/src/main/java/com/eazybytes/accounts/controller/AccountsController.java:120-143 | A decorated endpoint answers with the wrapped method's response, or else with the fallback applied to the failure. |
| `AccountsController.DiagnosticEndpointsNeverFail` | accounts/src/main/java/com/eazybytes/accounts/controller/AccountsController.java:120-143 | Both diagnostic endpoints always answer 200. The body is the live value, or the placeholder when the wrapped call failed. |

## Left out

- Resilience4j retry and rate-limiter policies: attempt counts, windows and
  permits come from library configuration. Only the choice between the wrapped
  response and the fallback is modelled, in `Decorated`.
- Broker delivery: channel bindings, delivery, ordering and loss are I/O. The
  publish is the ignored `published` boolean.
- JPA repositories and transactions: the queries the service calls are modelled
  over the store. `CustomerRepository` and `AccountsRepository` are not part of
  this model. Their derived queries are assumed to fail when several rows match.
- The mapper classes are not part of this model. `mapToCustomer` and
  `mapToAccounts` are opaque function parameters. `fetchAccount` also builds
  its answer with `mapToCustomerDto` and `mapToAccountsDto`. The model drops
  both and returns the loaded `(Customer, Account)` rows instead of a
  `CustomerDTO`. The model keeps the identity fields: the id that
  `save` assigns to a new customer, and the looked-up key of an updated row.
- `CreateAccount`: requires the drawn account number to be fresh. What `save`
  does with an existing number depends on repository code that is not part of this model.
- `CreateKeepsMobileNumbersUnique`: holds only for creates. `updateAccount`
  has no duplicate check, so uniqueness of mobile numbers is not a store
  invariant. The lookups model the several-matches case instead.
- `UpdatePreservesValid`: assumes the account mapper keeps the account's
  `customerId`, because `AccountsMapper` is not part of this model.
- `java.util.Random`: replaced by an arbitrary draw in range.
- Concurrency: the check-then-insert race between concurrent creates is out of
  scope, because the model is sequential.
- Bean validation of the request bodies (`@Valid CustomerDTO`): the DTO classes
  and their constraints are not part of this model. Only the mobile-number
  request parameter is checked.
- A null `accountNumber` inside an update request: `AccountsDTO` is not part of this model, so
  the number is modelled as always present.
- Logging, `System.out`, Swagger annotations, the contact-info endpoint, the
  `@Value` build version and the environment lookup: these are not logic of
  the core. The last two are parameters.
- `AccountsConstants` is not part of this model. Its SAVINGS, ADDRESS and
  response-message values appear as placeholders that are compared only with
  themselves.
- Trace properties: the model does not follow histories. It does not prove
  "the flag is true only after a notification was built", beyond showing that
  creation never sets the flag.
