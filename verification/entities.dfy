/** The persisted records of the accounts service (the `Customer` and
    `Accounts` JPA entities), the request DTOs that reach the service, the
    errors the service throws, and the abstract relational store the
    repositories operate on. */
module Entities {
  import opened Wrappers

  /** `Customer.customerId`: a `Long` generated by the database (IDENTITY). */
  type CustomerId = nat

  /** `Accounts.accountNumber`: a `Long`, the primary key of the accounts table. */
  type AccountNumber = int

  /** Customer row: identity, name, email and mobile number. The auditing
      columns inherited from `BaseEntity` are not modelled. */
  datatype Customer = Customer(
    customerId: CustomerId,
    name: string,
    email: string,
    mobileNumber: string)

  /** Accounts row. `communicationSw` is a nullable `Boolean`: `None` is the
      SQL null a freshly created account carries. */
  datatype Account = Account(
    customerId: CustomerId,
    accountNumber: AccountNumber,
    accountType: string,
    branchAddress: string,
    communicationSw: Option<bool>)

  /** The account part of an update request. */
  datatype AccountsDto = AccountsDto(
    accountNumber: AccountNumber,
    accountType: string,
    branchAddress: string)

  /** A create or update request. `accountsDto` is ignored on a create and
      may be null on an update. */
  datatype CustomerDto = CustomerDto(
    name: string,
    email: string,
    mobileNumber: string,
    accountsDto: Option<AccountsDto>)

  /** `CustomerMapper.mapToCustomer` and `AccountsMapper.mapToAccounts`: the
      field copying from a DTO onto an entity, which the model leaves opaque. */
  type CustomerMapper = (CustomerDto, Customer) -> Customer
  type AccountsMapper = (AccountsDto, Account) -> Account

  /** `new Customer()` handed to the mapper on a create. Its null fields are
      represented by 0 and empty strings; `InsertCustomer` replaces the id
      anyway. */
  const BlankCustomer: Customer := Customer(0, "", "", "")

  /** The value a `ResourceNotFoundException` reports for the missing key. */
  datatype Key = Text(text: string) | Number(number: int)

  /** Exceptions that escape the service, the consumer and the controller. */
  datatype Error =
    | CustomerAlreadyExists(mobileNumber: string)
    | ResourceNotFound(resourceName: string, fieldName: string, fieldValue: Key)
      /** a derived `Optional` query that matched more than one row */
    | IncorrectResultSize(actualSize: nat)
      /** dereferencing a null argument */
    | NullPointer
      /** bean validation of a request parameter failed */
    | ConstraintViolation(message: string)

  /** The two tables, plus the next value of the customer IDENTITY column. */
  datatype Store = Store(
    customers: map<CustomerId, Customer>,
    accounts: map<AccountNumber, Account>,
    nextCustomerId: CustomerId)

  /** The outcome of a transition: the store after it, and what the Java
      method returned or threw. The service is not transactional, so writes
      made before an exception remain in `store`. */
  datatype Step<+T> = Step(store: Store, result: Result<T, Error>)

  /** The IDENTITY column has not yet handed out its next value: every
      customer key lies below the counter. */
  ghost predicate IdsBelowCounter(s: Store) {
    forall id :: id in s.customers ==> id < s.nextCustomerId
  }

  /** The invariant the service's own writes keep: every row sits under its
      own primary key, customer keys lie below the IDENTITY counter, and each
      account references an existing customer. The schema declares no
      foreign key from `Accounts.customerId`, so the database does not enforce
      the last part: an update whose account mapper changes the owner can
      break it, and `createAccount` does not rely on it. */
  ghost predicate Valid(s: Store) {
    && IdsBelowCounter(s)
    && (forall id :: id in s.customers ==> s.customers[id].customerId == id)
    && (forall n :: n in s.accounts ==>
          s.accounts[n].accountNumber == n && s.accounts[n].customerId in s.customers)
  }

  /** At most one customer per mobile number: what the create-time duplicate
      check aims for. */
  ghost predicate UniqueMobileNumbers(s: Store) {
    forall i, j ::
      (i in s.customers && j in s.customers &&
       s.customers[i].mobileNumber == s.customers[j].mobileNumber) ==> i == j
  }
}
