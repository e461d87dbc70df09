/** `AccountsServiceImpl`: account provisioning, lookup, update, deletion and
    the acknowledgement that marks an account's notification as delivered,
    each a transition of the abstract store. */
module AccountsService {
  import opened Wrappers
  import opened Entities
  import opened Repository
  import opened MessageFunctions

  /** `AccountsConstants.SAVINGS` and `AccountsConstants.ADDRESS`. Their text
      is not part of this model; only their identity matters here. */
  const SAVINGS: string := "SAVINGS"
  const ADDRESS: string := "ADDRESS"

  /** Generated account numbers are `1000000000L + nextInt(900000000)`. */
  const ACCOUNT_NUMBER_BASE: int := 1000000000
  const ACCOUNT_NUMBER_SPAN: int := 900000000

  /** A value `new Random().nextInt(900000000)` can return. */
  type Draw = d: int | 0 <= d < ACCOUNT_NUMBER_SPAN

  /** `createNewAccount`: a savings account at the fixed branch for the saved
      customer, numbered from the random draw, with the communication flag
      left null. */
  function CreateNewAccount(c: Customer, draw: Draw): (a: Account)
    ensures a.customerId == c.customerId
    ensures 1000000000 <= a.accountNumber <= 1899999999
    ensures a.accountType == SAVINGS && a.branchAddress == ADDRESS
    ensures a.communicationSw == None
  {
    Account(c.customerId, ACCOUNT_NUMBER_BASE + draw, SAVINGS, ADDRESS, None)
  }

  /** The payload `sendCommunication` builds from the saved rows. */
  function Notification(a: Account, c: Customer): (m: AccountsMsg)
    ensures m.accountNumber == a.accountNumber
    ensures m.name == c.name && m.email == c.email && m.mobileNumber == c.mobileNumber
  {
    AccountsMsg(a.accountNumber, c.name, c.email, c.mobileNumber)
  }

  /** `createAccount`. A customer already registered under the request's
      mobile number makes it fail with `CustomerAlreadyExists` before any
      write. Otherwise it saves the mapped customer, saves a new account for
      it, and publishes the notification; the success value is that payload.
      `published` is the broker's acceptance of the payload, which the source
      only logs. */
  function CreateAccount(s: Store, dto: CustomerDto, mapCustomer: CustomerMapper, draw: Draw, published: bool)
    : (r: Step<AccountsMsg>)
    requires IdsBelowCounter(s)
    requires ACCOUNT_NUMBER_BASE + draw !in s.accounts
    ensures r.result.Ok? <==> CustomersWithMobile(s, dto.mobileNumber) == {}
    ensures |CustomersWithMobile(s, dto.mobileNumber)| == 1 ==>
              r.result == Err(CustomerAlreadyExists(dto.mobileNumber))
    ensures |CustomersWithMobile(s, dto.mobileNumber)| > 1 ==>
              r.result == Err(IncorrectResultSize(|CustomersWithMobile(s, dto.mobileNumber)|))
    ensures r.result.Err? ==> r.store == s
    ensures r.result.Ok? ==>
              var id, msg := s.nextCustomerId, r.result.value;
              && id !in s.customers && msg.accountNumber !in s.accounts
              && r.store.nextCustomerId == id + 1
              && r.store.customers.Keys == s.customers.Keys + {id}
              && r.store.accounts.Keys == s.accounts.Keys + {msg.accountNumber}
              && (forall k :: k in s.customers ==> r.store.customers[k] == s.customers[k])
              && (forall n :: n in s.accounts ==> r.store.accounts[n] == s.accounts[n])
              && r.store.customers[id] == mapCustomer(dto, BlankCustomer).(customerId := id)
              && msg.accountNumber == ACCOUNT_NUMBER_BASE + draw
              && r.store.accounts[msg.accountNumber].accountNumber == msg.accountNumber
              && r.store.accounts[msg.accountNumber].customerId == id
              && 1000000000 <= msg.accountNumber <= 1899999999
              && r.store.accounts[msg.accountNumber].accountType == SAVINGS
              && r.store.accounts[msg.accountNumber].branchAddress == ADDRESS
              && r.store.accounts[msg.accountNumber].communicationSw == None
              && msg.name == r.store.customers[id].name
              && msg.email == r.store.customers[id].email
              && msg.mobileNumber == r.store.customers[id].mobileNumber
  {
    match FindByMobileNumber(s, dto.mobileNumber)
    case Err(e) => Step(s, Err(e))
    case Ok(Some(_)) => Step(s, Err(CustomerAlreadyExists(dto.mobileNumber)))
    case Ok(None) =>
      var (s1, savedCustomer) := InsertCustomer(s, mapCustomer(dto, BlankCustomer));
      var savedAccount := CreateNewAccount(savedCustomer, draw);
      var s2 := SaveAccount(s1, savedAccount);
      Step(s2, Ok(Notification(savedAccount, savedCustomer)))
  }

  /** `fetchAccount`: the customer registered under `mobile` together with
      its account. Either lookup coming back empty is a `ResourceNotFound`. */
  function FetchAccount(s: Store, mobile: string): (r: Result<(Customer, Account), Error>)
    ensures CustomersWithMobile(s, mobile) == {} ==>
              r == Err(ResourceNotFound("Customer", "Mobile Number", Text(mobile)))
    ensures |CustomersWithMobile(s, mobile)| > 1 ==>
              r == Err(IncorrectResultSize(|CustomersWithMobile(s, mobile)|))
    ensures r.Ok? ==>
              var (c, a) := r.value;
              && CustomersWithMobile(s, mobile) == {c.customerId}
              && c == CustomerById(s, c.customerId)
              && AccountsOfCustomer(s, c.customerId) == {a.accountNumber}
              && a == AccountById(s, a.accountNumber)
  {
    match FindByMobileNumber(s, mobile)
    case Err(e) => Err(e)
    case Ok(None) => Err(ResourceNotFound("Customer", "Mobile Number", Text(mobile)))
    case Ok(Some(id)) =>
      var customer := CustomerById(s, id);
      match FindByCustomerId(s, customer.customerId)
      case Err(e) => Err(e)
      case Ok(None) => Err(ResourceNotFound("Account", "Customer Id", Number(customer.customerId)))
      case Ok(Some(n)) => Ok((customer, AccountById(s, n)))
  }

  /** `updateAccount`. Without an account part it reports `false` and writes
      nothing. Otherwise the account must exist; it is overwritten with the
      mapped fields and saved, and only then is its owner looked up, so a
      missing owner fails after the account write has happened. */
  function UpdateAccount(s: Store, dto: CustomerDto, mapAccounts: AccountsMapper, mapCustomer: CustomerMapper)
    : (r: Step<bool>)
    ensures r.result == Ok(false) <==> dto.accountsDto.None?
    ensures dto.accountsDto.None? ==> r.store == s
    ensures dto.accountsDto.Some? && dto.accountsDto.value.accountNumber !in s.accounts ==>
              r == Step(s, Err(ResourceNotFound("Account", "AccountNumber", Number(dto.accountsDto.value.accountNumber))))
    ensures r.store.nextCustomerId == s.nextCustomerId
    ensures r.store.accounts.Keys == s.accounts.Keys && r.store.customers.Keys == s.customers.Keys
    ensures r.result.Err? ==> r.store.customers == s.customers
    ensures r.result.Err? && r.store != s ==>
              r.result.error.ResourceNotFound? && r.result.error.resourceName == "Customer"
    ensures dto.accountsDto.Some? && dto.accountsDto.value.accountNumber in s.accounts ==>
              var ad := dto.accountsDto.value;
              var mapped := mapAccounts(ad, AccountById(s, ad.accountNumber)).(accountNumber := ad.accountNumber);
              mapped.customerId !in s.customers ==>
                && r.result == Err(ResourceNotFound("Customer", "CustomerID", Number(mapped.customerId)))
                && r.store == s.(accounts := s.accounts[ad.accountNumber := mapped])
    ensures dto.accountsDto.Some? && dto.accountsDto.value.accountNumber in s.accounts ==>
              var ad := dto.accountsDto.value;
              var mapped := mapAccounts(ad, AccountById(s, ad.accountNumber)).(accountNumber := ad.accountNumber);
              mapped.customerId in s.customers ==> r.result == Ok(true)
    ensures r.result == Ok(true) ==>
              var ad := dto.accountsDto.value;
              var n := ad.accountNumber;
              && n in s.accounts
              && r.store.accounts[n] == mapAccounts(ad, AccountById(s, n)).(accountNumber := n)
              && var cid := r.store.accounts[n].customerId;
              && cid in s.customers
              && r.store.customers[cid] == mapCustomer(dto, CustomerById(s, cid)).(customerId := cid)
              && (forall k :: k in s.accounts && k != n ==> r.store.accounts[k] == s.accounts[k])
              && (forall id :: id in s.customers && id != cid ==> r.store.customers[id] == s.customers[id])
  {
    match dto.accountsDto
    case None => Step(s, Ok(false))
    case Some(ad) =>
      var n := ad.accountNumber;
      if n !in s.accounts then
        Step(s, Err(ResourceNotFound("Account", "AccountNumber", Number(n))))
      else
        var account := mapAccounts(ad, AccountById(s, n)).(accountNumber := n);
        var s1 := SaveAccount(s, account);
        var cid := account.customerId;
        if cid !in s1.customers then
          Step(s1, Err(ResourceNotFound("Customer", "CustomerID", Number(cid))))
        else
          var customer := mapCustomer(dto, CustomerById(s1, cid)).(customerId := cid);
          Step(SaveCustomer(s1, customer), Ok(true))
  }

  /** `deleteAccount`: removes the customer registered under `mobile` and
      every account whose `customerId` is that customer's id. It never
      reports `false`. */
  function DeleteAccount(s: Store, mobile: string): (r: Step<bool>)
    ensures r.result != Ok(false)
    ensures r.result.Ok? <==> |CustomersWithMobile(s, mobile)| == 1
    ensures r.result.Err? ==> r.store == s
    ensures CustomersWithMobile(s, mobile) == {} ==>
              r.result == Err(ResourceNotFound("Customer", "mobileNumber", Text(mobile)))
    ensures |CustomersWithMobile(s, mobile)| > 1 ==>
              r.result == Err(IncorrectResultSize(|CustomersWithMobile(s, mobile)|))
    ensures r.store.nextCustomerId == s.nextCustomerId
    ensures r.store.customers.Keys <= s.customers.Keys && r.store.accounts.Keys <= s.accounts.Keys
    ensures |CustomersWithMobile(s, mobile)| == 1 ==>
              var id :| id in CustomersWithMobile(s, mobile);
              && r.store.customers.Keys == s.customers.Keys - {id}
              && (forall k :: k in r.store.customers ==> r.store.customers[k] == s.customers[k])
              && (forall n :: n in r.store.accounts <==> n in s.accounts && s.accounts[n].customerId != id)
              && (forall n :: n in r.store.accounts ==> r.store.accounts[n] == s.accounts[n])
              && CustomersWithMobile(r.store, mobile) == {}
  {
    match FindByMobileNumber(s, mobile)
    case Err(e) => Step(s, Err(e))
    case Ok(None) => Step(s, Err(ResourceNotFound("Customer", "mobileNumber", Text(mobile))))
    case Ok(Some(id)) =>
      var cid := CustomerById(s, id).customerId;
      Step(DeleteCustomerById(DeleteByCustomerId(s, cid), cid), Ok(true))
  }

  /** `updateCommunicationStatus`: sets the communication flag of the
      account numbered `accountNumber`. A null number reports `false` and
      writes nothing; an unknown one is a `ResourceNotFound`. */
  function UpdateCommunicationStatus(s: Store, accountNumber: Option<AccountNumber>): (r: Step<bool>)
    ensures accountNumber.None? ==> r == Step(s, Ok(false))
    ensures accountNumber.Some? && accountNumber.value !in s.accounts ==>
              r == Step(s, Err(ResourceNotFound("Account", "AccountNumber", Number(accountNumber.value))))
    ensures accountNumber.Some? && accountNumber.value in s.accounts ==>
              var n := accountNumber.value;
              && r.result == Ok(true)
              && r.store.customers == s.customers && r.store.nextCustomerId == s.nextCustomerId
              && r.store.accounts.Keys == s.accounts.Keys
              && r.store.accounts[n] == AccountById(s, n).(communicationSw := Some(true))
              && (forall k :: k in s.accounts && k != n ==> r.store.accounts[k] == s.accounts[k])
  {
    match accountNumber
    case None => Step(s, Ok(false))
    case Some(n) =>
      if n !in s.accounts then
        Step(s, Err(ResourceNotFound("Account", "AccountNumber", Number(n))))
      else
        Step(SaveAccount(s, AccountById(s, n).(communicationSw := Some(true))), Ok(true))
  }

  // ---------------------------------------------------------------------
  // Properties of the transitions
  // ---------------------------------------------------------------------

  /** Number of decimal digits of `n`. */
  function DecimalDigits(n: nat): nat {
    if n < 10 then 1 else 1 + DecimalDigits(n / 10)
  }

  function Pow10(k: nat): nat {
    if k == 0 then 1 else 10 * Pow10(k - 1)
  }

  lemma {:induction false} DecimalDigitsInRange(n: nat, k: nat)
    requires 1 <= k && Pow10(k - 1) <= n < Pow10(k)
    ensures DecimalDigits(n) == k
  {
    if k > 1 {
      assert Pow10(k - 1) == 10 * Pow10(k - 2);
      assert Pow10(k) == 10 * Pow10(k - 1);
      assert Pow10(k - 2) <= n / 10 < Pow10(k - 1);
      DecimalDigitsInRange(n / 10, k - 1);
    }
  }

  /** Every generated account number is a 10-digit number. */
  lemma AccountNumberHasTenDigits(c: Customer, draw: Draw)
    ensures CreateNewAccount(c, draw).accountNumber >= 0
    ensures DecimalDigits(CreateNewAccount(c, draw).accountNumber) == 10
  {
    assert Pow10(9) == 1000000000;
    assert Pow10(10) == 10000000000;
    DecimalDigitsInRange(CreateNewAccount(c, draw).accountNumber, 10);
  }

  /** Provisioning keeps the database invariant: the new customer gets a
      fresh key below the IDENTITY counter and the new account references it. */
  lemma CreatePreservesValid(s: Store, dto: CustomerDto, mapCustomer: CustomerMapper, draw: Draw, published: bool)
    requires Valid(s)
    requires ACCOUNT_NUMBER_BASE + draw !in s.accounts
    ensures Valid(CreateAccount(s, dto, mapCustomer, draw, published).store)
  {
  }

  /** The duplicate check keeps mobile numbers unique across creates, as
      long as the mapper stores the mobile number it was given. */
  lemma CreateKeepsMobileNumbersUnique(s: Store, dto: CustomerDto, mapCustomer: CustomerMapper, draw: Draw, published: bool)
    requires IdsBelowCounter(s) && UniqueMobileNumbers(s)
    requires ACCOUNT_NUMBER_BASE + draw !in s.accounts
    requires mapCustomer(dto, BlankCustomer).mobileNumber == dto.mobileNumber
    ensures UniqueMobileNumbers(CreateAccount(s, dto, mapCustomer, draw, published).store)
  {
  }

  /** The broker's answer to the publish never changes what `createAccount`
      writes or returns: publishing is best-effort. */
  lemma CreateIgnoresPublishResult(s: Store, dto: CustomerDto, mapCustomer: CustomerMapper, draw: Draw)
    requires IdsBelowCounter(s)
    requires ACCOUNT_NUMBER_BASE + draw !in s.accounts
    ensures CreateAccount(s, dto, mapCustomer, draw, true) == CreateAccount(s, dto, mapCustomer, draw, false)
  {
  }

  /** The published notification, fed through the `email` function, comes
      out unchanged; fed through `sms`, it yields the number of the account
      just created for the new customer. */
  lemma NotificationThroughMessageFunctions(s: Store, dto: CustomerDto, mapCustomer: CustomerMapper, draw: Draw, published: bool)
    requires IdsBelowCounter(s)
    requires ACCOUNT_NUMBER_BASE + draw !in s.accounts
    ensures var r := CreateAccount(s, dto, mapCustomer, draw, published);
            r.result.Ok? ==>
              && Email(r.result.value) == r.result.value
              && Sms(r.result.value) == ACCOUNT_NUMBER_BASE + draw
              && Sms(r.result.value) in r.store.accounts
              && r.store.accounts[Sms(r.result.value)].customerId == s.nextCustomerId
  {
  }

  /** The outcome of `fetchAccount` once the customer is known to be unique:
      the account lookup decides between not-found and success. */
  lemma FetchOutcome(s: Store, mobile: string, id: CustomerId)
    requires CustomersWithMobile(s, mobile) == {id}
    ensures AccountsOfCustomer(s, id) == {} ==>
              FetchAccount(s, mobile) == Err(ResourceNotFound("Account", "Customer Id", Number(id)))
    ensures |AccountsOfCustomer(s, id)| > 1 ==>
              FetchAccount(s, mobile) == Err(IncorrectResultSize(|AccountsOfCustomer(s, id)|))
    ensures FetchAccount(s, mobile).Ok? <==> |AccountsOfCustomer(s, id)| == 1
  {
  }

  /** After a fresh provisioning, the new customer is the only one
      registered under the request's mobile number and the new account is
      the only one it owns. */
  lemma CreatedRowsAreTheOnlyMatches(s: Store, dto: CustomerDto, mapCustomer: CustomerMapper, draw: Draw, published: bool)
    requires Valid(s)
    requires ACCOUNT_NUMBER_BASE + draw !in s.accounts
    requires CustomersWithMobile(s, dto.mobileNumber) == {}
    requires mapCustomer(dto, BlankCustomer).mobileNumber == dto.mobileNumber
    ensures var r := CreateAccount(s, dto, mapCustomer, draw, published);
            && CustomersWithMobile(r.store, dto.mobileNumber) == {s.nextCustomerId}
            && AccountsOfCustomer(r.store, s.nextCustomerId) == {ACCOUNT_NUMBER_BASE + draw}
  {
    var r := CreateAccount(s, dto, mapCustomer, draw, published);
    var id, n := s.nextCustomerId, ACCOUNT_NUMBER_BASE + draw;
    forall k | k in r.store.customers && r.store.customers[k].mobileNumber == dto.mobileNumber
      ensures k == id
    {
    }
    forall m | m in r.store.accounts && r.store.accounts[m].customerId == id
      ensures m == n
    {
    }
  }

  /** The acknowledgement changes neither which customer a mobile number
      finds nor which accounts a customer owns. */
  lemma AcknowledgementKeepsLookups(s: Store, n: AccountNumber, mobile: string, id: CustomerId)
    ensures var acked := UpdateCommunicationStatus(s, Some(n)).store;
            && CustomersWithMobile(acked, mobile) == CustomersWithMobile(s, mobile)
            && AccountsOfCustomer(acked, id) == AccountsOfCustomer(s, id)
  {
  }

  /** After a fresh provisioning the new customer's account can be fetched by
      the mobile number with its communication flag unset; once the
      acknowledgement for that account arrives, the same fetch shows the flag
      set. */
  lemma ProvisionFetchAcknowledge(s: Store, dto: CustomerDto, mapCustomer: CustomerMapper, draw: Draw, published: bool)
    requires Valid(s)
    requires ACCOUNT_NUMBER_BASE + draw !in s.accounts
    requires CustomersWithMobile(s, dto.mobileNumber) == {}
    requires mapCustomer(dto, BlankCustomer).mobileNumber == dto.mobileNumber
    ensures var r := CreateAccount(s, dto, mapCustomer, draw, published);
            var n := ACCOUNT_NUMBER_BASE + draw;
            && r.result.Ok?
            && FetchAccount(r.store, dto.mobileNumber).Ok?
            && FetchAccount(r.store, dto.mobileNumber).value.1.accountNumber == n
            && FetchAccount(r.store, dto.mobileNumber).value.1.communicationSw == None
    ensures var r := CreateAccount(s, dto, mapCustomer, draw, published);
            var n := ACCOUNT_NUMBER_BASE + draw;
            var acked := UpdateCommunicationStatus(r.store, Some(n));
            && acked.result == Ok(true)
            && FetchAccount(acked.store, dto.mobileNumber).Ok?
            && FetchAccount(acked.store, dto.mobileNumber).value.1.accountNumber == n
            && FetchAccount(acked.store, dto.mobileNumber).value.1.communicationSw == Some(true)
  {
    var r := CreateAccount(s, dto, mapCustomer, draw, published);
    var id, n := s.nextCustomerId, ACCOUNT_NUMBER_BASE + draw;
    CreatedRowsAreTheOnlyMatches(s, dto, mapCustomer, draw, published);
    FetchOutcome(r.store, dto.mobileNumber, id);
    var acked := UpdateCommunicationStatus(r.store, Some(n));
    AcknowledgementKeepsLookups(r.store, n, dto.mobileNumber, id);
    FetchOutcome(acked.store, dto.mobileNumber, id);
  }

  /** An update whose account mapper leaves the owner reference alone keeps
      the database invariant, and on such a store its owner lookup cannot
      fail. */
  lemma UpdatePreservesValid(s: Store, dto: CustomerDto, mapAccounts: AccountsMapper, mapCustomer: CustomerMapper)
    requires Valid(s)
    requires dto.accountsDto.Some? && dto.accountsDto.value.accountNumber in s.accounts ==>
               mapAccounts(dto.accountsDto.value, AccountById(s, dto.accountsDto.value.accountNumber)).customerId
                 == s.accounts[dto.accountsDto.value.accountNumber].customerId
    ensures Valid(UpdateAccount(s, dto, mapAccounts, mapCustomer).store)
    ensures UpdateAccount(s, dto, mapAccounts, mapCustomer).result.Ok? <==>
              dto.accountsDto.None? || dto.accountsDto.value.accountNumber in s.accounts
  {
  }

  /** Deleting the only customer registered under `mobile` removes exactly
      that customer and exactly the accounts it owns, keeps the database
      invariant, and a later fetch by that number fails. */
  lemma DeleteRemovesCustomerAndAccounts(s: Store, mobile: string, id: CustomerId)
    requires Valid(s)
    requires CustomersWithMobile(s, mobile) == {id}
    ensures var r := DeleteAccount(s, mobile);
            && r.result == Ok(true)
            && r.store.customers.Keys == s.customers.Keys - {id}
            && (forall k :: k in r.store.customers ==> r.store.customers[k] == s.customers[k])
            && (forall n :: n in r.store.accounts <==> n in s.accounts && s.accounts[n].customerId != id)
            && (forall n :: n in r.store.accounts ==> r.store.accounts[n] == s.accounts[n])
            && Valid(r.store)
            && FetchAccount(r.store, mobile) == Err(ResourceNotFound("Customer", "Mobile Number", Text(mobile)))
  {
  }

  /** Delivering the acknowledgement for an account a second time changes
      nothing: same store, same answer. */
  lemma UpdateCommunicationStatusIdempotent(s: Store, accountNumber: Option<AccountNumber>)
    ensures var once := UpdateCommunicationStatus(s, accountNumber);
            UpdateCommunicationStatus(once.store, accountNumber) == once
  {
  }

  /** The acknowledgement only touches a flag, so it keeps the database
      invariant. */
  lemma UpdateCommunicationStatusPreservesValid(s: Store, accountNumber: Option<AccountNumber>)
    requires Valid(s)
    ensures Valid(UpdateCommunicationStatus(s, accountNumber).store)
  {
  }
}
