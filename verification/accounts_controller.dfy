/** The decisions `AccountsController` makes around the service: the
    mobile-number format required of request parameters, the HTTP status of
    create/update/delete, and the fixed fallback values of the two
    diagnostic endpoints. */
module AccountsController {
  import opened Wrappers
  import opened Entities
  import opened Repository
  import opened AccountsService

  const HTTP_OK: int := 200
  const HTTP_CREATED: int := 201
  const HTTP_EXPECTATION_FAILED: int := 417

  /** The `AccountsConstants` message a `ResponseDTO` carries. */
  datatype StatusMessage = Message201 | Message200 | Message417Update | Message417Delete

  datatype Body =
    | Status(message: StatusMessage)
    | CustomerDetails(customer: Customer, account: Account)
    | Plain(text: string)
    | NoBody

  datatype Response = Response(status: int, body: Body)

  /** A failure reaching a resilience decorator. */
  datatype Throwable = Throwable(className: string, message: string)

  const MOBILE_NUMBER_MESSAGE: string := "Mobile number must be 10 digits"

  predicate IsDigit(c: char) {
    '0' <= c <= '9'
  }

  /** Whether every character of `s` is an ASCII digit, scanned from the
      front. */
  function AllDigits(s: string): (b: bool)
    ensures b <==> forall i :: 0 <= i < |s| ==> IsDigit(s[i])
  {
    |s| == 0 || (IsDigit(s[0]) && AllDigits(s[1..]))
  }

  /** The whole-string match of `(^$|[0-9]{10})` that the `@Pattern`
      constraint on the `mobileNumber` parameter applies. */
  function MobileNumberPattern(mobile: string): (ok: bool)
    ensures ok <==> |mobile| == 0 || (|mobile| == 10 && forall i :: 0 <= i < |mobile| ==> IsDigit(mobile[i]))
  {
    |mobile| == 0 || (|mobile| == 10 && AllDigits(mobile))
  }

  /** The pattern check, scanning the candidate once. */
  method MatchesMobileNumberPattern(mobile: string) returns (ok: bool)
    ensures ok <==> MobileNumberPattern(mobile)
  {
    if |mobile| == 0 {
      return true;
    }
    if |mobile| != 10 {
      return false;
    }
    var i := 0;
    while i < |mobile|
      invariant 0 <= i <= |mobile|
      invariant forall j :: 0 <= j < i ==> IsDigit(mobile[j])
    {
      if !IsDigit(mobile[i]) {
        return false;
      }
      i := i + 1;
    }
    return true;
  }

  /** `createAccount` endpoint: 201 whenever the service returns normally;
      a service exception propagates with the store the service left. */
  function CreateAccountDetails(s: Store, dto: CustomerDto, mapCustomer: CustomerMapper, draw: Draw, published: bool)
    : (r: Step<Response>)
    requires IdsBelowCounter(s)
    requires ACCOUNT_NUMBER_BASE + draw !in s.accounts
    ensures var service := CreateAccount(s, dto, mapCustomer, draw, published);
            && r.store == service.store
            && (r.result.Ok? <==> service.result.Ok?)
            && (r.result.Ok? ==> r.result.value == Response(HTTP_CREATED, Status(Message201)))
            && (service.result.Err? ==> r.result == Err(service.result.error))
  {
    var service := CreateAccount(s, dto, mapCustomer, draw, published);
    match service.result
    case Err(e) => Step(service.store, Err(e))
    case Ok(_) => Step(service.store, Ok(Response(HTTP_CREATED, Status(Message201))))
  }

  /** `fetchAccountDetails`: a mobile number outside the pattern is rejected
      before the service runs; otherwise 200 with the customer and account. */
  function FetchAccountDetails(s: Store, mobile: string): (r: Result<Response, Error>)
    ensures !MobileNumberPattern(mobile) ==> r == Err(ConstraintViolation(MOBILE_NUMBER_MESSAGE))
    ensures r.Ok? ==>
              && MobileNumberPattern(mobile)
              && FetchAccount(s, mobile).Ok?
              && r.value == Response(HTTP_OK, CustomerDetails(FetchAccount(s, mobile).value.0, FetchAccount(s, mobile).value.1))
    ensures MobileNumberPattern(mobile) && FetchAccount(s, mobile).Err? ==> r == Err(FetchAccount(s, mobile).error)
    ensures MobileNumberPattern(mobile) && FetchAccount(s, mobile).Ok? ==> r.Ok?
  {
    if !MobileNumberPattern(mobile) then
      Err(ConstraintViolation(MOBILE_NUMBER_MESSAGE))
    else
      match FetchAccount(s, mobile)
      case Err(e) => Err(e)
      case Ok((c, a)) => Ok(Response(HTTP_OK, CustomerDetails(c, a)))
  }

  /** `updateAccountDetails`: 200 if the service reports `true`, 417 if it
      reports `false`; a service exception propagates. */
  function UpdateAccountDetails(s: Store, dto: CustomerDto, mapAccounts: AccountsMapper, mapCustomer: CustomerMapper)
    : (r: Step<Response>)
    ensures var service := UpdateAccount(s, dto, mapAccounts, mapCustomer);
            && r.store == service.store
            && (service.result == Ok(true) <==> r.result == Ok(Response(HTTP_OK, Status(Message200))))
            && (service.result == Ok(false) <==>
                  r.result == Ok(Response(HTTP_EXPECTATION_FAILED, Status(Message417Update))))
            && (service.result.Err? ==> r.result == Err(service.result.error))
  {
    var service := UpdateAccount(s, dto, mapAccounts, mapCustomer);
    match service.result
    case Err(e) => Step(service.store, Err(e))
    case Ok(isUpdated) =>
      if isUpdated then Step(service.store, Ok(Response(HTTP_OK, Status(Message200))))
      else Step(service.store, Ok(Response(HTTP_EXPECTATION_FAILED, Status(Message417Update))))
  }

  /** `deleteAccountDetails`: a mobile number outside the pattern is rejected
      before the service runs; otherwise 200 if the service reports `true`,
      417 if it reports `false`; a service exception propagates. */
  function DeleteAccountDetails(s: Store, mobile: string): (r: Step<Response>)
    ensures !MobileNumberPattern(mobile) ==> r == Step(s, Err(ConstraintViolation(MOBILE_NUMBER_MESSAGE)))
    ensures MobileNumberPattern(mobile) ==>
              var service := DeleteAccount(s, mobile);
              && r.store == service.store
              && (service.result == Ok(true) <==> r.result == Ok(Response(HTTP_OK, Status(Message200))))
              && (service.result == Ok(false) <==>
                    r.result == Ok(Response(HTTP_EXPECTATION_FAILED, Status(Message417Delete))))
              && (service.result.Err? ==> r.result == Err(service.result.error))
  {
    if !MobileNumberPattern(mobile) then
      Step(s, Err(ConstraintViolation(MOBILE_NUMBER_MESSAGE)))
    else
      var service := DeleteAccount(s, mobile);
      match service.result
      case Err(e) => Step(service.store, Err(e))
      case Ok(isDeleted) =>
        if isDeleted then Step(service.store, Ok(Response(HTTP_OK, Status(Message200))))
        else Step(service.store, Ok(Response(HTTP_EXPECTATION_FAILED, Status(Message417Delete))))
  }

  /** Combined with the service, update answers 417 exactly when the request
      has no account part, and then nothing is written. */
  lemma UpdateExpectationFailedIffNoAccountPart(s: Store, dto: CustomerDto, mapAccounts: AccountsMapper, mapCustomer: CustomerMapper)
    ensures var r := UpdateAccountDetails(s, dto, mapAccounts, mapCustomer);
            (r.result.Ok? && r.result.value.status == HTTP_EXPECTATION_FAILED) <==> dto.accountsDto.None?
    ensures dto.accountsDto.None? ==> UpdateAccountDetails(s, dto, mapAccounts, mapCustomer).store == s
  {
  }

  /** Combined with the service, delete never answers 417: it either
      answers 200 or fails. */
  lemma DeleteNeverExpectationFailed(s: Store, mobile: string)
    ensures var r := DeleteAccountDetails(s, mobile);
            r.result.Ok? ==> r.result.value == Response(HTTP_OK, Status(Message200))
    ensures var r := DeleteAccountDetails(s, mobile);
            r.result.Ok? <==> MobileNumberPattern(mobile) && |CustomersWithMobile(s, mobile)| == 1
  {
  }

  /** A fetch or delete whose mobile number fails the pattern leaves the
      store untouched and never consults it. */
  lemma RejectedMobileNumberNeverReachesService(s1: Store, s2: Store, mobile: string)
    requires !MobileNumberPattern(mobile)
    ensures FetchAccountDetails(s1, mobile) == FetchAccountDetails(s2, mobile)
    ensures DeleteAccountDetails(s1, mobile).store == s1
    ensures DeleteAccountDetails(s1, mobile).result == DeleteAccountDetails(s2, mobile).result
  {
  }

  /** `getBuildInfoFallback`: 200 with "0.9", whatever went wrong. */
  function BuildInfoFallback(th: Throwable): (r: Response)
    ensures r.status == HTTP_OK && r.body == Plain("0.9")
  {
    Response(HTTP_OK, Plain("0.9"))
  }

  /** `getJavaVersionFallback`: 200 with "Java 17", whatever went wrong. */
  function JavaVersionFallback(th: Throwable): (r: Response)
    ensures r.status == HTTP_OK && r.body == Plain("Java 17")
  {
    Response(HTTP_OK, Plain("Java 17"))
  }

  /** `getBuildInfo`: 200 with the configured build version. */
  function BuildInfo(buildVersion: string): (r: Response)
    ensures r.status == HTTP_OK && r.body == Plain(buildVersion)
  {
    Response(HTTP_OK, Plain(buildVersion))
  }

  /** `getJavaVersion`: 200 with the `JAVA_HOME` property, absent when unset. */
  function JavaVersion(javaHome: Option<string>): (r: Response)
    ensures r.status == HTTP_OK
    ensures javaHome.Some? ==> r.body == Plain(javaHome.value)
    ensures javaHome.None? ==> r.body == NoBody
  {
    match javaHome
    case Some(v) => Response(HTTP_OK, Plain(v))
    case None => Response(HTTP_OK, NoBody)
  }

  /** What a decorated endpoint answers, given what its decorator finally
      obtained: the wrapped method's response, or the failure (retries
      exhausted, or the call refused by the rate limiter) handed to the
      fallback method. */
  function Decorated(outcome: Result<Response, Throwable>, fallback: Throwable -> Response): (r: Response)
    ensures outcome.Ok? ==> r == outcome.value
    ensures outcome.Err? ==> r == fallback(outcome.error)
  {
    match outcome
    case Ok(resp) => resp
    case Err(th) => fallback(th)
  }

  /** The two diagnostic endpoints never fail visibly: whatever happens to
      the wrapped call, the answer is 200 with either the live value or the
      fixed placeholder. */
  lemma DiagnosticEndpointsNeverFail(buildVersion: string, javaHome: Option<string>, th: Throwable, buildFails: bool, javaFails: bool)
    ensures var b := Decorated(if buildFails then Err(th) else Ok(BuildInfo(buildVersion)), BuildInfoFallback);
            && b.status == HTTP_OK
            && (b.body == Plain(buildVersion) || b.body == Plain("0.9"))
            && (buildFails ==> b.body == Plain("0.9"))
            && (!buildFails ==> b.body == Plain(buildVersion))
    ensures var j := Decorated(if javaFails then Err(th) else Ok(JavaVersion(javaHome)), JavaVersionFallback);
            && j.status == HTTP_OK
            && (javaFails ==> j.body == Plain("Java 17"))
            && (!javaFails ==> j == JavaVersion(javaHome))
  {
  }
}
