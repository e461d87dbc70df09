/** `AccountsFunction.updateCommunication`: the stream consumer that receives
    the account number of a delivered notification and forwards it to the
    service. The consumer discards the service's boolean answer. */
module AccountsFunction {
  import opened Wrappers
  import opened Entities
  import opened Repository
  import opened AccountsService

  /** One delivery of `accountNumber` to the consumer. The log statement
      dereferences the number before the service is called, so a null
      number fails there. */
  function UpdateCommunication(s: Store, accountNumber: Option<AccountNumber>): (r: Step<()>)
    ensures accountNumber.None? ==> r == Step(s, Err(NullPointer))
    ensures accountNumber.Some? ==>
              var service := UpdateCommunicationStatus(s, accountNumber);
              && r.store == service.store
              && (r.result.Ok? <==> service.result.Ok?)
              && (service.result.Err? ==> r.result == Err(service.result.error))
  {
    match accountNumber
    case None => Step(s, Err(NullPointer))
    case Some(_) =>
      var service := UpdateCommunicationStatus(s, accountNumber);
      match service.result
      case Err(e) => Step(service.store, Err(e))
      case Ok(_) => Step(service.store, Ok(()))
  }

  /** A null delivery never reaches the service: whenever the consumer
      completes, the service was called with a number and answered `true`,
      so the service's `false` branch for a null number is unreachable from
      here. */
  lemma ConsumerNeverReachesNullBranch(s: Store, accountNumber: Option<AccountNumber>)
    ensures UpdateCommunication(s, accountNumber).result.Ok? ==>
              && accountNumber.Some?
              && UpdateCommunicationStatus(s, accountNumber).result == Ok(true)
    ensures UpdateCommunication(s, accountNumber).store != s ==> accountNumber.Some?
  {
  }

  /** An acknowledgement for an unknown account fails with the service's
      `ResourceNotFound` and writes nothing. */
  lemma ConsumerPropagatesNotFound(s: Store, n: AccountNumber)
    requires n !in s.accounts
    ensures UpdateCommunication(s, Some(n)) ==
              Step(s, Err(ResourceNotFound("Account", "AccountNumber", Number(n))))
  {
  }

  /** For a known account the consumer completes, and the only change is that
      account's communication flag, now set. */
  lemma ConsumerSetsFlag(s: Store, n: AccountNumber)
    requires n in s.accounts
    ensures var r := UpdateCommunication(s, Some(n));
            && r.result == Ok(())
            && r.store.customers == s.customers
            && r.store.nextCustomerId == s.nextCustomerId
            && r.store.accounts.Keys == s.accounts.Keys
            && r.store.accounts[n] == AccountById(s, n).(communicationSw := Some(true))
            && (forall k :: k in s.accounts && k != n ==> r.store.accounts[k] == s.accounts[k])
  {
  }

  /** Redelivery is harmless: delivering the same number twice leaves the
      same store, with the same outcome, as delivering it once. */
  lemma ConsumerIdempotent(s: Store, accountNumber: Option<AccountNumber>)
    ensures var once := UpdateCommunication(s, accountNumber);
            UpdateCommunication(once.store, accountNumber) == once
  {
  }
}
