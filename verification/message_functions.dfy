/** The message service's stateless stream functions, bound to the `email`
    and `sms` channels. Both receive the provisioning notification
    (`AccountsMsgDto`). The accounts and message services each declare a
    record of this shape and exchange it as JSON; the model uses one type. */
module MessageFunctions {

  /** The notification payload: a snapshot of the new account and its owner. */
  datatype AccountsMsg = AccountsMsg(
    accountNumber: int,
    name: string,
    email: string,
    mobileNumber: string)

  /** `email`: logs the payload and hands it on unchanged. */
  function Email(m: AccountsMsg): (r: AccountsMsg)
    ensures r == m
  {
    m
  }

  /** `sms`: logs the payload and projects out the account number. */
  function Sms(m: AccountsMsg): (r: int)
    ensures r == m.accountNumber
  {
    m.accountNumber
  }

  /** Email is a passthrough, so running it again changes nothing. */
  lemma EmailIdempotent(m: AccountsMsg)
    ensures Email(Email(m)) == Email(m)
  {
  }

  /** Chaining `email` before `sms` yields the same account number as `sms`
      alone: the passthrough loses no field `sms` reads. */
  lemma SmsAfterEmail(m: AccountsMsg)
    ensures Sms(Email(m)) == Sms(m)
  {
  }

  /** Two payloads that `email` cannot tell apart are the same payload, and
      `sms` only tells apart payloads with different account numbers. */
  lemma EmailInjectiveSmsByAccountNumber(m1: AccountsMsg, m2: AccountsMsg)
    ensures Email(m1) == Email(m2) <==> m1 == m2
    ensures Sms(m1) == Sms(m2) <==> m1.accountNumber == m2.accountNumber
  {
  }
}
