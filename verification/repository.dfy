/** The queries of `CustomerRepository` and `AccountsRepository` that the
    service calls, over the abstract store. A derived query declared to
    return an `Optional` yields nothing, the single matching row, or fails
    when several rows match. */
module Repository {
  import opened Wrappers
  import opened Entities

  /** Keys of the customers registered under `mobile`. */
  function CustomersWithMobile(s: Store, mobile: string): (ids: set<CustomerId>)
    ensures forall id :: id in ids <==> id in s.customers && s.customers[id].mobileNumber == mobile
  {
    set id | id in s.customers && s.customers[id].mobileNumber == mobile
  }

  /** Keys of the accounts whose `customerId` column is `cid`. */
  function AccountsOfCustomer(s: Store, cid: CustomerId): (ns: set<AccountNumber>)
    ensures forall n :: n in ns <==> n in s.accounts && s.accounts[n].customerId == cid
  {
    set n | n in s.accounts && s.accounts[n].customerId == cid
  }

  lemma SingletonIsUnique<K>(ks: set<K>)
    requires |ks| == 1
    ensures forall a, b :: a in ks && b in ks ==> a == b
  {
    forall a, b | a in ks && b in ks
      ensures a == b
    {
      if a != b {
        assert {a, b} <= ks;
        assert |{a, b}| == 2;
        SubsetSize({a, b}, ks);
      }
    }
  }

  lemma SubsetSize<K>(small: set<K>, big: set<K>)
    requires small <= big
    ensures |small| <= |big|
  {
    assert big == small + (big - small);
  }

  /** The row key an `Optional`-returning query yields for the matching keys
      `ks`: empty when nothing matches, the key when exactly one does, and an
      `IncorrectResultSize` failure otherwise. */
  function Unique<K>(ks: set<K>): (r: Result<Option<K>, Error>)
    ensures r == Ok(None) <==> ks == {}
    ensures r.Ok? && r.value.Some? <==> |ks| == 1
    ensures r.Ok? && r.value.Some? ==> ks == {r.value.value}
    ensures r.Err? <==> |ks| > 1
    ensures r.Err? ==> r.error == IncorrectResultSize(|ks|)
  {
    if |ks| == 0 then Ok(None)
    else if |ks| == 1 then
      SingletonIsUnique(ks);
      var k :| k in ks; Ok(Some(k))
    else Err(IncorrectResultSize(|ks|))
  }

  /** The entity loaded for the customer row keyed `id`: it carries its key. */
  function CustomerById(s: Store, id: CustomerId): (c: Customer)
    requires id in s.customers
    ensures c.customerId == id
  {
    s.customers[id].(customerId := id)
  }

  /** The entity loaded for the account row keyed `n`: it carries its key. */
  function AccountById(s: Store, n: AccountNumber): (a: Account)
    requires n in s.accounts
    ensures a.accountNumber == n
  {
    s.accounts[n].(accountNumber := n)
  }

  /** `customerRepository.findByMobileNumber`, yielding the row's key. */
  function FindByMobileNumber(s: Store, mobile: string): Result<Option<CustomerId>, Error> {
    Unique(CustomersWithMobile(s, mobile))
  }

  /** `accountsRepository.findByCustomerId`, yielding the row's key. */
  function FindByCustomerId(s: Store, cid: CustomerId): Result<Option<AccountNumber>, Error> {
    Unique(AccountsOfCustomer(s, cid))
  }

  /** `accountsRepository.deleteByCustomerId`: removes every account whose
      `customerId` is `cid` and nothing else. */
  function DeleteByCustomerId(s: Store, cid: CustomerId): (s': Store)
    ensures s'.customers == s.customers && s'.nextCustomerId == s.nextCustomerId
    ensures forall n :: n in s'.accounts <==> n in s.accounts && s.accounts[n].customerId != cid
    ensures forall n :: n in s'.accounts ==> s'.accounts[n] == s.accounts[n]
  {
    s.(accounts := s.accounts - AccountsOfCustomer(s, cid))
  }

  /** `customerRepository.deleteById`: removes the row keyed `cid`, if any. */
  function DeleteCustomerById(s: Store, cid: CustomerId): (s': Store)
    ensures s'.accounts == s.accounts && s'.nextCustomerId == s.nextCustomerId
    ensures s'.customers.Keys == s.customers.Keys - {cid}
    ensures forall id :: id in s'.customers ==> s'.customers[id] == s.customers[id]
  {
    s.(customers := s.customers - {cid})
  }

  /** `customerRepository.save` on a new customer: the IDENTITY column
      assigns the next id, overriding whatever id the entity carried. */
  function InsertCustomer(s: Store, c: Customer): (r: (Store, Customer))
    ensures r.1 == c.(customerId := s.nextCustomerId)
    ensures r.0.customers == s.customers[s.nextCustomerId := r.1]
    ensures r.0.accounts == s.accounts && r.0.nextCustomerId == s.nextCustomerId + 1
  {
    var saved := c.(customerId := s.nextCustomerId);
    (s.(customers := s.customers[saved.customerId := saved], nextCustomerId := s.nextCustomerId + 1), saved)
  }

  /** `customerRepository.save` on a customer that carries its id: the row
      under that key is written. */
  function SaveCustomer(s: Store, c: Customer): (s': Store)
    ensures s'.customers == s.customers[c.customerId := c]
    ensures s'.accounts == s.accounts && s'.nextCustomerId == s.nextCustomerId
  {
    s.(customers := s.customers[c.customerId := c])
  }

  /** `accountsRepository.save`: the account number is assigned by the
      application, so the row under that key is written. */
  function SaveAccount(s: Store, a: Account): (s': Store)
    ensures s'.accounts == s.accounts[a.accountNumber := a]
    ensures s'.customers == s.customers && s'.nextCustomerId == s.nextCustomerId
  {
    s.(accounts := s.accounts[a.accountNumber := a])
  }
}
