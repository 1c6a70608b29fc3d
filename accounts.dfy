/**
 * The users collection: account records, the two lookups the handlers run
 * against it, the uniqueness of contacts that registration maintains, and the
 * total money held.
 *
 * An account's id is its position in the table: records are only ever
 * appended, and a lookup that several records match returns the earliest one,
 * as a `findOne` in insertion order does.
 */
module Accounts {
  import opened Results

  datatype Status = Pending | Approved | Rejected

  /** One user record. The PIN is kept as given: hashing is not modelled. */
  datatype Account = Account(
    name: string,
    pin: string,
    mobileNumber: string,
    email: string,
    role: string,
    status: Status,
    balance: real)

  /** The lookup of a counterparty by mobile number only. */
  function FindByMobile(accounts: seq<Account>, mobile: string): (r: Option<nat>)
    ensures r.Some? ==> r.value < |accounts| && accounts[r.value].mobileNumber == mobile
    ensures r.Some? ==> forall j :: 0 <= j < r.value ==> accounts[j].mobileNumber != mobile
    ensures r.None? <==> forall j :: 0 <= j < |accounts| ==> accounts[j].mobileNumber != mobile
    decreases |accounts|
  {
    if |accounts| == 0 then None
    else if accounts[0].mobileNumber == mobile then Some(0)
    else match FindByMobile(accounts[1..], mobile)
      case None => None
      case Some(k) => Some(k + 1)
  }

  /** The query used by registration and login: same mobile number OR same email. */
  predicate MatchesContact(a: Account, mobile: string, email: string)
  {
    a.mobileNumber == mobile || a.email == email
  }

  function FindByContact(accounts: seq<Account>, mobile: string, email: string): (r: Option<nat>)
    ensures r.Some? ==> r.value < |accounts| && MatchesContact(accounts[r.value], mobile, email)
    ensures r.Some? ==> forall j :: 0 <= j < r.value ==> !MatchesContact(accounts[j], mobile, email)
    ensures r.None? <==> forall j :: 0 <= j < |accounts| ==> !MatchesContact(accounts[j], mobile, email)
    decreases |accounts|
  {
    if |accounts| == 0 then None
    else if MatchesContact(accounts[0], mobile, email) then Some(0)
    else match FindByContact(accounts[1..], mobile, email)
      case None => None
      case Some(k) => Some(k + 1)
  }

  /** No two accounts share a mobile number, and no two share an email. */
  predicate ContactsUnique(accounts: seq<Account>)
  {
    forall i, j :: 0 <= i < j < |accounts| ==>
      accounts[i].mobileNumber != accounts[j].mobileNumber && accounts[i].email != accounts[j].email
  }

  /** `after` differs from `before` at most in balances and statuses. */
  predicate SameContacts(before: seq<Account>, after: seq<Account>)
  {
    |before| == |after| &&
    forall i :: 0 <= i < |before| ==>
      after[i].mobileNumber == before[i].mobileNumber && after[i].email == before[i].email
  }

  /** With unique contacts, the lookup by mobile number finds the one account holding it. */
  lemma UniqueMobileFound(accounts: seq<Account>, i: nat)
    requires ContactsUnique(accounts) && i < |accounts|
    ensures FindByMobile(accounts, accounts[i].mobileNumber) == Some(i)
  {
  }

  /** Money held by all accounts together. */
  function Total(accounts: seq<Account>): real
  {
    if |accounts| == 0 then 0.0
    else Total(accounts[..|accounts| - 1]) + accounts[|accounts| - 1].balance
  }

  /** Rewriting one record changes the total by exactly that record's change of balance. */
  lemma {:induction false} TotalUpdate(accounts: seq<Account>, i: nat, a: Account)
    requires i < |accounts|
    ensures Total(accounts[i := a]) == Total(accounts) - accounts[i].balance + a.balance
    decreases |accounts|
  {
    var n := |accounts| - 1;
    var updated := accounts[i := a];
    if i < n {
      assert updated[..n] == accounts[..n][i := a];
      TotalUpdate(accounts[..n], i, a);
    } else {
      assert updated[..n] == accounts[..n];
    }
  }
}
