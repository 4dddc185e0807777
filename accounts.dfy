/** Queries over the stored account list, shared by the sign-up, login,
    change-password and profile screens. Emails and passwords are compared
    with JavaScript's `===`: exact, case-sensitive equality. */
module Accounts {
  import opened Common
  import opened AppStorage

  /** The record sign-up appends: `{ email, password }` and nothing else. */
  function NewAccount(email: string, password: string): (u: User)
    ensures u.email == email && u.password == Some(password)
    ensures u.name.None? && u.mobile.None? && u.countryCode.None? && u.address.None?
    ensures u.dob.None? && u.image.None?
  {
    User(email, Some(password), None, None, None, None, None, None)
  }

  /** The first position whose email equals `email` (`find` / `findIndex`
      with `u.email === email`), or `None` when there is none. */
  function IndexOfEmail(users: seq<User>, email: string): (r: Option<nat>)
    ensures r.None? <==> forall j :: 0 <= j < |users| ==> users[j].email != email
    ensures r.Some? ==> r.value < |users| && users[r.value].email == email
    ensures r.Some? ==> forall j :: 0 <= j < r.value ==> users[j].email != email
  {
    if users == [] then None
    else if users[0].email == email then Some(0)
    else match IndexOfEmail(users[1..], email)
      case None => None
      case Some(k) => Some(k + 1)
  }

  predicate Matches(u: User, email: string, password: string)
  {
    u.email == email && u.password == Some(password)
  }

  /** The first position whose email and password both equal the given ones. */
  function IndexOfCredentials(users: seq<User>, email: string, password: string): (r: Option<nat>)
    ensures r.None? <==> forall j :: 0 <= j < |users| ==> !Matches(users[j], email, password)
    ensures r.Some? ==> r.value < |users| && Matches(users[r.value], email, password)
    ensures r.Some? ==> forall j :: 0 <= j < r.value ==> !Matches(users[j], email, password)
  {
    if users == [] then None
    else if Matches(users[0], email, password) then Some(0)
    else match IndexOfCredentials(users[1..], email, password)
      case None => None
      case Some(k) => Some(k + 1)
  }

  /** No two stored accounts share an email. */
  predicate UniqueEmails(users: seq<User>)
  {
    forall i, j :: 0 <= i < j < |users| ==> users[i].email != users[j].email
  }

  /** With unique emails, the account with a given email is the only one. */
  lemma UniqueEmailIndex(users: seq<User>, email: string, k: nat)
    requires UniqueEmails(users)
    requires k < |users| && users[k].email == email
    ensures IndexOfEmail(users, email) == Some(k)
  {
  }
}
