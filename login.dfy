/** The login screen: its schema and `handleLogin`, a single `find` over the
    stored accounts for one whose email and password both equal the typed
    ones; on a match the session slice receives `login(user.email)`. */
module LoginScreen {
  import opened Common
  import opened FieldRules
  import opened AppStorage
  import opened Accounts
  import Auth

  /** `LoginSchema`: email as in every form; password 4 to 20 code units,
      with no character-class rule. */
  predicate LoginSchemaValid(email: string, password: string, isEmail: string -> bool)
  {
    EmailRule(email, isEmail) && LengthWithin(password, 4, 20) && Required(password)
  }

  /** A password the login form accepts but the sign-up form would refuse:
      logging in does not re-check the character classes. */
  lemma LoginAcceptsWeakerPasswords(isEmail: string -> bool)
    requires isEmail("a@b.co")
    ensures LoginSchemaValid("a@b.co", "abcd", isEmail)
    ensures !PasswordRule("abcd")
  {
    var p := "abcd";
    assert Utf16Length(p) == 4 by {
      assert p[..3] == "abc" && "abc"[..2] == "ab" && "ab"[..1] == "a" && "a"[..0] == "";
    }
    forall i | 0 <= i < |p|
      ensures !IsUpper(p[i])
    {
    }
  }

  datatype LoginOutcome = LoggedIn(user: string) | Failed

  /** `handleLogin(values)`: succeeds exactly when some stored account matches
      both fields exactly; the session user is then the first match's
      email, which is the typed email. With no "users" value it fails. */
  function HandleLogin(s: Storage, email: string, password: string): (r: LoginOutcome)
    ensures r.LoggedIn? <==> exists i :: 0 <= i < |StoredUsers(s)| && Matches(StoredUsers(s)[i], email, password)
    ensures r.LoggedIn? ==> r.user == email
    ensures r.LoggedIn? ==>
      exists i :: && 0 <= i < |StoredUsers(s)| && Matches(StoredUsers(s)[i], email, password)
                  && r.user == StoredUsers(s)[i].email
                  && forall j :: 0 <= j < i ==> !Matches(StoredUsers(s)[j], email, password)
    ensures s.users.None? ==> r == Failed
  {
    var users := StoredUsers(s);
    match IndexOfCredentials(users, email, password)
    case Some(i) => LoggedIn(users[i].email)
    case None => Failed
  }

  /** The action a login outcome dispatches. */
  function Dispatched(r: LoginOutcome): (a: Option<Auth.Action>)
    ensures r.LoggedIn? ==> a == Some(Auth.Login(Some(r.user)))
    ensures r.Failed? ==> a.None?
  {
    match r
    case LoggedIn(u) => Some(Auth.Login(Some(u)))
    case Failed => None
  }

  /** The form's submit; `None` means the schema refused the values. */
  function SubmitLogin(s: Storage, email: string, password: string, isEmail: string -> bool): (r: Option<LoginOutcome>)
    ensures r.None? <==> !LoginSchemaValid(email, password, isEmail)
    ensures r.Some? ==> r.value == HandleLogin(s, email, password)
  {
    if LoginSchemaValid(email, password, isEmail) then Some(HandleLogin(s, email, password)) else None
  }

  /** An account just created by sign-up can log in with the same email and
      password. */
  lemma LoginAfterSignUp(s: Storage, email: string, password: string)
    ensures var s' := s.(users := Some(StoredUsers(s) + [NewAccount(email, password)]));
      HandleLogin(s', email, password) == LoggedIn(email)
  {
    var users := StoredUsers(s) + [NewAccount(email, password)];
    assert Matches(users[|users| - 1], email, password);
  }
}
