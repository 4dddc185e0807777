/** The sign-up screen: its schema and `handleSignUp`, which scans the stored
    accounts for the email, appends `{ email, password }` when it is new,
    writes the list back and dispatches `login` with the email. */
module SignUpScreen {
  import opened Common
  import opened FieldRules
  import opened AppStorage
  import opened Accounts
  import Auth

  /** `SignUpSchema`; Yup's `.email()` check is the parameter `isEmail`. */
  predicate SignUpSchemaValid(email: string, password: string, isEmail: string -> bool)
  {
    EmailRule(email, isEmail) && PasswordRule(password)
  }

  /** An accepted email has at most 50 code units; an accepted password
      4 to 20 and all four character classes. */
  lemma SignUpSchemaMeaning(email: string, password: string, isEmail: string -> bool)
    requires SignUpSchemaValid(email, password, isEmail)
    ensures isEmail(email) && 1 <= |email| <= 50
    ensures 4 <= Utf16Length(password) <= 20
    ensures HasLower(password) && HasUpper(password) && HasDigit(password) && HasSpecial(password)
  {
    AcceptedPasswordHasAllClasses(password);
  }

  datatype SignUpOutcome = UserExists | Registered

  /** `handleSignUp(values)`: the outcome, the storage afterwards, and the
      action dispatched to the session slice. */
  method HandleSignUp(s: Storage, email: string, password: string)
    returns (outcome: SignUpOutcome, s': Storage, dispatched: Option<Auth.Action>)
    ensures outcome == UserExists <==> exists i :: 0 <= i < |StoredUsers(s)| && StoredUsers(s)[i].email == email
    ensures outcome == UserExists ==> s' == s && dispatched == None
    ensures outcome == Registered ==> s' == s.(users := Some(StoredUsers(s) + [NewAccount(email, password)]))
    ensures outcome == Registered ==> dispatched == Some(Auth.Login(Some(email)))
    ensures UniqueEmails(StoredUsers(s)) ==> UniqueEmails(StoredUsers(s'))
  {
    var users := StoredUsers(s);
    // Does any stored account already have this email?
    var userExists := false;
    var i := 0;
    while i < |users| && !userExists
      invariant 0 <= i <= |users|
      invariant userExists <==> exists j :: 0 <= j < i && users[j].email == email
    {
      userExists := users[i].email == email;
      i := i + 1;
    }
    if userExists {
      return UserExists, s, None;
    }
    users := users + [NewAccount(email, password)];
    s' := s.(users := Some(users));
    outcome, dispatched := Registered, Some(Auth.Login(Some(email)));
  }

  /** The form's submit: the handler runs only when the schema accepts the
      values; `None` means nothing was submitted. */
  method SubmitSignUp(s: Storage, email: string, password: string, isEmail: string -> bool)
    returns (outcome: Option<SignUpOutcome>, s': Storage, dispatched: Option<Auth.Action>)
    ensures outcome.None? <==> !SignUpSchemaValid(email, password, isEmail)
    ensures outcome != Some(Registered) ==> s' == s && dispatched == None
    ensures outcome == Some(Registered) ==>
      && |StoredUsers(s')| == |StoredUsers(s)| + 1
      && StoredUsers(s')[..|StoredUsers(s)|] == StoredUsers(s)
      && StoredUsers(s')[|StoredUsers(s)|] == NewAccount(email, password)
      && PasswordRule(password) && 1 <= |email| <= 50
      && dispatched == Some(Auth.Login(Some(email)))
  {
    if !SignUpSchemaValid(email, password, isEmail) {
      return None, s, None;
    }
    var o;
    o, s', dispatched := HandleSignUp(s, email, password);
    outcome := Some(o);
  }
}
