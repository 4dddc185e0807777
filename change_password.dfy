/** The change-password screen: its schema and `handleChangePassword`, a
    chain of guards (signed in, known account, old password right) followed
    by an in-place update of that one account's password and a write of the
    whole list. */
module ChangePasswordScreen {
  import opened Common
  import opened FieldRules
  import opened AppStorage
  import opened Accounts

  datatype PasswordForm = PasswordForm(oldPassword: string, newPassword: string, confirmPassword: string)

  /** `ChangePasswordSchema`: both passwords follow the password rule, the
      new one differs from the old one (`notOneOf([ref("oldPassword")])`)
      and the confirmation equals the new one (`oneOf([ref("newPassword"), null])`,
      required). */
  predicate ChangePasswordSchemaValid(f: PasswordForm)
  {
    && PasswordRule(f.oldPassword)
    && PasswordRule(f.newPassword) && f.newPassword != f.oldPassword
    && f.confirmPassword == f.newPassword && Required(f.confirmPassword)
  }

  /** An accepted form: both passwords have all four character classes and
      4 to 20 code units, the new one differs from the old one and the
      confirmation repeats it. */
  lemma ChangePasswordSchemaMeaning(f: PasswordForm)
    requires ChangePasswordSchemaValid(f)
    ensures HasLower(f.oldPassword) && HasUpper(f.oldPassword) && HasDigit(f.oldPassword) && HasSpecial(f.oldPassword)
    ensures HasLower(f.newPassword) && HasUpper(f.newPassword) && HasDigit(f.newPassword) && HasSpecial(f.newPassword)
    ensures 4 <= Utf16Length(f.oldPassword) <= 20
    ensures 4 <= Utf16Length(f.newPassword) <= 20 && f.newPassword != f.oldPassword
    ensures f.confirmPassword == f.newPassword
  {
    AcceptedPasswordHasAllClasses(f.oldPassword);
    AcceptedPasswordHasAllClasses(f.newPassword);
  }

  datatype ChangeOutcome = SignInRequired | UnknownUser | WrongOldPassword | PasswordChanged

  /** `handleChangePassword(values)`. The account updated is the first one
      whose email is the stored "currentUser"; only its password changes. */
  method HandleChangePassword(s: Storage, f: PasswordForm) returns (outcome: ChangeOutcome, s': Storage)
    ensures outcome == SignInRequired <==> !Truthy(s.currentUser) || s.users.None?
    ensures outcome == UnknownUser <==>
      Truthy(s.currentUser) && s.users.Some? && IndexOfEmail(s.users.value, s.currentUser.value).None?
    ensures outcome == WrongOldPassword <==>
      && Truthy(s.currentUser) && s.users.Some?
      && var k := IndexOfEmail(s.users.value, s.currentUser.value);
         k.Some? && s.users.value[k.value].password != Some(f.oldPassword)
    ensures outcome != PasswordChanged ==> s' == s
    ensures outcome == PasswordChanged ==>
      && s.users.Some? && s.currentUser.Some?
      && var k := IndexOfEmail(s.users.value, s.currentUser.value);
         var users := s.users.value;
         && k.Some?
         && s' == s.(users := Some(users[k.value := users[k.value].(password := Some(f.newPassword))]))
  {
    if !Truthy(s.currentUser) || s.users.None? {
      return SignInRequired, s;
    }
    var currentUser := s.currentUser.value;
    var stored := s.users.value;
    var users := new User[|stored|](j requires 0 <= j < |stored| => stored[j]);
    // The position of the first account with the session's email, or -1.
    var userIndex := -1;
    var i := 0;
    while i < users.Length && userIndex == -1
      invariant 0 <= i <= users.Length
      invariant users[..] == stored
      invariant userIndex == -1 ==> forall j :: 0 <= j < i ==> stored[j].email != currentUser
      invariant userIndex != -1 ==> 0 <= userIndex < i && stored[userIndex].email == currentUser &&
                                    forall j :: 0 <= j < userIndex ==> stored[j].email != currentUser
    {
      if users[i].email == currentUser {
        userIndex := i;
      }
      i := i + 1;
    }
    if userIndex == -1 {
      return UnknownUser, s;
    }
    assert IndexOfEmail(stored, currentUser) == Some(userIndex);
    if users[userIndex].password != Some(f.oldPassword) {
      return WrongOldPassword, s;
    }
    // Only that account's password changes, in place.
    users[userIndex] := users[userIndex].(password := Some(f.newPassword));
    s' := s.(users := Some(users[..]));
    outcome := PasswordChanged;
  }

  /** The form's submit. After a successful change the account's stored
      password is the new one, which follows the password rule and differs
      from the old one, and every other account and field is as before. */
  method SubmitChangePassword(s: Storage, f: PasswordForm) returns (outcome: Option<ChangeOutcome>, s': Storage)
    ensures outcome.None? <==> !ChangePasswordSchemaValid(f)
    ensures outcome != Some(PasswordChanged) ==> s' == s
    ensures outcome == Some(PasswordChanged) ==>
      && s.users.Some? && s'.users.Some? && |s'.users.value| == |s.users.value|
      && s'.tasks == s.tasks && s'.currentUser == s.currentUser
      && exists k :: && 0 <= k < |s.users.value|
                     && s.users.value[k].password == Some(f.oldPassword)
                     && s'.users.value[k] == s.users.value[k].(password := Some(f.newPassword))
                     && PasswordRule(f.newPassword) && f.newPassword != f.oldPassword
                     && forall j :: 0 <= j < |s.users.value| && j != k ==> s'.users.value[j] == s.users.value[j]
  {
    if !ChangePasswordSchemaValid(f) {
      return None, s;
    }
    var o;
    o, s' := HandleChangePassword(s, f);
    outcome := Some(o);
  }
}
