/** The profile editor: its field rules, `loadUser` (the first stored account
    whose email is the stored "currentUser" becomes the form's initial
    user) and `updateUser` (every account with the loaded user's email is
    replaced by the submitted values, then "currentUser" becomes the
    submitted email). */
module UserPanelScreen {
  import opened Common
  import opened FieldRules
  import opened AppStorage
  import opened Accounts
  import Auth

  /** A name: only letters, white space and dots, not empty, and 2 to 30
      code units long. */
  predicate NameRule(name: string)
  {
    && (forall i :: 0 <= i < |name| ==> IsLetter(name[i]) || IsJsSpace(name[i]) || name[i] == '.')
    && Required(name) && LengthWithin(name, 2, 30)
  }

  /** A mobile number: exactly ten digits, the first of them 6 to 9. */
  predicate MobileRule(mobile: string)
  {
    |mobile| == 10 && '6' <= mobile[0] <= '9' && AllDigits(mobile)
  }

  /** A country code: a plus sign followed by one to four digits. */
  predicate CountryCodeRule(code: string)
  {
    2 <= |code| <= 5 && code[0] == '+' && AllDigits(code[1..])
  }

  /** An address: at least five code units long. */
  predicate AddressRule(address: string)
  {
    Utf16Length(address) >= 5
  }

  /** A date of birth: two digits, a slash, two digits, a slash and four
      digits, and nothing else. */
  predicate DobFormat(dob: string)
  {
    && |dob| == 10 && dob[2] == '/' && dob[5] == '/'
    && AllDigits(dob[..2]) && AllDigits(dob[3..5]) && AllDigits(dob[6..])
  }

  predicate Present(field: Option<string>, rule: string -> bool)
  {
    field.Some? && Required(field.value) && rule(field.value)
  }

  /** `ProfileSchema` on the form's values (every field required). */
  predicate ProfileSchemaValid(v: User, isEmail: string -> bool)
  {
    && Present(v.name, NameRule)
    && Present(v.mobile, MobileRule)
    && Present(v.countryCode, CountryCodeRule)
    && Present(v.address, AddressRule)
    && Present(v.dob, DobFormat)
    && EmailRule(v.email, isEmail)
  }

  /** Field by field, what the schema accepts: a mobile number is ten digits
      starting with 6 to 9, a country code is '+' and one to four digits, a
      name has 1 to 30 characters made of letters, spaces or dots (2 to 30
      code units), an address has at least 5 code units and an email 1 to
      50 characters. */
  lemma ProfileSchemaMeaning(v: User, isEmail: string -> bool)
    requires ProfileSchemaValid(v, isEmail)
    ensures var m := v.mobile.value; |m| == 10 && m[0] in "6789" && forall i :: 1 <= i < 10 ==> IsDigit(m[i])
    ensures var c := v.countryCode.value; c[0] == '+' && 1 <= |c| - 1 <= 4 && AllDigits(c[1..])
    ensures var n := v.name.value; 1 <= |n| <= 30 && 2 <= Utf16Length(n) <= 30
    ensures var n := v.name.value; forall i :: 0 <= i < |n| ==> IsLetter(n[i]) || IsJsSpace(n[i]) || n[i] == '.'
    ensures 5 <= Utf16Length(v.address.value) && 3 <= |v.address.value|
    ensures 1 <= |v.email| <= 50
  {
    var n := v.name.value;
    assert NameRule(n);
    var m := v.mobile.value;
    assert MobileRule(m);
  }

  /** A name's characters are all in the Basic Multilingual Plane, so its
      JavaScript length is its number of characters. */
  lemma NameLengthIsCharacterCount(name: string)
    requires NameRule(name)
    ensures 2 <= |name| <= 30
  {
    Utf16LengthInBmp(name);
  }

  /** `loadUser`: with both keys present and truthy, the first account with
      the session's email becomes the form's user; with no such account, or
      without both keys, the form keeps the user it had. */
  function LoadUser(s: Storage, initialUser: User): (u: User)
    ensures !Truthy(s.currentUser) || s.users.None? ==> u == initialUser
    ensures Truthy(s.currentUser) && s.users.Some? && u != initialUser ==>
      exists i :: 0 <= i < |s.users.value| && u == s.users.value[i] && u.email == s.currentUser.value
    ensures (Truthy(s.currentUser) && s.users.Some? &&
             forall i :: 0 <= i < |s.users.value| ==> s.users.value[i].email != s.currentUser.value) ==>
      u == initialUser
    ensures Truthy(s.currentUser) && s.users.Some? ==>
      var k := IndexOfEmail(s.users.value, s.currentUser.value);
      && (k.Some? ==> u == s.users.value[k.value])
      && (k.None? ==> u == initialUser)
    ensures Truthy(s.currentUser) && s.users.Some? && UniqueEmails(s.users.value) ==>
      forall i :: 0 <= i < |s.users.value| && s.users.value[i].email == s.currentUser.value ==> u == s.users.value[i]
  {
    if !Truthy(s.currentUser) || s.users.None? then initialUser
    else match IndexOfEmail(s.users.value, s.currentUser.value)
      case Some(i) => s.users.value[i]
      case None => initialUser
  }

  /** The map in `updateUser`: every account with the given email is
      replaced whole by the submitted values; the others stay. */
  function ReplaceByEmail(users: seq<User>, email: string, values: User): (r: seq<User>)
    ensures |r| == |users|
    ensures forall i :: 0 <= i < |users| ==> r[i] == (if users[i].email == email then values else users[i])
  {
    if users == [] then []
    else [if users[0].email == email then values else users[0]] + ReplaceByEmail(users[1..], email, values)
  }

  /** `updateUser(updatedValues)`: the new storage and the form's new initial
      user. Without a stored "users" value nothing changes. */
  function UpdateUser(s: Storage, initialUser: User, values: User): (r: (Storage, User))
    ensures s.users.None? ==> r == (s, initialUser)
    ensures s.users.Some? ==>
      && r.0.users.Some? && |r.0.users.value| == |s.users.value|
      && (forall i :: 0 <= i < |s.users.value| && s.users.value[i].email == initialUser.email ==>
            r.0.users.value[i] == values)
      && (forall i :: 0 <= i < |s.users.value| && s.users.value[i].email != initialUser.email ==>
            r.0.users.value[i] == s.users.value[i])
      && r.0.currentUser == Some(values.email)
      && r.0.tasks == s.tasks
      && r.1 == values
  {
    if s.users.None? then (s, initialUser)
    else
      var updatedList := ReplaceByEmail(s.users.value, initialUser.email, values);
      (s.(users := Some(updatedList), currentUser := Some(values.email)), values)
  }

  /** The form's submit; `None` means the schema refused the values. */
  function SubmitProfile(s: Storage, initialUser: User, values: User, isEmail: string -> bool): (r: Option<(Storage, User)>)
    ensures r.None? <==> !ProfileSchemaValid(values, isEmail)
    ensures r.Some? ==> r.value == UpdateUser(s, initialUser, values)
  {
    if ProfileSchemaValid(values, isEmail) then Some(UpdateUser(s, initialUser, values)) else None
  }

  /** Saving a profile and reloading the panel gives back the saved values,
      when the loaded user's record exists and no other record already
      carries the submitted email. */
  lemma ReloadAfterUpdate(s: Storage, initialUser: User, values: User)
    requires s.users.Some? && values.email != ""
    requires exists i :: 0 <= i < |s.users.value| && s.users.value[i].email == initialUser.email
    requires forall i :: 0 <= i < |s.users.value| && s.users.value[i].email != initialUser.email ==>
      s.users.value[i].email != values.email
    ensures var (s', u') := UpdateUser(s, initialUser, values); LoadUser(s', u') == values
  {
    var (s', u') := UpdateUser(s, initialUser, values);
    var i :| 0 <= i < |s.users.value| && s.users.value[i].email == initialUser.email;
    assert s'.users.value[i] == values;
    var k := IndexOfEmail(s'.users.value, values.email);
    assert k.Some?;
  }

  /** After a logout the profile panel finds no session, so `loadUser`
      leaves the form's user as it was. */
  lemma PanelAfterLogoutKeepsUser(s: Storage, st: Auth.AuthState, u: User)
    ensures LoadUser(Auth.ConfirmLogout(s, st).0, u) == u
  {
  }
}
