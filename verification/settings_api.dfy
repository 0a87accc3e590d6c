/**
 * `SettingsApiController`: changing the signed-in user's names and
 * password. Each endpoint checks its request, then the caller, then its
 * own rules, and writes the user back only when every check passes.
 */
module SettingsApi {
  import opened Wrappers
  import opened JavaStrings
  import opened Users
  import opened UserService

  /** `findById` on the users table. */
  function FindById(users: UserTable, id: int): (r: Option<nat>)
    ensures r.Some? ==> r.value < |users| && users[r.value].id == id
    ensures r.None? ==> forall j :: 0 <= j < |users| ==> users[j].id != id
    decreases |users|
  {
    if users == [] then None
    else if users[0].id == id then Some(0)
    else
      match FindById(users[1..], id)
      case None =>
        assert forall j :: 1 <= j < |users| ==> users[j] == users[1..][j - 1];
        None
      case Some(k) => Some(k + 1)
  }

  /** `getAuthenticatedUser`: the user-id request attribute, if it is a Long, looked up by id. */
  function AuthenticatedUser(users: UserTable, uid: Option<int>): Option<nat>
    ensures AuthenticatedUser(users, uid).Some? ==> AuthenticatedUser(users, uid).value < |users|
  {
    if uid.None? then None else FindById(users, uid.value)
  }

  datatype NamesRequest = NamesRequest(firstName: Option<string>, lastName: Option<string>)
  datatype PasswordRequest = PasswordRequest(currentPassword: Option<string>, newPassword: Option<string>)

  datatype SettingsResponse =
    | BadRequest(message: string)
    | Unauthorized(message: string)
    | ProfileSaved(firstName: Option<string>, lastName: Option<string>, email: string)
    | PasswordSaved(message: string)

  const NameLimit: nat := 80
  const PasswordMinimum: nat := 8

  const ProfileRequired: string := "Profile data is required."
  const AuthenticationRequired: string := "Authentication required."
  const NamesTooLong: string := "Name fields must be at most 80 characters."
  const PasswordsRequired: string := "Current and new passwords are required."
  const WrongCurrentPassword: string := "Current password is incorrect."
  const PasswordTooShort: string := "New password must be at least 8 characters."
  const PasswordUpdated: string := "Password updated."

  /** This controller's `isBlank`: null, or nothing left after `trim()`. */
  predicate TrimsToNothing(v: Option<string>) {
    v.None? || Trim(v.value) == []
  }

  /** `exceedsLength`: a non-null value longer than `max`. */
  predicate ExceedsLength(v: Option<string>, max: nat) {
    v.Some? && |v.value| > max
  }

  /**
   * `updateProfile`: 400 for a null body, 401 without a signed-in user, 400
   * when a name is longer than 80 characters once trimmed; otherwise the
   * user's names become the trimmed-to-null request values.
   */
  function UpdateProfile(users: UserTable, uid: Option<int>, request: Option<NamesRequest>)
    : (r: (SettingsResponse, UserTable))
    ensures request.None? ==> r == (BadRequest(ProfileRequired), users)
    ensures request.Some? && AuthenticatedUser(users, uid).None? ==> r == (Unauthorized(AuthenticationRequired), users)
    ensures request.Some? && AuthenticatedUser(users, uid).Some? ==>
              var first := TrimToNull(request.value.firstName);
              var last := TrimToNull(request.value.lastName);
              var i := AuthenticatedUser(users, uid).value;
              && (ExceedsLength(first, NameLimit) || ExceedsLength(last, NameLimit) ==> r == (BadRequest(NamesTooLong), users))
              && (!ExceedsLength(first, NameLimit) && !ExceedsLength(last, NameLimit) ==>
                    && |r.1| == |users|
                    && (forall j :: 0 <= j < |users| && j != i ==> r.1[j] == users[j])
                    && r.1[i] == users[i].(firstName := first, lastName := last)
                    && r.0 == ProfileSaved(first, last, users[i].email))
  {
    if request.None? then (BadRequest(ProfileRequired), users)
    else match AuthenticatedUser(users, uid)
      case None => (Unauthorized(AuthenticationRequired), users)
      case Some(i) =>
        var first := TrimToNull(request.value.firstName);
        var last := TrimToNull(request.value.lastName);
        if ExceedsLength(first, NameLimit) || ExceedsLength(last, NameLimit) then (BadRequest(NamesTooLong), users)
        else
          var updated := Users.UpdateProfile(users[i], first, last);
          TrimToNullIdempotent(request.value.firstName);
          TrimToNullIdempotent(request.value.lastName);
          (ProfileSaved(updated.firstName, updated.lastName, updated.email), users[i := updated])
  }

  /**
   * The length limit applies to the trimmed name, so padding never makes
   * a name too long, and the stored name is the one `User.updateProfile`
   * would store from the raw request.
   */
  lemma PaddingDoesNotCount(users: UserTable, userId: int, a: string, x: string, b: string, last: Option<string>)
    requires AuthenticatedUser(users, Some(userId)).Some?
    requires AllTrimChars(a) && AllTrimChars(b) && IsTrimmed(x) && 0 < |x| <= NameLimit
    requires !ExceedsLength(TrimToNull(last), NameLimit)
    ensures var r := UpdateProfile(users, Some(userId), Some(NamesRequest(Some(a + x + b), last)));
            var i := AuthenticatedUser(users, Some(userId)).value;
            r.0.ProfileSaved? && r.1[i] == Users.UpdateProfile(users[i], Some(a + x + b), last) && r.1[i].firstName == Some(x)
  {
    TrimIgnoresPadding(a, x, b);
    TrimmedIsFixedPoint(x);
    TrimToNullIdempotent(Some(a + x + b));
    TrimToNullIdempotent(last);
  }

  /**
   * `updatePassword`: 400 unless both passwords are present and not blank
   * once trimmed, 401 without a signed-in user, 400 when the current
   * password does not match the stored hash, 400 when the trimmed new
   * password is shorter than 8; otherwise the hash becomes the encoding of
   * the trimmed new password.
   */
  function UpdatePassword(users: UserTable, uid: Option<int>, request: Option<PasswordRequest>, e: Encoder)
    : (r: (SettingsResponse, UserTable))
    ensures (request.None? || TrimsToNothing(request.value.currentPassword) || TrimsToNothing(request.value.newPassword))
              ==> r == (BadRequest(PasswordsRequired), users)
    ensures r.1 != users ==> r.0 == PasswordSaved(PasswordUpdated)
    ensures (request.Some? && !TrimsToNothing(request.value.currentPassword) && !TrimsToNothing(request.value.newPassword))
              ==> var p := request.value;
                  match AuthenticatedUser(users, uid)
                  case None => r == (Unauthorized(AuthenticationRequired), users)
                  case Some(i) =>
                    if !e.matches(p.currentPassword.value, users[i].passwordHash) then r == (BadRequest(WrongCurrentPassword), users)
                    else if |Trim(p.newPassword.value)| < PasswordMinimum then r == (BadRequest(PasswordTooShort), users)
                    else r.0 == PasswordSaved(PasswordUpdated)
    ensures r.0 == PasswordSaved(PasswordUpdated) ==>
              && request.Some? && AuthenticatedUser(users, uid).Some?
              && var i := AuthenticatedUser(users, uid).value;
                 var p := request.value;
                 && p.currentPassword.Some? && p.newPassword.Some?
                 && e.matches(p.currentPassword.value, users[i].passwordHash)
                 && |Trim(p.newPassword.value)| >= PasswordMinimum
                 && r.1 == users[i := users[i].(passwordHash := e.encode(Trim(p.newPassword.value)))]
  {
    if request.None? || TrimsToNothing(request.value.currentPassword) || TrimsToNothing(request.value.newPassword) then
      (BadRequest(PasswordsRequired), users)
    else match AuthenticatedUser(users, uid)
      case None => (Unauthorized(AuthenticationRequired), users)
      case Some(i) =>
        var p := request.value;
        if !e.matches(p.currentPassword.value, users[i].passwordHash) then (BadRequest(WrongCurrentPassword), users)
        else
          var newPassword := Trim(p.newPassword.value);
          if |newPassword| < PasswordMinimum then (BadRequest(PasswordTooShort), users)
          else
            var changed := ChangePassword(users[i], Some(e.encode(newPassword))).value;
            (PasswordSaved(PasswordUpdated), users[i := changed])
  }

  /** A wrong current password is reported whatever the new password is. */
  lemma WrongPasswordCheckedFirst(users: UserTable, userId: int, current: string, newPassword: string, e: Encoder)
    requires AuthenticatedUser(users, Some(userId)).Some?
    requires !TrimsToNothing(Some(current)) && !TrimsToNothing(Some(newPassword))
    requires !e.matches(current, users[AuthenticatedUser(users, Some(userId)).value].passwordHash)
    ensures UpdatePassword(users, Some(userId), Some(PasswordRequest(Some(current), Some(newPassword))), e)
            == (BadRequest(WrongCurrentPassword), users)
  {
  }

  /**
   * The new hash is made from the trimmed password: with an encoder that
   * verifies exactly its own hashes, the password as typed no longer
   * matches when it had padding, while registration encodes the password
   * as typed.
   */
  lemma TypedPaddingIsLost(users: UserTable, uid: Option<int>, current: string, newPassword: string, e: Encoder)
    requires Faithful(e)
    requires Trim(newPassword) != newPassword
    requires UpdatePassword(users, uid, Some(PasswordRequest(Some(current), Some(newPassword))), e).0
             == PasswordSaved(PasswordUpdated)
    ensures var after := UpdatePassword(users, uid, Some(PasswordRequest(Some(current), Some(newPassword))), e).1;
            var i := AuthenticatedUser(users, uid).value;
            !e.matches(newPassword, after[i].passwordHash) && e.matches(Trim(newPassword), after[i].passwordHash)
  {
    var after := UpdatePassword(users, uid, Some(PasswordRequest(Some(current), Some(newPassword))), e).1;
    var i := AuthenticatedUser(users, uid).value;
    assert after[i].passwordHash == e.encode(Trim(newPassword));
    assert e.matches(newPassword, e.encode(Trim(newPassword))) <==> newPassword == Trim(newPassword);
    assert e.matches(Trim(newPassword), e.encode(Trim(newPassword)));
  }

  /** A stored email is its own normal form. */
  lemma StoredEmailNormal(u: User)
    requires WellFormed(u)
    ensures NormalizeEmail(u.email) == u.email
  {
    TrimmedIsFixedPoint(u.email);
    assert forall k :: 0 <= k < |u.email| ==> LowerChar(u.email[k]) == u.email[k];
  }

  /**
   * After a password change the user signs in with the stored email and the
   * trimmed new password, provided emails are unique ignoring case.
   */
  lemma ChangedPasswordSignsIn(users: UserTable, uid: Option<int>, current: string, newPassword: string, e: Encoder)
    requires Faithful(e) && DistinctEmails(users)
    requires forall j :: 0 <= j < |users| ==> WellFormed(users[j])
    requires UpdatePassword(users, uid, Some(PasswordRequest(Some(current), Some(newPassword))), e).0
             == PasswordSaved(PasswordUpdated)
    ensures var after := UpdatePassword(users, uid, Some(PasswordRequest(Some(current), Some(newPassword))), e).1;
            var i := AuthenticatedUser(users, uid).value;
            Authenticate(after, users[i].email, Trim(newPassword), e) == Ok(after[i])
  {
    var after := UpdatePassword(users, uid, Some(PasswordRequest(Some(current), Some(newPassword))), e).1;
    var i := AuthenticatedUser(users, uid).value;
    StoredEmailNormal(users[i]);
    var email := users[i].email;
    assert after[i].email == email;
    var k := FindByEmail(after, email);
    assert k == Some(i) by {
      assert EmailTaken(after, email) by {
        assert EqualsIgnoreCase(after[i].email, email);
      }
      if k.value != i {
        assert false;
      }
    }
    assert e.matches(Trim(newPassword), e.encode(Trim(newPassword)));
  }
}
