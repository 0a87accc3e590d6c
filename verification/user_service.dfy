/**
 * `UserServiceImpl`: registration and sign-in against the users table, with
 * the password encoder as a pair of functions.
 */
module UserService {
  import opened Wrappers
  import opened JavaStrings
  import opened Users

  /** The users table in id order. */
  type UserTable = seq<User>

  /** `PasswordEncoder`: `encode` and `matches(raw, hash)`. */
  datatype Encoder = Encoder(encode: string -> string, matches: (string, string) -> bool)

  /** An encoder whose hashes verify exactly the password they were made from. */
  ghost predicate Faithful(e: Encoder) {
    forall raw, other :: e.matches(other, e.encode(raw)) <==> other == raw
  }

  /** `existsByEmailIgnoreCase`. */
  predicate EmailTaken(users: UserTable, email: string) {
    exists i :: 0 <= i < |users| && EqualsIgnoreCase(users[i].email, email)
  }

  /** `findByEmailIgnoreCase`: the first user whose email matches ignoring case. */
  function FindByEmail(users: UserTable, email: string): (r: Option<nat>)
    ensures r.None? <==> !EmailTaken(users, email)
    ensures r.Some? ==> r.value < |users| && EqualsIgnoreCase(users[r.value].email, email)
    ensures r.Some? ==> forall j :: 0 <= j < r.value ==> !EqualsIgnoreCase(users[j].email, email)
    decreases |users|
  {
    if users == [] then None
    else if EqualsIgnoreCase(users[0].email, email) then Some(0)
    else
      match FindByEmail(users[1..], email)
      case None =>
        assert forall i :: 1 <= i < |users| ==> users[i] == users[1..][i - 1];
        None
      case Some(k) =>
        assert forall j :: 1 <= j < k + 1 ==> users[j] == users[1..][j - 1];
        Some(k + 1)
  }

  datatype RegisterRequest = RegisterRequest(email: string, password: string,
                                             firstName: Option<string>, lastName: Option<string>)

  const EmailInUse: string := "Email is already registered."
  const InvalidCredentials: string := "Invalid email or password."

  /** A sign-up or sign-in that fails, with the exception's message. */
  datatype AccountError = EmailAlreadyInUse(message: string) | BadCredentials(message: string)

  /**
   * `register`: the normalised email must not be taken (ignoring case);
   * the new user gets the next id, the encoded password and sanitised
   * names, and is appended to the table.
   */
  function Register(users: UserTable, request: RegisterRequest, newId: int, e: Encoder)
    : (r: Result<(User, UserTable), AccountError>)
    ensures EmailTaken(users, NormalizeEmail(request.email)) <==> r == Err(EmailAlreadyInUse(EmailInUse))
    ensures r.Ok? ==> var u := r.value.0;
              && r.value.1 == users + [u]
              && u == User(newId, NormalizeEmail(request.email), e.encode(request.password),
                           TrimToNull(request.firstName), TrimToNull(request.lastName))
              && WellFormed(u)
  {
    var email := NormalizeEmail(request.email);
    if EmailTaken(users, email) then Err(EmailAlreadyInUse(EmailInUse))
    else
      var u := Create(newId, Some(email), Some(e.encode(request.password)), request.firstName, request.lastName).value;
      NormalizeEmailIdempotent(request.email);
      Ok((u, users + [u]))
  }

  /**
   * `authenticate`: the user found by normalised email, provided the
   * password matches its hash; an unknown email and a wrong password fail
   * with the same error.
   */
  function Authenticate(users: UserTable, email: string, password: string, e: Encoder)
    : (r: Result<User, AccountError>)
    ensures r.Err? ==> r.error == BadCredentials(InvalidCredentials)
    ensures r.Ok? <==> var i := FindByEmail(users, NormalizeEmail(email));
                       i.Some? && e.matches(password, users[i.value].passwordHash)
    ensures r.Ok? ==> r.value in users && EqualsIgnoreCase(r.value.email, NormalizeEmail(email))
  {
    match FindByEmail(users, NormalizeEmail(email))
    case None => Err(BadCredentials(InvalidCredentials))
    case Some(i) =>
      if e.matches(password, users[i].passwordHash) then Ok(users[i]) else Err(BadCredentials(InvalidCredentials))
  }

  /**
   * With an encoder that verifies its own hashes, a new account can sign in
   * with its password under any spelling of its email that differs only in
   * padding and ASCII case, and gets itself back.
   */
  lemma RegisterThenAuthenticate(users: UserTable, request: RegisterRequest, newId: int, e: Encoder, typed: string)
    requires Faithful(e)
    requires NormalizeEmail(typed) == NormalizeEmail(request.email)
    requires Register(users, request, newId, e).Ok?
    ensures var after := Register(users, request, newId, e).value;
            Authenticate(after.1, typed, request.password, e) == Ok(after.0)
  {
    var after := Register(users, request, newId, e).value;
    NormalizeEmailIdempotent(request.email);
    AppendedUserFound(users, after.0, NormalizeEmail(request.email));
    assert e.matches(request.password, e.encode(request.password));
  }

  /** A user appended under an email nobody had is what the lookup finds. */
  lemma AppendedUserFound(users: UserTable, u: User, email: string)
    requires !EmailTaken(users, email) && EqualsIgnoreCase(u.email, email)
    ensures FindByEmail(users + [u], email) == Some(|users|)
  {
    var table := users + [u];
    assert table[|users|] == u;
    var i := FindByEmail(table, email);
    if i.Some? && i.value < |users| {
      assert false;
    }
  }

  /** Registering the same email twice, in any spelling, fails the second time. */
  lemma SecondRegistrationRefused(users: UserTable, first: RegisterRequest, second: RegisterRequest,
                                  id1: int, id2: int, e: Encoder)
    requires NormalizeEmail(second.email) == NormalizeEmail(first.email)
    requires Register(users, first, id1, e).Ok?
    ensures Register(Register(users, first, id1, e).value.1, second, id2, e) == Err(EmailAlreadyInUse(EmailInUse))
  {
    var table := Register(users, first, id1, e).value.1;
    NormalizeEmailIdempotent(first.email);
    assert table[|users|].email == NormalizeEmail(first.email);
    assert EmailTaken(table, NormalizeEmail(second.email));
  }

  /**
   * Every table built by registration alone holds normalised emails that
   * are pairwise distinct ignoring case.
   */
  predicate DistinctEmails(users: UserTable) {
    forall i, j :: 0 <= i < j < |users| ==> !EqualsIgnoreCase(users[i].email, users[j].email)
  }

  lemma RegisterKeepsEmailsDistinct(users: UserTable, request: RegisterRequest, newId: int, e: Encoder)
    requires DistinctEmails(users)
    requires Register(users, request, newId, e).Ok?
    ensures DistinctEmails(Register(users, request, newId, e).value.1)
  {
    var after := Register(users, request, newId, e).value;
    var table := after.1;
    var u := after.0;
    NormalizeEmailIdempotent(request.email);
    forall i, j | 0 <= i < j < |table|
      ensures !EqualsIgnoreCase(table[i].email, table[j].email)
    {
      assert table[i] == users[i];
      if j < |users| {
        assert table[j] == users[j];
      }
    }
  }
}
