/**
 * The `User` entity: an email stored trimmed and lower-cased, a password
 * hash, and two optional names stored trimmed-to-null. The email has no
 * setter; the names and the hash each have one.
 */
module Users {
  import opened Wrappers
  import opened JavaStrings

  datatype User = User(
    id: int,
    email: string,
    passwordHash: string,
    firstName: Option<string>,
    lastName: Option<string>)

  /** `email.trim().toLowerCase()`. */
  function NormalizeEmail(email: string): (r: string)
    ensures IsTrimmed(r) && HasNoUpper(r)
    ensures |r| <= |email|
    ensures EqualsIgnoreCase(r, Trim(email))
  {
    ToLowerKeepsTrimmed(Trim(email));
    ToLowerIdempotent(Trim(email));
    ToLower(Trim(email))
  }

  /** Normalising an email twice is normalising it once. */
  lemma NormalizeEmailIdempotent(email: string)
    ensures NormalizeEmail(NormalizeEmail(email)) == NormalizeEmail(email)
  {
    var r := NormalizeEmail(email);
    TrimmedIsFixedPoint(r);
    assert forall i :: 0 <= i < |r| ==> LowerChar(r[i]) == r[i];
  }

  /** Emails that differ only in padding and ASCII case normalise alike. */
  lemma NormalizeEmailIgnoresPaddingAndCase(a: string, x: string, b: string)
    requires AllTrimChars(a) && AllTrimChars(b)
    ensures NormalizeEmail(a + x + b) == NormalizeEmail(ToLower(x))
  {
    TrimIgnoresPadding(a, x, b);
    TrimOfLower(x);
    ToLowerIdempotent(Trim(x));
  }

  /** Lower-casing commutes with trimming, since no trim character is a letter. */
  lemma TrimOfLower(x: string)
    ensures Trim(ToLower(x)) == ToLower(Trim(x))
  {
    LowerAllTrim(x);
    if !AllTrimChars(x) {
      var t := Trim(x);
      var n := LeadingTrimCount(x);
      var m := n + |t|;
      assert t == x[n..m] && t != [];
      assert !IsTrimChar(x[n]) && !IsTrimChar(x[m - 1]) by {
        assert x[n] == t[0] && x[m - 1] == t[|t| - 1];
      }
      LowerInner(x, n, m);
    }
  }

  /** The trimming of the lower-cased text cuts at the same places. */
  lemma LowerInner(x: string, n: int, m: int)
    requires 0 <= n < m <= |x|
    requires AllTrimChars(x[..n]) && AllTrimChars(x[m..])
    requires !IsTrimChar(x[n]) && !IsTrimChar(x[m - 1])
    ensures Trim(ToLower(x)) == ToLower(x[n..m])
  {
    var lx := ToLower(x);
    LowerSlice(x, 0, n);
    LowerAllTrim(x[0..n]);
    assert x[0..n] == x[..n] && lx[0..n] == lx[..n];
    LowerSlice(x, m, |x|);
    LowerAllTrim(x[m..|x|]);
    assert x[m..|x|] == x[m..] && lx[m..|x|] == lx[m..];
    LowerSlice(x, n, m);
    assert lx[n] == LowerChar(x[n]) && lx[m - 1] == LowerChar(x[m - 1]);
    TrimUnique(lx, n, m);
  }

  lemma LowerSlice(x: string, a: int, b: int)
    requires 0 <= a <= b <= |x|
    ensures ToLower(x)[a..b] == ToLower(x[a..b])
  {
  }

  /** Lower-casing keeps exactly the trim characters. */
  lemma LowerAllTrim(s: string)
    ensures AllTrimChars(ToLower(s)) <==> AllTrimChars(s)
  {
    assert forall i :: 0 <= i < |s| ==> (IsTrimChar(ToLower(s)[i]) <==> IsTrimChar(s[i]));
  }

  /** What the entity stores in every state. */
  predicate WellFormed(u: User) {
    IsTrimmed(u.email) && HasNoUpper(u.email) && IsNormalName(u.firstName) && IsNormalName(u.lastName)
  }

  /** A name as `sanitizeName` leaves it: null, or non-empty and trimmed. */
  predicate IsNormalName(v: Option<string>) {
    v.None? || (v.value != [] && IsTrimmed(v.value))
  }

  /**
   * `User.create`: a null email or hash throws; otherwise the normalised
   * email, the hash as given and the trimmed-to-null names.
   */
  function Create(id: int, email: Option<string>, passwordHash: Option<string>,
                  firstName: Option<string>, lastName: Option<string>): (r: Option<User>)
    ensures r.Some? <==> email.Some? && passwordHash.Some?
    ensures r.Some? ==> WellFormed(r.value)
    ensures r.Some? ==> && r.value.id == id
                        && r.value.email == NormalizeEmail(email.value)
                        && r.value.passwordHash == passwordHash.value
                        && r.value.firstName == TrimToNull(firstName)
                        && r.value.lastName == TrimToNull(lastName)
  {
    if email.None? || passwordHash.None? then None
    else Some(User(id, NormalizeEmail(email.value), passwordHash.value, TrimToNull(firstName), TrimToNull(lastName)))
  }

  /** `updateProfile`: both names are replaced by their trimmed-to-null forms. */
  function UpdateProfile(u: User, firstName: Option<string>, lastName: Option<string>): (v: User)
    ensures v.id == u.id && v.email == u.email && v.passwordHash == u.passwordHash
    ensures v.firstName == TrimToNull(firstName) && v.lastName == TrimToNull(lastName)
    ensures WellFormed(u) ==> WellFormed(v)
  {
    u.(firstName := TrimToNull(firstName), lastName := TrimToNull(lastName))
  }

  /** `changePassword`: a null hash throws; otherwise only the hash changes. */
  function ChangePassword(u: User, newPasswordHash: Option<string>): (r: Option<User>)
    ensures r.Some? <==> newPasswordHash.Some?
    ensures r.Some? ==> r.value.passwordHash == newPasswordHash.value
    ensures r.Some? ==> r.value.id == u.id && r.value.email == u.email
                        && r.value.firstName == u.firstName && r.value.lastName == u.lastName
  {
    if newPasswordHash.None? then None else Some(u.(passwordHash := newPasswordHash.value))
  }

  /** The mutations the entity offers. */
  datatype Mutation = NewNames(firstName: Option<string>, lastName: Option<string>) | NewHash(hash: Option<string>)

  /** Applies mutations in order; a throwing mutation leaves the user as it was. */
  function ApplyAll(u: User, ms: seq<Mutation>): User
    decreases |ms|
  {
    if ms == [] then u
    else
      var next := match ms[0]
        case NewNames(f, l) => UpdateProfile(u, f, l)
        case NewHash(h) => ChangePassword(u, h).GetOr(u);
      ApplyAll(next, ms[1..])
  }

  /**
   * No sequence of mutations changes the id or the email, and every one
   * keeps the stored values in normal form.
   */
  lemma {:induction false} EmailNeverChanges(u: User, ms: seq<Mutation>)
    requires WellFormed(u)
    ensures ApplyAll(u, ms).id == u.id && ApplyAll(u, ms).email == u.email
    ensures WellFormed(ApplyAll(u, ms))
    decreases |ms|
  {
    if ms != [] {
      var next := match ms[0]
        case NewNames(f, l) => UpdateProfile(u, f, l)
        case NewHash(h) => ChangePassword(u, h).GetOr(u);
      EmailNeverChanges(next, ms[1..]);
    }
  }
}
