/**
 * The two page interceptors: one lets only signed-in sessions through, the
 * other only guests. A refused JSON request gets a small JSON body; any
 * other refused request is redirected.
 */
module Interceptors {
  import opened Wrappers
  import opened JavaStrings
  import JwtFilter

  const JsonType: string := "application/json"

  /** `isJsonRequest`: the Accept or Content-Type header mentions JSON. */
  predicate IsJsonRequest(accept: Option<string>, contentType: Option<string>) {
    (accept.Some? && Contains(accept.value, JsonType)) || (contentType.Some? && Contains(contentType.value, JsonType))
  }

  /** What `preHandle` does: let the request through, answer with JSON, or redirect. */
  datatype Decision = Proceed | JsonRefusal(status: int, body: string) | Redirect(location: string)

  /** `message.replace("\"", "\\\"")`: a backslash before every double quote. */
  function EscapeQuotes(s: string): (r: string)
    ensures |r| >= |s|
    ensures r == [] || r[0] != '"'
    decreases |s|
  {
    if s == [] then []
    else if s[0] == '"' then ['\\', '"'] + EscapeQuotes(s[1..])
    else [s[0]] + EscapeQuotes(s[1..])
  }

  /** Reading an escaped text back: a backslash followed by a quote stands for the quote. */
  function UnescapeQuotes(s: string): string
    decreases |s|
  {
    if s == [] then []
    else if |s| >= 2 && s[0] == '\\' && s[1] == '"' then ['"'] + UnescapeQuotes(s[2..])
    else [s[0]] + UnescapeQuotes(s[1..])
  }

  /**
   * Escaping loses nothing: the escaped text reads back as the message, so
   * different messages give different bodies.
   */
  lemma {:induction false} EscapeRoundTrip(s: string)
    ensures UnescapeQuotes(EscapeQuotes(s)) == s
    decreases |s|
  {
    if s != [] {
      var rest := EscapeQuotes(s[1..]);
      EscapeRoundTrip(s[1..]);
      if s[0] == '"' {
        assert (['\\', '"'] + rest)[2..] == rest;
      } else {
        assert ([s[0]] + rest)[1..] == rest;
        if s[0] == '\\' && |rest| >= 1 {
          assert ([s[0]] + rest)[1] == rest[0];
        }
      }
    }
  }

  /** Every quote in the escaped text is preceded by a backslash. */
  lemma {:induction false} EveryQuoteEscaped(s: string, k: int)
    requires 0 <= k < |EscapeQuotes(s)| && EscapeQuotes(s)[k] == '"'
    ensures k > 0 && EscapeQuotes(s)[k - 1] == '\\'
    decreases |s|
  {
    var r := EscapeQuotes(s);
    var rest := EscapeQuotes(s[1..]);
    if s[0] == '"' {
      assert r == ['\\', '"'] + rest;
      if k >= 2 {
        assert r[k] == rest[k - 2];
        EveryQuoteEscaped(s[1..], k - 2);
        assert r[k - 1] == rest[k - 3];
      }
    } else {
      assert r == [s[0]] + rest;
      assert k >= 1;
      assert r[k] == rest[k - 1];
      EveryQuoteEscaped(s[1..], k - 1);
    }
  }

  const BodyStart: string := "{\"message\":\""
  const BodyEnd: string := "\"}"

  /** `respondJson`'s body. */
  function JsonBody(message: string): string {
    BodyStart + EscapeQuotes(message) + BodyEnd
  }

  /** The message can be read back from between the body's fixed start and end. */
  lemma JsonBodyRoundTrip(message: string)
    ensures var b := JsonBody(message);
            |b| >= |BodyStart| + |BodyEnd| && UnescapeQuotes(b[|BodyStart|..|b| - |BodyEnd|]) == message
  {
    var b := JsonBody(message);
    assert b[|BodyStart|..|b| - |BodyEnd|] == EscapeQuotes(message);
    EscapeRoundTrip(message);
  }

  /** The HTTP session, if one exists: whether it holds the user-id attribute. */
  datatype HttpSession = HttpSession(hasUserId: bool)

  const AuthenticationRequired: string := "Authentication required."
  const AlreadyAuthenticated: string := "Already authenticated."

  /**
   * `AuthenticatedInterceptor.preHandle`: through iff a session exists and
   * holds the user id (the session attribute, not the request attribute
   * the JWT filter sets); otherwise 401 with a JSON body, or a redirect to
   * the login page.
   */
  function RequireAuthenticated(session: Option<HttpSession>, accept: Option<string>, contentType: Option<string>)
    : (d: Decision)
    ensures d.Proceed? <==> session.Some? && session.value.hasUserId
    ensures !d.Proceed? && IsJsonRequest(accept, contentType) ==> d == JsonRefusal(401, JsonBody(AuthenticationRequired))
    ensures !d.Proceed? && !IsJsonRequest(accept, contentType) ==> d == Redirect("/login")
  {
    if session.Some? && session.value.hasUserId then Proceed
    else if IsJsonRequest(accept, contentType) then JsonRefusal(401, JsonBody(AuthenticationRequired))
    else Redirect("/login")
  }

  /**
   * `GuestOnlyInterceptor.preHandle`: through iff the request has no user-id
   * attribute; otherwise 409 with a JSON body, or a redirect to the
   * dashboard.
   */
  function RequireGuest(userIdAttribute: Option<int>, accept: Option<string>, contentType: Option<string>)
    : (d: Decision)
    ensures d.Proceed? <==> userIdAttribute.None?
    ensures !d.Proceed? && IsJsonRequest(accept, contentType) ==> d == JsonRefusal(409, JsonBody(AlreadyAuthenticated))
    ensures !d.Proceed? && !IsJsonRequest(accept, contentType) ==> d == Redirect("/dashboard")
  {
    if userIdAttribute.None? then Proceed
    else if IsJsonRequest(accept, contentType) then JsonRefusal(409, JsonBody(AlreadyAuthenticated))
    else Redirect("/dashboard")
  }

  /**
   * The two interceptors read different state: a request signed in by its
   * JWT but without a session holding the user id is turned away by both,
   * sent to the login page by one and to the dashboard by the other.
   */
  lemma TokenWithoutSessionRefusedByBoth(header: Option<string>, cookies: Option<seq<JwtFilter.Cookie>>,
                                         cookieName: string, validate: string -> Option<JwtFilter.Decoded>,
                                         sessions: JwtFilter.Sessions, now: int, session: Option<HttpSession>)
    requires JwtFilter.Filter(header, cookies, cookieName, validate, sessions, now).userId.Some?
    requires session.None? || !session.value.hasUserId
    ensures var attrs := JwtFilter.Filter(header, cookies, cookieName, validate, sessions, now);
            RequireAuthenticated(session, None, None) == Redirect("/login")
            && RequireGuest(attrs.userId, None, None) == Redirect("/dashboard")
  {
  }
}
