/**
 * `JwtAuthenticationFilter`: which token a request carries, and whether it
 * signs the request in. The filter only ever adds request attributes and
 * always passes the request on; signature checking is a parameter.
 */
module JwtFilter {
  import opened Wrappers
  import opened JavaStrings
  import opened AuthSessions

  const BearerPrefix: string := "Bearer "

  datatype Cookie = Cookie(name: string, value: string)

  /** The `Authorization` header's token: everything after "Bearer " (case-sensitive). */
  function BearerToken(header: Option<string>): (r: Option<string>)
    ensures r.Some? <==> header.Some? && StartsWith(header.value, BearerPrefix)
    ensures r.Some? ==> header.value == BearerPrefix + r.value
  {
    if header.Some? && StartsWith(header.value, BearerPrefix) then
      assert header.value == header.value[..7] + header.value[7..];
      Some(header.value[7..])
    else None
  }

  /** The value of the first cookie with the configured name. */
  function CookieToken(cookies: seq<Cookie>, cookieName: string): (r: Option<string>)
    ensures r.None? <==> forall i :: 0 <= i < |cookies| ==> cookies[i].name != cookieName
    ensures r.Some? ==> exists i :: && 0 <= i < |cookies| && cookies[i].name == cookieName
                                    && cookies[i].value == r.value
                                    && forall j :: 0 <= j < i ==> cookies[j].name != cookieName
    decreases |cookies|
  {
    if cookies == [] then None
    else if cookies[0].name == cookieName then Some(cookies[0].value)
    else
      var r := CookieToken(cookies[1..], cookieName);
      assert forall i :: 1 <= i < |cookies| ==> cookies[i] == cookies[1..][i - 1];
      if r.Some? then
        var i :| && 0 <= i < |cookies[1..]| && cookies[1..][i].name == cookieName
                 && cookies[1..][i].value == r.value
                 && forall j :: 0 <= j < i ==> cookies[1..][j].name != cookieName;
        assert cookies[i + 1] == cookies[1..][i];
        r
      else r
  }

  /** The token the filter uses: the Bearer header's, else the cookie's (when there are cookies). */
  function SelectToken(header: Option<string>, cookies: Option<seq<Cookie>>, cookieName: string): (r: Option<string>)
    ensures BearerToken(header).Some? ==> r == BearerToken(header)
    ensures BearerToken(header).None? && cookies.None? ==> r.None?
    ensures BearerToken(header).None? && cookies.Some? ==> r == CookieToken(cookies.value, cookieName)
  {
    if BearerToken(header).Some? then BearerToken(header)
    else if cookies.None? then None
    else CookieToken(cookies.value, cookieName)
  }

  /** What reading the token's id claim gives: a value (possibly null) or an exception. */
  datatype JtiClaim = JtiValue(jti: Option<string>) | JtiUnreadable

  /** The claims of a token that passed signature and expiry checks. */
  datatype Decoded = Decoded(uid: Option<int>, jti: JtiClaim)

  /** `safeJti`: the id claim, with null, blank and unreadable all taken as absent. */
  function SafeJti(d: Decoded): (r: Option<string>)
    ensures r.Some? <==> d.jti.JtiValue? && d.jti.jti.Some? && !IsBlank(d.jti.jti.value)
    ensures r.Some? ==> r.value == d.jti.jti.value
  {
    match d.jti
    case JtiUnreadable => None
    case JtiValue(v) => if v.None? || IsBlank(v.value) then None else v
  }

  /** The sessions table, by id. */
  type Sessions = map<string, AuthSession>

  /** The two request attributes the filter may set. */
  datatype Attributes = Attributes(userId: Option<int>, sessionId: Option<string>)

  /** The checks the filter applies to a decoded token. */
  predicate Accepts(d: Decoded, sessions: Sessions, now: Time) {
    && d.uid.Some? && SafeJti(d).Some?
    && SafeJti(d).value in sessions
    && sessions[SafeJti(d).value].userId == d.uid.value
    && IsActive(sessions[SafeJti(d).value], now)
  }

  /**
   * `doFilterInternal`: the user-id attribute is set exactly when the token
   * validates, carries a uid and a usable jti, and the jti names an active
   * session of that same user; the session id is set alongside it.
   */
  function Filter(header: Option<string>, cookies: Option<seq<Cookie>>, cookieName: string,
                  validate: string -> Option<Decoded>, sessions: Sessions, now: Time): (a: Attributes)
    ensures a.userId.Some? <==>
              var t := SelectToken(header, cookies, cookieName);
              t.Some? && validate(t.value).Some? && Accepts(validate(t.value).value, sessions, now)
    ensures a.userId.Some? ==>
              var d := validate(SelectToken(header, cookies, cookieName).value).value;
              a.userId == d.uid && a.sessionId == SafeJti(d)
              && sessions[a.sessionId.value].userId == a.userId.value
    ensures a.userId.None? ==> a.sessionId.None?
  {
    match SelectToken(header, cookies, cookieName)
    case None => Attributes(None, None)
    case Some(token) =>
      match validate(token)
      case None => Attributes(None, None)
      case Some(d) =>
        if Accepts(d, sessions, now) then Attributes(d.uid, SafeJti(d)) else Attributes(None, None)
  }

  /**
   * A Bearer header decides the token: when its token does not validate,
   * the request stays anonymous even if the cookie holds a good token.
   */
  lemma InvalidBearerDoesNotFallBack(header: string, cookies: Option<seq<Cookie>>, cookieName: string,
                                     validate: string -> Option<Decoded>, sessions: Sessions, now: Time)
    requires StartsWith(header, BearerPrefix)
    requires validate(header[7..]).None?
    ensures Filter(Some(header), cookies, cookieName, validate, sessions, now) == Attributes(None, None)
  {
  }

  /** A revoked session signs nothing in, whatever token names it. */
  lemma RevokedSessionRejected(header: Option<string>, cookies: Option<seq<Cookie>>, cookieName: string,
                               validate: string -> Option<Decoded>, sessions: Sessions, now: Time, jti: string)
    requires jti in sessions && sessions[jti].revokedAt.Some?
    requires var t := SelectToken(header, cookies, cookieName);
             t.Some? && validate(t.value).Some? && SafeJti(validate(t.value).value) == Some(jti)
    ensures Filter(header, cookies, cookieName, validate, sessions, now).userId.None?
  {
  }

  /**
   * Revoking the session a request signed in with signs it out, whatever
   * time the revocation records.
   */
  lemma RevocationSignsOut(header: Option<string>, cookies: Option<seq<Cookie>>, cookieName: string,
                           validate: string -> Option<Decoded>, sessions: Sessions, now: Time,
                           when: Option<Time>, clock: Time)
    requires Filter(header, cookies, cookieName, validate, sessions, now).userId.Some?
    ensures var jti := Filter(header, cookies, cookieName, validate, sessions, now).sessionId.value;
            var revoked := sessions[jti := Revoke(sessions[jti], when, clock)];
            Filter(header, cookies, cookieName, validate, revoked, now) == Attributes(None, None)
  {
    var a := Filter(header, cookies, cookieName, validate, sessions, now);
    var jti := a.sessionId.value;
    var revoked := sessions[jti := Revoke(sessions[jti], when, clock)];
    RevokedNeverActive(sessions[jti], when, clock, now);
    assert !IsActive(revoked[jti], now);
  }
}
