/**
 * `AuthSession`: the server-side record behind a JWT, keyed by the token's
 * `jti`. Times are instants on one integer clock; `revoke` reads the clock
 * only when given no time.
 */
module AuthSessions {
  import opened Wrappers

  type Time = int

  datatype AuthSession = AuthSession(id: string, userId: int, expiresAt: Time, revokedAt: Option<Time>)

  /** `AuthSession.create`: every argument is required; the session starts unrevoked. */
  function Create(id: Option<string>, userId: Option<int>, expiresAt: Option<Time>): (r: Option<AuthSession>)
    ensures r.Some? <==> id.Some? && userId.Some? && expiresAt.Some?
    ensures r.Some? ==> && r.value.id == id.value && r.value.userId == userId.value
                        && r.value.expiresAt == expiresAt.value && r.value.revokedAt.None?
  {
    if id.None? || userId.None? || expiresAt.None? then None
    else Some(AuthSession(id.value, userId.value, expiresAt.value, None))
  }

  /** `isActive(now)`: not revoked, and `now` strictly before the expiry. */
  predicate IsActive(s: AuthSession, now: Time) {
    s.revokedAt.None? && now < s.expiresAt
  }

  /**
   * `revoke(when)`: records `when`, or the clock's reading when `when` is
   * null, replacing any earlier revocation.
   */
  function Revoke(s: AuthSession, when: Option<Time>, clock: Time): (r: AuthSession)
    ensures r.id == s.id && r.userId == s.userId && r.expiresAt == s.expiresAt
    ensures r.revokedAt == Some(if when.Some? then when.value else clock)
  {
    s.(revokedAt := Some(when.GetOr(clock)))
  }

  /** A new session is active exactly before its expiry; at the expiry instant it is not. */
  lemma NewSessionActiveUntilExpiry(id: string, userId: int, expiresAt: Time, now: Time)
    ensures var s := Create(Some(id), Some(userId), Some(expiresAt)).value;
            IsActive(s, now) <==> now < expiresAt
    ensures !IsActive(Create(Some(id), Some(userId), Some(expiresAt)).value, expiresAt)
  {
  }

  /** Once revoked, a session is never active again, whenever it is asked. */
  lemma RevokedNeverActive(s: AuthSession, when: Option<Time>, clock: Time, now: Time)
    ensures !IsActive(Revoke(s, when, clock), now)
  {
  }

  /** Activity only ends: a session active at some instant was active at every earlier one. */
  lemma ActiveIsAPrefix(s: AuthSession, earlier: Time, later: Time)
    requires earlier <= later && IsActive(s, later)
    ensures IsActive(s, earlier)
  {
  }

  /** Revoking twice keeps only the second time. */
  lemma RevokeOverwrites(s: AuthSession, first: Option<Time>, second: Option<Time>, clock1: Time, clock2: Time)
    ensures Revoke(Revoke(s, first, clock1), second, clock2) == Revoke(s, second, clock2)
  {
  }
}
