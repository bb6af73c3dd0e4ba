/** The changes the authentication and user services make to one account
    record: the ban toggle, the login session, logout, session expiry,
    profile edits, and the records that registration and the default
    administrator create. */
module Accounts {
  import opened Wrappers
  import opened Entities

  /** A session older than this many seconds (one hour) has expired. */
  const SessionLifetime: int := 3600

  /** The account after `toggleUserStatus`: `enabled` negated, and a ban
      also ends the session; nothing else changes. */
  function Toggled(u: User): (t: User)
    ensures t.enabled == !u.enabled
    ensures !t.enabled ==> t.activeSessionId.None? && t.sessionCreatedAt.None?
    ensures t.enabled ==> t.activeSessionId == u.activeSessionId && t.sessionCreatedAt == u.sessionCreatedAt
    ensures t.(enabled := u.enabled, activeSessionId := u.activeSessionId, sessionCreatedAt := u.sessionCreatedAt) == u
  {
    if u.enabled then u.(enabled := false, activeSessionId := None, sessionCreatedAt := None)
    else u.(enabled := true)
  }

  /** Toggling twice restores `enabled`; starting from a banned account
      without a session it restores the whole account. */
  lemma ToggleTwice(u: User)
    ensures Toggled(Toggled(u)).enabled == u.enabled
    ensures !u.enabled && u.activeSessionId.None? && u.sessionCreatedAt.None? ==> Toggled(Toggled(u)) == u
  {
    var once := Toggled(u);
    assert once.enabled == !u.enabled;
  }

  /** The portal check of a login: the user portal refuses administrators,
      the administrator portal refuses everybody else. */
  function PortalCheck(principal: User, adminPortal: bool): (r: Outcome)
    ensures r.Pass? <==> (principal.role == ADMIN) == adminPortal
    ensures !adminPortal && principal.role == ADMIN ==>
      r == Fail(BadRequest("Admin accounts cannot login through user portal. Please use admin login."))
    ensures adminPortal && principal.role != ADMIN ==>
      r == Fail(BadRequest("Only admin accounts can login through admin portal."))
  {
    if !adminPortal && RoleName(principal.role) == "ADMIN" then
      Fail(BadRequest("Admin accounts cannot login through user portal. Please use admin login."))
    else if adminPortal && RoleName(principal.role) != "ADMIN" then
      Fail(BadRequest("Only admin accounts can login through admin portal."))
    else Pass
  }

  /** The account after a login: any previous session replaced by the new
      one, created now. */
  function SessionStarted(u: User, sessionId: string, now: int): (t: User)
    ensures t.activeSessionId == Some(sessionId) && t.sessionCreatedAt == Some(now)
    ensures t.(activeSessionId := u.activeSessionId, sessionCreatedAt := u.sessionCreatedAt) == u
  {
    u.(activeSessionId := Some(sessionId), sessionCreatedAt := Some(now))
  }

  /** The account after `logout`: no session, last updated now. */
  function LoggedOut(u: User, now: int): (t: User)
    ensures t.activeSessionId.None? && t.sessionCreatedAt.None? && t.updatedAt == Some(now)
    ensures t.(activeSessionId := u.activeSessionId, sessionCreatedAt := u.sessionCreatedAt, updatedAt := u.updatedAt) == u
  {
    u.(activeSessionId := None, sessionCreatedAt := None, updatedAt := Some(now))
  }

  /** A session that is set and was created strictly before one hour ago. */
  predicate SessionExpired(u: User, now: int)
  {
    u.activeSessionId.Some? && u.sessionCreatedAt.Some? && u.sessionCreatedAt.value < now - SessionLifetime
  }

  /** Only a set session can expire; it expires once more than an hour has
      passed since it was created, and stays expired from then on. */
  lemma SessionExpiry(u: User, now: int, later: int)
    ensures u.activeSessionId.None? || u.sessionCreatedAt.None? ==> !SessionExpired(u, now)
    ensures u.activeSessionId.Some? && u.sessionCreatedAt.Some? ==>
              (SessionExpired(u, now) <==> now > u.sessionCreatedAt.value + 3600)
    ensures SessionExpired(u, now) && now <= later ==> SessionExpired(u, later)
  {
  }

  /** The account after `clearExpiredSessions` looked at it: an expired
      session is cleared, any other account is left as it is. */
  function ExpiryApplied(u: User, now: int): (t: User)
    ensures !SessionExpired(t, now)
    ensures SessionExpired(u, now) ==> t == u.(activeSessionId := None, sessionCreatedAt := None)
    ensures !SessionExpired(u, now) ==> t == u
  {
    if SessionExpired(u, now) then u.(activeSessionId := None, sessionCreatedAt := None) else u
  }

  /** The account after `updateProfile`: each given field replaces the
      stored one, each missing field keeps it; login data is untouched. */
  function ProfileUpdated(u: User, firstName: Option<string>, lastName: Option<string>,
                          phoneNumber: Option<string>, address: Option<string>): (t: User)
    ensures t.firstName == (if firstName.Some? then firstName else u.firstName)
    ensures t.lastName == (if lastName.Some? then lastName else u.lastName)
    ensures t.phoneNumber == (if phoneNumber.Some? then phoneNumber else u.phoneNumber)
    ensures t.address == (if address.Some? then address else u.address)
    ensures t.(firstName := u.firstName, lastName := u.lastName, phoneNumber := u.phoneNumber, address := u.address) == u
  {
    u.(firstName := if firstName.Some? then firstName else u.firstName,
       lastName := if lastName.Some? then lastName else u.lastName,
       phoneNumber := if phoneNumber.Some? then phoneNumber else u.phoneNumber,
       address := if address.Some? then address else u.address)
  }

  /** The account `register` creates: a customer, enabled, with the
      encoded password, no wallet and no session. */
  function Registered(id: nat, form: Registration, encodedPassword: string): (u: User)
    ensures u.id == id && u.username == form.username && u.email == form.email
    ensures u.password == encodedPassword && u.role == USER && u.enabled
    ensures u.walletBalance.None? && u.activeSessionId.None? && u.sessionCreatedAt.None?
  {
    User(id, form.username, form.email, encodedPassword, form.firstName, form.lastName,
      form.phoneNumber, form.address, USER, true, None, None, None, None)
  }

  const DefaultAdminUsername: string := "admin"
  const DefaultAdminEmail: string := "admin@thriftshirt.com"
  const DefaultAdminPassword: string := "tsps2025"

  /** The administrator `createDefaultAdmin` creates. */
  function DefaultAdmin(id: nat, encodedPassword: string): (u: User)
    ensures u.id == id && u.username == DefaultAdminUsername && u.email == DefaultAdminEmail
    ensures u.role == ADMIN && u.password == encodedPassword
  {
    User(id, DefaultAdminUsername, DefaultAdminEmail, encodedPassword, Some("System"),
      Some("Administrator"), Some("+1234567890"), Some("Admin Office, Thrift Shirt Pawnshop"),
      ADMIN, true, None, None, None, None)
  }
}
