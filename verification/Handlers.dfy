/** Each handler of the auth service, and removeMember of the admin service, as one atomic step on the
    database, the two Redis caches, the claims in clients' hands and the history of what happened. */
module Handlers {
  import opened Domain
  import opened Transactions

  /** user:logout-all:<uid> holds the second of the logout and its own expiry instant. */
  datatype Stamp = Stamp(second: nat, expires: Millis)

  /** session:revoked:<sid> and user:logout-all:<uid>, each key with the instant at which it expires. */
  datatype Cache = Cache(revoked: map<Id, Millis>, logoutAll: map<Id, Stamp>)

  /** Which Redis commands of one handler succeed. */
  datatype Faults = Faults(getOk: bool, existsOk: bool, setOk: bool)

  /** What a reader of the audit trail would see; the abstract specification looks at nothing else. */
  datatype Event =
    | Created(sid: Id, user: Id, org: Id, expiresAt: Millis)
    | LoggedOut(sid: Id)
    | LoggedOutAll(user: Id)
    | PasswordReset(user: Id)
    | ReplayCaught(sid: Id)
    | Removed(user: Id)
    | OrganizationDeleted(org: Id)

  datatype World = World(
    now: Millis, expiryMin: nat, db: Database, cache: Cache, issued: set<Claims>, history: seq<Event>)

  // ---------------------------------------------------------------- Redis

  function SetRevoked(c: Cache, sid: Id, until: Millis, ok: bool): Cache {
    if ok then c.(revoked := c.revoked[sid := until]) else c
  }

  function SetLogoutAll(c: Cache, user: Id, now: Millis, ok: bool): Cache {
    if ok then c.(logoutAll := c.logoutAll[user := Stamp(now / 1000, now + BLACKLIST_TTL)]) else c
  }

  /** The pipeline of removeMember: of the sessions found active, those whose SET went through. */
  function SetRemoved(c: Cache, found: set<Id>, reached: set<Id>, now: Millis): Cache {
    c.(revoked := c.revoked + map i | i in found * reached :: now + REMOVAL_TTL)
  }

  predicate LogoutAllRejects(c: Cache, claims: Claims, now: Millis) {
    claims.sub in c.logoutAll && now < c.logoutAll[claims.sub].expires && claims.iat < c.logoutAll[claims.sub].second
  }

  predicate BlacklistRejects(c: Cache, claims: Claims, now: Millis) {
    claims.session.Some? && claims.session.value in c.revoked && now < c.revoked[claims.session.value]
  }

  /** The database layer: GetSession fails, or the row is revoked, or it has expired. */
  predicate DbRejects(db: Database, sid: Id, now: Millis) {
    sid !in db.sessions || db.sessions[sid].revoked || db.sessions[sid].expiresAt < now
  }

  // ---------------------------------------------------------------- sessions come into being

  function NewSession(user: Id, org: Id, now: Millis): Session {
    Session(user, org, now, now + SESSION_LIFETIME, now, false)
  }

  /** Commit the session, and only then hand out the access token. */
  function Establish(w: World, user: Id, sid: Id, hash: Hash): World
    requires user in w.db.users
  {
    var org := w.db.users[user].org;
    var s := NewSession(user, org, w.now);
    if !CanInsert(w.db, sid, s, hash) then w
    else w.(db := CreateSessionAndToken(w.db, sid, s, hash, s.expiresAt),
            issued := w.issued + {AccessClaims(user, org, sid, w.now, w.expiryMin)},
            history := w.history + [Created(sid, user, org, s.expiresAt)])
  }

  function Register(w: World, user: Id, org: Id): World {
    w.(db := InsertUser(w.db, user, org))
  }

  /** `user` is the row that the e-mail lookup returned. */
  function Login(w: World, user: Id, passwordOk: bool, mfaEnabled: bool, sid: Id, hash: Hash): World {
    if user !in w.db.users || w.db.users[user].deleted then w
    else if !w.db.users[user].active || !passwordOk then w
    else if mfaEnabled then w.(issued := w.issued + {MfaClaims(user, w.db.users[user].org, w.now)})
    else Establish(w, user, sid, hash)
  }

  function MfaVerify(w: World, c: Claims, codeOk: bool, sid: Id, hash: Hash): World {
    if !Presentable(w.issued, c, w.now) || !c.mfaPending || !codeOk then w
    else if c.sub !in w.db.users || w.db.users[c.sub].deleted then w
    else Establish(w, c.sub, sid, hash)
  }

  /** Organisation, owner, session and token in one transaction. */
  function Onboard(w: World, user: Id, org: Id, sid: Id, hash: Hash): World {
    if user in w.db.users then w
    else
      var w' := Establish(Register(w, user, org), user, sid, hash);
      if sid in w.db.sessions || hash in w.db.tokens then w else w'
  }

  function Refresh(w: World, oldHash: Hash, newHash: Hash): World {
    if oldHash !in w.db.tokens || newHash in w.db.tokens then w
    else if w.db.tokens[oldHash].expiresAt < w.now then w
    else
      var db := RotateRefreshToken(w.db, oldHash, newHash, w.now + SESSION_LIFETIME, w.now);
      match RotateOutcome(w.db, oldHash, w.now)
      case Unknown => w
      case Orphaned => w
      case Replayed => w.(db := db, history := w.history + [ReplayCaught(w.db.tokens[oldHash].session)])
      case Rotated(sid, s) =>
        if s.user !in db.users || db.users[s.user].deleted then w.(db := db)
        else w.(db := db, issued := w.issued + {AccessClaims(s.user, db.users[s.user].org, sid, w.now, w.expiryMin)})
  }

  // ---------------------------------------------------------------- sessions are revoked

  function Logout(w: World, c: Claims, f: Faults): World {
    if !Presentable(w.issued, c, w.now) || c.session.None? then w
    else w.(db := RevokeSession(w.db, c.session.value),
            cache := SetRevoked(w.cache, c.session.value, w.now + BLACKLIST_TTL, f.setOk),
            history := w.history + [LoggedOut(c.session.value)])
  }

  function LogoutAll(w: World, c: Claims, f: Faults): World {
    if !Presentable(w.issued, c, w.now) then w
    else w.(db := RevokeAllUserSessions(w.db, c.sub),
            cache := SetLogoutAll(w.cache, c.sub, w.now, f.setOk),
            history := w.history + [LoggedOutAll(c.sub)])
  }

  function PasswordResetRequest(w: World, user: Id, hash: Hash): World {
    if user !in w.db.users || w.db.users[user].deleted || hash in w.db.resets then w
    else w.(db := w.db.(resets := w.db.resets[hash := ResetToken(user, w.now + RESET_LIFETIME, false)]))
  }

  function PasswordResetConfirm(w: World, hash: Hash): World {
    if hash !in w.db.resets || w.db.resets[hash].used || w.db.resets[hash].expiresAt < w.now then w
    else
      var t := w.db.resets[hash];
      w.(db := RevokeAllUserSessions(w.db.(resets := w.db.resets[hash := t.(used := true)]), t.user),
         history := w.history + [PasswordReset(t.user)])
  }

  predicate IsMember(db: Database, org: Id, user: Id) {
    user in db.users && db.users[user].org == org && !db.users[user].deleted
  }

  /** Soft delete, flag the active sessions, blacklist exactly those; refresh tokens stay as they are. */
  function RemoveMember(w: World, org: Id, user: Id, reached: set<Id>): World {
    if !IsMember(w.db, org, user) then w
    else w.(db := FlagUserSessions(SoftDelete(w.db, user), user),
            cache := SetRemoved(w.cache, ActiveSessionsOf(w.db, user), reached, w.now),
            history := w.history + [Removed(user)])
  }

  /** The admin service deletes an organization; no key is written. */
  function RemoveOrganization(w: World, org: Id): World {
    w.(db := DeleteOrganization(w.db, org), history := w.history + [OrganizationDeleted(org)])
  }

  // ---------------------------------------------------------------- verification

  /** The verdict of the three layers: logout-all key, blacklist key, database row. */
  predicate Accepts(w: World, c: Claims, f: Faults) {
    && Presentable(w.issued, c, w.now)
    && !(f.getOk && LogoutAllRejects(w.cache, c, w.now))
    && !(f.existsOk && BlacklistRejects(w.cache, c, w.now))
    && c.session.Some? && !DbRejects(w.db, c.session.value, w.now)
  }

  /** A refusal by the database is written back to the blacklist. */
  function Verify(w: World, c: Claims, f: Faults): World {
    if !Presentable(w.issued, c, w.now) || c.session.None? then w
    else if f.getOk && LogoutAllRejects(w.cache, c, w.now) then w
    else if f.existsOk && BlacklistRejects(w.cache, c, w.now) then w
    else if DbRejects(w.db, c.session.value, w.now) then
      w.(cache := SetRevoked(w.cache, c.session.value, w.now + BLACKLIST_TTL, f.setOk))
    else w
  }

  // ---------------------------------------------------------------- runs

  datatype Op =
    | Tick(millis: nat)
    | Evict(sessions: set<Id>, users: set<Id>)
    | DoRegister(user: Id, org: Id)
    | DoLogin(user: Id, passwordOk: bool, mfaEnabled: bool, sid: Id, hash: Hash)
    | DoMfaVerify(claims: Claims, codeOk: bool, sid: Id, hash: Hash)
    | DoOnboard(user: Id, org: Id, sid: Id, hash: Hash)
    | DoRefresh(oldHash: Hash, newHash: Hash)
    | DoLogout(claims: Claims, faults: Faults)
    | DoLogoutAll(claims: Claims, faults: Faults)
    | DoResetRequest(user: Id, hash: Hash)
    | DoResetConfirm(hash: Hash)
    | DoRemoveMember(org: Id, user: Id, reached: set<Id>)
    | DoDeleteOrganization(org: Id)
    | DoVerify(claims: Claims, faults: Faults)

  function Apply(w: World, op: Op): World {
    match op
    case Tick(millis) => w.(now := w.now + millis)
    case Evict(ss, us) => w.(cache := Cache(w.cache.revoked - ss, w.cache.logoutAll - us))
    case DoRegister(u, org) => Register(w, u, org)
    case DoLogin(u, pw, mfa, sid, h) => Login(w, u, pw, mfa, sid, h)
    case DoMfaVerify(c, ok, sid, h) => MfaVerify(w, c, ok, sid, h)
    case DoOnboard(u, org, sid, h) => Onboard(w, u, org, sid, h)
    case DoRefresh(o, n) => Refresh(w, o, n)
    case DoLogout(c, f) => Logout(w, c, f)
    case DoLogoutAll(c, f) => LogoutAll(w, c, f)
    case DoResetRequest(u, h) => PasswordResetRequest(w, u, h)
    case DoResetConfirm(h) => PasswordResetConfirm(w, h)
    case DoRemoveMember(org, u, reached) => RemoveMember(w, org, u, reached)
    case DoDeleteOrganization(org) => RemoveOrganization(w, org)
    case DoVerify(c, f) => Verify(w, c, f)
  }

  /** What Establish hands out. */
  function EstablishToken(w: World, user: Id, sid: Id, hash: Hash): Option<Claims>
    requires user in w.db.users
  {
    var org := w.db.users[user].org;
    if CanInsert(w.db, sid, NewSession(user, org, w.now), hash)
    then Some(AccessClaims(user, org, sid, w.now, w.expiryMin)) else None
  }

  /** The token in the answer to a request, whether or not equal claims were handed out before. */
  function Minted(w: World, op: Op): Option<Claims> {
    match op
    case DoLogin(u, pw, mfa, sid, h) =>
      if u !in w.db.users || w.db.users[u].deleted || !w.db.users[u].active || !pw then None
      else if mfa then Some(MfaClaims(u, w.db.users[u].org, w.now))
      else EstablishToken(w, u, sid, h)
    case DoMfaVerify(c, ok, sid, h) =>
      if !Presentable(w.issued, c, w.now) || !c.mfaPending || !ok || !Present(w.db.users, c.sub) then None
      else EstablishToken(w, c.sub, sid, h)
    case DoOnboard(u, org, sid, h) =>
      if u in w.db.users || sid in w.db.sessions || h in w.db.tokens then None
      else Some(AccessClaims(u, org, sid, w.now, w.expiryMin))
    case DoRefresh(o, n) =>
      if o !in w.db.tokens || n in w.db.tokens || w.db.tokens[o].expiresAt < w.now then None
      else (match RotateOutcome(w.db, o, w.now)
            case Rotated(sid, s) =>
              if s.user !in w.db.users || w.db.users[s.user].deleted then None
              else Some(AccessClaims(s.user, w.db.users[s.user].org, sid, w.now, w.expiryMin))
            case _ => None)
    case _ => None
  }

  function Run(w: World, ops: seq<Op>): World
    decreases |ops|
  {
    if ops == [] then w else Run(Apply(w, ops[0]), ops[1..])
  }

  /** Empty tables, empty caches; `now` and the configured lifetime are arbitrary. */
  function Start(now: Millis, expiryMin: nat): World {
    World(now, expiryMin, Database(map[], map[], map[], map[]), Cache(map[], map[]), {}, [])
  }
}
