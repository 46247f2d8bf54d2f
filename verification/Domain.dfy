/** Rows, claims and constants shared by the two services. */
module Domain {

  datatype Option<+T> = None | Some(value: T)

  /** A UUID; only equality matters. */
  type Id = nat

  /** The hash of a refresh or reset token; hashing is taken to be injective. */
  type Hash = nat

  /** Milliseconds since the epoch. Every service reads one clock. */
  type Millis = nat

  const MINUTE: nat := 60 * 1000
  const DAY: nat := 24 * 60 * MINUTE
  const SESSION_LIFETIME: nat := 30 * DAY
  const RESET_LIFETIME: nat := 60 * MINUTE
  const BLACKLIST_TTL: nat := 15 * MINUTE
  const REMOVAL_TTL: nat := DAY
  const MFA_LIFETIME: nat := 5 * MINUTE

  /** A row of auth.users: `active` is status = 'active', `deleted` is deleted_at IS NOT NULL. */
  datatype User = User(org: Id, active: bool, row: Row) {
    const deleted: bool := row != Here
  }

  /** Gone: deleted together with its organization. The rows that a cascade removes stay in the model as tombstones
      that every statement treats like missing rows; their ids are never drawn again. */
  datatype Row = Here | SoftDeleted | Gone

  /** A row of auth.sessions. */
  datatype Session = Session(
    user: Id, org: Id, createdAt: Millis, expiresAt: Millis, lastActivity: Millis, revoked: bool)

  /** A row of auth.refresh_tokens, found by its hash. */
  datatype RefreshToken = RefreshToken(session: Id, user: Id, expiresAt: Millis, revoked: bool)

  /** A row of auth.password_reset_tokens, found by its hash. */
  datatype ResetToken = ResetToken(user: Id, expiresAt: Millis, used: bool)

  datatype Database = Database(
    users: map<Id, User>,
    sessions: map<Id, Session>,
    tokens: map<Hash, RefreshToken>,
    resets: map<Hash, ResetToken>)

  /** The signed claims of a JWT; iat and exp count whole seconds. An MFA token has no session. */
  datatype Claims = Claims(sub: Id, org: Id, session: Option<Id>, mfaPending: bool, iat: nat, exp: nat)

  function AccessClaims(user: Id, org: Id, session: Id, now: Millis, expiryMin: nat): Claims {
    Claims(user, org, Some(session), false, now / 1000, (now + expiryMin * MINUTE) / 1000)
  }

  function MfaClaims(user: Id, org: Id, now: Millis): Claims {
    Claims(user, org, None, true, now / 1000, (now + MFA_LIFETIME) / 1000)
  }

  /** The user rows that every lookup sees: deleted_at IS NULL. */
  predicate Present(users: map<Id, User>, user: Id) {
    user in users && !users[user].deleted
  }

  /** The signature library's expiry test: the clock is strictly before exp. */
  predicate Unexpired(c: Claims, now: Millis) {
    now < c.exp * 1000
  }

  /** Claims that were handed out carry a valid signature, and no others do. */
  predicate Presentable(handed: set<Claims>, c: Claims, now: Millis) {
    c in handed && Unexpired(c, now)
  }
}
