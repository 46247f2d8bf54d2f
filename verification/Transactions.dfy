/** The transactions of auth-service/internal/repository/session_repository.go: what each one does
    to the database, the invariant they keep, and how rows may evolve. */
module Transactions {
  import opened Domain

  // ---------------------------------------------------------------- specification

  /** Every row whose key is in `ids` is flagged; all other rows are untouched. */
  function FlagSessions(sessions: map<Id, Session>, ids: set<Id>): (flagged: map<Id, Session>)
    ensures flagged.Keys == sessions.Keys
  {
    map i | i in sessions :: if i in ids then sessions[i].(revoked := true) else sessions[i]
  }

  function FlagTokens(tokens: map<Hash, RefreshToken>, hashes: set<Hash>): (flagged: map<Hash, RefreshToken>)
    ensures flagged.Keys == tokens.Keys
  {
    map h | h in tokens :: if h in hashes then tokens[h].(revoked := true) else tokens[h]
  }

  function SessionsOf(db: Database, user: Id): set<Id> {
    set i | i in db.sessions && db.sessions[i].user == user
  }

  function TokensOfUser(db: Database, user: Id): set<Hash> {
    set h | h in db.tokens && db.tokens[h].user == user
  }

  function TokensOfSession(db: Database, sid: Id): set<Hash> {
    set h | h in db.tokens && db.tokens[h].session == sid
  }

  function RevokeSession(db: Database, sid: Id): Database {
    db.(sessions := FlagSessions(db.sessions, {sid}), tokens := FlagTokens(db.tokens, TokensOfSession(db, sid)))
  }

  function RevokeAllUserSessions(db: Database, user: Id): Database {
    db.(sessions := FlagSessions(db.sessions, SessionsOf(db, user)),
        tokens := FlagTokens(db.tokens, TokensOfUser(db, user)))
  }

  /** Primary key free, owner's row there, also a soft-deleted one, and hash not seen before. */
  predicate CanInsert(db: Database, sid: Id, s: Session, hash: Hash) {
    sid !in db.sessions && hash !in db.tokens && s.user in db.users && db.users[s.user].row != Gone
  }

  function CreateSessionAndToken(db: Database, sid: Id, s: Session, hash: Hash, expiry: Millis): Database {
    if CanInsert(db, sid, s, hash) then
      db.(sessions := db.sessions[sid := s],
          tokens := db.tokens[hash := RefreshToken(sid, s.user, expiry, false)])
    else db
  }

  /** Orphaned: the token's session row is missing, so the transaction rolls back. */
  datatype Rotation = Unknown | Replayed | Orphaned | Rotated(sid: Id, session: Session)

  predicate CanSpend(db: Database, hash: Hash) {
    hash in db.tokens && !db.tokens[hash].revoked && db.tokens[hash].session in db.sessions
  }

  /** The session row after a successful rotation: its expiry never moves. */
  function TouchedSession(db: Database, hash: Hash, now: Millis): Session
    requires CanSpend(db, hash)
  {
    var s := db.sessions[db.tokens[hash].session];
    if s.revoked then s else s.(lastActivity := now)
  }

  /** A successful rotation: the old token is spent, its successor joins the same session. */
  function SpendToken(db: Database, oldHash: Hash, newHash: Hash, newExpiry: Millis, now: Millis): Database
    requires CanSpend(db, oldHash)
  {
    var spent := db.tokens[oldHash];
    db.(tokens := db.tokens[oldHash := spent.(revoked := true)]
                           [newHash := RefreshToken(spent.session, spent.user, newExpiry, false)],
        sessions := db.sessions[spent.session := TouchedSession(db, oldHash, now)])
  }

  function RotateOutcome(db: Database, oldHash: Hash, now: Millis): Rotation {
    if oldHash !in db.tokens then Unknown
    else if db.tokens[oldHash].revoked then Replayed
    else if db.tokens[oldHash].session !in db.sessions then Orphaned
    else Rotated(db.tokens[oldHash].session, TouchedSession(db, oldHash, now))
  }

  /** The database after RotateRefreshToken, whatever its outcome. */
  function RotateRefreshToken(db: Database, oldHash: Hash, newHash: Hash, newExpiry: Millis, now: Millis): Database {
    match RotateOutcome(db, oldHash, now)
    case Unknown => db
    case Orphaned => db
    case Replayed => RevokeSession(db, db.tokens[oldHash].session)
    case Rotated(_, _) => SpendToken(db, oldHash, newHash, newExpiry, now)
  }

  /** Members are soft-deleted first; their sessions are flagged by a later statement, their tokens never. */
  function SoftDelete(db: Database, user: Id): Database {
    if user in db.users && db.users[user].row != Gone
    then db.(users := db.users[user := db.users[user].(active := false, row := SoftDeleted)]) else db
  }

  function FlagUserSessions(db: Database, user: Id): Database {
    db.(sessions := FlagSessions(db.sessions, SessionsOf(db, user)))
  }

  function SessionsOfOrganization(db: Database, org: Id): set<Id> {
    set i | i in db.sessions && db.sessions[i].org == org
  }

  predicate BelongsTo(db: Database, user: Id, org: Id) {
    user in db.users && db.users[user].org == org
  }

  function TokensOfOrganization(db: Database, org: Id): set<Hash> {
    set h | h in db.tokens && BelongsTo(db, db.tokens[h].user, org)
  }

  function UsersGone(users: map<Id, User>, org: Id): map<Id, User> {
    map u | u in users :: if users[u].org == org then User(org, false, Gone) else users[u]
  }

  function ResetsUsed(db: Database, org: Id): map<Hash, ResetToken> {
    map h | h in db.resets ::
      if BelongsTo(db, db.resets[h].user, org) then db.resets[h].(used := true) else db.resets[h]
  }

  /** The cascade of an organization's deletion, which leaves tombstones: users gone, sessions and tokens revoked,
      reset tokens used. */
  function DeleteOrganization(db: Database, org: Id): Database {
    Database(UsersGone(db.users, org),
             FlagSessions(db.sessions, SessionsOfOrganization(db, org)),
             FlagTokens(db.tokens, TokensOfOrganization(db, org)),
             ResetsUsed(db, org))
  }

  function ActiveSessionsOf(db: Database, user: Id): set<Id> {
    set i | i in db.sessions && db.sessions[i].user == user && !db.sessions[i].revoked
  }

  function InsertUser(db: Database, id: Id, org: Id): Database {
    if id in db.users then db else db.(users := db.users[id := User(org, true, Here)])
  }

  // ---------------------------------------------------------------- invariant

  predicate Live(db: Database, h: Hash) {
    h in db.tokens && !db.tokens[h].revoked
  }

  /** No token of the session can be rotated and the session itself is refused. */
  ghost predicate Dead(db: Database, sid: Id) {
    && sid in db.sessions && db.sessions[sid].revoked
    && forall h :: h in db.tokens && db.tokens[h].session == sid ==> db.tokens[h].revoked
  }

  ghost predicate TokensMatchSessions(db: Database) {
    forall h :: h in db.tokens ==>
      db.tokens[h].session in db.sessions && db.sessions[db.tokens[h].session].user == db.tokens[h].user
  }

  ghost predicate OneLiveToken(db: Database) {
    forall h1, h2 {:trigger Live(db, h1), Live(db, h2)} ::
      Live(db, h1) && Live(db, h2) && db.tokens[h1].session == db.tokens[h2].session ==> h1 == h2
  }

  ghost predicate SessionsMatchUsers(db: Database) {
    forall i :: i in db.sessions ==>
      db.sessions[i].user in db.users && db.sessions[i].org == db.users[db.sessions[i].user].org
  }

  ghost predicate LifetimesBounded(db: Database) {
    forall i :: i in db.sessions ==> db.sessions[i].expiresAt <= db.sessions[i].createdAt + SESSION_LIFETIME
  }

  /** A revoked session keeps a live token only when its owner has been soft-deleted. */
  ghost predicate RevokedMeansDead(db: Database) {
    forall h {:trigger Live(db, h)} ::
      Live(db, h) && db.tokens[h].session in db.sessions && db.sessions[db.tokens[h].session].revoked ==>
      db.tokens[h].user in db.users && db.users[db.tokens[h].user].deleted
  }

  ghost predicate DbInv(db: Database) {
    && TokensMatchSessions(db) && OneLiveToken(db) && SessionsMatchUsers(db)
    && LifetimesBounded(db) && RevokedMeansDead(db)
  }

  /** What no transaction ever takes back: rows stay, identities and expiries are frozen, revocation,
      soft deletion and the death of a token family are permanent. */
  ghost predicate Evolves(a: Database, b: Database) {
    && (forall u :: u in a.users ==>
        u in b.users && b.users[u].org == a.users[u].org && (a.users[u].deleted ==> b.users[u].deleted)
        && (a.users[u].row == Gone ==> b.users[u].row == Gone))
    && (forall i :: i in a.sessions ==>
        && i in b.sessions
        && b.sessions[i].user == a.sessions[i].user && b.sessions[i].org == a.sessions[i].org
        && b.sessions[i].createdAt == a.sessions[i].createdAt
        && b.sessions[i].expiresAt == a.sessions[i].expiresAt
        && (a.sessions[i].revoked ==> b.sessions[i].revoked))
    && (forall h :: h in a.tokens ==>
        && h in b.tokens
        && b.tokens[h].session == a.tokens[h].session && b.tokens[h].user == a.tokens[h].user
        && b.tokens[h].expiresAt == a.tokens[h].expiresAt
        && (a.tokens[h].revoked ==> b.tokens[h].revoked))
    && (forall i {:trigger Dead(b, i)} :: Dead(a, i) ==> Dead(b, i))
  }

  lemma EvolvesReflexive(db: Database)
    ensures Evolves(db, db)
  {
  }

  lemma EvolvesTransitive(a: Database, b: Database, c: Database)
    requires Evolves(a, b) && Evolves(b, c)
    ensures Evolves(a, c)
  {
  }

  // ---------------------------------------------------------------- each transaction keeps both

  lemma CreateKeeps(db: Database, sid: Id, s: Session, hash: Hash, expiry: Millis)
    requires DbInv(db)
    requires s.user in db.users ==> s.org == db.users[s.user].org
    requires !s.revoked && s.expiresAt <= s.createdAt + SESSION_LIFETIME
    ensures var db' := CreateSessionAndToken(db, sid, s, hash, expiry);
            DbInv(db') && Evolves(db, db')
  {
    var db' := CreateSessionAndToken(db, sid, s, hash, expiry);
    if CanInsert(db, sid, s, hash) {
      assert forall h :: h in db.tokens ==> db.tokens[h].session != sid;
      assert OneLiveToken(db') by {
        forall h1, h2 | Live(db', h1) && Live(db', h2) && db'.tokens[h1].session == db'.tokens[h2].session
          ensures h1 == h2
        {
          assert h1 != hash ==> Live(db, h1);
          assert h2 != hash ==> Live(db, h2);
        }
      }
      assert RevokedMeansDead(db') by {
        assert forall h :: Live(db', h) && h != hash ==> Live(db, h);
      }
      forall i | Dead(db, i) ensures Dead(db', i) {
      }
    }
  }

  lemma RevokeSessionInv(db: Database, sid: Id)
    requires DbInv(db)
    ensures DbInv(RevokeSession(db, sid))
  {
    var db' := RevokeSession(db, sid);
    assert forall h :: Live(db', h) ==> Live(db, h) && db.tokens[h].session != sid;
  }

  lemma RevokeSessionEvolves(db: Database, sid: Id)
    ensures Evolves(db, RevokeSession(db, sid))
  {
    var db' := RevokeSession(db, sid);
    forall i | Dead(db, i) ensures Dead(db', i) {
    }
  }

  lemma RevokeSessionKeeps(db: Database, sid: Id)
    requires DbInv(db)
    ensures var db' := RevokeSession(db, sid); DbInv(db') && Evolves(db, db')
    ensures sid in db.sessions ==> Dead(RevokeSession(db, sid), sid)
  {
    RevokeSessionInv(db, sid);
    RevokeSessionEvolves(db, sid);
  }

  lemma RevokeAllInv(db: Database, user: Id)
    requires DbInv(db)
    ensures DbInv(RevokeAllUserSessions(db, user))
  {
    var db' := RevokeAllUserSessions(db, user);
    assert forall h :: Live(db', h) ==> Live(db, h) && db.tokens[h].user != user;
  }

  lemma RevokeAllEvolves(db: Database, user: Id)
    ensures Evolves(db, RevokeAllUserSessions(db, user))
  {
    var db' := RevokeAllUserSessions(db, user);
    forall i | Dead(db, i) ensures Dead(db', i) {
    }
  }

  /** No session of the user and none of its tokens is left alive. */
  lemma RevokeAllKills(db: Database, user: Id, sid: Id)
    requires TokensMatchSessions(db) && sid in SessionsOf(db, user)
    ensures Dead(RevokeAllUserSessions(db, user), sid)
  {
  }

  lemma RevokeAllKeeps(db: Database, user: Id)
    requires DbInv(db)
    ensures var db' := RevokeAllUserSessions(db, user); DbInv(db') && Evolves(db, db')
  {
    RevokeAllInv(db, user);
    RevokeAllEvolves(db, user);
  }

  /** The spent token stays revoked and its successor is the session's one live token. */
  lemma SpentPair(db: Database, oldHash: Hash, newHash: Hash, newExpiry: Millis, now: Millis)
    requires DbInv(db) && newHash !in db.tokens && CanSpend(db, oldHash)
    ensures var db' := SpendToken(db, oldHash, newHash, newExpiry, now);
            var sid := db.tokens[oldHash].session;
            && !Live(db', oldHash) && Live(db', newHash) && db'.tokens[newHash].session == sid
            && (forall h :: Live(db', h) && h != newHash ==> Live(db, h) && db.tokens[h].session != sid)
  {
    assert Live(db, oldHash);
    var db' := SpendToken(db, oldHash, newHash, newExpiry, now);
    forall h | Live(db', h) && h != newHash ensures Live(db, h) && db.tokens[h].session != db.tokens[oldHash].session {
      assert Live(db, h);
    }
  }

  lemma SpendInv(db: Database, oldHash: Hash, newHash: Hash, newExpiry: Millis, now: Millis)
    requires DbInv(db) && newHash !in db.tokens && CanSpend(db, oldHash)
    ensures DbInv(SpendToken(db, oldHash, newHash, newExpiry, now))
  {
    var db' := SpendToken(db, oldHash, newHash, newExpiry, now);
    SpentPair(db, oldHash, newHash, newExpiry, now);
    forall h1, h2 | Live(db', h1) && Live(db', h2) && db'.tokens[h1].session == db'.tokens[h2].session
      ensures h1 == h2
    {
      if h1 != newHash && h2 != newHash {
        assert Live(db, h1) && Live(db, h2);
      }
    }
    assert RevokedMeansDead(db') by {
      assert Live(db, oldHash);
    }
  }

  lemma SpendEvolves(db: Database, oldHash: Hash, newHash: Hash, newExpiry: Millis, now: Millis)
    requires newHash !in db.tokens && CanSpend(db, oldHash)
    ensures Evolves(db, SpendToken(db, oldHash, newHash, newExpiry, now))
  {
  }

  lemma RotateKeeps(db: Database, oldHash: Hash, newHash: Hash, newExpiry: Millis, now: Millis)
    requires DbInv(db) && newHash !in db.tokens
    ensures var db' := RotateRefreshToken(db, oldHash, newHash, newExpiry, now);
            DbInv(db') && Evolves(db, db')
  {
    match RotateOutcome(db, oldHash, now)
    case Unknown =>
    case Orphaned =>
    case Replayed => RevokeSessionKeeps(db, db.tokens[oldHash].session);
    case Rotated(_, _) =>
      SpendInv(db, oldHash, newHash, newExpiry, now);
      SpendEvolves(db, oldHash, newHash, newExpiry, now);
  }

  /** A user row may be written if it stays in its organization and takes no deletion back. */
  predicate MayWrite(db: Database, user: Id, row: User) {
    user in db.users ==>
      && row.org == db.users[user].org && (db.users[user].deleted ==> row.deleted)
      && (db.users[user].row == Gone ==> row.row == Gone)
  }

  lemma UserRowInv(db: Database, user: Id, row: User)
    requires DbInv(db) && MayWrite(db, user, row)
    ensures DbInv(db.(users := db.users[user := row]))
  {
    var db' := db.(users := db.users[user := row]);
    assert forall h :: Live(db', h) <==> Live(db, h);
  }

  lemma UserRowEvolves(db: Database, user: Id, row: User)
    requires MayWrite(db, user, row)
    ensures Evolves(db, db.(users := db.users[user := row]))
  {
    forall i | Dead(db, i) ensures Dead(db.(users := db.users[user := row]), i) {
    }
  }

  lemma SoftDeleteKeeps(db: Database, user: Id)
    requires DbInv(db)
    ensures DbInv(SoftDelete(db, user)) && Evolves(db, SoftDelete(db, user))
  {
    if user in db.users && db.users[user].row != Gone {
      var row := db.users[user].(active := false, row := SoftDeleted);
      UserRowInv(db, user, row);
      UserRowEvolves(db, user, row);
    } else {
      EvolvesReflexive(db);
    }
  }

  lemma InsertUserKeeps(db: Database, user: Id, org: Id)
    requires DbInv(db)
    ensures DbInv(InsertUser(db, user, org)) && Evolves(db, InsertUser(db, user, org))
  {
    if user !in db.users {
      UserRowInv(db, user, User(org, true, Here));
      UserRowEvolves(db, user, User(org, true, Here));
    } else {
      EvolvesReflexive(db);
    }
  }

  /** Flagging sessions but not tokens is safe only for an owner who is already deleted. */
  lemma FlagUserSessionsKeeps(db: Database, user: Id)
    requires DbInv(db) && user in db.users && db.users[user].deleted
    ensures var db' := FlagUserSessions(db, user); DbInv(db') && Evolves(db, db')
  {
    var db' := FlagUserSessions(db, user);
    assert forall h :: Live(db', h) <==> Live(db, h);
    forall i | Dead(db, i) ensures Dead(db', i) {
    }
  }

  lemma DeleteOrganizationInv(db: Database, org: Id)
    requires DbInv(db)
    ensures DbInv(DeleteOrganization(db, org))
  {
    var db' := DeleteOrganization(db, org);
    assert forall h :: Live(db', h) ==> Live(db, h) && !BelongsTo(db, db.tokens[h].user, org);
  }

  lemma DeleteOrganizationEvolves(db: Database, org: Id)
    ensures Evolves(db, DeleteOrganization(db, org))
  {
    var db' := DeleteOrganization(db, org);
    forall i | Dead(db, i) ensures Dead(db', i) {
    }
  }

  /** The table of reset tokens takes no part in the invariant. */
  lemma ResetRowsKeep(db: Database, resets: map<Hash, ResetToken>)
    requires DbInv(db)
    ensures DbInv(db.(resets := resets)) && Evolves(db, db.(resets := resets))
  {
    var db' := db.(resets := resets);
    assert forall h :: Live(db', h) <==> Live(db, h);
    forall i | Dead(db, i) ensures Dead(db', i) {
    }
  }

  lemma NothingToFlag(db: Database, user: Id)
    requires ActiveSessionsOf(db, user) == {}
    ensures FlagUserSessions(db, user) == db
  {
    forall i | i in SessionsOf(db, user) ensures db.sessions[i].revoked {
      assert i !in ActiveSessionsOf(db, user);
    }
    assert FlagSessions(db.sessions, SessionsOf(db, user)) == db.sessions;
  }

  // ---------------------------------------------------------------- bulk revocation is repeated single revocation

  function RevokeEach(db: Database, sids: seq<Id>): Database
    decreases |sids|
  {
    if sids == [] then db else RevokeEach(RevokeSession(db, sids[0]), sids[1..])
  }

  lemma {:induction false} RevokeEachFlags(db: Database, sids: seq<Id>)
    ensures RevokeEach(db, sids) == db.(
              sessions := FlagSessions(db.sessions, set i | i in sids),
              tokens := FlagTokens(db.tokens, set h | h in db.tokens && db.tokens[h].session in sids))
    decreases |sids|
  {
    if sids != [] {
      var mid := RevokeSession(db, sids[0]);
      RevokeEachFlags(mid, sids[1..]);
      assert forall i :: i in sids <==> i == sids[0] || i in sids[1..];
      assert RevokeEach(db, sids).sessions == FlagSessions(db.sessions, set i | i in sids);
      assert RevokeEach(db, sids).tokens ==
             FlagTokens(db.tokens, set h | h in db.tokens && db.tokens[h].session in sids);
    } else {
      assert FlagSessions(db.sessions, set i | i in sids) == db.sessions;
      assert FlagTokens(db.tokens, set h | h in db.tokens && db.tokens[h].session in sids) == db.tokens;
    }
  }

  /** Revoking a user in bulk equals revoking the user's sessions one at a time, in any order. */
  lemma BulkRevocationIsRepeatedRevocation(db: Database, user: Id, sids: seq<Id>)
    requires TokensMatchSessions(db)
    requires forall i :: i in sids <==> i in SessionsOf(db, user)
    ensures RevokeAllUserSessions(db, user) == RevokeEach(db, sids)
  {
    RevokeEachFlags(db, sids);
    TokensOfUserAreOfSessions(db, user, sids);
    assert (set i | i in sids) == SessionsOf(db, user);
  }

  lemma TokensOfUserAreOfSessions(db: Database, user: Id, sids: seq<Id>)
    requires TokensMatchSessions(db)
    requires forall i :: i in sids <==> i in SessionsOf(db, user)
    ensures (set h | h in db.tokens && db.tokens[h].session in sids) == TokensOfUser(db, user)
  {
  }
}
