/** The repositories of sessions and users as one object: each transaction issues its statements in the source's order
    and is proved to do exactly what Transactions says. */
module SessionRepository {
  import opened Domain
  import opened Transactions

  class Repository {
    var users: map<Id, User>
    var sessions: map<Id, Session>
    var tokens: map<Hash, RefreshToken>
    var resets: map<Hash, ResetToken>
    var passwords: map<Id, string>

    ghost function Db(): Database
      reads this
    {
      Database(users, sessions, tokens, resets)
    }

    method CreateSessionAndToken(sid: Id, s: Session, hash: Hash, expiry: Millis) returns (ok: bool)
      modifies this`sessions, this`tokens
      ensures ok == old(CanInsert(Db(), sid, s, hash))
      ensures Db() == Transactions.CreateSessionAndToken(old(Db()), sid, s, hash, expiry)
    {
      ok := false;
      if sid in sessions || s.user !in users || users[s.user].row == Gone { return; }
      var withSession := sessions[sid := s];
      if hash in tokens { return; }           // the transaction rolls back
      sessions := withSession;
      tokens := tokens[hash := RefreshToken(sid, s.user, expiry, false)];
      ok := true;
    }

    method GetSession(sid: Id) returns (s: Option<Session>)
      ensures s.Some? <==> sid in sessions
      ensures s.Some? ==> s.value == sessions[sid]
    {
      s := if sid in sessions then Some(sessions[sid]) else None;
    }

    method GetRefreshToken(hash: Hash) returns (t: Option<RefreshToken>)
      ensures t.Some? <==> hash in tokens
      ensures t.Some? ==> t.value == tokens[hash]
    {
      t := if hash in tokens then Some(tokens[hash]) else None;
    }

    method RevokeSession(sid: Id)
      modifies this`sessions, this`tokens
      ensures Db() == Transactions.RevokeSession(old(Db()), sid)
    {
      if sid in sessions {
        sessions := sessions[sid := sessions[sid].(revoked := true)];
      }
      tokens := map h | h in tokens ::
        if tokens[h].session == sid then tokens[h].(revoked := true) else tokens[h];
    }

    method RevokeAllUserSessions(user: Id)
      modifies this`sessions, this`tokens
      ensures Db() == Transactions.RevokeAllUserSessions(old(Db()), user)
    {
      sessions := map i | i in sessions ::
        if sessions[i].user == user && !sessions[i].revoked then sessions[i].(revoked := true) else sessions[i];
      assert sessions == FlagSessions(old(sessions), SessionsOf(old(Db()), user));
      tokens := map h | h in tokens ::
        if tokens[h].user == user && !tokens[h].revoked then tokens[h].(revoked := true) else tokens[h];
      assert tokens == FlagTokens(old(tokens), TokensOfUser(old(Db()), user));
    }

    /** auth.users keeps each password's encoded hash; a soft-deleted row is not updated. */
    method UpdatePassword(user: Id, passwordHash: string)
      modifies this`passwords
      ensures passwords == if Present(users, user) then old(passwords)[user := passwordHash] else old(passwords)
    {
      if user in users && !users[user].deleted {
        passwords := passwords[user := passwordHash];
      }
    }

    /** The statements of removeMember: the user row, then the rows found, then the bulk update. */
    method SoftDelete(user: Id)
      modifies this`users
      ensures Db() == Transactions.SoftDelete(old(Db()), user)
    {
      if user in users && users[user].row != Gone {
        users := users[user := users[user].(active := false, row := SoftDeleted)];
      }
    }

    /** The cascade over users, sessions and both kinds of tokens. */
    method DeleteOrganization(org: Id)
      modifies this`users, this`sessions, this`tokens, this`resets
      ensures Db() == Transactions.DeleteOrganization(old(Db()), org)
    {
      var gone := set u | u in users && users[u].org == org;
      resets := map h | h in resets :: if resets[h].user in gone then resets[h].(used := true) else resets[h];
      assert resets == ResetsUsed(old(Db()), org);
      tokens := map h | h in tokens :: if tokens[h].user in gone then tokens[h].(revoked := true) else tokens[h];
      assert tokens == FlagTokens(old(tokens), TokensOfOrganization(old(Db()), org));
      sessions := map i | i in sessions ::
        if sessions[i].org == org then sessions[i].(revoked := true) else sessions[i];
      assert sessions == FlagSessions(old(sessions), SessionsOfOrganization(old(Db()), org));
      users := map u | u in users :: if u in gone then User(org, false, Gone) else users[u];
      assert users == UsersGone(old(users), org);
    }

    method FindActiveSessions(user: Id) returns (found: set<Id>)
      ensures found == ActiveSessionsOf(Db(), user)
    {
      found := set i | i in sessions && sessions[i].user == user && !sessions[i].revoked;
    }

    method FlagActiveSessions(user: Id)
      modifies this`sessions
      ensures Db() == FlagUserSessions(old(Db()), user)
    {
      sessions := map i | i in sessions ::
        if sessions[i].user == user && !sessions[i].revoked then sessions[i].(revoked := true) else sessions[i];
    }

    method RotateRefreshToken(oldHash: Hash, newHash: Hash, newExpiry: Millis, now: Millis) returns (r: Rotation)
      requires newHash !in tokens
      modifies this`sessions, this`tokens
      ensures r == RotateOutcome(old(Db()), oldHash, now)
      ensures Db() == Transactions.RotateRefreshToken(old(Db()), oldHash, newHash, newExpiry, now)
    {
      if oldHash !in tokens {
        return Unknown;
      }
      var oldToken := tokens[oldHash];
      if oldToken.revoked {
        RevokeSession(oldToken.session);
        return Replayed;
      }
      if oldToken.session !in sessions {
        return Orphaned;
      }
      tokens := tokens[oldHash := oldToken.(revoked := true)];
      tokens := tokens[newHash := RefreshToken(oldToken.session, oldToken.user, newExpiry, false)];
      var s := sessions[oldToken.session];
      if !s.revoked {
        sessions := sessions[oldToken.session := s.(lastActivity := now)];
      }
      r := Rotated(oldToken.session, sessions[oldToken.session]);
    }
  }
}
