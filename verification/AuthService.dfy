/** The Redis client, the HTTP handlers and the memberships service as objects: each method issues its
    statements in the source's order and is proved to perform exactly one step of Handlers. */
module AuthService {
  import opened Domain
  import opened Transactions
  import opened Handlers
  import opened SessionRepository

  lemma RemovedOneMore(c: Cache, done: set<Id>, sid: Id, reached: set<Id>, now: Millis)
    ensures SetRemoved(c, done + {sid}, reached, now) ==
            Handlers.SetRevoked(SetRemoved(c, done, reached, now), sid, now + REMOVAL_TTL, sid in reached)
  {
  }

  class Redis {
    var revoked: map<Id, Millis>
    var logoutAll: map<Id, Stamp>

    ghost function Keys(): Cache
      reads this
    {
      Cache(revoked, logoutAll)
    }

    method Exists(sid: Id, now: Millis) returns (found: bool)
      ensures found <==> sid in revoked && now < revoked[sid]
    {
      found := sid in revoked && now < revoked[sid];
    }

    method GetLogoutAll(user: Id, now: Millis) returns (second: Option<nat>)
      ensures second.Some? <==> user in logoutAll && now < logoutAll[user].expires
      ensures second.Some? ==> second.value == logoutAll[user].second
    {
      second := if user in logoutAll && now < logoutAll[user].expires then Some(logoutAll[user].second) else None;
    }

    method SetRevoked(sid: Id, now: Millis, ttl: nat, ok: bool)
      modifies this`revoked
      ensures Keys() == Handlers.SetRevoked(old(Keys()), sid, now + ttl, ok)
    {
      if ok {
        revoked := revoked[sid := now + ttl];
      }
    }

    /** The pipeline of removeMember, filled session by session in whatever order the rows came back. */
    method BlacklistEach(found: set<Id>, reached: set<Id>, now: Millis)
      modifies this`revoked
      ensures Keys() == SetRemoved(old(Keys()), found, reached, now)
    {
      var rest := found;
      while rest != {}
        invariant rest <= found
        invariant Keys() == SetRemoved(old(Keys()), found - rest, reached, now)
        decreases rest
      {
        var sid :| sid in rest;
        RemovedOneMore(old(Keys()), found - rest, sid, reached, now);
        SetRevoked(sid, now, REMOVAL_TTL, sid in reached);
        assert found - (rest - {sid}) == (found - rest) + {sid};
        rest := rest - {sid};
      }
      assert found - rest == found;
    }

    method SetLogoutAll(user: Id, now: Millis, ok: bool)
      modifies this`logoutAll
      ensures Keys() == Handlers.SetLogoutAll(old(Keys()), user, now, ok)
    {
      if ok {
        logoutAll := logoutAll[user := Stamp(now / 1000, now + BLACKLIST_TTL)];
      }
    }
  }

  class AuthHandler {
    const repo: Repository
    const redis: Redis
    const expiryMin: nat
    ghost var issued: set<Claims>
    ghost var history: seq<Event>

    constructor (repo: Repository, redis: Redis, expiryMin: nat)
      ensures this.repo == repo && this.redis == redis && this.expiryMin == expiryMin
      ensures issued == {} && history == []
    {
      this.repo, this.redis, this.expiryMin := repo, redis, expiryMin;
      issued, history := {}, [];
    }

    ghost function World(now: Millis): World
      reads this, repo, redis
    {
      Handlers.World(now, expiryMin, repo.Db(), redis.Keys(), issued, history)
    }

    /** Signing is the only source of claims that later pass the signature check. */
    method Sign(c: Claims) returns (token: Claims)
      modifies this`issued
      ensures token == c && issued == old(issued) + {c}
    {
      issued := issued + {c};
      token := c;
    }

    /** The tail shared by Login and MfaVerify: commit the session, then release the token. */
    method EstablishSession(user: Id, sid: Id, hash: Hash, now: Millis) returns (token: Option<Claims>)
      requires user in repo.users
      modifies this, repo`sessions, repo`tokens
      ensures World(now) == Establish(old(World(now)), user, sid, hash)
      ensures token.Some? <==> old(CanInsert(repo.Db(), sid, NewSession(user, repo.users[user].org, now), hash))
      ensures token.Some? ==> token.value == AccessClaims(user, old(repo.users[user].org), sid, now, expiryMin)
    {
      var org := repo.users[user].org;
      var s := NewSession(user, org, now);
      var ok := repo.CreateSessionAndToken(sid, s, hash, s.expiresAt);
      if !ok {
        return None;
      }
      history := history + [Created(sid, user, org, s.expiresAt)];
      var t := Sign(AccessClaims(user, org, sid, now, expiryMin));
      token := Some(t);
    }

    method Login(user: Id, passwordOk: bool, mfaEnabled: bool, sid: Id, hash: Hash, now: Millis)
      returns (token: Option<Claims>)
      modifies this, repo`sessions, repo`tokens
      ensures World(now) == Handlers.Login(old(World(now)), user, passwordOk, mfaEnabled, sid, hash)
      ensures token == Minted(old(World(now)), DoLogin(user, passwordOk, mfaEnabled, sid, hash))
      ensures token.Some? <==>
                && user in old(repo.users) && !old(repo.users)[user].deleted && old(repo.users)[user].active
                && passwordOk
                && (mfaEnabled || (sid !in old(repo.sessions) && hash !in old(repo.tokens)))
      ensures token.Some? ==>
                && token.value in issued
                && token.value == if mfaEnabled then MfaClaims(user, old(repo.users)[user].org, now)
                                  else AccessClaims(user, old(repo.users)[user].org, sid, now, expiryMin)
    {
      token := None;
      if user !in repo.users || repo.users[user].deleted { return; }
      if !repo.users[user].active { return; }
      if !passwordOk { return; }
      if mfaEnabled {
        var t := Sign(MfaClaims(user, repo.users[user].org, now));
        return Some(t);
      }
      token := EstablishSession(user, sid, hash, now);
    }

    method MfaVerify(c: Claims, codeOk: bool, sid: Id, hash: Hash, now: Millis)
      returns (token: Option<Claims>)
      requires c in issued
      modifies this, repo`sessions, repo`tokens
      ensures World(now) == Handlers.MfaVerify(old(World(now)), c, codeOk, sid, hash)
      ensures token == Minted(old(World(now)), DoMfaVerify(c, codeOk, sid, hash))
      ensures token.Some? <==>
                && Unexpired(c, now) && c.mfaPending && codeOk
                && c.sub in old(repo.users) && !old(repo.users)[c.sub].deleted
                && sid !in old(repo.sessions) && hash !in old(repo.tokens)
      ensures token.Some? ==>
                && token.value in issued
                && token.value == AccessClaims(c.sub, old(repo.users)[c.sub].org, sid, now, expiryMin)
    {
      token := None;
      if !Unexpired(c, now) || !c.mfaPending || !codeOk { return; }
      if c.sub !in repo.users || repo.users[c.sub].deleted { return; }
      token := EstablishSession(c.sub, sid, hash, now);
    }

    method Refresh(oldHash: Hash, newHash: Hash, now: Millis) returns (token: Option<Claims>)
      requires newHash !in repo.tokens
      modifies this, repo`sessions, repo`tokens
      ensures World(now) == Handlers.Refresh(old(World(now)), oldHash, newHash)
      ensures token == Minted(old(World(now)), DoRefresh(oldHash, newHash))
      ensures token.Some? <==>
                && old(CanSpend(repo.Db(), oldHash)) && now <= old(repo.tokens)[oldHash].expiresAt
                && Present(old(repo.users), old(repo.sessions)[old(repo.tokens)[oldHash].session].user)
      ensures token.Some? ==>
                var sid := old(repo.tokens)[oldHash].session;
                var user := old(repo.sessions)[sid].user;
                && token.value in issued
                && token.value == AccessClaims(user, old(repo.users)[user].org, sid, now, expiryMin)
    {
      token := None;
      var oldToken := repo.GetRefreshToken(oldHash);
      if oldToken.None? || oldToken.value.expiresAt < now { return; }
      var r := repo.RotateRefreshToken(oldHash, newHash, now + SESSION_LIFETIME, now);
      if r.Replayed? {
        history := history + [ReplayCaught(oldToken.value.session)];
      }
      if !r.Rotated? { return; }
      var user := r.session.user;
      if user !in repo.users || repo.users[user].deleted { return; }
      var t := Sign(AccessClaims(user, repo.users[user].org, r.sid, now, expiryMin));
      token := Some(t);
    }

    method Logout(c: Claims, f: Faults, now: Millis)
      requires c in issued
      modifies this, repo`sessions, repo`tokens, redis
      ensures World(now) == Handlers.Logout(old(World(now)), c, f)
    {
      if !Unexpired(c, now) || c.session.None? { return; }
      repo.RevokeSession(c.session.value);
      redis.SetRevoked(c.session.value, now, BLACKLIST_TTL, f.setOk);
      history := history + [LoggedOut(c.session.value)];
    }

    method LogoutAll(c: Claims, f: Faults, now: Millis)
      requires c in issued
      modifies this, repo`sessions, repo`tokens, redis
      ensures World(now) == Handlers.LogoutAll(old(World(now)), c, f)
    {
      if !Unexpired(c, now) { return; }
      repo.RevokeAllUserSessions(c.sub);
      redis.SetLogoutAll(c.sub, now, f.setOk);
      history := history + [LoggedOutAll(c.sub)];
    }

    /** Stores the new password's hash, consumes the reset token, and ends every session of its user. */
    method PasswordResetConfirm(hash: Hash, passwordHash: string, now: Millis) returns (ok: bool)
      modifies this, repo`sessions, repo`tokens, repo`resets, repo`passwords
      ensures World(now) == Handlers.PasswordResetConfirm(old(World(now)), hash)
      ensures ok <==>
                hash in old(repo.resets) && !old(repo.resets)[hash].used && now <= old(repo.resets)[hash].expiresAt
      ensures repo.resets == if ok then old(repo.resets)[hash := old(repo.resets)[hash].(used := true)]
                              else old(repo.resets)
      ensures repo.passwords ==
              if ok && Present(repo.users, old(repo.resets)[hash].user)
              then old(repo.passwords)[old(repo.resets)[hash].user := passwordHash] else old(repo.passwords)
    {
      if hash !in repo.resets { return false; }
      var t := repo.resets[hash];
      if t.used || t.expiresAt < now { return false; }
      repo.UpdatePassword(t.user, passwordHash);
      repo.resets := repo.resets[hash := t.(used := true)];
      repo.RevokeAllUserSessions(t.user);
      history := history + [PasswordReset(t.user)];
      ok := true;
    }

    method Verify(c: Claims, f: Faults, now: Millis) returns (authenticated: bool)
      requires c in issued
      modifies redis
      ensures authenticated == old(Accepts(World(now), c, f))
      ensures World(now) == Handlers.Verify(old(World(now)), c, f)
    {
      authenticated := false;
      if !Unexpired(c, now) { return; }
      if f.getOk {
        var second := redis.GetLogoutAll(c.sub, now);
        if second.Some? && c.iat < second.value { return; }
      }
      if c.session.None? { return; }
      var sid := c.session.value;
      if f.existsOk {
        var blacklisted := redis.Exists(sid, now);
        if blacklisted { return; }
      }
      var session := repo.GetSession(sid);
      if session.None? || session.value.revoked || session.value.expiresAt < now {
        redis.SetRevoked(sid, now, BLACKLIST_TTL, f.setOk);
        return;
      }
      authenticated := true;
    }

    /** The internal endpoint repeats the three layers and reaches the same verdict and the same caches. */
    method InternalVerifyToken(c: Claims, f: Faults, now: Millis) returns (authenticated: bool)
      requires c in issued
      modifies redis
      ensures authenticated == old(Accepts(World(now), c, f))
      ensures World(now) == Handlers.Verify(old(World(now)), c, f)
    {
      if !Unexpired(c, now) { return false; }
      var second: Option<nat> := None;
      if f.getOk {
        second := redis.GetLogoutAll(c.sub, now);
      }
      if second.Some? && c.iat < second.value { return false; }
      if c.session.None? { return false; }
      var blacklisted := false;
      if f.existsOk {
        blacklisted := redis.Exists(c.session.value, now);
      }
      if blacklisted { return false; }
      var session := repo.GetSession(c.session.value);
      var valid := session.Some? && !session.value.revoked && now <= session.value.expiresAt;
      assert valid <==> !DbRejects(repo.Db(), c.session.value, now);
      if valid { return true; }
      redis.SetRevoked(c.session.value, now, BLACKLIST_TTL, f.setOk);
      return false;
    }
  }

  class OrganizationsService {
    const auth: AuthHandler

    constructor (auth: AuthHandler)
      ensures this.auth == auth
    {
      this.auth := auth;
    }

    /** One DELETE, which cascades; Redis is not told. */
    method Remove(org: Id, now: Millis)
      modifies auth`history, auth.repo`users, auth.repo`sessions, auth.repo`tokens, auth.repo`resets
      ensures auth.World(now) == RemoveOrganization(old(auth.World(now)), org)
    {
      var repo := auth.repo;
      repo.DeleteOrganization(org);
      auth.history := auth.history + [OrganizationDeleted(org)];
    }
  }

  class MembershipsService {
    const auth: AuthHandler

    constructor (auth: AuthHandler)
      ensures this.auth == auth
    {
      this.auth := auth;
    }

    method RemoveMember(org: Id, user: Id, reached: set<Id>, now: Millis) returns (found: bool)
      modifies auth, auth.repo`users, auth.repo`sessions, auth.redis
      ensures found == old(IsMember(auth.repo.Db(), org, user))
      ensures auth.World(now) == Handlers.RemoveMember(old(auth.World(now)), org, user, reached)
    {
      var repo := auth.repo;
      if user !in repo.users || repo.users[user].org != org || repo.users[user].deleted {
        return false;
      }
      repo.SoftDelete(user);
      var activeSessions := repo.FindActiveSessions(user);
      if activeSessions != {} {
        repo.FlagActiveSessions(user);
        auth.redis.BlacklistEach(activeSessions, reached, now);
      } else {
        NothingToFlag(repo.Db(), user);
        assert SetRemoved(auth.redis.Keys(), {}, reached, now) == auth.redis.Keys();
      }
      auth.history := auth.history + [Removed(user)];
      found := true;
    }
  }
}
