/** The life of a login, with every instant written out: how long its access token and its refresh token are good for,
    and exactly which requests end them. */
module SessionLaws {
  import opened Domain
  import opened Transactions
  import opened Handlers
  import opened Refinement
  import opened SecondFactor
  import Finality

  // ---------------------------------------------------------------- what ends a session

  /** The request ends the session: a logout with one of its tokens, a logout-all or a confirmed reset of its user, a
      replay of one of its spent tokens, the user's removal, or the organization's deletion. */
  predicate Ends(w: World, op: Op, sid: Id) {
    sid in w.db.sessions &&
    var s := w.db.sessions[sid];
    match op
    case DoLogout(c, _) => c in w.issued && w.now < c.exp * 1000 && c.session == Some(sid)
    case DoLogoutAll(c, _) => c in w.issued && w.now < c.exp * 1000 && c.sub == s.user
    case DoResetConfirm(h) =>
      && h in w.db.resets && w.db.resets[h].user == s.user
      && !w.db.resets[h].used && w.now <= w.db.resets[h].expiresAt
    case DoRefresh(h, next) =>
      && h in w.db.tokens && w.db.tokens[h].session == sid && next !in w.db.tokens
      && w.db.tokens[h].revoked && w.now <= w.db.tokens[h].expiresAt
    case DoRemoveMember(org, user, _) => user == s.user && IsMember(w.db, org, user)
    case DoDeleteOrganization(org) => org == s.org
    case _ => false
  }

  predicate EndedIn(w: World, ops: seq<Op>, sid: Id)
    decreases |ops|
  {
    ops != [] && (Ends(w, ops[0], sid) || EndedIn(Apply(w, ops[0]), ops[1..], sid))
  }

  /** Of the session's row nothing has moved but the activity stamp and, exactly if it was ended, the flag. */
  predicate Moved(a: Database, b: Database, sid: Id, ended: bool) {
    && sid in a.sessions && sid in b.sessions
    && b.sessions[sid] == a.sessions[sid].(revoked := a.sessions[sid].revoked || ended,
                                           lastActivity := b.sessions[sid].lastActivity)
  }

  lemma RefreshMoves(w: World, h: Hash, next: Hash, sid: Id)
    requires sid in w.db.sessions
    ensures Moved(w.db, Refresh(w, h, next).db, sid, Ends(w, DoRefresh(h, next), sid))
  {
  }

  lemma CreationMoves(w: World, op: Op, sid: Id)
    requires sid in w.db.sessions && (op.DoLogin? || op.DoMfaVerify? || op.DoOnboard?)
    ensures Moved(w.db, Apply(w, op).db, sid, false)
  {
  }

  lemma RemovalMoves(w: World, op: Op, sid: Id)
    requires sid in w.db.sessions && (op.DoRemoveMember? || op.DoDeleteOrganization?)
    ensures Moved(w.db, Apply(w, op).db, sid, Ends(w, op, sid))
  {
  }

  lemma LogoutMoves(w: World, op: Op, sid: Id)
    requires sid in w.db.sessions && (op.DoLogout? || op.DoLogoutAll? || op.DoResetConfirm?)
    ensures Moved(w.db, Apply(w, op).db, sid, Ends(w, op, sid))
  {
  }

  /** Neither rows of sessions nor tokens are written by the others. */
  predicate Quiet(op: Op) {
    op.Tick? || op.Evict? || op.DoRegister? || op.DoResetRequest? || op.DoVerify?
  }

  lemma QuietStep(w: World, op: Op)
    requires Quiet(op)
    ensures Apply(w, op).db.tokens == w.db.tokens && Apply(w, op).db.sessions == w.db.sessions
  {
  }

  lemma EndStep(w: World, op: Op, sid: Id)
    requires sid in w.db.sessions
    ensures Moved(w.db, Apply(w, op).db, sid, Ends(w, op, sid))
  {
    if op.DoRefresh? {
      RefreshMoves(w, op.oldHash, op.newHash, sid);
    } else if op.DoLogin? || op.DoMfaVerify? || op.DoOnboard? {
      CreationMoves(w, op, sid);
    } else if op.DoRemoveMember? || op.DoDeleteOrganization? {
      RemovalMoves(w, op, sid);
    } else if op.DoLogout? || op.DoLogoutAll? || op.DoResetConfirm? {
      LogoutMoves(w, op, sid);
    } else {
      QuietStep(w, op);
    }
  }

  /** A session is revoked exactly when one of these requests has been made, whatever else happened. */
  lemma {:induction false} RevokedIffEnded(w: World, ops: seq<Op>, sid: Id)
    requires sid in w.db.sessions
    ensures Moved(w.db, Run(w, ops).db, sid, EndedIn(w, ops, sid))
    decreases |ops|
  {
    if ops != [] {
      EndStep(w, ops[0], sid);
      RevokedIffEnded(Apply(w, ops[0]), ops[1..], sid);
    }
  }

  // ---------------------------------------------------------------- what ends a refresh token

  /** The request uses the token up: its own rotation, or the end of its session except by the user's removal, which
      leaves tokens alone. */
  predicate UsesUp(w: World, op: Op, h: Hash) {
    h in w.db.tokens &&
    var t := w.db.tokens[h];
    match op
    case DoLogout(c, _) => c in w.issued && w.now < c.exp * 1000 && c.session == Some(t.session)
    case DoLogoutAll(c, _) => c in w.issued && w.now < c.exp * 1000 && c.sub == t.user
    case DoResetConfirm(r) =>
      && r in w.db.resets && w.db.resets[r].user == t.user
      && !w.db.resets[r].used && w.now <= w.db.resets[r].expiresAt
    case DoRefresh(o, next) =>
      && o in w.db.tokens && next !in w.db.tokens && w.now <= w.db.tokens[o].expiresAt
      && (o == h || (w.db.tokens[o].revoked && w.db.tokens[o].session == t.session))
    case DoDeleteOrganization(org) => BelongsTo(w.db, t.user, org)
    case _ => false
  }

  predicate UsedUpIn(w: World, ops: seq<Op>, h: Hash)
    decreases |ops|
  {
    ops != [] && (UsesUp(w, ops[0], h) || UsedUpIn(Apply(w, ops[0]), ops[1..], h))
  }

  predicate Used(a: Database, b: Database, h: Hash, used: bool) {
    h in a.tokens && h in b.tokens && b.tokens[h] == a.tokens[h].(revoked := a.tokens[h].revoked || used)
  }

  lemma RefreshUses(w: World, o: Hash, next: Hash, h: Hash)
    requires DbInv(w.db) && h in w.db.tokens
    ensures Used(w.db, Refresh(w, o, next).db, h, UsesUp(w, DoRefresh(o, next), h))
  {
  }

  lemma CreationUses(w: World, op: Op, h: Hash)
    requires h in w.db.tokens && (op.DoLogin? || op.DoMfaVerify? || op.DoOnboard?)
    ensures Used(w.db, Apply(w, op).db, h, false)
  {
  }

  lemma RemovalUses(w: World, op: Op, h: Hash)
    requires h in w.db.tokens && (op.DoRemoveMember? || op.DoDeleteOrganization?)
    ensures Used(w.db, Apply(w, op).db, h, UsesUp(w, op, h))
  {
  }

  lemma LogoutUses(w: World, op: Op, h: Hash)
    requires h in w.db.tokens && (op.DoLogout? || op.DoLogoutAll? || op.DoResetConfirm?)
    ensures Used(w.db, Apply(w, op).db, h, UsesUp(w, op, h))
  {
  }

  lemma UseStep(w: World, op: Op, h: Hash)
    requires DbInv(w.db) && h in w.db.tokens
    ensures Used(w.db, Apply(w, op).db, h, UsesUp(w, op, h))
  {
    if op.DoRefresh? {
      RefreshUses(w, op.oldHash, op.newHash, h);
    } else if op.DoLogin? || op.DoMfaVerify? || op.DoOnboard? {
      CreationUses(w, op, h);
    } else if op.DoRemoveMember? || op.DoDeleteOrganization? {
      RemovalUses(w, op, h);
    } else if op.DoLogout? || op.DoLogoutAll? || op.DoResetConfirm? {
      LogoutUses(w, op, h);
    } else {
      QuietStep(w, op);
    }
  }

  /** A refresh token is spent or revoked exactly when one of these requests has been made. */
  lemma {:induction false} SpentIffUsedUp(w: World, ops: seq<Op>, h: Hash)
    requires WorldInv(w) && h in w.db.tokens
    ensures Used(w.db, Run(w, ops).db, h, UsedUpIn(w, ops, h))
    decreases |ops|
  {
    if ops != [] {
      ApplySteps(w, ops[0]);
      UseStep(w, ops[0], h);
      SpentIffUsedUp(Apply(w, ops[0]), ops[1..], h);
    }
  }

  // ---------------------------------------------------------------- who is there

  /** The request takes the user away. */
  predicate TakesAway(w: World, op: Op, user: Id) {
    user in w.db.users &&
    match op
    case DoRemoveMember(org, u, _) => u == user && org == w.db.users[user].org
    case DoDeleteOrganization(org) => org == w.db.users[user].org
    case _ => false
  }

  predicate TakenAwayIn(w: World, ops: seq<Op>, user: Id)
    decreases |ops|
  {
    ops != [] && (TakesAway(w, ops[0], user) || TakenAwayIn(Apply(w, ops[0]), ops[1..], user))
  }

  /** Of the user's row nothing has changed unless the user was taken away. */
  predicate Stayed(a: Database, b: Database, user: Id, taken: bool) {
    && user in a.users && user in b.users && b.users[user].org == a.users[user].org
    && (b.users[user].deleted <==> a.users[user].deleted || taken)
    && (!b.users[user].deleted ==> b.users[user] == a.users[user])
  }

  lemma RemovalTakes(w: World, op: Op, user: Id)
    requires user in w.db.users && (op.DoRemoveMember? || op.DoDeleteOrganization?)
    ensures Stayed(w.db, Apply(w, op).db, user, TakesAway(w, op, user))
  {
  }

  lemma PresenceStep(w: World, op: Op, user: Id)
    requires user in w.db.users
    ensures Stayed(w.db, Apply(w, op).db, user, TakesAway(w, op, user))
  {
    if op.DoRemoveMember? || op.DoDeleteOrganization? {
      RemovalTakes(w, op, user);
    } else {
      OthersStay(w, op, user);
    }
  }

  lemma OthersStay(w: World, op: Op, user: Id)
    requires user in w.db.users && !op.DoRemoveMember? && !op.DoDeleteOrganization?
    ensures user in Apply(w, op).db.users && Apply(w, op).db.users[user] == w.db.users[user]
  {
  }

  /** A user is there until removed or the organization deleted, and not again after that. */
  lemma {:induction false} PresentUntilTakenAway(w: World, ops: seq<Op>, user: Id)
    requires user in w.db.users
    ensures Stayed(w.db, Run(w, ops).db, user, TakenAwayIn(w, ops, user))
    decreases |ops|
  {
    if ops != [] {
      PresenceStep(w, ops[0], user);
      PresentUntilTakenAway(Apply(w, ops[0]), ops[1..], user);
    }
  }

  /** Removal disables the row and marks it, keeps it in its organization, and touches no other user. */
  lemma RemovedRow(w: World, org: Id, user: Id, reached: set<Id>)
    requires IsMember(w.db, org, user)
    ensures Apply(w, DoRemoveMember(org, user, reached)).db.users
            == w.db.users[user := User(org, false, SoftDeleted)]
  {
  }

  /** Registration makes a present and active user of the organization, unless the id is in use. */
  lemma RegisteredIsPresent(w: World, user: Id, org: Id)
    ensures var w' := Apply(w, DoRegister(user, org));
            if user in w.db.users then w' == w
            else Present(w'.db.users, user) && w'.db.users[user].active && w'.db.users[user].org == org
                 && w'.db.sessions == w.db.sessions && w'.db.tokens == w.db.tokens
                 && w'.db.resets == w.db.resets && w'.issued == w.issued && w'.history == w.history
                 && w'.cache == w.cache && w'.now == w.now && w'.expiryMin == w.expiryMin
                 && forall u :: u != user ==> (u in w'.db.users <==> u in w.db.users)
                                              && (u in w.db.users ==> w'.db.users[u] == w.db.users[u])
  {
  }

  // ---------------------------------------------------------------- the rows of a login

  /** The claims of an access token made at the instant, which lasts so many minutes. */
  predicate AccessTokenFor(c: Claims, user: Id, org: Id, sid: Id, at: Millis, minutes: nat) {
    && c.sub == user && c.org == org && c.session == Some(sid) && !c.mfaPending
    && c.iat == at / 1000 && c.exp == (at + 60000 * minutes) / 1000
  }

  /** When a login is answered with a token. */
  lemma LoginMintsIff(w: World, user: Id, passwordOk: bool, mfaEnabled: bool, sid: Id, hash: Hash)
    requires DbInv(w.db)
    ensures var op := DoLogin(user, passwordOk, mfaEnabled, sid, hash);
            && (Minted(w, op).Some? <==> Present(w.db.users, user) && w.db.users[user].active && passwordOk
                                         && (mfaEnabled || Unused(w, sid, hash)))
            && (Minted(w, op).None? ==> Apply(w, op) == w)
  {
  }

  /** What a password login writes and hands out: a session and a refresh token that last thirty days, and an access
      token. */
  lemma LoginRows(w: World, user: Id, sid: Id, hash: Hash)
    requires Present(w.db.users, user) && w.db.users[user].active && Unused(w, sid, hash)
    ensures var op := DoLogin(user, true, false, sid, hash);
            var org := w.db.users[user].org;
            var db := Apply(w, op).db;
            && Minted(w, op).Some? && AccessTokenFor(Minted(w, op).value, user, org, sid, w.now, w.expiryMin)
            && db.sessions == w.db.sessions[sid := Session(user, org, w.now, w.now + 2592000000, w.now, false)]
            && db.tokens == w.db.tokens[hash := RefreshToken(sid, user, w.now + 2592000000, false)]
            && db.users == w.db.users && db.resets == w.db.resets && Apply(w, op).cache == w.cache
  {
  }

  /** Onboarding writes the same rows, for a user who did not exist. */
  lemma OnboardRows(w: World, user: Id, org: Id, sid: Id, hash: Hash)
    requires WorldInv(w) && user !in w.db.users && Unused(w, sid, hash)
    ensures var op := DoOnboard(user, org, sid, hash);
            var db := Apply(w, op).db;
            && Minted(w, op).Some? && AccessTokenFor(Minted(w, op).value, user, org, sid, w.now, w.expiryMin)
            && db.sessions == w.db.sessions[sid := Session(user, org, w.now, w.now + 2592000000, w.now, false)]
            && db.tokens == w.db.tokens[hash := RefreshToken(sid, user, w.now + 2592000000, false)]
            && db.users == w.db.users[user := User(org, true, Here)]
            && db.resets == w.db.resets && Apply(w, op).cache == w.cache
  {
  }

  /** An onboarded owner's token is good for as long as a login's. */
  lemma OnboardLasts(w: World, user: Id, org: Id, sid: Id, hash: Hash, ops: seq<Op>, f: Faults)
    requires WorldInv(w) && user !in w.db.users && Unused(w, sid, hash)
    ensures var onboard := DoOnboard(user, org, sid, hash);
            var w' := Run(Apply(w, onboard), ops);
            Minted(w, onboard).Some? &&
            (Accepts(w', Minted(w, onboard).value, f) <==>
             && w'.now < (w.now + 60000 * w.expiryMin) / 1000 * 1000 && w'.now <= w.now + 2592000000
             && !EndedIn(Apply(w, onboard), ops, sid))
  {
    var onboard := DoOnboard(user, org, sid, hash);
    OnboardRows(w, user, org, sid, hash);
    ApplySteps(w, onboard);
    AcceptedIff(Apply(w, onboard), ops, Minted(w, onboard).value, sid, f);
  }

  /** A session with its clock and its end: the token is accepted, whatever the caches lost or made up for, exactly
      until its own expiry, the session's, or the first request that ends the session. */
  lemma AcceptedIff(w: World, ops: seq<Op>, c: Claims, sid: Id, f: Faults)
    requires WorldInv(w) && c in w.issued && c.session == Some(sid) && sid in w.db.sessions
    ensures var w' := Run(w, ops);
            Accepts(w', c, f) <==>
            && w'.now < c.exp * 1000 && w'.now <= w.db.sessions[sid].expiresAt
            && !w.db.sessions[sid].revoked && !EndedIn(w, ops, sid)
  {
    RunSteps(w, ops);
    RevokedIffEnded(w, ops, sid);
  }

  lemma LoginLasts(w: World, user: Id, sid: Id, hash: Hash, ops: seq<Op>, f: Faults)
    requires WorldInv(w) && Present(w.db.users, user) && w.db.users[user].active && Unused(w, sid, hash)
    ensures var login := DoLogin(user, true, false, sid, hash);
            var w' := Run(Apply(w, login), ops);
            Minted(w, login).Some? &&
            (Accepts(w', Minted(w, login).value, f) <==>
             && w'.now < (w.now + 60000 * w.expiryMin) / 1000 * 1000 && w'.now <= w.now + 2592000000
             && !EndedIn(Apply(w, login), ops, sid))
  {
    var login := DoLogin(user, true, false, sid, hash);
    LoginRows(w, user, sid, hash);
    ApplySteps(w, login);
    AcceptedIff(Apply(w, login), ops, Minted(w, login).value, sid, f);
  }

  // ---------------------------------------------------------------- the rows of a rotation

  /** What a refresh that is answered writes and hands out, at whatever instant: the spent token is flagged, its
      successor lasts thirty days from now, the session keeps its end and is stamped with the instant, and nothing else
      is touched. */
  lemma RotationRows(w: World, hash: Hash, next: Hash)
    requires WorldInv(w) && Minted(w, DoRefresh(hash, next)).Some?
    ensures hash in w.db.tokens && !w.db.tokens[hash].revoked && w.db.tokens[hash].session in w.db.sessions
    ensures w.db.tokens[hash].user in w.db.users && hash != next
    ensures var t := w.db.tokens[hash];
            var s := w.db.sessions[t.session];
            var w' := Apply(w, DoRefresh(hash, next));
            && AccessTokenFor(Minted(w, DoRefresh(hash, next)).value, t.user, w.db.users[t.user].org, t.session,
                              w.now, w.expiryMin)
            && w'.db.tokens == w.db.tokens[hash := RefreshToken(t.session, t.user, t.expiresAt, true)]
                                          [next := RefreshToken(t.session, t.user, w.now + 2592000000, false)]
            && w'.db.sessions ==
               w.db.sessions[t.session := Session(s.user, s.org, s.createdAt, s.expiresAt, w.now, false)]
            && w'.db.users == w.db.users && w'.db.resets == w.db.resets && w'.cache == w.cache
            && w'.history == w.history
  {
    var t := w.db.tokens[hash];
    assert Live(w.db, hash);
    assert TokensMatchSessions(w.db) && SessionsMatchUsers(w.db) && RevokedMeansDead(w.db);
  }

  /** A live refresh token is answered, whatever happens in between, exactly while it has not expired, has not been
      used up, and its user is there. */
  lemma TokenLasts(w: World, hash: Hash, ops: seq<Op>, next: Hash)
    requires WorldInv(w) && Live(w.db, hash) && w.db.tokens[hash].user in w.db.users
    requires Present(w.db.users, w.db.tokens[hash].user) && next !in Run(w, ops).db.tokens
    ensures var w' := Run(w, ops);
            Minted(w', DoRefresh(hash, next)).Some? <==>
            && w'.now <= w.db.tokens[hash].expiresAt
            && !UsedUpIn(w, ops, hash) && !TakenAwayIn(w, ops, w.db.tokens[hash].user)
  {
    var w' := Run(w, ops);
    RunSteps(w, ops);
    SpentIffUsedUp(w, ops, hash);
    PresentUntilTakenAway(w, ops, w.db.tokens[hash].user);
    Finality.RefreshMints(w', hash, next);
  }

  /** So the refresh token of a login lasts thirty days from the login. */
  lemma LoginRefreshes(w: World, user: Id, sid: Id, hash: Hash, ops: seq<Op>, next: Hash)
    requires WorldInv(w) && Present(w.db.users, user) && w.db.users[user].active && Unused(w, sid, hash)
    requires next !in Run(Apply(w, DoLogin(user, true, false, sid, hash)), ops).db.tokens
    ensures var mid := Apply(w, DoLogin(user, true, false, sid, hash));
            var w' := Run(mid, ops);
            Minted(w', DoRefresh(hash, next)).Some? <==>
            w'.now <= w.now + 2592000000 && !UsedUpIn(mid, ops, hash) && !TakenAwayIn(mid, ops, user)
  {
    var login := DoLogin(user, true, false, sid, hash);
    LoginRows(w, user, sid, hash);
    ApplySteps(w, login);
    TokenLasts(Apply(w, login), hash, ops, next);
  }

  /** And so does the token of each rotation, counted from the rotation. */
  lemma RotationRefreshes(w: World, hash: Hash, next: Hash, ops: seq<Op>, third: Hash)
    requires WorldInv(w) && Minted(w, DoRefresh(hash, next)).Some?
    requires third !in Run(Apply(w, DoRefresh(hash, next)), ops).db.tokens
    ensures hash in w.db.tokens
    ensures var mid := Apply(w, DoRefresh(hash, next));
            var w' := Run(mid, ops);
            Minted(w', DoRefresh(next, third)).Some? <==>
            w'.now <= w.now + 2592000000 && !UsedUpIn(mid, ops, next)
            && !TakenAwayIn(mid, ops, w.db.tokens[hash].user)
  {
    RotationRows(w, hash, next);
    ApplySteps(w, DoRefresh(hash, next));
    TokenLasts(Apply(w, DoRefresh(hash, next)), next, ops, third);
  }

  // ---------------------------------------------------------------- the keys

  /** The keys of a logout and of a logout-all last fifteen minutes. */
  lemma LogoutKeysLast(w: World, c: Claims, f: Faults, sid: Id)
    requires Presentable(w.issued, c, w.now) && f.setOk
    ensures c.session == Some(sid) ==>
              Apply(w, DoLogout(c, f)).cache == Cache(w.cache.revoked[sid := w.now + 900000], w.cache.logoutAll)
    ensures Apply(w, DoLogoutAll(c, f)).cache
            == Cache(w.cache.revoked, w.cache.logoutAll[c.sub := Stamp(w.now / 1000, w.now + 900000)])
  {
  }

  /** A refusal by the database is remembered as long; nothing else that a verification does is. */
  lemma RefusalKeyLasts(w: World, c: Claims, f: Faults, sid: Id)
    requires Presentable(w.issued, c, w.now) && c.session == Some(sid) && f == Faults(true, true, true)
    ensures Apply(w, DoVerify(c, f)).cache ==
            if DbRejects(w.db, sid, w.now) && !LogoutAllRejects(w.cache, c, w.now)
               && !BlacklistRejects(w.cache, c, w.now)
            then Cache(w.cache.revoked[sid := w.now + 900000], w.cache.logoutAll) else w.cache
  {
  }

  /** The keys of a removal last a day. */
  lemma RemovalKeysLast(w: World, org: Id, user: Id, reached: set<Id>, sid: Id)
    requires IsMember(w.db, org, user) && sid in w.db.sessions && w.db.sessions[sid].user == user
    requires !w.db.sessions[sid].revoked && sid in reached
    ensures var keys := Apply(w, DoRemoveMember(org, user, reached)).cache.revoked;
            sid in keys && keys[sid] == w.now + 86400000
  {
  }
}
