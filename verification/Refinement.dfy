/** Layered verification refines the history: in every run, whatever Redis loses or fails to answer, a
    released access token is accepted exactly when the history says so. */
module Refinement {
  import opened Domain
  import opened Transactions
  import opened Handlers
  import opened HistorySpec

  // ---------------------------------------------------------------- invariant

  ghost predicate ClaimsBound(w: World) {
    forall c :: c in w.issued ==>
      && c.sub in w.db.users && c.org == w.db.users[c.sub].org && c.iat * 1000 <= w.now
      && (c.session.Some? ==>
          && c.session.value in w.db.sessions
          && w.db.sessions[c.session.value].user == c.sub && w.db.sessions[c.session.value].org == c.org
          && c.exp == c.iat + w.expiryMin * 60)
  }

  /** A blacklisted session is one the database refuses. */
  ghost predicate BlacklistSound(w: World) {
    forall sid :: sid in w.cache.revoked ==> sid in w.db.sessions && DbRejects(w.db, sid, w.now)
  }

  /** A token older than the recorded logout belongs to a revoked session. */
  ghost predicate LogoutAllSound(w: World) {
    forall u :: u in w.cache.logoutAll ==>
      && w.cache.logoutAll[u].second * 1000 <= w.now
      && forall c :: c in w.issued && c.sub == u && c.session.Some? && c.iat < w.cache.logoutAll[u].second ==>
           c.session.value in w.db.sessions && w.db.sessions[c.session.value].revoked
  }

  ghost predicate RemovedAreOut(db: Database) {
    forall i :: i in db.sessions && db.sessions[i].user in db.users && db.users[db.sessions[i].user].deleted ==>
      db.sessions[i].revoked
  }

  ghost predicate WorldInv(w: World) {
    && DbInv(w.db) && Recorded(w.history, w.db) && RemovedAreOut(w.db)
    && ClaimsBound(w) && BlacklistSound(w) && LogoutAllSound(w)
  }

  /** What every step guarantees about its successor. */
  ghost predicate Steps(w: World, w': World) {
    WorldInv(w') && Evolves(w.db, w'.db) && w.now <= w'.now && w'.expiryMin == w.expiryMin && w.issued <= w'.issued
  }

  // ---------------------------------------------------------------- pieces shared by the steps

  lemma RefusalIsPermanent(a: Database, b: Database, sid: Id, t: Millis, t': Millis)
    requires Evolves(a, b) && t <= t' && sid in a.sessions && DbRejects(a, sid, t)
    ensures sid in b.sessions && DbRejects(b, sid, t')
  {
  }

  /** Moving the database and the clock forward disturbs neither cache nor any claim. */
  lemma MoveForward(w: World, w': World)
    requires WorldInv(w) && Evolves(w.db, w'.db) && w.now <= w'.now
    requires w'.cache == w.cache && w'.issued == w.issued && w'.expiryMin == w.expiryMin
    ensures ClaimsBound(w') && BlacklistSound(w') && LogoutAllSound(w')
  {
  }

  lemma BlacklistKeeps(w: World, sid: Id, until: Millis, ok: bool)
    requires WorldInv(w) && sid in w.db.sessions && DbRejects(w.db, sid, w.now)
    ensures WorldInv(w.(cache := SetRevoked(w.cache, sid, until, ok)))
  {
  }

  /** A token minted now is never older than a recorded logout. */
  lemma IssueKeeps(w: World, c: Claims)
    requires WorldInv(w)
    requires c.sub in w.db.users && c.org == w.db.users[c.sub].org && c.iat == w.now / 1000
    requires c.session.Some? ==>
               && c.session.value in w.db.sessions
               && w.db.sessions[c.session.value].user == c.sub && w.db.sessions[c.session.value].org == c.org
               && c.exp == c.iat + w.expiryMin * 60
    ensures WorldInv(w.(issued := w.issued + {c}))
  {
  }

  lemma RevocationKeeps(w: World, db': Database, e: Event)
    requires WorldInv(w) && DbInv(db') && Evolves(w.db, db') && RemovedAreOut(db') && !e.Created?
    requires db'.sessions.Keys == w.db.sessions.Keys
    requires forall i :: i in w.db.sessions ==>
               (db'.sessions[i].revoked <==>
                w.db.sessions[i].revoked || Hits(e, i, w.db.sessions[i].user, w.db.sessions[i].org))
    ensures Steps(w, w.(db := db', history := w.history + [e]))
  {
    var w' := w.(db := db', history := w.history + [e]);
    RecordedRevocation(w.history, w.db, db', e);
    MoveForward(w, w');
  }

  /** A database change that revokes nothing and creates no session leaves the history as it is. */
  lemma QuietSteps(w: World, db': Database)
    requires WorldInv(w) && DbInv(db') && Evolves(w.db, db') && RemovedAreOut(db')
    requires db'.sessions.Keys == w.db.sessions.Keys
    requires forall i :: i in w.db.sessions ==> (db'.sessions[i].revoked <==> w.db.sessions[i].revoked)
    ensures Steps(w, w.(db := db'))
  {
    RecordedUnchanged(w.history, w.db, db');
    MoveForward(w, w.(db := db'));
  }

  lemma IssueSteps(w: World, mid: World, c: Claims)
    requires Steps(w, mid)
    requires c.sub in mid.db.users && c.org == mid.db.users[c.sub].org && c.iat == mid.now / 1000
    requires c.session.Some? ==>
               && c.session.value in mid.db.sessions
               && mid.db.sessions[c.session.value].user == c.sub && mid.db.sessions[c.session.value].org == c.org
               && c.exp == c.iat + mid.expiryMin * 60
    ensures Steps(w, mid.(issued := mid.issued + {c}))
  {
  }

  // ---------------------------------------------------------------- the steps

  lemma EstablishSteps(w: World, user: Id, sid: Id, hash: Hash)
    requires WorldInv(w) && user in w.db.users && !w.db.users[user].deleted
    ensures Steps(w, Establish(w, user, sid, hash))
  {
    var org := w.db.users[user].org;
    var s := NewSession(user, org, w.now);
    EvolvesReflexive(w.db);
    if CanInsert(w.db, sid, s, hash) {
      var db' := CreateSessionAndToken(w.db, sid, s, hash, s.expiresAt);
      var e := Created(sid, user, org, s.expiresAt);
      var mid := w.(db := db', history := w.history + [e]);
      CreateKeeps(w.db, sid, s, hash, s.expiresAt);
      RecordedCreation(w.history, w.db, db', e);
      MoveForward(w, mid);
      IssueKeeps(mid, AccessClaims(user, org, sid, w.now, w.expiryMin));
    }
  }

  lemma RegisterSteps(w: World, user: Id, org: Id)
    requires WorldInv(w)
    ensures Steps(w, Register(w, user, org))
  {
    InsertUserKeeps(w.db, user, org);
    QuietSteps(w, InsertUser(w.db, user, org));
  }

  lemma OnboardSteps(w: World, user: Id, org: Id, sid: Id, hash: Hash)
    requires WorldInv(w)
    ensures Steps(w, Onboard(w, user, org, sid, hash))
  {
    EvolvesReflexive(w.db);
    if user !in w.db.users {
      var mid := Register(w, user, org);
      RegisterSteps(w, user, org);
      EstablishSteps(mid, user, sid, hash);
      EvolvesTransitive(w.db, mid.db, Establish(mid, user, sid, hash).db);
    }
  }

  lemma LoginSteps(w: World, user: Id, passwordOk: bool, mfaEnabled: bool, sid: Id, hash: Hash)
    requires WorldInv(w)
    ensures Steps(w, Login(w, user, passwordOk, mfaEnabled, sid, hash))
  {
    EvolvesReflexive(w.db);
    if user in w.db.users && !w.db.users[user].deleted {
      IssueKeeps(w, MfaClaims(user, w.db.users[user].org, w.now));
      EstablishSteps(w, user, sid, hash);
    }
  }

  lemma MfaVerifySteps(w: World, c: Claims, codeOk: bool, sid: Id, hash: Hash)
    requires WorldInv(w)
    ensures Steps(w, MfaVerify(w, c, codeOk, sid, hash))
  {
    EvolvesReflexive(w.db);
    if c.sub in w.db.users && !w.db.users[c.sub].deleted {
      EstablishSteps(w, c.sub, sid, hash);
    }
  }

  lemma ReplaySteps(w: World, oldHash: Hash)
    requires WorldInv(w) && oldHash in w.db.tokens
    ensures var sid := w.db.tokens[oldHash].session;
            Steps(w, w.(db := RevokeSession(w.db, sid), history := w.history + [ReplayCaught(sid)]))
  {
    var sid := w.db.tokens[oldHash].session;
    RevokeSessionKeeps(w.db, sid);
    RevocationKeeps(w, RevokeSession(w.db, sid), ReplayCaught(sid));
  }

  lemma SpendIsQuiet(h: seq<Event>, db: Database, oldHash: Hash, newHash: Hash, newExpiry: Millis, now: Millis)
    requires CanSpend(db, oldHash) && RemovedAreOut(db) && Recorded(h, db)
    ensures var db' := SpendToken(db, oldHash, newHash, newExpiry, now);
            RemovedAreOut(db') && Recorded(h, db')
  {
    RecordedUnchanged(h, db, SpendToken(db, oldHash, newHash, newExpiry, now));
  }

  /** What a refresh does, outcome by outcome. */
  lemma UnknownRefresh(w: World, oldHash: Hash, newHash: Hash)
    requires oldHash !in w.db.tokens || w.db.tokens[oldHash].expiresAt < w.now
    ensures Refresh(w, oldHash, newHash) == w
  {
  }

  lemma ReplayRefresh(w: World, oldHash: Hash, newHash: Hash)
    requires oldHash in w.db.tokens && newHash !in w.db.tokens && w.now <= w.db.tokens[oldHash].expiresAt
    requires w.db.tokens[oldHash].revoked
    ensures var w' := Refresh(w, oldHash, newHash);
            w' == w.(db := RevokeSession(w.db, w.db.tokens[oldHash].session), history := w'.history)
  {
  }

  lemma SpendingRefresh(w: World, oldHash: Hash, newHash: Hash)
    requires CanSpend(w.db, oldHash) && newHash !in w.db.tokens && w.now <= w.db.tokens[oldHash].expiresAt
    ensures var sid := w.db.tokens[oldHash].session;
            var user := w.db.sessions[sid].user;
            Refresh(w, oldHash, newHash) ==
            w.(db := SpendToken(w.db, oldHash, newHash, w.now + SESSION_LIFETIME, w.now),
               issued := if Present(w.db.users, user)
                         then w.issued + {AccessClaims(user, w.db.users[user].org, sid, w.now, w.expiryMin)}
                         else w.issued)
  {
  }

  lemma SpendSteps(w: World, oldHash: Hash, newHash: Hash, newExpiry: Millis)
    requires WorldInv(w) && newHash !in w.db.tokens && CanSpend(w.db, oldHash)
    ensures Steps(w, w.(db := SpendToken(w.db, oldHash, newHash, newExpiry, w.now)))
  {
    SpendInv(w.db, oldHash, newHash, newExpiry, w.now);
    SpendEvolves(w.db, oldHash, newHash, newExpiry, w.now);
    SpendIsQuiet(w.history, w.db, oldHash, newHash, newExpiry, w.now);
    MoveForward(w, w.(db := SpendToken(w.db, oldHash, newHash, newExpiry, w.now)));
  }

  lemma RefreshSpendSteps(w: World, oldHash: Hash, newHash: Hash)
    requires WorldInv(w) && newHash !in w.db.tokens && CanSpend(w.db, oldHash)
    requires w.now <= w.db.tokens[oldHash].expiresAt
    ensures Steps(w, Refresh(w, oldHash, newHash))
  {
    var sid := w.db.tokens[oldHash].session;
    var u := w.db.sessions[sid].user;
    var spent := w.(db := SpendToken(w.db, oldHash, newHash, w.now + SESSION_LIFETIME, w.now));
    SpendSteps(w, oldHash, newHash, w.now + SESSION_LIFETIME);
    SpendingRefresh(w, oldHash, newHash);
    if Present(w.db.users, u) {
      IssueSteps(w, spent, AccessClaims(u, w.db.users[u].org, sid, w.now, w.expiryMin));
    }
  }

  lemma RefreshSteps(w: World, oldHash: Hash, newHash: Hash)
    requires WorldInv(w)
    ensures Steps(w, Refresh(w, oldHash, newHash))
  {
    if oldHash !in w.db.tokens || newHash in w.db.tokens || w.db.tokens[oldHash].expiresAt < w.now {
      EvolvesReflexive(w.db);
    } else {
      match RotateOutcome(w.db, oldHash, w.now)
      case Unknown =>
      case Orphaned =>
      case Replayed => ReplaySteps(w, oldHash);
      case Rotated(_, _) => RefreshSpendSteps(w, oldHash, newHash);
    }
  }

  lemma LogoutSteps(w: World, c: Claims, f: Faults)
    requires WorldInv(w)
    ensures Steps(w, Logout(w, c, f))
  {
    EvolvesReflexive(w.db);
    if c in w.issued && c.session.Some? {
      var sid := c.session.value;
      var db' := RevokeSession(w.db, sid);
      RevokeSessionKeeps(w.db, sid);
      RevocationKeeps(w, db', LoggedOut(sid));
      BlacklistKeeps(w.(db := db', history := w.history + [LoggedOut(sid)]), sid, w.now + BLACKLIST_TTL, f.setOk);
    }
  }

  lemma RevokeAllSteps(w: World, user: Id, e: Event)
    requires WorldInv(w) && (e == LoggedOutAll(user) || e == PasswordReset(user))
    ensures Steps(w, w.(db := RevokeAllUserSessions(w.db, user), history := w.history + [e]))
  {
    RevokeAllKeeps(w.db, user);
    RevocationKeeps(w, RevokeAllUserSessions(w.db, user), e);
  }

  lemma LogoutAllSteps(w: World, c: Claims, f: Faults)
    requires WorldInv(w)
    ensures Steps(w, LogoutAll(w, c, f))
  {
    EvolvesReflexive(w.db);
    if Presentable(w.issued, c, w.now) {
      RevokeAllSteps(w, c.sub, LoggedOutAll(c.sub));
      var w' := LogoutAll(w, c, f);
      forall t | t in w.issued && t.sub == c.sub && t.session.Some?
        ensures t.session.value in w'.db.sessions && w'.db.sessions[t.session.value].revoked
      {
        assert t.session.value in SessionsOf(w.db, c.sub);
      }
    }
  }

  lemma ResetConfirmSteps(w: World, hash: Hash)
    requires WorldInv(w)
    ensures Steps(w, PasswordResetConfirm(w, hash))
  {
    EvolvesReflexive(w.db);
    if hash in w.db.resets {
      var t := w.db.resets[hash];
      var mid := w.(db := w.db.(resets := w.db.resets[hash := t.(used := true)]));
      ResetRowsSteps(w, mid.db.resets);
      RevokeAllSteps(mid, t.user, PasswordReset(t.user));
      EvolvesTransitive(w.db, mid.db, RevokeAllUserSessions(mid.db, t.user));
    }
  }

  /** The table of reset tokens takes no part in any invariant. */
  lemma ResetRowsSteps(w: World, resets: map<Hash, ResetToken>)
    requires WorldInv(w)
    ensures Steps(w, w.(db := w.db.(resets := resets)))
  {
    ResetRowsKeep(w.db, resets);
    QuietSteps(w, w.db.(resets := resets));
  }

  lemma RemoveMemberSteps(w: World, org: Id, user: Id, reached: set<Id>)
    requires WorldInv(w)
    ensures Steps(w, RemoveMember(w, org, user, reached))
  {
    EvolvesReflexive(w.db);
    if IsMember(w.db, org, user) {
      var gone := SoftDelete(w.db, user);
      var db' := FlagUserSessions(gone, user);
      SoftDeleteKeeps(w.db, user);
      FlagUserSessionsKeeps(gone, user);
      EvolvesTransitive(w.db, gone, db');
      assert RemovedAreOut(db') by {
        assert forall u :: u in db'.users && u != user ==> db'.users[u] == w.db.users[u];
      }
      RevocationKeeps(w, db', Removed(user));
    }
  }

  lemma RemoveOrganizationSteps(w: World, org: Id)
    requires WorldInv(w)
    ensures Steps(w, RemoveOrganization(w, org))
  {
    var db' := DeleteOrganization(w.db, org);
    DeleteOrganizationInv(w.db, org);
    DeleteOrganizationEvolves(w.db, org);
    assert SessionsMatchUsers(w.db);
    RevocationKeeps(w, db', OrganizationDeleted(org));
  }

  lemma VerifySteps(w: World, c: Claims, f: Faults)
    requires WorldInv(w)
    ensures Steps(w, Verify(w, c, f))
  {
  }

  lemma IssuingSteps(w: World, op: Op)
    requires WorldInv(w)
    requires op.DoRegister? || op.DoLogin? || op.DoMfaVerify? || op.DoOnboard? || op.DoRefresh?
    ensures Steps(w, Apply(w, op))
  {
    match op
    case DoRegister(u, org) => RegisterSteps(w, u, org);
    case DoLogin(u, pw, mfa, sid, h) => LoginSteps(w, u, pw, mfa, sid, h);
    case DoMfaVerify(c, ok, sid, h) => MfaVerifySteps(w, c, ok, sid, h);
    case DoOnboard(u, org, sid, h) => OnboardSteps(w, u, org, sid, h);
    case DoRefresh(o, n) => RefreshSteps(w, o, n);
  }

  lemma ApplySteps(w: World, op: Op)
    requires WorldInv(w)
    ensures Steps(w, Apply(w, op))
  {
    match op
    case Tick(_) => EvolvesReflexive(w.db); MoveForward(w, Apply(w, op));
    case Evict(_, _) => EvolvesReflexive(w.db);
    case DoLogout(c, f) => LogoutSteps(w, c, f);
    case DoLogoutAll(c, f) => LogoutAllSteps(w, c, f);
    case DoResetRequest(u, h) => EvolvesReflexive(w.db); ResetRowsSteps(w, PasswordResetRequest(w, u, h).db.resets);
    case DoResetConfirm(h) => ResetConfirmSteps(w, h);
    case DoRemoveMember(org, u, reached) => RemoveMemberSteps(w, org, u, reached);
    case DoDeleteOrganization(org) => RemoveOrganizationSteps(w, org);
    case DoVerify(c, f) => VerifySteps(w, c, f);
    case _ => IssuingSteps(w, op);
  }

  lemma {:induction false} RunSteps(w: World, ops: seq<Op>)
    requires WorldInv(w)
    ensures Steps(w, Run(w, ops))
    decreases |ops|
  {
    EvolvesReflexive(w.db);
    if ops != [] {
      var mid := Apply(w, ops[0]);
      ApplySteps(w, ops[0]);
      RunSteps(mid, ops[1..]);
      EvolvesTransitive(w.db, mid.db, Run(w, ops).db);
    }
  }

  lemma ReachableInv(now: Millis, expiryMin: nat, ops: seq<Op>)
    ensures WorldInv(Run(Start(now, expiryMin), ops))
  {
    RunSteps(Start(now, expiryMin), ops);
  }

  // ---------------------------------------------------------------- main results

  /** In every reachable world, for every released token and every pattern of Redis failures, the three
      layers together decide exactly what the history decides. */
  lemma VerifyRefinesHistory(now: Millis, expiryMin: nat, ops: seq<Op>, c: Claims, f: Faults)
    requires c in Run(Start(now, expiryMin), ops).issued
    ensures var w := Run(Start(now, expiryMin), ops);
            Accepts(w, c, f) <==> AcceptedByHistory(w.history, c, w.now)
  {
    var w := Run(Start(now, expiryMin), ops);
    RunSteps(Start(now, expiryMin), ops);
    HistoryReadsDatabase(w.history, w.db, c, w.now);
  }

  /** Neither cache ever changes an answer: any two fault patterns and any two cache contents that a run
      could have left behind give the same verdict. */
  lemma CachesAreTransparent(w1: World, w2: World, c: Claims, f1: Faults, f2: Faults)
    requires WorldInv(w1) && WorldInv(w2) && w2 == w1.(cache := w2.cache)
    ensures Accepts(w1, c, f1) <==> Accepts(w2, c, f2)
  {
  }

  /** A refused token stays refused through the rest of every run. */
  lemma RefusalLasts(w: World, ops: seq<Op>, c: Claims, f: Faults, f': Faults)
    requires WorldInv(w) && c in w.issued && !Accepts(w, c, f)
    ensures !Accepts(Run(w, ops), c, f')
  {
    RunSteps(w, ops);
    if c.session.Some? && DbRejects(w.db, c.session.value, w.now) {
      RefusalIsPermanent(w.db, Run(w, ops).db, c.session.value, w.now, Run(w, ops).now);
    }
  }
}
