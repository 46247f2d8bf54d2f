/** The rows that an organization's deletion removes stay in the model as tombstones. Nothing can tell them from missing
    rows: with the rows really removed, every run answers, caches and accepts the same. */
module Tombstones {
  import opened Domain
  import opened Transactions
  import opened Handlers
  import opened HistorySpec
  import opened Refinement

  // ---------------------------------------------------------------- removing rows for real

  /** The database without the organization's users and what cascades from them. */
  function Purge(db: Database, org: Id): Database {
    Database(
      map u | u in db.users && db.users[u].org != org :: db.users[u],
      map i | i in db.sessions && db.sessions[i].org != org :: db.sessions[i],
      map h | h in db.tokens && !BelongsTo(db, db.tokens[h].user, org) :: db.tokens[h],
      map h | h in db.resets && !BelongsTo(db, db.resets[h].user, org) :: db.resets[h])
  }

  /** A handler's step when deletion removes the rows. */
  function ApplyPurging(w: World, op: Op): World {
    match op
    case DoDeleteOrganization(org) =>
      w.(db := Purge(w.db, org), history := w.history + [OrganizationDeleted(org)])
    case _ => Apply(w, op)
  }

  function RunPurging(w: World, ops: seq<Op>): World
    decreases |ops|
  {
    if ops == [] then w else RunPurging(ApplyPurging(w, ops[0]), ops[1..])
  }

  // ---------------------------------------------------------------- tombstones

  /** A user row that is in the first database only. */
  predicate Tomb(a: Database, b: Database, user: Id) {
    user in a.users && user !in b.users && a.users[user].row == Gone && !a.users[user].active
  }

  /** Row by row: the same in both databases, or a tombstone in the first, or in neither. */
  predicate UserAlike(a: Database, b: Database, u: Id) {
    if u in b.users then u in a.users && a.users[u] == b.users[u] else u !in a.users || Tomb(a, b, u)
  }

  predicate SessionAlike(a: Database, b: Database, i: Id) {
    if i in b.sessions then i in a.sessions && a.sessions[i] == b.sessions[i] && b.sessions[i].user in b.users
    else i !in a.sessions || (a.sessions[i].revoked && Tomb(a, b, a.sessions[i].user))
  }

  predicate TokenAlike(a: Database, b: Database, h: Hash) {
    if h in b.tokens then
      h in a.tokens && a.tokens[h] == b.tokens[h] && b.tokens[h].session in b.sessions && b.tokens[h].user in b.users
    else
      h in a.tokens ==>
        && a.tokens[h].revoked && Tomb(a, b, a.tokens[h].user)
        && a.tokens[h].session in a.sessions && a.tokens[h].session !in b.sessions
  }

  predicate ResetAlike(a: Database, b: Database, h: Hash) {
    if h in b.resets then h in a.resets && a.resets[h] == b.resets[h] && b.resets[h].user in b.users
    else h !in a.resets || a.resets[h].used
  }

  predicate RowsAlike(a: Database, b: Database, k: nat) {
    UserAlike(a, b, k) && SessionAlike(a, b, k) && TokenAlike(a, b, k) && ResetAlike(a, b, k)
  }

  /** b is a without some tombstones: so it is at every key of every table. */
  ghost predicate Purged(a: Database, b: Database) {
    forall k {:trigger UserAlike(a, b, k)} {:trigger SessionAlike(a, b, k)} {:trigger TokenAlike(a, b, k)}
      {:trigger ResetAlike(a, b, k)} :: RowsAlike(a, b, k)
  }

  /** Everything but the tombstones, and the history, is the same. */
  ghost predicate Alike(a: World, b: World) {
    Purged(a.db, b.db) && b == a.(db := b.db, history := b.history)
  }

  /** The random identifiers that the operation draws are none of a row that was ever there. */
  predicate DrawsFresh(w: World, op: Op) {
    match op
    case DoRegister(u, _) => u !in w.db.users
    case DoLogin(_, _, _, sid, h) => sid !in w.db.sessions && h !in w.db.tokens
    case DoMfaVerify(_, _, sid, h) => sid !in w.db.sessions && h !in w.db.tokens
    case DoOnboard(u, _, sid, h) => u !in w.db.users && sid !in w.db.sessions && h !in w.db.tokens
    case DoRefresh(_, n) => n !in w.db.tokens
    case DoResetRequest(_, h) => h !in w.db.resets
    case _ => true
  }

  predicate AllDrawFresh(w: World, ops: seq<Op>)
    decreases |ops|
  {
    ops == [] || (DrawsFresh(w, ops[0]) && AllDrawFresh(Apply(w, ops[0]), ops[1..]))
  }

  // ---------------------------------------------------------------- what is read

  /** No verification can tell the difference. */
  lemma VerdictsAgree(a: World, b: World, c: Claims, f: Faults)
    requires Alike(a, b)
    ensures Accepts(a, c, f) <==> Accepts(b, c, f)
  {
    if c.session.Some? {
      assert SessionAlike(a.db, b.db, c.session.value);
    }
  }

  /** No lookup of a user can, and none of a row that may be inserted. */
  lemma LookupsAgree(a: Database, b: Database, user: Id, sid: Id, s: Session, hash: Hash)
    requires Purged(a, b)
    ensures Present(a.users, user) <==> Present(b.users, user)
    ensures Present(b.users, user) ==> a.users[user] == b.users[user]
    ensures sid !in a.sessions && hash !in a.tokens ==> (CanInsert(a, sid, s, hash) <==> CanInsert(b, sid, s, hash))
  {
    assert UserAlike(a, b, user) && UserAlike(a, b, s.user);
    assert SessionAlike(a, b, sid) && TokenAlike(a, b, hash);
  }

  /** Nor can a rotation, except that a tombstone's replay is a hash it does not know. */
  lemma RotationsAgree(a: Database, b: Database, hash: Hash, now: Millis)
    requires Purged(a, b)
    ensures hash in b.tokens ==> RotateOutcome(a, hash, now) == RotateOutcome(b, hash, now)
    ensures hash !in b.tokens ==> RotateOutcome(a, hash, now).Unknown? || RotateOutcome(a, hash, now).Replayed?
  {
    assert TokenAlike(a, b, hash);
    if hash in a.tokens {
      assert SessionAlike(a, b, a.tokens[hash].session);
    }
  }

  /** No request is answered differently. */
  lemma AnswersAgree(a: World, b: World, op: Op)
    requires Alike(a, b) && DrawsFresh(a, op)
    ensures Minted(a, op) == Minted(b, op)
  {
    match op
    case DoLogin(u, _, _, sid, h) => CreationAnswered(a, b, u, sid, h);
    case DoMfaVerify(c, _, sid, h) => CreationAnswered(a, b, c.sub, sid, h);
    case DoOnboard(u, _, sid, h) =>
      assert UserAlike(a.db, b.db, u) && SessionAlike(a.db, b.db, sid) && TokenAlike(a.db, b.db, h);
    case DoRefresh(o, n) => RefreshAnswered(a, b, o, n);
    case _ =>
  }

  lemma CreationAnswered(a: World, b: World, user: Id, sid: Id, hash: Hash)
    requires Alike(a, b) && sid !in a.db.sessions && hash !in a.db.tokens
    ensures Present(a.db.users, user) <==> Present(b.db.users, user)
    ensures Present(b.db.users, user) ==>
              && a.db.users[user] == b.db.users[user]
              && EstablishToken(a, user, sid, hash) == EstablishToken(b, user, sid, hash)
  {
    var org := if user in a.db.users then a.db.users[user].org else 0;
    LookupsAgree(a.db, b.db, user, sid, NewSession(user, org, a.now), hash);
  }

  lemma RefreshAnswered(a: World, b: World, oldHash: Hash, newHash: Hash)
    requires Alike(a, b) && newHash !in a.db.tokens
    ensures Minted(a, DoRefresh(oldHash, newHash)) == Minted(b, DoRefresh(oldHash, newHash))
  {
    assert TokenAlike(a.db, b.db, oldHash) && TokenAlike(a.db, b.db, newHash);
    RotationsAgree(a.db, b.db, oldHash, a.now);
    if oldHash in b.db.tokens && RotateOutcome(b.db, oldHash, b.now).Rotated? {
      var user := RotateOutcome(b.db, oldHash, b.now).session.user;
      assert UserAlike(a.db, b.db, user);
    }
  }

  // ---------------------------------------------------------------- what is written

  lemma UserWritten(a: Database, b: Database, user: Id, row: User)
    requires Purged(a, b) && !Tomb(a, b, user)
    ensures Purged(a.(users := a.users[user := row]), b.(users := b.users[user := row]))
  {
    var a', b' := a.(users := a.users[user := row]), b.(users := b.users[user := row]);
    forall k: nat ensures RowsAlike(a', b', k) { assert UserAlike(a, b, k) && RowsAlike(a, b, k); }
  }

  /** A session that is in neither database, or in both with the same user. */
  lemma SessionWritten(a: Database, b: Database, sid: Id, s: Session)
    requires Purged(a, b) && s.user in b.users && (sid in b.sessions || sid !in a.sessions)
    ensures Purged(a.(sessions := a.sessions[sid := s]), b.(sessions := b.sessions[sid := s]))
  {
    var a', b' := a.(sessions := a.sessions[sid := s]), b.(sessions := b.sessions[sid := s]);
    forall k: nat ensures RowsAlike(a', b', k) { assert UserAlike(a, b, k) && RowsAlike(a, b, k); }
  }

  lemma TokenWritten(a: Database, b: Database, hash: Hash, t: RefreshToken)
    requires Purged(a, b) && t.session in b.sessions && t.user in b.users && (hash in b.tokens || hash !in a.tokens)
    ensures Purged(a.(tokens := a.tokens[hash := t]), b.(tokens := b.tokens[hash := t]))
  {
    var a', b' := a.(tokens := a.tokens[hash := t]), b.(tokens := b.tokens[hash := t]);
    forall k: nat ensures RowsAlike(a', b', k) { assert UserAlike(a, b, k) && RowsAlike(a, b, k); }
  }

  lemma ResetWritten(a: Database, b: Database, hash: Hash, t: ResetToken)
    requires Purged(a, b) && t.user in b.users
    ensures Purged(a.(resets := a.resets[hash := t]), b.(resets := b.resets[hash := t]))
  {
    var a', b' := a.(resets := a.resets[hash := t]), b.(resets := b.resets[hash := t]);
    forall k: nat ensures RowsAlike(a', b', k) { assert UserAlike(a, b, k) && RowsAlike(a, b, k); }
  }

  /** Flags on tombstones do not show, flags on rows agree. */
  lemma SessionsFlagged(a: Database, b: Database, ia: set<Id>, ib: set<Id>)
    requires Purged(a, b) && forall i :: i in b.sessions ==> (i in ia <==> i in ib)
    ensures Purged(a.(sessions := FlagSessions(a.sessions, ia)), b.(sessions := FlagSessions(b.sessions, ib)))
  {
    var a', b' := a.(sessions := FlagSessions(a.sessions, ia)), b.(sessions := FlagSessions(b.sessions, ib));
    forall k: nat ensures RowsAlike(a', b', k) { assert UserAlike(a, b, k) && RowsAlike(a, b, k); }
  }

  lemma TokensFlagged(a: Database, b: Database, ta: set<Hash>, tb: set<Hash>)
    requires Purged(a, b) && forall h :: h in b.tokens ==> (h in ta <==> h in tb)
    ensures Purged(a.(tokens := FlagTokens(a.tokens, ta)), b.(tokens := FlagTokens(b.tokens, tb)))
  {
    var a', b' := a.(tokens := FlagTokens(a.tokens, ta)), b.(tokens := FlagTokens(b.tokens, tb));
    forall k: nat ensures RowsAlike(a', b', k) { assert UserAlike(a, b, k) && RowsAlike(a, b, k); }
  }

  // ---------------------------------------------------------------- transactions

  lemma InsertionAlike(a: Database, b: Database, sid: Id, s: Session, hash: Hash)
    requires Purged(a, b) && sid !in a.sessions && hash !in a.tokens && s.user in b.users
    ensures Purged(CreateSessionAndToken(a, sid, s, hash, s.expiresAt),
                   CreateSessionAndToken(b, sid, s, hash, s.expiresAt))
  {
    LookupsAgree(a, b, s.user, sid, s, hash);
    var a1, b1 := a.(sessions := a.sessions[sid := s]), b.(sessions := b.sessions[sid := s]);
    SessionWritten(a, b, sid, s);
    TokenWritten(a1, b1, hash, RefreshToken(sid, s.user, s.expiresAt, false));
  }

  lemma RevocationAlike(a: Database, b: Database, sid: Id)
    requires Purged(a, b)
    ensures Purged(RevokeSession(a, sid), RevokeSession(b, sid))
  {
    var ta, tb := TokensOfSession(a, sid), TokensOfSession(b, sid);
    forall h | h in b.tokens ensures h in ta <==> h in tb { assert TokenAlike(a, b, h); }
    var a1, b1 := a.(sessions := FlagSessions(a.sessions, {sid})), b.(sessions := FlagSessions(b.sessions, {sid}));
    SessionsFlagged(a, b, {sid}, {sid});
    TokensFlagged(a1, b1, ta, tb);
  }

  lemma BulkRevocationAlike(a: Database, b: Database, user: Id)
    requires Purged(a, b)
    ensures Purged(RevokeAllUserSessions(a, user), RevokeAllUserSessions(b, user))
  {
    var ia, ib, ta, tb := SessionsOf(a, user), SessionsOf(b, user), TokensOfUser(a, user), TokensOfUser(b, user);
    forall i | i in b.sessions ensures i in ia <==> i in ib { assert SessionAlike(a, b, i); }
    forall h | h in b.tokens ensures h in ta <==> h in tb { assert TokenAlike(a, b, h); }
    SessionsFlagged(a, b, ia, ib);
    TokensFlagged(a.(sessions := FlagSessions(a.sessions, ia)), b.(sessions := FlagSessions(b.sessions, ib)), ta, tb);
  }

  lemma SpendingAlike(a: Database, b: Database, oldHash: Hash, newHash: Hash, expiry: Millis, now: Millis)
    requires Purged(a, b) && newHash !in a.tokens && CanSpend(b, oldHash)
    ensures CanSpend(a, oldHash)
    ensures Purged(SpendToken(a, oldHash, newHash, expiry, now), SpendToken(b, oldHash, newHash, expiry, now))
  {
    assert TokenAlike(a, b, oldHash);
    var t := a.tokens[oldHash];
    assert SessionAlike(a, b, t.session);
    var spent, next := t.(revoked := true), RefreshToken(t.session, t.user, expiry, false);
    var a1, b1 := a.(tokens := a.tokens[oldHash := spent]), b.(tokens := b.tokens[oldHash := spent]);
    var a2, b2 := a1.(tokens := a1.tokens[newHash := next]), b1.(tokens := b1.tokens[newHash := next]);
    TokenWritten(a, b, oldHash, spent);
    TokenWritten(a1, b1, newHash, next);
    SessionWritten(a2, b2, t.session, TouchedSession(a, oldHash, now));
  }

  /** A token that only the tombstones know is spent, and all of its session with it: its replay changes nothing. */
  lemma ReplayOfTombstone(a: Database, b: Database, hash: Hash)
    requires Purged(a, b) && hash in a.tokens && hash !in b.tokens
    ensures a.tokens[hash].revoked && RevokeSession(a, a.tokens[hash].session) == a
  {
    assert TokenAlike(a, b, hash);
    var sid := a.tokens[hash].session;
    assert SessionAlike(a, b, sid);
    forall h | h in TokensOfSession(a, sid) ensures a.tokens[h].revoked { assert TokenAlike(a, b, h); }
    assert FlagSessions(a.sessions, {sid}) == a.sessions;
    assert FlagTokens(a.tokens, TokensOfSession(a, sid)) == a.tokens;
  }

  // ---------------------------------------------------------------- handlers

  lemma RegistrationAlike(a: World, b: World, user: Id, org: Id)
    requires Alike(a, b) && user !in a.db.users
    ensures Alike(Register(a, user, org), Register(b, user, org))
  {
    assert UserAlike(a.db, b.db, user);
    UserWritten(a.db, b.db, user, User(org, true, Here));
  }

  lemma CreationAlike(a: World, b: World, user: Id, sid: Id, hash: Hash)
    requires Alike(a, b) && user in b.db.users && sid !in a.db.sessions && hash !in a.db.tokens
    ensures user in a.db.users && Alike(Establish(a, user, sid, hash), Establish(b, user, sid, hash))
  {
    assert UserAlike(a.db, b.db, user);
    var s := NewSession(user, a.db.users[user].org, a.now);
    LookupsAgree(a.db, b.db, user, sid, s, hash);
    InsertionAlike(a.db, b.db, sid, s, hash);
  }

  lemma SpentAlike(a: World, b: World, oldHash: Hash, newHash: Hash)
    requires Alike(a, b) && newHash !in a.db.tokens
    requires CanSpend(b.db, oldHash) && a.now <= b.db.tokens[oldHash].expiresAt
    ensures Alike(Refresh(a, oldHash, newHash), Refresh(b, oldHash, newHash))
  {
    assert TokenAlike(a.db, b.db, oldHash) && TokenAlike(a.db, b.db, newHash);
    var sid := a.db.tokens[oldHash].session;
    assert SessionAlike(a.db, b.db, sid);
    assert UserAlike(a.db, b.db, b.db.sessions[sid].user);
    SpendingAlike(a.db, b.db, oldHash, newHash, a.now + SESSION_LIFETIME, a.now);
    SpendingRefresh(a, oldHash, newHash);
    SpendingRefresh(b, oldHash, newHash);
  }

  lemma RefreshAlike(a: World, b: World, oldHash: Hash, newHash: Hash)
    requires Alike(a, b) && newHash !in a.db.tokens
    ensures Alike(Refresh(a, oldHash, newHash), Refresh(b, oldHash, newHash))
  {
    assert TokenAlike(a.db, b.db, oldHash) && TokenAlike(a.db, b.db, newHash);
    if oldHash !in a.db.tokens || a.db.tokens[oldHash].expiresAt < a.now {
      UnknownRefresh(a, oldHash, newHash);
      UnknownRefresh(b, oldHash, newHash);
    } else if oldHash !in b.db.tokens {
      ReplayOfTombstone(a.db, b.db, oldHash);
      ReplayRefresh(a, oldHash, newHash);
      UnknownRefresh(b, oldHash, newHash);
    } else if a.db.tokens[oldHash].revoked {
      RevocationAlike(a.db, b.db, a.db.tokens[oldHash].session);
      ReplayRefresh(a, oldHash, newHash);
      ReplayRefresh(b, oldHash, newHash);
    } else {
      SpentAlike(a, b, oldHash, newHash);
    }
  }

  lemma RemovalAlike(a: World, b: World, org: Id, user: Id, reached: set<Id>)
    requires Alike(a, b)
    ensures Alike(RemoveMember(a, org, user, reached), RemoveMember(b, org, user, reached))
  {
    assert UserAlike(a.db, b.db, user);
    if IsMember(b.db, org, user) {
      var a1, b1 := SoftDelete(a.db, user), SoftDelete(b.db, user);
      UserWritten(a.db, b.db, user, a.db.users[user].(active := false, row := SoftDeleted));
      forall i ensures i in ActiveSessionsOf(a.db, user) <==> i in ActiveSessionsOf(b.db, user) {
        assert SessionAlike(a.db, b.db, i);
      }
      assert ActiveSessionsOf(a.db, user) == ActiveSessionsOf(b.db, user);
      forall i | i in b1.sessions ensures i in SessionsOf(a1, user) <==> i in SessionsOf(b1, user) {
        assert SessionAlike(a1, b1, i);
      }
      SessionsFlagged(a1, b1, SessionsOf(a1, user), SessionsOf(b1, user));
    }
  }

  lemma DeletionAlike(a: Database, b: Database, org: Id)
    requires SessionsMatchUsers(a) && TokensMatchSessions(a) && Purged(a, b)
    ensures Purged(DeleteOrganization(a, org), Purge(b, org))
  {
    var a', b' := DeleteOrganization(a, org), Purge(b, org);
    forall k: nat ensures RowsAlike(a', b', k) {
      UserDeletedAlike(a, b, org, k);
      SessionDeletedAlike(a, b, org, k);
      TokenDeletedAlike(a, b, org, k);
      ResetDeletedAlike(a, b, org, k);
    }
  }

  lemma UserDeletedAlike(a: Database, b: Database, org: Id, u: Id)
    requires Purged(a, b)
    ensures UserAlike(DeleteOrganization(a, org), Purge(b, org), u)
  {
    assert UserAlike(a, b, u);
  }

  lemma SessionDeletedAlike(a: Database, b: Database, org: Id, i: Id)
    requires SessionsMatchUsers(a) && Purged(a, b)
    ensures SessionAlike(DeleteOrganization(a, org), Purge(b, org), i)
  {
    assert SessionAlike(a, b, i);
    if i in a.sessions {
      assert UserAlike(a, b, a.sessions[i].user);
      UserDeletedAlike(a, b, org, a.sessions[i].user);
    }
  }

  lemma TokenDeletedAlike(a: Database, b: Database, org: Id, h: Hash)
    requires SessionsMatchUsers(a) && TokensMatchSessions(a) && Purged(a, b)
    ensures TokenAlike(DeleteOrganization(a, org), Purge(b, org), h)
  {
    assert TokenAlike(a, b, h);
    if h in a.tokens {
      assert UserAlike(a, b, a.tokens[h].user);
      assert SessionAlike(a, b, a.tokens[h].session);
      UserDeletedAlike(a, b, org, a.tokens[h].user);
      SessionDeletedAlike(a, b, org, a.tokens[h].session);
    }
  }

  lemma ResetDeletedAlike(a: Database, b: Database, org: Id, h: Hash)
    requires Purged(a, b)
    ensures ResetAlike(DeleteOrganization(a, org), Purge(b, org), h)
  {
    assert ResetAlike(a, b, h);
    if h in a.resets {
      assert UserAlike(a, b, a.resets[h].user);
    }
  }

  lemma ResetStepAlike(a: World, b: World, op: Op)
    requires Alike(a, b) && DrawsFresh(a, op) && (op.DoResetRequest? || op.DoResetConfirm?)
    ensures Alike(Apply(a, op), ApplyPurging(b, op))
  {
    assert ResetAlike(a.db, b.db, op.hash);
    if op.DoResetRequest? {
      assert UserAlike(a.db, b.db, op.user);
      if Present(b.db.users, op.user) {
        ResetWritten(a.db, b.db, op.hash, ResetToken(op.user, a.now + RESET_LIFETIME, false));
      }
    } else if op.hash in b.db.resets {
      var t := a.db.resets[op.hash].(used := true);
      var a1, b1 := a.db.(resets := a.db.resets[op.hash := t]), b.db.(resets := b.db.resets[op.hash := t]);
      ResetWritten(a.db, b.db, op.hash, t);
      BulkRevocationAlike(a1, b1, t.user);
    }
  }

  lemma IssuingAlike(a: World, b: World, op: Op)
    requires Alike(a, b) && DrawsFresh(a, op)
    requires op.DoRegister? || op.DoLogin? || op.DoMfaVerify? || op.DoOnboard? || op.DoRefresh?
    ensures Alike(Apply(a, op), ApplyPurging(b, op))
  {
    match op
    case DoRegister(u, org) => RegistrationAlike(a, b, u, org);
    case DoLogin(u, _, _, sid, h) => LoginAlike(a, b, u, sid, h);
    case DoMfaVerify(c, _, sid, h) => LoginAlike(a, b, c.sub, sid, h);
    case DoOnboard(u, org, sid, h) =>
      assert UserAlike(a.db, b.db, u) && SessionAlike(a.db, b.db, sid) && TokenAlike(a.db, b.db, h);
      RegistrationAlike(a, b, u, org);
      CreationAlike(Register(a, u, org), Register(b, u, org), u, sid, h);
    case DoRefresh(o, n) => RefreshAlike(a, b, o, n);
  }

  lemma LoginAlike(a: World, b: World, user: Id, sid: Id, hash: Hash)
    requires Alike(a, b) && sid !in a.db.sessions && hash !in a.db.tokens
    ensures Present(a.db.users, user) <==> Present(b.db.users, user)
    ensures Present(b.db.users, user) ==>
              && a.db.users[user] == b.db.users[user]
              && Alike(Establish(a, user, sid, hash), Establish(b, user, sid, hash))
  {
    assert UserAlike(a.db, b.db, user);
    if Present(b.db.users, user) {
      CreationAlike(a, b, user, sid, hash);
    }
  }

  lemma LogoutAlike(a: World, b: World, op: Op)
    requires Alike(a, b) && (op.DoLogout? || op.DoLogoutAll?)
    ensures Alike(Apply(a, op), ApplyPurging(b, op))
  {
    if op.DoLogoutAll? {
      BulkRevocationAlike(a.db, b.db, op.claims.sub);
    } else if op.claims.session.Some? {
      RevocationAlike(a.db, b.db, op.claims.session.value);
    }
  }

  lemma VerifyAlike(a: World, b: World, c: Claims, f: Faults)
    requires Alike(a, b)
    ensures Alike(Verify(a, c, f), Verify(b, c, f))
  {
    if c.session.Some? {
      assert SessionAlike(a.db, b.db, c.session.value);
    }
  }

  lemma StepAlike(a: World, b: World, op: Op)
    requires WorldInv(a) && Alike(a, b) && DrawsFresh(a, op)
    ensures Alike(Apply(a, op), ApplyPurging(b, op))
  {
    if op.DoLogout? || op.DoLogoutAll? {
      LogoutAlike(a, b, op);
    } else if op.DoResetRequest? || op.DoResetConfirm? {
      ResetStepAlike(a, b, op);
    } else if op.DoRemoveMember? {
      RemovalAlike(a, b, op.org, op.user, op.reached);
    } else if op.DoDeleteOrganization? {
      DeletionAlike(a.db, b.db, op.org);
    } else if op.DoVerify? {
      VerifyAlike(a, b, op.claims, op.faults);
    } else if !op.Tick? && !op.Evict? {
      IssuingAlike(a, b, op);
    }
  }

  // ---------------------------------------------------------------- main results

  lemma {:induction false} RunsAlike(a: World, b: World, ops: seq<Op>)
    requires WorldInv(a) && Alike(a, b) && AllDrawFresh(a, ops)
    ensures Alike(Run(a, ops), RunPurging(b, ops))
    decreases |ops|
  {
    if ops != [] {
      ApplySteps(a, ops[0]);
      StepAlike(a, b, ops[0]);
      RunsAlike(Apply(a, ops[0]), ApplyPurging(b, ops[0]), ops[1..]);
    }
  }

  /** With the rows really removed: in every run whose random identifiers are new, a released token is accepted exactly
      when the history says so. */
  lemma VerifyRefinesHistoryPurging(now: Millis, expiryMin: nat, ops: seq<Op>, c: Claims, f: Faults)
    requires AllDrawFresh(Start(now, expiryMin), ops)
    requires c in RunPurging(Start(now, expiryMin), ops).issued
    ensures var h := Run(Start(now, expiryMin), ops).history;
            var w := RunPurging(Start(now, expiryMin), ops);
            Accepts(w, c, f) <==> AcceptedByHistory(h, c, w.now)
  {
    var start := Start(now, expiryMin);
    assert forall k :: RowsAlike(start.db, start.db, k);
    RunsAlike(start, start, ops);
    VerifyRefinesHistory(now, expiryMin, ops, c, f);
    VerdictsAgree(Run(start, ops), RunPurging(start, ops), c, f);
  }
}
