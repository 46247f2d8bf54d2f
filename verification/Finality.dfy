/** What each way of ending a session achieves over the rest of every run, and what a creation or a
    rotation achieves at once. */
module Finality {
  import opened Domain
  import opened Transactions
  import opened Handlers
  import opened Refinement

  // ---------------------------------------------------------------- nothing is issued after the end

  /** A step hands out at most one token, and issues exactly what it hands out. */
  lemma IssuedIsMinted(w: World, op: Op)
    ensures Apply(w, op).issued == w.issued + match Minted(w, op) { case None => {} case Some(c) => {c} }
  {
  }

  /** A token is handed out only for a session whose row is unrevoked and whose owner is not deleted once the step
      is done. */
  lemma MintedForTheLiving(w: World, op: Op, c: Claims)
    requires WorldInv(w) && Minted(w, op) == Some(c)
    ensures var db := Apply(w, op).db;
            && c.sub in db.users && !db.users[c.sub].deleted
            && (c.session.Some? ==> c.session.value in db.sessions && !db.sessions[c.session.value].revoked)
  {
    if op.DoRefresh? {
      assert Live(w.db, op.oldHash);
      assert TokensMatchSessions(w.db) && RevokedMeansDead(w.db);
    }
  }

  /** After its revocation no request, however late, is answered with a token of the session. */
  lemma NothingMintedAfterRevocation(w: World, ops: seq<Op>, op: Op, sid: Id, c: Claims)
    requires WorldInv(w) && sid in w.db.sessions && w.db.sessions[sid].revoked
    requires Minted(Run(w, ops), op) == Some(c)
    ensures c.session != Some(sid)
  {
    RunSteps(w, ops);
    ApplySteps(Run(w, ops), op);
    MintedForTheLiving(Run(w, ops), op, c);
  }

  /** After a soft delete no request, however late, is answered with a token of the user. */
  lemma NothingMintedForTheRemoved(w: World, ops: seq<Op>, op: Op, user: Id, c: Claims)
    requires WorldInv(w) && user in w.db.users && w.db.users[user].deleted
    requires Minted(Run(w, ops), op) == Some(c)
    ensures c.sub != user
  {
    RunSteps(w, ops);
    ApplySteps(Run(w, ops), op);
    MintedForTheLiving(Run(w, ops), op, c);
  }

  lemma {:induction false} NothingIssuedAfterRevocation(w: World, ops: seq<Op>, sid: Id, c: Claims)
    requires WorldInv(w) && sid in w.db.sessions && w.db.sessions[sid].revoked
    requires c in Run(w, ops).issued && c.session == Some(sid)
    ensures c in w.issued
    decreases |ops|
  {
    if ops != [] {
      var mid := Apply(w, ops[0]);
      ApplySteps(w, ops[0]);
      NothingIssuedAfterRevocation(mid, ops[1..], sid, c);
      if c !in w.issued {
        IssuedIsMinted(w, ops[0]);
        MintedForTheLiving(w, ops[0], c);
      }
    }
  }

  /** removeMember is final: from then on no token of the member is issued or accepted, in any run. */
  lemma {:induction false} RemovedMemberStaysOut(w: World, ops: seq<Op>, user: Id, c: Claims, f: Faults)
    requires WorldInv(w) && user in w.db.users && w.db.users[user].deleted
    requires c in Run(w, ops).issued && c.sub == user
    ensures c in w.issued && !Accepts(Run(w, ops), c, f)
    decreases |ops|
  {
    if ops == [] {
      assert RemovedAreOut(w.db);
    } else {
      var mid := Apply(w, ops[0]);
      ApplySteps(w, ops[0]);
      RemovedMemberStaysOut(mid, ops[1..], user, c, f);
      if c !in w.issued {
        IssuedIsMinted(w, ops[0]);
        MintedForTheLiving(w, ops[0], c);
      }
    }
  }

  // ---------------------------------------------------------------- ways to end a session

  /** Once its row is revoked, no token of the session is accepted again. */
  lemma RevokedSessionStaysOut(w: World, ops: seq<Op>, sid: Id, c: Claims, f: Faults)
    requires WorldInv(w) && sid in w.db.sessions && w.db.sessions[sid].revoked && c.session == Some(sid)
    ensures !Accepts(Run(w, ops), c, f)
  {
    RunSteps(w, ops);
  }

  lemma LogoutIsFinal(w: World, caller: Claims, f: Faults, ops: seq<Op>, c: Claims, f': Faults)
    requires WorldInv(w) && Presentable(w.issued, caller, w.now) && caller.session.Some? && c.session == caller.session
    ensures !Accepts(Run(Logout(w, caller, f), ops), c, f')
  {
    LogoutSteps(w, caller, f);
    RevokedSessionStaysOut(Logout(w, caller, f), ops, caller.session.value, c, f');
  }

  /** Logout-all refuses every token of the user issued so far; an MFA token is enough to ask for it. */
  lemma LogoutAllIsFinal(w: World, caller: Claims, f: Faults, ops: seq<Op>, c: Claims, f': Faults)
    requires WorldInv(w) && Presentable(w.issued, caller, w.now) && c in w.issued && c.sub == caller.sub
    ensures !Accepts(Run(LogoutAll(w, caller, f), ops), c, f')
  {
    if c.session.Some? {
      LogoutAllSteps(w, caller, f);
      assert c.session.value in SessionsOf(w.db, caller.sub);
      RevokedSessionStaysOut(LogoutAll(w, caller, f), ops, c.session.value, c, f');
    }
  }

  lemma PasswordResetIsFinal(w: World, hash: Hash, ops: seq<Op>, c: Claims, f: Faults)
    requires WorldInv(w)
    requires hash in w.db.resets && !w.db.resets[hash].used && w.now <= w.db.resets[hash].expiresAt
    requires c in w.issued && c.sub == w.db.resets[hash].user
    ensures !Accepts(Run(PasswordResetConfirm(w, hash), ops), c, f)
  {
    if c.session.Some? {
      ResetConfirmSteps(w, hash);
      assert c.session.value in SessionsOf(w.db, c.sub);
      RevokedSessionStaysOut(PasswordResetConfirm(w, hash), ops, c.session.value, c, f);
    }
  }

  lemma RemoveMemberIsFinal(w: World, org: Id, user: Id, reached: set<Id>, ops: seq<Op>, c: Claims, f: Faults)
    requires WorldInv(w) && IsMember(w.db, org, user)
    requires c in Run(RemoveMember(w, org, user, reached), ops).issued && c.sub == user
    ensures c in w.issued && !Accepts(Run(RemoveMember(w, org, user, reached), ops), c, f)
  {
    RemoveMemberSteps(w, org, user, reached);
    RemovedMemberStaysOut(RemoveMember(w, org, user, reached), ops, user, c, f);
  }

  /** Deleting an organization ends every token of its users, although no key is written. */
  lemma OrganizationRemovalIsFinal(w: World, org: Id, ops: seq<Op>, c: Claims, f: Faults)
    requires WorldInv(w) && c in w.issued && c.org == org
    ensures !Accepts(Run(RemoveOrganization(w, org), ops), c, f)
  {
    if c.session.Some? {
      RemoveOrganizationSteps(w, org);
      RevokedSessionStaysOut(RemoveOrganization(w, org), ops, c.session.value, c, f);
    }
  }

  /** And none of them is answered with a token again. */
  lemma NothingMintedAfterOrganizationRemoval(w: World, org: Id, user: Id, ops: seq<Op>, op: Op, c: Claims)
    requires WorldInv(w) && BelongsTo(w.db, user, org)
    requires Minted(Run(RemoveOrganization(w, org), ops), op) == Some(c)
    ensures c.sub != user
  {
    RemoveOrganizationSteps(w, org);
    NothingMintedForTheRemoved(RemoveOrganization(w, org), ops, op, user, c);
  }

  /** Presenting a spent refresh token within its lifetime ends the session it belongs to. */
  lemma ReplayIsFinal(w: World, spent: Hash, next: Hash, ops: seq<Op>, c: Claims, f: Faults)
    requires WorldInv(w) && next !in w.db.tokens
    requires spent in w.db.tokens && w.db.tokens[spent].revoked && w.now <= w.db.tokens[spent].expiresAt
    requires c.session == Some(w.db.tokens[spent].session)
    ensures !Accepts(Run(Refresh(w, spent, next), ops), c, f)
  {
    ReplaySteps(w, spent);
    RevokedSessionStaysOut(Refresh(w, spent, next), ops, c.session.value, c, f);
  }

  // ---------------------------------------------------------------- ways to hold one

  /** A completed login hands out exactly one token, and that token is accepted. */
  lemma LoginIsAccepted(w: World, user: Id, sid: Id, hash: Hash, f: Faults)
    requires WorldInv(w) && w.expiryMin > 0
    requires user in w.db.users && !w.db.users[user].deleted && w.db.users[user].active
    requires sid !in w.db.sessions && hash !in w.db.tokens
    ensures var w' := Login(w, user, true, false, sid, hash);
            var c := AccessClaims(user, w.db.users[user].org, sid, w.now, w.expiryMin);
            w'.issued - w.issued <= {c} && c in w'.issued && Accepts(w', c, f)
  {
  }

  /** Which token a refresh hands out, if any: the session's expiry plays no part in it. */
  lemma RefreshMints(w: World, oldHash: Hash, newHash: Hash)
    requires WorldInv(w) && newHash !in w.db.tokens
    ensures Minted(w, DoRefresh(oldHash, newHash)) ==
            if oldHash in w.db.tokens && w.now <= w.db.tokens[oldHash].expiresAt
               && !w.db.tokens[oldHash].revoked && !w.db.users[w.db.tokens[oldHash].user].deleted
            then var t := w.db.tokens[oldHash];
                 Some(AccessClaims(t.user, w.db.users[t.user].org, t.session, w.now, w.expiryMin))
            else None
  {
    assert TokensMatchSessions(w.db) && SessionsMatchUsers(w.db);
  }

  /** Exactly when a refresh with an unexpired token yields a token that the service then accepts: the hash
      is live, its session is unexpired, and its owner is not deleted. */
  lemma RefreshIsAccepted(w: World, oldHash: Hash, newHash: Hash, f: Faults)
    requires WorldInv(w) && w.expiryMin > 0 && newHash !in w.db.tokens
    requires oldHash in w.db.tokens && w.now <= w.db.tokens[oldHash].expiresAt
    ensures var t := w.db.tokens[oldHash];
            var w' := Refresh(w, oldHash, newHash);
            var c := AccessClaims(t.user, w.db.users[t.user].org, t.session, w.now, w.expiryMin);
            c in w'.issued && Accepts(w', c, f) <==>
            !t.revoked && w.now <= w.db.sessions[t.session].expiresAt && !w.db.users[t.user].deleted
  {
    RefreshSteps(w, oldHash, newHash);
    assert TokensMatchSessions(w.db) && RemovedAreOut(w.db);
    assert Live(w.db, oldHash) <==> !w.db.tokens[oldHash].revoked;
  }

  /** A session past its thirty days is still rotated, and what comes out is refused. */
  lemma ExpiredSessionStillRotates(w: World, oldHash: Hash, newHash: Hash, f: Faults)
    requires WorldInv(w) && w.expiryMin > 0 && newHash !in w.db.tokens && Live(w.db, oldHash)
    requires var t := w.db.tokens[oldHash];
             w.now <= t.expiresAt && w.db.sessions[t.session].expiresAt < w.now && !w.db.users[t.user].deleted
    ensures var w' := Apply(w, DoRefresh(oldHash, newHash));
            && Minted(w, DoRefresh(oldHash, newHash)).Some?
            && var c := Minted(w, DoRefresh(oldHash, newHash)).value;
               Live(w'.db, newHash) && c in w'.issued && Unexpired(c, w'.now) && !Accepts(w', c, f)
  {
    RefreshMints(w, oldHash, newHash);
    RefreshIsAccepted(w, oldHash, newHash, f);
  }

  lemma {:induction false} RunSnoc(w: World, ops: seq<Op>, op: Op)
    ensures Run(w, ops + [op]) == Apply(Run(w, ops), op)
    decreases |ops|
  {
    if ops == [] {
      assert ([] + [op])[1..] == [];
    } else {
      RunSnoc(Apply(w, ops[0]), ops[1..], op);
      assert (ops + [op])[1..] == ops[1..] + [op];
    }
  }

  /** Day twenty of a session created on day zero. */
  lemma DayTwenty() returns (ops: seq<Op>, w: World)
    ensures w == Run(Start(0, 15), ops)
    ensures w.now == 20 * DAY && w.expiryMin == 15 && w.db.users == map[1 := User(7, true, Here)]
    ensures w.db.sessions == map[2 := NewSession(1, 7, 0)]
    ensures w.db.tokens == map[3 := RefreshToken(2, 1, 30 * DAY, false)]
  {
    var a, b, c := DoRegister(1, 7), DoLogin(1, true, false, 2, 3), Tick(20 * DAY);
    ops := [] + [a] + [b] + [c];
    RunSnoc(Start(0, 15), [], a);
    RunSnoc(Start(0, 15), [] + [a], b);
    RunSnoc(Start(0, 15), [] + [a] + [b], c);
    w := Apply(Apply(Apply(Start(0, 15), a), b), c);
  }

  /** Day forty, after a refresh on day twenty. */
  lemma DayForty() returns (ops: seq<Op>, w: World)
    ensures w == Run(Start(0, 15), ops)
    ensures w.now == 40 * DAY && w.expiryMin == 15 && w.db.users == map[1 := User(7, true, Here)]
    ensures Live(w.db, 4) && w.db.tokens[4] == RefreshToken(2, 1, 50 * DAY, false) && 5 !in w.db.tokens
    ensures 2 in w.db.sessions && w.db.sessions[2].expiresAt == 30 * DAY
  {
    var before, day20 := DayTwenty();
    ops := before + [DoRefresh(3, 4)] + [Tick(20 * DAY)];
    RunSnoc(Start(0, 15), before, DoRefresh(3, 4));
    RunSnoc(Start(0, 15), before + [DoRefresh(3, 4)], Tick(20 * DAY));
    w := Apply(Apply(day20, DoRefresh(3, 4)), Tick(20 * DAY));
  }

  /** Such a session is reached: created on day zero, refreshed on day twenty, and again on day forty. */
  lemma LateRefreshIsRefused(f: Faults) returns (ops: seq<Op>, w: World, c: Claims)
    ensures w == Run(Start(0, 15), ops)
    ensures Minted(w, DoRefresh(4, 5)) == Some(c)
    ensures var w' := Apply(w, DoRefresh(4, 5)); c in w'.issued && Unexpired(c, w'.now) && !Accepts(w', c, f)
  {
    ops, w := DayForty();
    ReachableInv(0, 15, ops);
    ExpiredSessionStillRotates(w, 4, 5, f);
    c := Minted(w, DoRefresh(4, 5)).value;
  }
}
