/** How long the Redis keys have to live. With access tokens of at most fifteen minutes, a successful SET
    that nobody evicts makes the key alone refuse every token it should until that token expires. */
module TtlCoverage {
  import opened Domain
  import opened Transactions
  import opened Handlers
  import opened Refinement
  import opened Finality

  const COVERED_MINUTES: nat := 15
  const MINUTES_PER_DAY: nat := 24 * 60

  /** The blacklist entry of the session outlives every unexpired token of it. */
  ghost predicate SessionCovered(w: World, sid: Id) {
    forall c :: c in w.issued && c.session == Some(sid) && Unexpired(c, w.now) ==>
      sid in w.cache.revoked && c.exp * 1000 <= w.cache.revoked[sid]
  }

  /** The logout-all entry of the user is at least as recent as `second` and outlives every older token. */
  ghost predicate UserCovered(w: World, user: Id, second: nat) {
    && second * 1000 <= w.now
    && user in w.cache.logoutAll && second <= w.cache.logoutAll[user].second
    && forall c :: c in w.issued && c.sub == user && c.session.Some? && c.iat < second && Unexpired(c, w.now) ==>
         c.exp * 1000 <= w.cache.logoutAll[user].expires
  }

  predicate Keeps(op: Op, sessions: set<Id>, users: set<Id>) {
    op.Evict? ==> op.sessions !! sessions && op.users !! users
  }

  ghost predicate AllKeep(ops: seq<Op>, sessions: set<Id>, users: set<Id>) {
    forall i :: 0 <= i < |ops| ==> Keeps(ops[i], sessions, users)
  }

  /** No token issued so far outlives the configured lifetime counted from now. */
  lemma ShortLived(w: World, c: Claims)
    requires WorldInv(w) && c in w.issued && c.session.Some?
    ensures c.exp * 1000 <= w.now + w.expiryMin * MINUTE
  {
  }

  // ---------------------------------------------------------------- coverage survives every step

  /** Unevicted, the user's key keeps its value or takes that of a logout now. */
  lemma UserKeyMoves(w: World, op: Op, user: Id)
    requires Keeps(op, {}, {user}) && user in w.cache.logoutAll
    ensures var l := Apply(w, op).cache.logoutAll;
            user in l && (l[user] == w.cache.logoutAll[user] || l[user] == Stamp(w.now / 1000, w.now + BLACKLIST_TTL))
  {
  }

  /** Unevicted, the session's key keeps its expiry or takes one at least fifteen minutes ahead. */
  lemma SessionKeyMoves(w: World, op: Op, sid: Id)
    requires Keeps(op, {sid}, {}) && sid in w.cache.revoked
    ensures var r := Apply(w, op).cache.revoked;
            sid in r && (r[sid] == w.cache.revoked[sid] || r[sid] >= w.now + BLACKLIST_TTL)
  {
  }

  lemma MintedNow(w: World, op: Op, c: Claims)
    requires c in Apply(w, op).issued && c !in w.issued
    ensures c.iat == w.now / 1000
  {
  }

  lemma SessionCoverageStep(w: World, op: Op, sid: Id)
    requires WorldInv(w) && w.expiryMin <= COVERED_MINUTES && Keeps(op, {sid}, {})
    requires sid in w.db.sessions && w.db.sessions[sid].revoked && SessionCovered(w, sid)
    ensures SessionCovered(Apply(w, op), sid)
  {
    var w' := Apply(w, op);
    ApplySteps(w, op);
    forall c | c in w'.issued && c.session == Some(sid) && Unexpired(c, w'.now)
      ensures sid in w'.cache.revoked && c.exp * 1000 <= w'.cache.revoked[sid]
    {
      if c !in w.issued {
        IssuedIsMinted(w, op);
        MintedForTheLiving(w, op, c);
      }
      ShortLived(w, c);
      SessionKeyMoves(w, op, sid);
    }
  }

  lemma UserCoverageStep(w: World, op: Op, user: Id, second: nat)
    requires WorldInv(w) && w.expiryMin <= COVERED_MINUTES && Keeps(op, {}, {user})
    requires UserCovered(w, user, second)
    ensures UserCovered(Apply(w, op), user, second)
  {
    var w' := Apply(w, op);
    ApplySteps(w, op);
    UserKeyMoves(w, op, user);
    forall c | c in w'.issued && c.sub == user && c.session.Some? && c.iat < second && Unexpired(c, w'.now)
      ensures c.exp * 1000 <= w'.cache.logoutAll[user].expires
    {
      if c !in w.issued {
        MintedNow(w, op, c);
      }
      ShortLived(w, c);
    }
  }

  lemma {:induction false} SessionCoverageLasts(w: World, ops: seq<Op>, sid: Id)
    requires WorldInv(w) && w.expiryMin <= COVERED_MINUTES && AllKeep(ops, {sid}, {})
    requires sid in w.db.sessions && w.db.sessions[sid].revoked && SessionCovered(w, sid)
    ensures SessionCovered(Run(w, ops), sid)
    decreases |ops|
  {
    if ops != [] {
      assert Keeps(ops[0], {sid}, {});
      ApplySteps(w, ops[0]);
      SessionCoverageStep(w, ops[0], sid);
      assert AllKeep(ops[1..], {sid}, {});
      SessionCoverageLasts(Apply(w, ops[0]), ops[1..], sid);
    }
  }

  lemma {:induction false} UserCoverageLasts(w: World, ops: seq<Op>, user: Id, second: nat)
    requires WorldInv(w) && w.expiryMin <= COVERED_MINUTES && AllKeep(ops, {}, {user})
    requires UserCovered(w, user, second)
    ensures UserCovered(Run(w, ops), user, second)
    decreases |ops|
  {
    if ops != [] {
      assert Keeps(ops[0], {}, {user});
      ApplySteps(w, ops[0]);
      UserCoverageStep(w, ops[0], user, second);
      assert AllKeep(ops[1..], {}, {user});
      UserCoverageLasts(Apply(w, ops[0]), ops[1..], user, second);
    }
  }

  // ---------------------------------------------------------------- main results

  /** After a logout whose SET succeeded, the blacklist alone refuses every token of the session for as long
      as the token could be presented, through later overwrites of the key. */
  lemma LogoutCovers(w: World, caller: Claims, f: Faults, ops: seq<Op>, c: Claims)
    requires WorldInv(w) && w.expiryMin <= COVERED_MINUTES
    requires Presentable(w.issued, caller, w.now) && caller.session.Some? && f.setOk
    requires AllKeep(ops, {caller.session.value}, {})
    requires c.session == caller.session
    ensures var w' := Run(Logout(w, caller, f), ops);
            c in w'.issued && Unexpired(c, w'.now) ==> BlacklistRejects(w'.cache, c, w'.now)
  {
    var sid := caller.session.value;
    var mid := Logout(w, caller, f);
    LogoutSteps(w, caller, f);
    forall t | t in mid.issued && t.session == Some(sid) ensures t.exp * 1000 <= mid.cache.revoked[sid] {
      ShortLived(w, t);
    }
    SessionCoverageLasts(mid, ops, sid);
  }

  /** After removeMember the blacklist alone refuses every token of each session that was active and whose
      SET succeeded, although later writes of the same key use a shorter lifetime. */
  lemma RemoveMemberCovers(w: World, org: Id, user: Id, reached: set<Id>, ops: seq<Op>, c: Claims)
    requires WorldInv(w) && w.expiryMin <= COVERED_MINUTES && IsMember(w.db, org, user)
    requires c.session.Some? && c.session.value in ActiveSessionsOf(w.db, user) && c.session.value in reached
    requires AllKeep(ops, {c.session.value}, {})
    ensures var w' := Run(RemoveMember(w, org, user, reached), ops);
            c in w'.issued && Unexpired(c, w'.now) ==> BlacklistRejects(w'.cache, c, w'.now)
  {
    var sid := c.session.value;
    var mid := RemoveMember(w, org, user, reached);
    RemoveMemberSteps(w, org, user, reached);
    assert mid.cache.revoked[sid] == w.now + REMOVAL_TTL;
    forall t | t in mid.issued && t.session == Some(sid) ensures t.exp * 1000 <= mid.cache.revoked[sid] {
      ShortLived(w, t);
    }
    SessionCoverageLasts(mid, ops, sid);
  }

  /** The two requests that write a session's blacklist key again, with fifteen minutes: a logout, and a verification
      that could not read the key. */
  predicate Rewrites(op: Op, sid: Id) {
    || (op.DoLogout? && op.claims.session == Some(sid) && op.faults.setOk)
    || (op.DoVerify? && op.claims.session == Some(sid) && op.faults.setOk && !op.faults.existsOk)
  }

  predicate NeverRewritten(ops: seq<Op>, sid: Id) {
    forall i :: 0 <= i < |ops| ==> !Rewrites(ops[i], sid)
  }

  /** The key has this expiry, and no token of the revoked session reaches beyond it. */
  ghost predicate KeyOutlasts(w: World, sid: Id, until: Millis) {
    && sid in w.db.sessions && w.db.sessions[sid].revoked
    && sid in w.cache.revoked && w.cache.revoked[sid] == until
    && forall c :: c in w.issued && c.session == Some(sid) ==> c.exp * 1000 <= until
  }

  lemma KeyStays(w: World, op: Op, sid: Id, until: Millis)
    requires WorldInv(w) && KeyOutlasts(w, sid, until) && Keeps(op, {sid}, {}) && !Rewrites(op, sid)
    ensures sid in Apply(w, op).cache.revoked && Apply(w, op).cache.revoked[sid] == until
  {
    if op.DoVerify? && op.claims in w.issued && op.claims.session == Some(sid) {
      assert Unexpired(op.claims, w.now) ==> BlacklistRejects(w.cache, op.claims, w.now);
    }
    if op.DoRemoveMember? {
      assert sid !in ActiveSessionsOf(w.db, op.user);
    }
  }

  lemma {:induction false} KeyOutlastsRun(w: World, ops: seq<Op>, sid: Id, until: Millis)
    requires WorldInv(w) && KeyOutlasts(w, sid, until) && AllKeep(ops, {sid}, {}) && NeverRewritten(ops, sid)
    ensures KeyOutlasts(Run(w, ops), sid, until)
    decreases |ops|
  {
    if ops != [] {
      var op := ops[0];
      var mid := Apply(w, op);
      assert Keeps(op, {sid}, {}) && !Rewrites(op, sid);
      KeyStays(w, op, sid, until);
      ApplySteps(w, op);
      IssuedIsMinted(w, op);
      forall c | c in mid.issued && c.session == Some(sid) ensures c.exp * 1000 <= until {
        if c !in w.issued {
          MintedForTheLiving(w, op, c);
        }
      }
      assert AllKeep(ops[1..], {sid}, {}) && NeverRewritten(ops[1..], sid);
      KeyOutlastsRun(mid, ops[1..], sid, until);
    }
  }

  /** After a removal that reached the token's session, the blacklist alone refuses the token while it is unexpired. */
  ghost predicate RemovalCovers(w: World, org: Id, user: Id, reached: set<Id>, ops: seq<Op>, c: Claims) {
    var w' := Run(RemoveMember(w, org, user, reached), ops);
    && IsMember(w.db, org, user) && c.session.Some?
    && c.session.value in ActiveSessionsOf(w.db, user) && c.session.value in reached
    && AllKeep(ops, {c.session.value}, {}) && c in w'.issued && Unexpired(c, w'.now)
    ==> BlacklistRejects(w'.cache, c, w'.now)
  }

  /** The day that removeMember writes covers lifetimes of up to a day, as long as nobody writes the key again. */
  lemma UntouchedRemovalCovers(w: World, org: Id, user: Id, reached: set<Id>, ops: seq<Op>, c: Claims)
    requires WorldInv(w) && w.expiryMin <= MINUTES_PER_DAY && c.session.Some? && NeverRewritten(ops, c.session.value)
    ensures RemovalCovers(w, org, user, reached, ops, c)
  {
    var sid := c.session.value;
    if IsMember(w.db, org, user) && sid in ActiveSessionsOf(w.db, user) && sid in reached && AllKeep(ops, {sid}, {}) {
      var mid := RemoveMember(w, org, user, reached);
      RemoveMemberSteps(w, org, user, reached);
      forall t | t in mid.issued && t.session == Some(sid) ensures t.exp * 1000 <= w.now + REMOVAL_TTL {
        ShortLived(w, t);
      }
      KeyOutlastsRun(mid, ops, sid, w.now + REMOVAL_TTL);
    }
  }

  ghost predicate AllRemovalsCover(expiryMin: nat, rewrites: bool) {
    forall now: Millis, before: seq<Op>, org: Id, user: Id, reached: set<Id>, ops: seq<Op>, c: Claims
      {:trigger RemovalCovers(Run(Start(now, expiryMin), before), org, user, reached, ops, c)} ::
      (rewrites || (c.session.Some? ==> NeverRewritten(ops, c.session.value))) ==>
      RemovalCovers(Run(Start(now, expiryMin), before), org, user, reached, ops, c)
  }

  /** Exactly which lifetimes the key of a removal covers in every run: fifteen minutes if later requests may write the
      key again, a day if they do not. */
  lemma RemovalCoverageIff(expiryMin: nat, rewrites: bool)
    ensures AllRemovalsCover(expiryMin, rewrites) <==>
            expiryMin <= if rewrites then COVERED_MINUTES else MINUTES_PER_DAY
  {
    if expiryMin <= if rewrites then COVERED_MINUTES else MINUTES_PER_DAY {
      forall now: Millis, before: seq<Op>, org: Id, user: Id, reached: set<Id>, ops: seq<Op>, c: Claims
        | rewrites || (c.session.Some? ==> NeverRewritten(ops, c.session.value))
        ensures RemovalCovers(Run(Start(now, expiryMin), before), org, user, reached, ops, c)
      {
        RemovalCoversRun(now, expiryMin, rewrites, before, org, user, reached, ops, c);
      }
    } else {
      RemovalLapses(expiryMin, rewrites);
    }
  }

  lemma RemovalCoversRun(now: Millis, expiryMin: nat, rewrites: bool, before: seq<Op>, org: Id, user: Id,
                         reached: set<Id>, ops: seq<Op>, c: Claims)
    requires expiryMin <= if rewrites then COVERED_MINUTES else MINUTES_PER_DAY
    requires rewrites || (c.session.Some? ==> NeverRewritten(ops, c.session.value))
    ensures RemovalCovers(Run(Start(now, expiryMin), before), org, user, reached, ops, c)
  {
    var w := Run(Start(now, expiryMin), before);
    RunSteps(Start(now, expiryMin), before);
    if c.session.Some? && !rewrites {
      UntouchedRemovalCovers(w, org, user, reached, ops, c);
    } else if c.session.Some? && IsMember(w.db, org, user) && c.session.value in ActiveSessionsOf(w.db, user)
              && c.session.value in reached && AllKeep(ops, {c.session.value}, {}) {
      RemoveMemberCovers(w, org, user, reached, ops, c);
    }
  }

  function LapsePrefix(): seq<Op> {
    [DoRegister(1, 7), DoLogin(1, true, false, 2, 3)]
  }

  /** One user, one session, one token. */
  lemma LapseStart(expiryMin: nat)
    ensures var w := Run(Start(0, expiryMin), LapsePrefix());
            && w.now == 0 && w.expiryMin == expiryMin && w.issued == {AccessClaims(1, 7, 2, 0, expiryMin)}
            && w.db.users == map[1 := User(7, true, Here)] && w.cache == Cache(map[], map[])
            && w.db.sessions == map[2 := NewSession(1, 7, 0)]
  {
    var w0, ops := Start(0, expiryMin), LapsePrefix();
    var w1 := Apply(w0, ops[0]);
    var w2 := Apply(w1, ops[1]);
    assert ops[1..][1..] == [];
    assert Run(w0, ops) == Run(w1, ops[1..]) == Run(w2, []) == w2;
  }

  /** Longer tokens outlive the key: after a day, or fifteen minutes after the removed member's own logout. */
  lemma RemovalLapses(expiryMin: nat, rewrites: bool)
    requires expiryMin > if rewrites then COVERED_MINUTES else MINUTES_PER_DAY
    ensures !AllRemovalsCover(expiryMin, rewrites)
  {
    if rewrites {
      RewrittenRemovalLapses(expiryMin);
    } else {
      UntouchedRemovalLapses(expiryMin);
    }
  }

  /** The removed member of LapseStart, whose one session was reached. */
  lemma LapseRemoved(expiryMin: nat) returns (w: World, mid: World)
    ensures w == Run(Start(0, expiryMin), LapsePrefix()) && mid == RemoveMember(w, 7, 1, {2})
    ensures IsMember(w.db, 7, 1) && ActiveSessionsOf(w.db, 1) == {2}
    ensures mid.now == 0 && mid.issued == {AccessClaims(1, 7, 2, 0, expiryMin)}
    ensures mid.cache.revoked == map[2 := REMOVAL_TTL]
  {
    w := Run(Start(0, expiryMin), LapsePrefix());
    LapseStart(expiryMin);
    assert ActiveSessionsOf(w.db, 1) == {2};
    mid := RemoveMember(w, 7, 1, {2});
    assert mid.cache.revoked == map[2 := REMOVAL_TTL];
  }

  lemma UntouchedRemovalLapses(expiryMin: nat)
    requires expiryMin > MINUTES_PER_DAY
    ensures !AllRemovalsCover(expiryMin, false)
  {
    var w, mid := LapseRemoved(expiryMin);
    var ops := [Tick(DAY)];
    assert ops[1..] == [];
    assert Run(mid, ops) == Run(Apply(mid, Tick(DAY)), []) == Apply(mid, Tick(DAY));
    assert NeverRewritten(ops, 2);
    assert !RemovalCovers(w, 7, 1, {2}, ops, AccessClaims(1, 7, 2, 0, expiryMin));
  }

  lemma RewrittenRemovalLapses(expiryMin: nat)
    requires expiryMin > COVERED_MINUTES
    ensures !AllRemovalsCover(expiryMin, true)
  {
    var w, mid := LapseRemoved(expiryMin);
    var c, f := AccessClaims(1, 7, 2, 0, expiryMin), Faults(true, true, true);
    var out := Logout(mid, c, f);
    var ops := [DoLogout(c, f), Tick(BLACKLIST_TTL)];
    assert ops[1..] == [Tick(BLACKLIST_TTL)];
    assert Run(mid, ops) == Run(out, [Tick(BLACKLIST_TTL)]);
    WaitLapses(out);
    assert !RemovalCovers(w, 7, 1, {2}, ops, c);
  }

  /** After a logout-all whose SET succeeded, the user key alone refuses exactly the tokens issued in an
      earlier second, until each expires; later logouts only move the recorded second forward. */
  lemma LogoutAllCovers(w: World, caller: Claims, f: Faults, ops: seq<Op>, c: Claims)
    requires WorldInv(w) && w.expiryMin <= COVERED_MINUTES
    requires Presentable(w.issued, caller, w.now) && f.setOk && AllKeep(ops, {}, {caller.sub})
    requires c.sub == caller.sub && c.session.Some?
    ensures var w' := Run(LogoutAll(w, caller, f), ops);
            c in w'.issued && Unexpired(c, w'.now) && c.iat < w.now / 1000 ==> LogoutAllRejects(w'.cache, c, w'.now)
    ensures c.iat == w.now / 1000 ==> !LogoutAllRejects(LogoutAll(w, caller, f).cache, c, w.now)
  {
    var mid := LogoutAll(w, caller, f);
    LogoutAllSteps(w, caller, f);
    forall t | t in mid.issued && t.session.Some? ensures t.exp * 1000 <= w.now + BLACKLIST_TTL {
      ShortLived(w, t);
    }
    UserCoverageLasts(mid, ops, caller.sub, w.now / 1000);
  }

  // ---------------------------------------------------------------- which lifetimes are covered

  /** After a logout whose SET succeeded, the blacklist alone refuses the token while it is unexpired. */
  ghost predicate LogoutCovered(w: World, caller: Claims, f: Faults, ops: seq<Op>, c: Claims) {
    var w' := Run(Logout(w, caller, f), ops);
    && Presentable(w.issued, caller, w.now) && caller.session.Some? && f.setOk
    && AllKeep(ops, {caller.session.value}, {}) && c.session == caller.session
    && c in w'.issued && Unexpired(c, w'.now)
    ==> BlacklistRejects(w'.cache, c, w'.now)
  }

  /** After a logout-all whose SET succeeded, the user key alone refuses the older token while it is unexpired. */
  ghost predicate LogoutAllCovered(w: World, caller: Claims, f: Faults, ops: seq<Op>, c: Claims) {
    var w' := Run(LogoutAll(w, caller, f), ops);
    && Presentable(w.issued, caller, w.now) && f.setOk
    && AllKeep(ops, {}, {caller.sub}) && c.sub == caller.sub && c.session.Some?
    && c in w'.issued && Unexpired(c, w'.now) && c.iat < w.now / 1000
    ==> LogoutAllRejects(w'.cache, c, w'.now)
  }

  ghost predicate AllLogoutsCover(expiryMin: nat) {
    forall now: Millis, before: seq<Op>, caller: Claims, f: Faults, ops: seq<Op>, c: Claims
      {:trigger LogoutCovered(Run(Start(now, expiryMin), before), caller, f, ops, c)} ::
      LogoutCovered(Run(Start(now, expiryMin), before), caller, f, ops, c)
  }

  ghost predicate AllLogoutAllsCover(expiryMin: nat) {
    forall now: Millis, before: seq<Op>, caller: Claims, f: Faults, ops: seq<Op>, c: Claims
      {:trigger LogoutAllCovered(Run(Start(now, expiryMin), before), caller, f, ops, c)} ::
      LogoutAllCovered(Run(Start(now, expiryMin), before), caller, f, ops, c)
  }

  /** The key of a logout covers in every run exactly the lifetimes up to fifteen minutes. */
  lemma LogoutCoverageIff(expiryMin: nat)
    ensures AllLogoutsCover(expiryMin) <==> expiryMin <= COVERED_MINUTES
  {
    if expiryMin <= COVERED_MINUTES {
      forall now: Millis, before: seq<Op>, caller: Claims, f: Faults, ops: seq<Op>, c: Claims
        ensures LogoutCovered(Run(Start(now, expiryMin), before), caller, f, ops, c)
      {
        LogoutCoversRun(now, expiryMin, before, caller, f, ops, c);
      }
    } else {
      LogoutLapses(expiryMin);
    }
  }

  lemma LogoutCoversRun(now: Millis, expiryMin: nat, before: seq<Op>, caller: Claims, f: Faults,
                        ops: seq<Op>, c: Claims)
    requires expiryMin <= COVERED_MINUTES
    ensures LogoutCovered(Run(Start(now, expiryMin), before), caller, f, ops, c)
  {
    var w := Run(Start(now, expiryMin), before);
    RunSteps(Start(now, expiryMin), before);
    if Presentable(w.issued, caller, w.now) && caller.session.Some? && f.setOk
       && AllKeep(ops, {caller.session.value}, {}) && c.session == caller.session {
      LogoutCovers(w, caller, f, ops, c);
    }
  }

  lemma LogoutLapses(expiryMin: nat)
    requires expiryMin > COVERED_MINUTES
    ensures !AllLogoutsCover(expiryMin)
  {
    var w := Run(Start(0, expiryMin), LapsePrefix());
    var c := AccessClaims(1, 7, 2, 0, expiryMin);
    var f := Faults(true, true, true);
    LapseStart(expiryMin);
    WaitLapses(Logout(w, c, f));
    assert !LogoutCovered(w, c, f, [Tick(BLACKLIST_TTL)], c);
  }

  lemma WaitLapses(w: World)
    ensures Run(w, [Tick(BLACKLIST_TTL)]) == w.(now := w.now + BLACKLIST_TTL)
  {
    assert [Tick(BLACKLIST_TTL)][1..] == [];
  }

  /** And so does the key of a logout-all. */
  lemma LogoutAllCoverageIff(expiryMin: nat)
    ensures AllLogoutAllsCover(expiryMin) <==> expiryMin <= COVERED_MINUTES
  {
    if expiryMin <= COVERED_MINUTES {
      forall now: Millis, before: seq<Op>, caller: Claims, f: Faults, ops: seq<Op>, c: Claims
        ensures LogoutAllCovered(Run(Start(now, expiryMin), before), caller, f, ops, c)
      {
        LogoutAllCoversRun(now, expiryMin, before, caller, f, ops, c);
      }
    } else {
      LogoutAllLapses(expiryMin);
    }
  }

  lemma LogoutAllCoversRun(now: Millis, expiryMin: nat, before: seq<Op>, caller: Claims, f: Faults,
                           ops: seq<Op>, c: Claims)
    requires expiryMin <= COVERED_MINUTES
    ensures LogoutAllCovered(Run(Start(now, expiryMin), before), caller, f, ops, c)
  {
    var w := Run(Start(now, expiryMin), before);
    RunSteps(Start(now, expiryMin), before);
    if Presentable(w.issued, caller, w.now) && f.setOk && AllKeep(ops, {}, {caller.sub})
       && c.sub == caller.sub && c.session.Some? {
      LogoutAllCovers(w, caller, f, ops, c);
    }
  }

  /** A token of second zero, a logout-all in second one, and fifteen minutes. */
  lemma LogoutAllLapses(expiryMin: nat)
    requires expiryMin > COVERED_MINUTES
    ensures !AllLogoutAllsCover(expiryMin)
  {
    var c := AccessClaims(1, 7, 2, 0, expiryMin);
    var f := Faults(true, true, true);
    LapseStart(expiryMin);
    RunSnoc(Start(0, expiryMin), LapsePrefix(), Tick(1000));
    var w := Run(Start(0, expiryMin), LapsePrefix() + [Tick(1000)]);
    WaitLapses(LogoutAll(w, c, f));
    assert !LogoutAllCovered(w, c, f, [Tick(BLACKLIST_TTL)], c);
  }

  // ---------------------------------------------------------------- the lifetime is configurable

  function LapseOps(expiryMin: nat): seq<Op> {
    var c := AccessClaims(1, 7, 2, 0, expiryMin);
    [DoRegister(1, 7), DoLogin(1, true, false, 2, 3), DoLogout(c, Faults(true, true, true)), Tick(BLACKLIST_TTL)]
  }

  /** A configured lifetime above fifteen minutes breaks the coverage: fifteen minutes after a logout the key
      is gone while the token it should refuse is unexpired. Only the database still refuses it. */
  lemma LongTokensOutliveTheBlacklist(expiryMin: nat)
    requires expiryMin > COVERED_MINUTES
    ensures var w := Run(Start(0, expiryMin), LapseOps(expiryMin));
            var c := AccessClaims(1, 7, 2, 0, expiryMin);
            && c in w.issued && Unexpired(c, w.now) && LoggedOut(2) in w.history
            && !BlacklistRejects(w.cache, c, w.now) && !Accepts(w, c, Faults(true, true, true))
  {
    var ops := LapseOps(expiryMin);
    var w0 := Start(0, expiryMin);
    var w1 := Apply(w0, ops[0]);
    var w2 := Apply(w1, ops[1]);
    var w3 := Apply(w2, ops[2]);
    var w4 := Apply(w3, ops[3]);
    assert ops[1..][1..] == ops[2..] && ops[2..][1..] == ops[3..] && ops[3..][1..] == [];
    assert Run(w0, ops) == Run(w1, ops[1..]) == Run(w2, ops[2..]) == Run(w3, ops[3..]) == Run(w4, []) == w4;
    assert w3.history[1] == LoggedOut(2);
  }
}
