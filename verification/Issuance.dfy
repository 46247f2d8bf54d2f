/** When tokens stop coming out, at the grain of single statements: exactly when a revoked session hands out no more,
    how many tokens a removed member can still get, and when the last of them is refused. */
module Issuance {
  import opened Domain
  import opened Transactions
  import opened Handlers
  import opened Interleaving
  import opened InterleavingResults

  /** The token a step puts into a client's hands, whether or not equal claims were released before. */
  function Handed(m: Machine, a: Action): Option<Claims> {
    match a
    case Onboard(u, org, sid, hash, minted) =>
      if u in m.db.users || m.now < minted || sid in m.db.sessions || hash in m.db.tokens then None
      else Some(AccessClaims(u, org, sid, minted, m.expiryMin))
    case Advance(tid, _, _, _) =>
      if tid !in m.threads then None
      else (match m.threads[tid]
            case CreateCommit(id, s, h, c) => if CanInsert(m.db, id, s, h) then Some(c) else None
            case RefreshMint(id, u, org) => Some(AccessClaims(u, org, id, m.now, m.expiryMin))
            case _ => None)
    case _ => None
  }

  /** A step releases exactly what it hands out. */
  lemma ReleasedIsHanded(m: Machine, a: Action)
    ensures Next(m, a).released == m.released + match Handed(m, a) { case None => {} case Some(c) => {c} }
  {
  }

  // ---------------------------------------------------------------- when a revoked session falls silent

  /** A refresh of the session has rotated and will still find its user. */
  predicate Releasing(m: Machine, tid: ThreadId, sid: Id) {
    tid in m.threads
    && match m.threads[tid]
       case RefreshLookup(id, u) => id == sid && Present(m.db.users, u)
       case RefreshMint(id, _, _) => id == sid
       case _ => false
  }

  ghost predicate Silent(m: Machine, sid: Id) {
    forall tid :: !Releasing(m, tid, sid)
  }

  ghost predicate HandsOut(m: Machine, acts: seq<Action>, a: Action, sid: Id) {
    Handed(Exec(m, acts), a).Some? && Handed(Exec(m, acts), a).value.session == Some(sid)
  }

  /** The steps of one request do not bring it back to releasing a revoked session. */
  lemma StepStaysSilent(m: Machine, tid: ThreadId, pc: Pc, sid: Id, hash: Hash, ok: bool, s: Id)
    requires MachineInv(m) && Revoked(m.db, s) && tid in m.threads && m.threads[tid] == pc && !Releasing(m, tid, s)
    ensures !Releasing(Step(m, tid, pc, sid, hash, ok), tid, s)
  {
    if pc.RefreshRotate? && hash !in m.db.tokens && CanSpend(m.db, pc.oldHash) {
      assert Live(m.db, pc.oldHash);
      assert RevokedMeansDead(m.db) && TokensMatchSessions(m.db);
    }
    assert ThreadOk(pc, m.db, m.now);
  }

  lemma BystanderStaysSilent(m: Machine, m': Machine, tid: ThreadId, s: Id)
    requires MachineInv(m) && Evolves(m.db, m'.db) && !Releasing(m, tid, s)
    requires tid in m'.threads ==> tid in m.threads && m'.threads[tid] == m.threads[tid]
    ensures !Releasing(m', tid, s)
  {
    if tid in m'.threads && m.threads[tid].RefreshLookup? {
      assert ThreadOk(m.threads[tid], m.db, m.now);
      assert SessionsMatchUsers(m.db);
    }
  }

  lemma SilenceStep(m: Machine, a: Action, s: Id)
    requires MachineInv(m) && Revoked(m.db, s) && Silent(m, s)
    ensures Handed(m, a).Some? ==> Handed(m, a).value.session != Some(s)
    ensures Silent(Next(m, a), s)
  {
    if a.Advance? && a.tid in m.threads {
      assert ThreadOk(m.threads[a.tid], m.db, m.now) && !Releasing(m, a.tid, s);
    }
    NextKeeps(m, a);
    forall tid ensures !Releasing(Next(m, a), tid, s) {
      assert !Releasing(m, tid, s);
      if a.Advance? && a.tid == tid && tid in m.threads {
        StepStaysSilent(m, tid, m.threads[tid], a.sid, a.hash, a.ok, s);
      } else if !(a.Begin? && a.tid == tid) {
        OthersStay(m, a, tid);
        BystanderStaysSilent(m, Next(m, a), tid, s);
      }
    }
  }

  lemma {:induction false} SilentForever(m: Machine, acts: seq<Action>, a: Action, s: Id)
    requires MachineInv(m) && Revoked(m.db, s) && Silent(m, s)
    ensures !HandsOut(m, acts, a, s)
    decreases |acts|
  {
    if acts == [] {
      SilenceStep(m, a, s);
    } else {
      NextKeeps(m, acts[0]);
      SilenceStep(m, acts[0], s);
      SilentForever(Next(m, acts[0]), acts[1..], a, s);
    }
  }

  lemma ReleasingHandsOut(m: Machine, tid: ThreadId, s: Id) returns (acts: seq<Action>, a: Action)
    requires Releasing(m, tid, s)
    ensures HandsOut(m, acts, a, s)
  {
    a := Advance(tid, 0, 0, true);
    acts := [];
    if m.threads[tid].RefreshLookup? {
      acts := [a];
      assert acts[1..] == [];
      assert Exec(m, acts) == Exec(Next(m, a), []) == Next(m, a);
    }
  }

  /** A revoked session hands out no further token, in any continuation, if and only if no refresh of it has already
      rotated and will still find its user. */
  lemma RevokedIsSilentIff(m: Machine, s: Id)
    requires MachineInv(m) && Revoked(m.db, s)
    ensures (forall acts, a {:trigger HandsOut(m, acts, a, s)} :: !HandsOut(m, acts, a, s)) <==> Silent(m, s)
  {
    if Silent(m, s) {
      forall acts, a ensures !HandsOut(m, acts, a, s) {
        SilentForever(m, acts, a, s);
      }
    } else {
      var tid :| Releasing(m, tid, s);
      var acts, a := ReleasingHandsOut(m, tid, s);
    }
  }

  /** A session of user 1, and its token handed out. */
  lemma SessionOpen() returns (acts: seq<Action>, m: Machine)
    ensures m == Exec(Initial(0, 15), acts)
    ensures m == Initial(0, 15).(
              db := Database(map[1 := User(7, true, Here)], map[2 := NewSession(1, 7, 0)],
                             map[3 := RefreshToken(2, 1, SESSION_LIFETIME, false)], map[]),
              released := {AccessClaims(1, 7, 2, 0, 15)})
  {
    var before, m3 := LoginMinted();
    var go := Advance(0, 0, 0, true);
    acts := before + [go];
    ExecSnoc(Initial(0, 15), before, go);
    m := Next(m3, go);
  }

  /** A refresh has rotated and is about to look up its user. */
  lemma SessionRotated() returns (acts: seq<Action>, m: Machine)
    ensures m == Exec(Initial(0, 15), acts)
    ensures m == Initial(0, 15).(
              db := Database(map[1 := User(7, true, Here)], map[2 := NewSession(1, 7, 0)],
                             map[3 := RefreshToken(2, 1, SESSION_LIFETIME, true),
                                 4 := RefreshToken(2, 1, SESSION_LIFETIME, false)], map[]),
              released := {AccessClaims(1, 7, 2, 0, 15)}, attempts := [Attempt(3, 2, true)],
              threads := map[1 := RefreshLookup(2, 1)])
  {
    var before, m4 := SessionOpen();
    var begin, rotate := Begin(1, RefreshWith(3)), Advance(1, 0, 4, true);
    acts := before + [begin] + [rotate];
    ExecSnoc(Initial(0, 15), before, begin);
    ExecSnoc(Initial(0, 15), before + [begin], rotate);
    var m5 := Next(m4, begin);
    assert m5.threads == map[1 := RefreshRotate(3)];
    m := Next(m5, rotate);
  }

  /** Meanwhile the session is logged out. */
  lemma SessionLoggedOut() returns (acts: seq<Action>, m: Machine)
    ensures m == Exec(Initial(0, 15), acts) && Revoked(m.db, 2) && Present(m.db.users, 1)
    ensures 1 in m.threads && m.threads[1] == RefreshLookup(2, 1)
  {
    var before, m6 := SessionRotated();
    var begin, revoke := Begin(2, LogoutWith(AccessClaims(1, 7, 2, 0, 15))), Advance(2, 0, 0, true);
    acts := before + [begin] + [revoke];
    ExecSnoc(Initial(0, 15), before, begin);
    ExecSnoc(Initial(0, 15), before + [begin], revoke);
    m := Next(Next(m6, begin), revoke);
  }

  /** A refresh that straddles a logout: the session is revoked, and its next token is handed out all the same. */
  lemma RefreshStraddlingLogout() returns (acts: seq<Action>, more: seq<Action>, a: Action)
    ensures var m := Exec(Initial(0, 15), acts);
            MachineInv(m) && Revoked(m.db, 2) && Releasing(m, 1, 2) && HandsOut(m, more, a, 2)
  {
    var m: Machine;
    acts, m := SessionLoggedOut();
    ExecKeeps(Initial(0, 15), acts);
    more, a := ReleasingHandsOut(m, 1, 2);
  }

  // ---------------------------------------------------------------- what a removed member can still get

  /** A request that is past the lookup of this user and has yet to hand out its token. */
  predicate PastLookup(pc: Pc, user: Id) {
    match pc
    case CreateMint(u, _) => u == user
    case CreateCommit(_, s, _, _) => s.user == user
    case RefreshMint(_, u, _) => u == user
    case _ => false
  }

  function Pending(m: Machine, user: Id): set<ThreadId> {
    set tid | tid in m.threads && PastLookup(m.threads[tid], user)
  }

  function ForUser(c: Option<Claims>, user: Id): nat {
    if c.Some? && c.value.sub == user then 1 else 0
  }

  /** How many tokens of the user a run hands out. */
  function HandedCount(m: Machine, acts: seq<Action>, user: Id): nat
    decreases |acts|
  {
    if acts == [] then 0 else ForUser(Handed(m, acts[0]), user) + HandedCount(Next(m, acts[0]), acts[1..], user)
  }

  lemma StepStaysLooked(m: Machine, tid: ThreadId, pc: Pc, sid: Id, hash: Hash, ok: bool, user: Id)
    requires Deleted(m.db, user) && tid in m.threads && m.threads[tid] == pc && !PastLookup(pc, user)
    ensures var m' := Step(m, tid, pc, sid, hash, ok); tid in m'.threads ==> !PastLookup(m'.threads[tid], user)
  {
  }

  /** Nobody gets past the lookup of a deleted user. */
  lemma PendingShrinks(m: Machine, a: Action, user: Id)
    requires Deleted(m.db, user)
    ensures Pending(Next(m, a), user) <= Pending(m, user)
  {
    var m' := Next(m, a);
    forall tid | tid in Pending(m', user) ensures tid in Pending(m, user) {
      if a.Advance? && a.tid == tid && tid in m.threads {
        if tid !in Pending(m, user) {
          StepStaysLooked(m, tid, m.threads[tid], a.sid, a.hash, a.ok, user);
        }
      } else if !(a.Begin? && a.tid == tid) {
        OthersStay(m, a, tid);
      }
    }
  }

  /** Whoever hands out a token of the deleted user was pending, and is done. */
  lemma HandingEnds(m: Machine, a: Action, user: Id)
    requires MachineInv(m) && Deleted(m.db, user) && ForUser(Handed(m, a), user) == 1
    ensures a.Advance? && a.tid in Pending(m, user) && a.tid !in Pending(Next(m, a), user)
  {
    if a.Advance? && a.tid in m.threads {
      assert ThreadOk(m.threads[a.tid], m.db, m.now);
    }
  }

  lemma DeletionLasts(m: Machine, a: Action, user: Id)
    requires MachineInv(m) && Deleted(m.db, user)
    ensures Deleted(Next(m, a).db, user) && MachineInv(Next(m, a))
  {
    NextKeeps(m, a);
  }

  lemma SmallerBy(a: set<ThreadId>, b: set<ThreadId>, x: ThreadId)
    requires a <= b && x in b && x !in a
    ensures |a| + 1 <= |b|
  {
    assert a <= b - {x};
    CountSubset(a, b - {x});
  }

  lemma CountSubset(a: set<ThreadId>, b: set<ThreadId>)
    requires a <= b
    ensures |a| <= |b|
  {
    assert b == a + (b - a);
  }

  /** After the soft delete at most as many tokens of the user are handed out, in any continuation, as there were
      requests past the user lookup; each of them can do so once. In particular the session of a login that straddled
      the removal is never refreshed into another token. */
  lemma {:induction false} RemovalBoundsIssuance(m: Machine, acts: seq<Action>, user: Id)
    requires MachineInv(m) && Deleted(m.db, user)
    ensures HandedCount(m, acts, user) + |Pending(Exec(m, acts), user)| <= |Pending(m, user)|
    decreases |acts|
  {
    if acts != [] {
      var mid := Next(m, acts[0]);
      DeletionLasts(m, acts[0], user);
      PendingShrinks(m, acts[0], user);
      RemovalBoundsIssuance(mid, acts[1..], user);
      if ForUser(Handed(m, acts[0]), user) == 1 {
        HandingEnds(m, acts[0], user);
        SmallerBy(Pending(mid, user), Pending(m, user), acts[0].tid);
      } else {
        CountSubset(Pending(mid, user), Pending(m, user));
      }
    }
  }

  // ---------------------------------------------------------------- when the removed member is out

  predicate Verifying(m: Machine, tid: ThreadId, user: Id) {
    tid in m.threads
    && match m.threads[tid]
       case VerifyLogoutAll(c) => c.sub == user
       case VerifyBlacklist(c) => c.sub == user
       case VerifyDb(c) => c.sub == user
       case _ => false
  }

  /** Nobody can hand out a token of the deleted user, those handed out have expired, and none is being verified. */
  ghost predicate Out(m: Machine, user: Id) {
    && Deleted(m.db, user) && Pending(m, user) == {}
    && (forall c :: c in m.released && c.sub == user ==> !Unexpired(c, m.now))
    && forall tid :: !Verifying(m, tid, user)
  }

  lemma NobodyVerifies(m: Machine, a: Action, user: Id, tid: ThreadId)
    requires Out(m, user)
    ensures !Verifying(Next(m, a), tid, user)
  {
    assert !Verifying(m, tid, user);
    if !(a.Advance? && a.tid == tid && tid in m.threads) && !(a.Begin? && a.tid == tid) {
      OthersStay(m, a, tid);
    }
  }

  /** A token is let through only by a verification under way. */
  lemma NobodyAccepted(m: Machine, a: Action, user: Id, k: nat)
    requires Out(m, user) && |m.accepted| <= k < |Next(m, a).accepted|
    ensures Next(m, a).accepted[k].claims.sub != user
  {
    assert a.Advance? && !Verifying(m, a.tid, user);
  }

  lemma OutStep(m: Machine, a: Action, user: Id)
    requires MachineInv(m) && Out(m, user)
    ensures MachineInv(Next(m, a)) && Out(Next(m, a), user)
  {
    var m' := Next(m, a);
    NextKeeps(m, a);
    PendingShrinks(m, a, user);
    ReleasedIsHanded(m, a);
    if ForUser(Handed(m, a), user) == 1 {
      HandingEnds(m, a, user);
      assert false;
    }
    forall tid ensures !Verifying(m', tid, user) {
      NobodyVerifies(m, a, user, tid);
    }
  }

  /** Once the stragglers are done and their tokens have expired, nothing of a removed member is accepted again in any
      continuation, although a session of a login that straddled the removal may still be unrevoked. */
  lemma {:induction false} RemovedMemberIsOut(m: Machine, acts: seq<Action>, user: Id, k: nat)
    requires MachineInv(m) && Out(m, user) && |m.accepted| <= k < |Exec(m, acts).accepted|
    ensures Exec(m, acts).accepted[k].claims.sub != user
    decreases |acts|
  {
    if acts != [] {
      var mid := Next(m, acts[0]);
      OutStep(m, acts[0], user);
      LogGrows(mid, acts[1..]);
      if k < |mid.accepted| {
        NobodyAccepted(m, acts[0], user, k);
      } else {
        RemovedMemberIsOut(mid, acts[1..], user, k);
      }
    }
  }
}
