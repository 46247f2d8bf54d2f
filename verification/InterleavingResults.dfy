/** What holds of every interleaving of every number of requests, and the one promise that does not. */
module InterleavingResults {
  import opened Domain
  import opened Transactions
  import opened Handlers
  import opened Interleaving

  // ---------------------------------------------------------------- rotation is linear

  /** In every interleaving a session never has two live tokens; every refresh-token hash is rotated successfully at
      most once; and two arrivals with one hash leave its family dead, with no winner after them. */
  lemma RotationIsLinear(now: Millis, expiryMin: nat, acts: seq<Action>)
    ensures var m := Exec(Initial(now, expiryMin), acts);
            && OneLiveToken(m.db)
            && forall i, j :: 0 <= i < j < |m.attempts| && m.attempts[i].hash == m.attempts[j].hash ==>
                 && !m.attempts[j].won
                 && Dead(m.db, m.attempts[j].sid)
                 && forall k :: j < k < |m.attempts| && m.attempts[k].sid == m.attempts[j].sid ==> !m.attempts[k].won
  {
    ExecKeeps(Initial(now, expiryMin), acts);
  }

  lemma {:induction false} LogGrows(m: Machine, acts: seq<Action>)
    ensures m.attempts <= Exec(m, acts).attempts && m.accepted <= Exec(m, acts).accepted
    decreases |acts|
  {
    if acts != [] {
      assert m.attempts <= Next(m, acts[0]).attempts && m.accepted <= Next(m, acts[0]).accepted;
      LogGrows(Next(m, acts[0]), acts[1..]);
    }
  }

  /** A step logs at most one arrival, and a winner's family is alive at that moment. */
  lemma WinnersAreAlive(m: Machine, a: Action)
    requires MachineInv(m)
    ensures var log := Next(m, a).attempts;
            || log == m.attempts
            || (|log| == |m.attempts| + 1 && (log[|m.attempts|].won ==> !Dead(m.db, log[|m.attempts|].sid)))
  {
    if a.Advance? && a.tid in m.threads && m.threads[a.tid].RefreshRotate? {
      var h := m.threads[a.tid].oldHash;
      assert CanSpend(m.db, h) ==> !Dead(m.db, m.db.tokens[h].session);
    }
  }

  lemma DeathPersists(m: Machine, m': Machine, sid: Id)
    requires Evolves(m.db, m'.db) && Dead(m.db, sid)
    ensures Dead(m'.db, sid)
  {
  }

  /** No token of a dead family is ever rotated again, in any continuation. */
  lemma {:induction false} DeadFamilyNeverWins(m: Machine, acts: seq<Action>, sid: Id, k: nat)
    requires MachineInv(m) && Dead(m.db, sid)
    requires |m.attempts| <= k < |Exec(m, acts).attempts|
    ensures Exec(m, acts).attempts[k].won ==> Exec(m, acts).attempts[k].sid != sid
    decreases |acts|
  {
    if acts != [] {
      var mid := Next(m, acts[0]);
      NextKeeps(m, acts[0]);
      WinnersAreAlive(m, acts[0]);
      LogGrows(mid, acts[1..]);
      if k >= |mid.attempts| {
        DeathPersists(m, mid, sid);
        DeadFamilyNeverWins(mid, acts[1..], sid, k);
      }
    }
  }

  /** Two arrivals with one hash end the family for good: in every continuation it has no live token, its
      session stays revoked, and no later arrival in it wins. */
  lemma ReplayEndsTheFamily(m: Machine, i: nat, j: nat, acts: seq<Action>)
    requires MachineInv(m) && i < j < |m.attempts| && m.attempts[i].hash == m.attempts[j].hash
    ensures var sid := m.attempts[j].sid;
            var m' := Exec(m, acts);
            && Dead(m'.db, sid)
            && forall k :: |m.attempts| <= k < |m'.attempts| && m'.attempts[k].won ==> m'.attempts[k].sid != sid
  {
    var sid := m.attempts[j].sid;
    var m' := Exec(m, acts);
    ExecKeeps(m, acts);
    DeathPersists(m, m', sid);
    forall k | |m.attempts| <= k < |m'.attempts| && m'.attempts[k].won ensures m'.attempts[k].sid != sid {
      DeadFamilyNeverWins(m, acts, sid, k);
    }
  }

  // ---------------------------------------------------------------- tokens are conserved

  function Wins(log: seq<Attempt>, sid: Id): nat {
    if log == [] then 0
    else Wins(log[..|log| - 1], sid) + (if log[|log| - 1].won && log[|log| - 1].sid == sid then 1 else 0)
  }

  lemma WinsStep(log: seq<Attempt>, a: Attempt, sid: Id)
    ensures Wins(log + [a], sid) == Wins(log, sid) + (if a.won && a.sid == sid then 1 else 0)
  {
  }

  ghost predicate Conserved(m: Machine) {
    forall sid :: sid in m.db.sessions ==> |TokensOfSession(m.db, sid)| == 1 + Wins(m.attempts, sid)
  }

  /** Flagging rows creates and destroys none. */
  ghost predicate SameRows(a: Database, b: Database) {
    && b.sessions.Keys == a.sessions.Keys && b.tokens.Keys == a.tokens.Keys
    && forall h :: h in a.tokens ==> b.tokens[h].session == a.tokens[h].session
  }

  lemma SameRowsSameCounts(m: Machine, m': Machine)
    requires Conserved(m) && m'.attempts == m.attempts && SameRows(m.db, m'.db)
    ensures Conserved(m')
  {
    forall sid | sid in m'.db.sessions ensures |TokensOfSession(m'.db, sid)| == 1 + Wins(m'.attempts, sid) {
      assert TokensOfSession(m'.db, sid) == TokensOfSession(m.db, sid);
    }
  }

  lemma CommitConserves(m: Machine, sid: Id, s: Session, hash: Hash, c: Claims)
    requires MachineInv(m) && Conserved(m)
    requires Wins(m.attempts, sid) == 0 || sid in m.db.sessions
    ensures Conserved(Commit(m, sid, s, hash, c))
  {
    if CanInsert(m.db, sid, s, hash) {
      var m' := Commit(m, sid, s, hash, c);
      forall i | i in m'.db.sessions ensures |TokensOfSession(m'.db, i)| == 1 + Wins(m'.attempts, i) {
        if i == sid {
          assert forall h :: h in m.db.tokens ==> m.db.tokens[h].session != sid;
          assert TokensOfSession(m'.db, sid) == {hash};
        } else {
          assert TokensOfSession(m'.db, i) == TokensOfSession(m.db, i);
        }
      }
    }
  }

  /** Nobody has won a rotation in a session that does not exist yet. */
  lemma {:induction false} NoWinsWithoutSession(log: seq<Attempt>, db: Database, sid: Id)
    requires DbInv(db) && sid !in db.sessions
    requires forall i :: 0 <= i < |log| ==> log[i].hash in db.tokens && db.tokens[log[i].hash].session == log[i].sid
    ensures Wins(log, sid) == 0
    decreases |log|
  {
    if log != [] {
      assert log[|log| - 1].sid in db.sessions;
      NoWinsWithoutSession(log[..|log| - 1], db, sid);
    }
  }

  /** A successful rotation adds its successor to the session's tokens and moves no other. */
  lemma SpendAdds(db: Database, oldHash: Hash, newHash: Hash, expiry: Millis, now: Millis, sid: Id, h: Hash)
    requires newHash !in db.tokens && CanSpend(db, oldHash)
    ensures h in TokensOfSession(SpendToken(db, oldHash, newHash, expiry, now), sid) <==>
            h in TokensOfSession(db, sid) || (h == newHash && db.tokens[oldHash].session == sid)
  {
  }

  lemma SpendConserves(db: Database, oldHash: Hash, newHash: Hash, expiry: Millis, now: Millis, sid: Id)
    requires newHash !in db.tokens && CanSpend(db, oldHash)
    ensures |TokensOfSession(SpendToken(db, oldHash, newHash, expiry, now), sid)| ==
            |TokensOfSession(db, sid)| + (if db.tokens[oldHash].session == sid then 1 else 0)
  {
    var before := TokensOfSession(db, sid);
    var after := TokensOfSession(SpendToken(db, oldHash, newHash, expiry, now), sid);
    forall h ensures h in after <==> h in before || (h == newHash && db.tokens[oldHash].session == sid) {
      SpendAdds(db, oldHash, newHash, expiry, now, sid, h);
    }
    assert newHash !in before;
    assert after == if db.tokens[oldHash].session == sid then before + {newHash} else before;
  }

  lemma ReplayConserves(m: Machine, oldHash: Hash)
    requires MachineInv(m) && Conserved(m) && oldHash in m.db.tokens
    ensures var sid := m.db.tokens[oldHash].session;
            Conserved(m.(db := RevokeSession(m.db, sid), attempts := m.attempts + [Attempt(oldHash, sid, false)]))
  {
    var sid := m.db.tokens[oldHash].session;
    var db' := RevokeSession(m.db, sid);
    SameRowsSameCounts(m, m.(db := db'));
    forall i | i in db'.sessions
      ensures |TokensOfSession(db', i)| == 1 + Wins(m.attempts + [Attempt(oldHash, sid, false)], i)
    {
      WinsStep(m.attempts, Attempt(oldHash, sid, false), i);
    }
  }

  lemma WinConserves(m: Machine, oldHash: Hash, newHash: Hash)
    requires Conserved(m) && newHash !in m.db.tokens && CanSpend(m.db, oldHash)
    ensures var sid := m.db.tokens[oldHash].session;
            Conserved(m.(db := SpendToken(m.db, oldHash, newHash, m.now + SESSION_LIFETIME, m.now),
                         attempts := m.attempts + [Attempt(oldHash, sid, true)]))
  {
    var sid := m.db.tokens[oldHash].session;
    var db' := SpendToken(m.db, oldHash, newHash, m.now + SESSION_LIFETIME, m.now);
    forall i | i in db'.sessions
      ensures |TokensOfSession(db', i)| == 1 + Wins(m.attempts + [Attempt(oldHash, sid, true)], i)
    {
      SpendConserves(m.db, oldHash, newHash, m.now + SESSION_LIFETIME, m.now, i);
      WinsStep(m.attempts, Attempt(oldHash, sid, true), i);
    }
  }

  lemma RotateConserves(m: Machine, tid: ThreadId, oldHash: Hash, newHash: Hash)
    requires MachineInv(m) && Conserved(m) && newHash !in m.db.tokens
    ensures Conserved(Rotate(m, tid, oldHash, newHash))
  {
    match RotateOutcome(m.db, oldHash, m.now)
    case Unknown =>
    case Orphaned =>
    case Replayed => ReplayConserves(m, oldHash);
    case Rotated(_, _) => WinConserves(m, oldHash, newHash);
  }

  lemma OnboardConserves(m: Machine, user: Id, org: Id, sid: Id, hash: Hash, minted: Millis)
    requires MachineInv(m) && Conserved(m) && user !in m.db.users && sid !in m.db.sessions
    ensures var mid := m.(db := InsertUser(m.db, user, org));
            var c := AccessClaims(user, org, sid, minted, m.expiryMin);
            Conserved(Commit(mid, sid, NewSession(user, org, minted), hash, c))
  {
    var mid := m.(db := InsertUser(m.db, user, org));
    InsertUserKeeps(m.db, user, org);
    Drift(m, mid.db, m.now);
    SameRowsSameCounts(m, mid);
    NoWinsWithoutSession(m.attempts, m.db, sid);
    CommitConserves(mid, sid, NewSession(user, org, minted), hash, AccessClaims(user, org, sid, minted, m.expiryMin));
  }

  lemma RevokingStepRows(m: Machine, tid: ThreadId, pc: Pc, sid: Id, hash: Hash, ok: bool)
    requires !pc.RefreshRotate? && !pc.CreateCommit?
    ensures var m' := Step(m, tid, pc, sid, hash, ok); SameRows(m.db, m'.db) && m'.attempts == m.attempts
  {
  }

  lemma StepConserves(m: Machine, tid: ThreadId, pc: Pc, sid: Id, hash: Hash, ok: bool)
    requires MachineInv(m) && Conserved(m)
    ensures Conserved(Step(m, tid, pc, sid, hash, ok))
  {
    match pc
    case RefreshRotate(oldHash) =>
      if hash !in m.db.tokens {
        RotateConserves(m, tid, oldHash, hash);
      }
    case CreateCommit(id, s, h, c) =>
      if id !in m.db.sessions {
        NoWinsWithoutSession(m.attempts, m.db, id);
      }
      CommitConserves(m, id, s, h, c);
    case _ =>
      RevokingStepRows(m, tid, pc, sid, hash, ok);
      SameRowsSameCounts(m, Step(m, tid, pc, sid, hash, ok));
  }

  lemma NextConserves(m: Machine, a: Action)
    requires MachineInv(m) && Conserved(m)
    ensures Conserved(Next(m, a))
  {
    match a
    case Advance(tid, sid, hash, ok) =>
      if tid in m.threads {
        StepConserves(m, tid, m.threads[tid], sid, hash, ok);
      }
    case Onboard(u, org, sid, hash, minted) =>
      if u !in m.db.users && sid !in m.db.sessions {
        OnboardConserves(m, u, org, sid, hash, minted);
      }
    case ResetRows(resets) => SameRowsSameCounts(m, m.(db := m.db.(resets := resets)));
    case DeleteOrganization(org) => SameRowsSameCounts(m, m.(db := Transactions.DeleteOrganization(m.db, org)));
    case Register(u, org) => SameRowsSameCounts(m, m.(db := InsertUser(m.db, u, org)));
    case _ =>
  }

  /** Each session owns one token for its creation and one for each rotation won in it; nothing else makes
      tokens and nothing removes them. */
  lemma {:induction false} TokensAreConserved(m: Machine, acts: seq<Action>)
    requires MachineInv(m) && Conserved(m)
    ensures Conserved(Exec(m, acts))
    decreases |acts|
  {
    if acts != [] {
      NextKeeps(m, acts[0]);
      NextConserves(m, acts[0]);
      TokensAreConserved(Next(m, acts[0]), acts[1..]);
    }
  }

  // ---------------------------------------------------------------- the blacklist is sound

  /** A blacklisted session is refused by the database now and at every later point of the interleaving. */
  lemma BlacklistIsSound(now: Millis, expiryMin: nat, acts: seq<Action>, later: seq<Action>, sid: Id)
    requires sid in Exec(Initial(now, expiryMin), acts).cache.revoked
    ensures var m := Exec(Initial(now, expiryMin), acts);
            && Refused(m.db, sid, m.now)
            && Refused(Exec(m, later).db, sid, Exec(m, later).now)
  {
    ExecKeeps(Initial(now, expiryMin), acts);
    ExecKeeps(Exec(Initial(now, expiryMin), acts), later);
  }

  lemma RefusedNotNow(m: Machine, a: Action, sid: Id, k: nat)
    requires Refused(m.db, sid, m.now) && |m.accepted| <= k < |Next(m, a).accepted|
    ensures Next(m, a).accepted[k].claims.session != Some(sid)
  {
  }

  /** Once the database refuses a session, no request lets one of its tokens through, not even a
      verification that was already under way. */
  lemma {:induction false} RefusedIsNeverAccepted(m: Machine, acts: seq<Action>, sid: Id, k: nat)
    requires MachineInv(m) && Refused(m.db, sid, m.now)
    requires |m.accepted| <= k < |Exec(m, acts).accepted|
    ensures Exec(m, acts).accepted[k].claims.session != Some(sid)
    decreases |acts|
  {
    if acts != [] {
      var mid := Next(m, acts[0]);
      LogGrows(mid, acts[1..]);
      if k < |mid.accepted| {
        RefusedNotNow(m, acts[0], sid, k);
      } else {
        NextKeeps(m, acts[0]);
        RefusalPersists(m, mid, sid);
        RefusedIsNeverAccepted(mid, acts[1..], sid, k);
      }
    }
  }

  lemma RefusalPersists(m: Machine, m': Machine, sid: Id)
    requires Evolves(m.db, m'.db) && m.now <= m'.now && Refused(m.db, sid, m.now)
    ensures Refused(m'.db, sid, m'.now)
  {
  }

  // ---------------------------------------------------------------- absolute lifetime, claim agreement

  /** However often a session is rotated, nothing of it is let through later than its creation plus thirty
      days; and what is let through names the session's own user and organisation. */
  lemma LifetimeIsAbsolute(now: Millis, expiryMin: nat, acts: seq<Action>, k: nat)
    requires k < |Exec(Initial(now, expiryMin), acts).accepted|
    ensures var m := Exec(Initial(now, expiryMin), acts);
            var c := m.accepted[k].claims;
            && c.session.Some? && c.session.value in m.db.sessions
            && m.accepted[k].at <= m.db.sessions[c.session.value].createdAt + SESSION_LIFETIME
            && c.sub == m.db.sessions[c.session.value].user && c.org == m.db.sessions[c.session.value].org
  {
    ExecKeeps(Initial(now, expiryMin), acts);
  }

  /** Every token ever released agrees with its session row, accepted or not. */
  lemma ReleasedClaimsAgree(now: Millis, expiryMin: nat, acts: seq<Action>, c: Claims)
    requires c in Exec(Initial(now, expiryMin), acts).released
    ensures var m := Exec(Initial(now, expiryMin), acts);
            && c.session.Some? && c.session.value in m.db.sessions
            && m.db.sessions[c.session.value].user == c.sub && m.db.sessions[c.session.value].org == c.org
  {
    ExecKeeps(Initial(now, expiryMin), acts);
    ReleasedHaveSessions(Initial(now, expiryMin), acts, c);
  }

  ghost predicate AllForSessions(m: Machine) {
    forall c :: c in m.released ==> c.session.Some?
  }

  lemma NextReleasesForSessions(m: Machine, a: Action)
    requires MachineInv(m) && AllForSessions(m)
    ensures AllForSessions(Next(m, a))
  {
  }

  lemma {:induction false} ReleasedHaveSessions(m: Machine, acts: seq<Action>, c: Claims)
    requires MachineInv(m) && AllForSessions(m) && c in Exec(m, acts).released
    ensures c.session.Some?
    decreases |acts|
  {
    if acts != [] {
      NextKeeps(m, acts[0]);
      NextReleasesForSessions(m, acts[0]);
      ReleasedHaveSessions(Next(m, acts[0]), acts[1..], c);
    }
  }

  // ---------------------------------------------------------------- when removal is final

  ghost predicate AllRevoked(db: Database, user: Id) {
    forall i :: i in db.sessions && db.sessions[i].user == user ==> db.sessions[i].revoked
  }

  /** A creation request of the user has read the user row and can still commit. */
  ghost predicate Committing(m: Machine, tid: ThreadId, user: Id) {
    tid in m.threads
    && match m.threads[tid]
       case CreateMint(u, _) => u == user && user in m.db.users && m.db.users[user].row != Gone
       case CreateCommit(sid, s, hash, _) => s.user == user && CanInsert(m.db, sid, s, hash)
       case _ => false
  }

  ghost predicate InFlight(m: Machine, user: Id) {
    exists tid :: Committing(m, tid, user)
  }

  lemma StepStaysRevoked(m: Machine, tid: ThreadId, pc: Pc, sid: Id, hash: Hash, ok: bool, user: Id)
    requires tid in m.threads && m.threads[tid] == pc && !Committing(m, tid, user) && AllRevoked(m.db, user)
    ensures AllRevoked(Step(m, tid, pc, sid, hash, ok).db, user)
  {
  }

  /** Nobody starts committing for a deleted user. */
  lemma StepStaysUncommitted(m: Machine, tid: ThreadId, pc: Pc, sid: Id, hash: Hash, ok: bool, user: Id)
    requires tid in m.threads && m.threads[tid] == pc && !Committing(m, tid, user)
    ensures !Committing(Step(m, tid, pc, sid, hash, ok), tid, user)
  {
  }

  lemma BystanderStaysUncommitted(m: Machine, m': Machine, tid: ThreadId, user: Id)
    requires MachineInv(m) && Evolves(m.db, m'.db) && !Committing(m, tid, user)
    requires tid in m'.threads ==> tid in m.threads && m'.threads[tid] == m.threads[tid]
    ensures !Committing(m', tid, user)
  {
  }

  lemma BeginStaysUncommitted(m: Machine, tid: ThreadId, r: Request, user: Id)
    requires Deleted(m.db, user) && !Committing(m, tid, user)
    ensures !Committing(Next(m, Begin(tid, r)), tid, user)
  {
  }

  lemma OthersStay(m: Machine, a: Action, tid: ThreadId)
    requires (a.Advance? ==> a.tid != tid || tid !in m.threads) && (a.Begin? ==> a.tid != tid)
    ensures var m' := Next(m, a);
            tid in m'.threads ==> tid in m.threads && m'.threads[tid] == m.threads[tid]
  {
    if a.Advance? && a.tid in m.threads {
      StepMovesOne(m, a.tid, m.threads[a.tid], a.sid, a.hash, a.ok, tid);
    }
  }

  lemma StepMovesOne(m: Machine, mover: ThreadId, pc: Pc, sid: Id, hash: Hash, ok: bool, tid: ThreadId)
    requires mover != tid
    ensures var m' := Step(m, mover, pc, sid, hash, ok);
            tid in m'.threads ==> tid in m.threads && m'.threads[tid] == m.threads[tid]
  {
  }

  lemma NobodyStarts(m: Machine, a: Action, user: Id, tid: ThreadId)
    requires MachineInv(m) && Deleted(m.db, user) && !Committing(m, tid, user)
    ensures !Committing(Next(m, a), tid, user)
  {
    if a.Advance? && a.tid == tid && tid in m.threads {
      StepStaysUncommitted(m, tid, m.threads[tid], a.sid, a.hash, a.ok, user);
    } else if a.Begin? && a.tid == tid {
      BeginStaysUncommitted(m, tid, a.request, user);
    } else {
      NextKeeps(m, a);
      OthersStay(m, a, tid);
      BystanderStaysUncommitted(m, Next(m, a), tid, user);
    }
  }

  lemma NextStaysRevoked(m: Machine, a: Action, user: Id)
    requires Deleted(m.db, user) && AllRevoked(m.db, user) && !InFlight(m, user)
    ensures AllRevoked(Next(m, a).db, user)
  {
    if a.Advance? && a.tid in m.threads {
      assert !Committing(m, a.tid, user);
      StepStaysRevoked(m, a.tid, m.threads[a.tid], a.sid, a.hash, a.ok, user);
    }
  }

  lemma SealedStep(m: Machine, a: Action, user: Id)
    requires MachineInv(m) && Deleted(m.db, user) && AllRevoked(m.db, user) && !InFlight(m, user)
    ensures var m' := Next(m, a); Deleted(m'.db, user) && AllRevoked(m'.db, user) && !InFlight(m', user)
  {
    NextKeeps(m, a);
    NextStaysRevoked(m, a, user);
    forall tid ensures !Committing(Next(m, a), tid, user) {
      assert !Committing(m, tid, user);
      NobodyStarts(m, a, user, tid);
    }
  }

  lemma {:induction false} SealedForever(m: Machine, acts: seq<Action>, user: Id)
    requires MachineInv(m) && Deleted(m.db, user) && AllRevoked(m.db, user) && !InFlight(m, user)
    ensures AllRevoked(Exec(m, acts).db, user)
    decreases |acts|
  {
    if acts != [] {
      SealedStep(m, acts[0], user);
      NextKeeps(m, acts[0]);
      SealedForever(Next(m, acts[0]), acts[1..], user);
    }
  }

  /** There is always an unused number. */
  lemma {:induction false} FreshExists(used: set<nat>) returns (n: nat)
    ensures n !in used && forall i :: i in used ==> i < n
    decreases used
  {
    if used == {} {
      n := 0;
    } else {
      var x :| x in used;
      var k := FreshExists(used - {x});
      n := if x < k then k else x + 1;
      forall i | i in used ensures i < n {
        assert i == x || i in used - {x};
      }
    }
  }

  /** A request past its user lookup commits an unrevoked session, whatever has happened to the user since. */
  lemma StragglerCommits(m: Machine, tid: ThreadId, user: Id) returns (acts: seq<Action>)
    requires MachineInv(m) && Committing(m, tid, user)
    ensures !AllRevoked(Exec(m, acts).db, user)
  {
    match m.threads[tid]
    case CreateMint(u, org) =>
      var sid := FreshExists(m.db.sessions.Keys);
      var hash := FreshExists(m.db.tokens.Keys);
      var go := Advance(tid, sid, hash, true);
      var mid := Next(m, go);
      acts := [go, go];
      assert acts[1..] == [go] && [go][1..] == [];
      assert Exec(m, acts) == Exec(mid, [go]) == Exec(Next(mid, go), []) == Next(mid, go);
      assert Owns(Next(mid, go).db, sid, user) && !Revoked(Next(mid, go).db, sid);
    case CreateCommit(sid, s, hash, c) =>
      var go := Advance(tid, 0, 0, true);
      acts := [go];
      assert [go][1..] == [];
      assert Exec(m, acts) == Exec(Next(m, go), []) == Next(m, go);
      assert Owns(Next(m, go).db, sid, user) && !Revoked(Next(m, go).db, sid);
    case _ =>
  }

  ghost predicate RevokedAfter(m: Machine, acts: seq<Action>, user: Id) {
    AllRevoked(Exec(m, acts).db, user)
  }

  /** The sessions of a soft-deleted user stay revoked in every continuation if and only if they all are
      now and no login of that user is past its user lookup. */
  lemma RemovalIsFinalIff(m: Machine, user: Id)
    requires MachineInv(m) && Deleted(m.db, user)
    ensures (forall acts {:trigger RevokedAfter(m, acts, user)} :: RevokedAfter(m, acts, user)) <==>
            AllRevoked(m.db, user) && !InFlight(m, user)
  {
    if !AllRevoked(m.db, user) {
      assert !RevokedAfter(m, [], user);
    } else if InFlight(m, user) {
      var tid :| Committing(m, tid, user);
      var acts := StragglerCommits(m, tid, user);
      assert !RevokedAfter(m, acts, user);
    } else {
      forall acts ensures RevokedAfter(m, acts, user) {
        SealedForever(m, acts, user);
      }
    }
  }

  lemma {:induction false} ExecSnoc(m: Machine, acts: seq<Action>, a: Action)
    ensures Exec(m, acts + [a]) == Next(Exec(m, acts), a)
    decreases |acts|
  {
    if acts == [] {
      assert [] + [a] == [a] && [a][1..] == [];
    } else {
      ExecSnoc(Next(m, acts[0]), acts[1..], a);
      assert (acts + [a])[1..] == acts[1..] + [a];
    }
  }

  /** A login and a removal of the same user, both past their lookup. */
  lemma StraddleStart() returns (acts: seq<Action>, m: Machine)
    ensures m == Exec(Initial(0, 15), acts)
    ensures m == Initial(0, 15).(db := Database(map[1 := User(7, true, Here)], map[], map[], map[]),
                                 threads := map[0 := CreateMint(1, 7), 5 := RemoveDelete(1)])
  {
    var a, b, c := Register(1, 7), Begin(0, NewSessionFor(1)), Begin(5, RemovalOf(1));
    var m0 := Initial(0, 15);
    acts := [] + [a] + [b] + [c];
    ExecSnoc(m0, [], a);
    ExecSnoc(m0, [] + [a], b);
    ExecSnoc(m0, [] + [a] + [b], c);
    m := Next(Next(Next(m0, a), b), c);
  }

  /** The removal runs to its end and finds no session. */
  lemma StraddleRemoval() returns (acts: seq<Action>, m: Machine)
    ensures m == Exec(Initial(0, 15), acts)
    ensures m == Initial(0, 15).(db := Database(map[1 := User(7, false, SoftDeleted)], map[], map[], map[]),
                                 threads := map[0 := CreateMint(1, 7)])
  {
    var before, m3 := StraddleStart();
    var m0, go := Initial(0, 15), Advance(5, 0, 0, true);
    acts := before + [go] + [go] + [go];
    ExecSnoc(m0, before, go);
    ExecSnoc(m0, before + [go], go);
    ExecSnoc(m0, before + [go] + [go], go);
    var m4 := Next(m3, go);
    assert ActiveSessionsOf(m4.db, 1) == {};
    var m5 := Next(m4, go);
    assert m5.threads == map[0 := CreateMint(1, 7), 5 := RemoveFlag(1, {})];
    m := Next(m5, go);
  }

  /** The login mints its token for the removed member. */
  lemma StraddleMint() returns (acts: seq<Action>, m: Machine)
    ensures m == Exec(Initial(0, 15), acts)
    ensures m == Initial(0, 15).(
              db := Database(map[1 := User(7, false, SoftDeleted)], map[], map[], map[]),
              threads := map[0 := CreateCommit(2, NewSession(1, 7, 0), 3, AccessClaims(1, 7, 2, 0, 15))])
  {
    var before, m6 := StraddleRemoval();
    var go := Advance(0, 2, 3, true);
    acts := before + [go];
    ExecSnoc(Initial(0, 15), before, go);
    m := Next(m6, go);
  }

  /** A login that reads its user row before removeMember and commits after it leaves a removed member with
      an unrevoked session: finality of removal holds at the grain of whole handlers only. */
  lemma LoginStraddlingRemoval() returns (acts: seq<Action>)
    ensures var m := Exec(Initial(0, 15), acts);
            Deleted(m.db, 1) && Owns(m.db, 2, 1) && !DbRejects(m.db, 2, m.now) && m.threads == map[]
  {
    var before, m := StraddleMint();
    var go := Advance(0, 0, 0, true);
    acts := before + [go];
    ExecSnoc(Initial(0, 15), before, go);
  }

  /** A login that has minted its token. */
  lemma LoginMinted() returns (acts: seq<Action>, m: Machine)
    ensures m == Exec(Initial(0, 15), acts)
    ensures m == Initial(0, 15).(
              db := Database(map[1 := User(7, true, Here)], map[], map[], map[]),
              threads := map[0 := CreateCommit(2, NewSession(1, 7, 0), 3, AccessClaims(1, 7, 2, 0, 15))])
  {
    var m0, a, b, c := Initial(0, 15), Register(1, 7), Begin(0, NewSessionFor(1)), Advance(0, 2, 3, true);
    acts := [] + [a] + [b] + [c];
    ExecSnoc(m0, [], a);
    ExecSnoc(m0, [] + [a], b);
    ExecSnoc(m0, [] + [a] + [b], c);
    m := Next(Next(Next(m0, a), b), c);
  }

  /** And a logout-all about to revoke. */
  lemma StraddleLogoutStart() returns (acts: seq<Action>, m: Machine)
    ensures m == Exec(Initial(0, 15), acts)
    ensures m == Initial(0, 15).(
              db := Database(map[1 := User(7, true, Here)], map[], map[], map[]),
              threads := map[0 := CreateCommit(2, NewSession(1, 7, 0), 3, AccessClaims(1, 7, 2, 0, 15)),
                             5 := LogoutAllRevoke(1)])
  {
    var before, m3 := LoginMinted();
    var begin := Begin(5, LogoutAllOf(1));
    acts := before + [begin];
    ExecSnoc(Initial(0, 15), before, begin);
    m := Next(m3, begin);
  }

  /** The logout-all revokes nothing, as nothing is committed, and a second later writes the user key. */
  lemma StraddleLogoutKey() returns (acts: seq<Action>, m: Machine)
    ensures m == Exec(Initial(0, 15), acts)
    ensures m == Initial(1000, 15).(
              db := Database(map[1 := User(7, true, Here)], map[], map[], map[]),
              cache := Cache(map[], map[1 := Stamp(1, 1000 + BLACKLIST_TTL)]),
              threads := map[0 := CreateCommit(2, NewSession(1, 7, 0), 3, AccessClaims(1, 7, 2, 0, 15))])
  {
    var before, m4 := StraddleLogoutStart();
    var m0, go, tick := Initial(0, 15), Advance(5, 0, 0, true), Action.Tick(1000);
    acts := before + [go] + [tick] + [go];
    ExecSnoc(m0, before, go);
    ExecSnoc(m0, before + [go], tick);
    ExecSnoc(m0, before + [go] + [tick], go);
    m := Next(Next(Next(m4, go), tick), go);
    assert RevokeAllUserSessions(m4.db, 1) == m4.db;
  }

  /** A login that mints its token in the second before a logout-all is recorded and commits afterwards: the database
      accepts the session, the user key refuses its token. The key agrees with the rows at the grain of whole handlers
      only. */
  lemma LoginStraddlingLogoutAll() returns (acts: seq<Action>, c: Claims)
    ensures var m := Exec(Initial(0, 15), acts);
            && c in m.released && c.session == Some(2) && Unexpired(c, m.now) && m.threads == map[]
            && !DbRejects(m.db, 2, m.now) && LogoutAllRejects(m.cache, c, m.now)
  {
    var before, m := StraddleLogoutKey();
    var go := Advance(0, 0, 0, true);
    acts := before + [go];
    ExecSnoc(Initial(0, 15), before, go);
    c := AccessClaims(1, 7, 2, 0, 15);
  }
}
