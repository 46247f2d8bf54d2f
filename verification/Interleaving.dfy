/** The same protocol at the grain of single SQL transactions and single Redis commands. Any number of
    requests are in flight, each with its own program counter, and any of them may move next. */
module Interleaving {
  import opened Domain
  import opened Transactions
  import opened Handlers

  type ThreadId = nat

  /** Where a request stands, with the values it has read so far. */
  datatype Pc =
    | CreateMint(user: Id, org: Id)
    | CreateCommit(sid: Id, session: Session, hash: Hash, claims: Claims)
    | RefreshRotate(oldHash: Hash)
    | RefreshLookup(sid: Id, user: Id)
    | RefreshMint(sid: Id, user: Id, org: Id)
    | LogoutRevoke(sid: Id)
    | LogoutCache(sid: Id)
    | LogoutAllRevoke(user: Id)
    | LogoutAllCache(user: Id)
    | ResetRevoke(user: Id)
    | RemoveDelete(user: Id)
    | RemoveFind(user: Id)
    | RemoveFlag(user: Id, found: set<Id>)
    | RemoveCache(rest: set<Id>)
    | VerifyLogoutAll(claims: Claims)
    | VerifyBlacklist(claims: Claims)
    | VerifyDb(claims: Claims)
    | VerifyWrite(sid: Id)

  /** One arrival at RotateRefreshToken with a known hash. */
  datatype Attempt = Attempt(hash: Hash, sid: Id, won: bool)

  /** One token let through, and when. */
  datatype Acceptance = Acceptance(claims: Claims, at: Millis)

  datatype Machine = Machine(
    now: Millis, expiryMin: nat, db: Database, cache: Cache, released: set<Claims>,
    threads: map<ThreadId, Pc>, attempts: seq<Attempt>, accepted: seq<Acceptance>)

  /** A logout-all can be asked for with any token of the user, also with an MFA token, which this machine does not
      hand out; a password reset with a reset token. Both may therefore be asked for at any time. */
  datatype Request =
    | NewSessionFor(user: Id)
    | RefreshWith(hash: Hash)
    | LogoutWith(claims: Claims)
    | LogoutAllOf(user: Id)
    | ResetOf(user: Id)
    | RemovalOf(user: Id)
    | VerifyOf(claims: Claims)

  /** `ok` says whether the Redis command succeeds; `sid` and `hash` are the identifiers drawn in the step. */
  datatype Action =
    | Tick(millis: nat)
    | Evict(sessions: set<Id>, users: set<Id>)
    | ResetRows(resets: map<Hash, ResetToken>)
    | DeleteOrganization(org: Id)
    | Register(user: Id, org: Id)
    | Onboard(user: Id, org: Id, sid: Id, hash: Hash, minted: Millis)
    | Begin(tid: ThreadId, request: Request)
    | Advance(tid: ThreadId, sid: Id, hash: Hash, ok: bool)

  // ---------------------------------------------------------------- steps

  function Goto(m: Machine, tid: ThreadId, pc: Pc): Machine {
    m.(threads := m.threads[tid := pc])
  }

  function Finish(m: Machine, tid: ThreadId): Machine {
    m.(threads := m.threads - {tid})
  }

  /** The first statement of a request: it reads, and either gives up or leaves a program counter. */
  function Start(m: Machine, r: Request): Option<Pc> {
    match r
    case NewSessionFor(u) => if Present(m.db.users, u) then Some(CreateMint(u, m.db.users[u].org)) else None
    case RefreshWith(h) =>
      if h in m.db.tokens && m.now <= m.db.tokens[h].expiresAt then Some(RefreshRotate(h)) else None
    case LogoutWith(c) =>
      if Presentable(m.released, c, m.now) && c.session.Some? then Some(LogoutRevoke(c.session.value)) else None
    case LogoutAllOf(u) => Some(LogoutAllRevoke(u))
    case ResetOf(u) => Some(ResetRevoke(u))
    case RemovalOf(u) => if Present(m.db.users, u) then Some(RemoveDelete(u)) else None
    case VerifyOf(c) => if Presentable(m.released, c, m.now) then Some(VerifyLogoutAll(c)) else None
  }

  function Commit(m: Machine, sid: Id, s: Session, hash: Hash, c: Claims): Machine {
    if CanInsert(m.db, sid, s, hash) then
      m.(db := CreateSessionAndToken(m.db, sid, s, hash, s.expiresAt), released := m.released + {c})
    else m
  }

  function Rotate(m: Machine, tid: ThreadId, oldHash: Hash, newHash: Hash): Machine {
    var m' := m.(db := RotateRefreshToken(m.db, oldHash, newHash, m.now + SESSION_LIFETIME, m.now));
    match RotateOutcome(m.db, oldHash, m.now)
    case Unknown => Finish(m', tid)
    case Orphaned => Finish(m', tid)
    case Replayed => Finish(m'.(attempts := m.attempts + [Attempt(oldHash, m.db.tokens[oldHash].session, false)]), tid)
    case Rotated(sid, s) =>
      Goto(m'.(attempts := m.attempts + [Attempt(oldHash, sid, true)]), tid, RefreshLookup(sid, s.user))
  }

  function Step(m: Machine, tid: ThreadId, pc: Pc, sid: Id, hash: Hash, ok: bool): Machine {
    match pc
    case CreateMint(u, org) =>
      Goto(m, tid, CreateCommit(sid, NewSession(u, org, m.now), hash, AccessClaims(u, org, sid, m.now, m.expiryMin)))
    case CreateCommit(id, s, h, c) => Finish(Commit(m, id, s, h, c), tid)
    case RefreshRotate(oldHash) => if hash in m.db.tokens then m else Rotate(m, tid, oldHash, hash)
    case RefreshLookup(id, u) =>
      if Present(m.db.users, u) then Goto(m, tid, RefreshMint(id, u, m.db.users[u].org)) else Finish(m, tid)
    case RefreshMint(id, u, org) =>
      Finish(m.(released := m.released + {AccessClaims(u, org, id, m.now, m.expiryMin)}), tid)
    case LogoutRevoke(id) => Goto(m.(db := RevokeSession(m.db, id)), tid, LogoutCache(id))
    case LogoutCache(id) => Finish(m.(cache := SetRevoked(m.cache, id, m.now + BLACKLIST_TTL, ok)), tid)
    case LogoutAllRevoke(u) => Goto(m.(db := RevokeAllUserSessions(m.db, u)), tid, LogoutAllCache(u))
    case LogoutAllCache(u) => Finish(m.(cache := SetLogoutAll(m.cache, u, m.now, ok)), tid)
    case ResetRevoke(u) => Finish(m.(db := RevokeAllUserSessions(m.db, u)), tid)
    case RemoveDelete(u) => Goto(m.(db := SoftDelete(m.db, u)), tid, RemoveFind(u))
    case RemoveFind(u) => Goto(m, tid, RemoveFlag(u, ActiveSessionsOf(m.db, u)))
    case RemoveFlag(u, found) =>
      if found == {} then Finish(m, tid) else Goto(m.(db := FlagUserSessions(m.db, u)), tid, RemoveCache(found))
    case RemoveCache(rest) =>
      if sid in rest then
        Goto(m.(cache := SetRevoked(m.cache, sid, m.now + REMOVAL_TTL, ok)), tid, RemoveCache(rest - {sid}))
      else Finish(m, tid)
    case VerifyLogoutAll(c) =>
      if ok && LogoutAllRejects(m.cache, c, m.now) then Finish(m, tid) else Goto(m, tid, VerifyBlacklist(c))
    case VerifyBlacklist(c) =>
      if c.session.None? || (ok && BlacklistRejects(m.cache, c, m.now)) then Finish(m, tid)
      else Goto(m, tid, VerifyDb(c))
    case VerifyDb(c) =>
      if c.session.None? then Finish(m, tid)
      else if DbRejects(m.db, c.session.value, m.now) then Goto(m, tid, VerifyWrite(c.session.value))
      else Finish(m.(accepted := m.accepted + [Acceptance(c, m.now)]), tid)
    case VerifyWrite(id) => Finish(m.(cache := SetRevoked(m.cache, id, m.now + BLACKLIST_TTL, ok)), tid)
  }

  function Next(m: Machine, a: Action): Machine {
    match a
    case Tick(millis) => m.(now := m.now + millis)
    case Evict(ss, us) => m.(cache := Cache(m.cache.revoked - ss, m.cache.logoutAll - us))
    case ResetRows(resets) => m.(db := m.db.(resets := resets))
    case DeleteOrganization(org) => m.(db := Transactions.DeleteOrganization(m.db, org))
    case Register(u, org) => m.(db := InsertUser(m.db, u, org))
    case Onboard(u, org, sid, hash, minted) =>
      if u in m.db.users || m.now < minted || sid in m.db.sessions || hash in m.db.tokens then m
      else Commit(m.(db := InsertUser(m.db, u, org)), sid, NewSession(u, org, minted), hash,
                  AccessClaims(u, org, sid, minted, m.expiryMin))
    case Begin(tid, r) =>
      if tid in m.threads then m
      else (match Start(m, r) case None => m case Some(pc) => Goto(m, tid, pc))
    case Advance(tid, sid, hash, ok) =>
      if tid in m.threads then Step(m, tid, m.threads[tid], sid, hash, ok) else m
  }

  function Exec(m: Machine, acts: seq<Action>): Machine
    decreases |acts|
  {
    if acts == [] then m else Exec(Next(m, acts[0]), acts[1..])
  }

  function Initial(now: Millis, expiryMin: nat): Machine {
    Machine(now, expiryMin, Database(map[], map[], map[], map[]), Cache(map[], map[]), {}, map[], [], [])
  }

  // ---------------------------------------------------------------- invariant

  ghost predicate Owns(db: Database, sid: Id, user: Id) {
    sid in db.sessions && db.sessions[sid].user == user
  }

  ghost predicate UserOrg(db: Database, user: Id, org: Id) {
    user in db.users && db.users[user].org == org
  }

  /** The claims name the user and the organisation of the session they are for. */
  ghost predicate Agrees(db: Database, c: Claims) {
    && UserOrg(db, c.sub, c.org)
    && (c.session.Some? ==> Owns(db, c.session.value, c.sub) && db.sessions[c.session.value].org == c.org)
  }

  ghost predicate Refused(db: Database, sid: Id, now: Millis) {
    sid in db.sessions && DbRejects(db, sid, now)
  }

  ghost predicate Revoked(db: Database, sid: Id) {
    sid in db.sessions && db.sessions[sid].revoked
  }

  ghost predicate Deleted(db: Database, user: Id) {
    user in db.users && db.users[user].deleted
  }

  /** What a request may rely on at each program counter. Every clause survives the steps of the others. */
  ghost predicate ThreadOk(pc: Pc, db: Database, now: Millis) {
    match pc
    case CreateMint(u, org) => UserOrg(db, u, org)
    case CreateCommit(id, s, h, c) =>
      && UserOrg(db, s.user, s.org) && !s.revoked && s.expiresAt <= s.createdAt + SESSION_LIFETIME
      && c.sub == s.user && c.org == s.org && c.session == Some(id)
    case RefreshRotate(h) => h in db.tokens
    case RefreshLookup(id, u) => Owns(db, id, u)
    case RefreshMint(id, u, org) => Owns(db, id, u) && UserOrg(db, u, org)
    case LogoutRevoke(id) => id in db.sessions
    case LogoutCache(id) => Revoked(db, id)
    case LogoutAllRevoke(_) => true
    case LogoutAllCache(_) => true
    case ResetRevoke(_) => true
    case RemoveDelete(u) => u in db.users
    case RemoveFind(u) => Deleted(db, u)
    case RemoveFlag(u, found) => Deleted(db, u) && forall i :: i in found ==> Owns(db, i, u)
    case RemoveCache(rest) => forall i :: i in rest ==> Revoked(db, i)
    case VerifyLogoutAll(c) => Agrees(db, c)
    case VerifyBlacklist(c) => Agrees(db, c)
    case VerifyDb(c) => Agrees(db, c)
    case VerifyWrite(id) => Refused(db, id, now)
  }

  ghost predicate ThreadsOk(m: Machine) {
    forall t :: t in m.threads ==> ThreadOk(m.threads[t], m.db, m.now)
  }

  ghost predicate ReleasedOk(m: Machine) {
    forall c :: c in m.released ==> Agrees(m.db, c)
  }

  ghost predicate BlacklistOk(m: Machine) {
    forall sid :: sid in m.cache.revoked ==> Refused(m.db, sid, m.now)
  }

  /** The log of arrivals: spent hashes, losers kill their family, winners are first. */
  ghost predicate AttemptsOk(log: seq<Attempt>, db: Database) {
    && (forall i :: 0 <= i < |log| ==>
        && log[i].hash in db.tokens && db.tokens[log[i].hash].revoked && db.tokens[log[i].hash].session == log[i].sid
        && (!log[i].won ==> Dead(db, log[i].sid)))
    && (forall i, j :: 0 <= i < j < |log| && log[j].won ==>
        log[i].hash != log[j].hash && (!log[i].won ==> log[i].sid != log[j].sid))
  }

  ghost predicate AcceptedOk(log: seq<Acceptance>, db: Database) {
    forall i :: 0 <= i < |log| ==>
      && log[i].claims.session.Some? && Agrees(db, log[i].claims)
      && log[i].at <= db.sessions[log[i].claims.session.value].expiresAt
  }

  ghost predicate MachineInv(m: Machine) {
    && DbInv(m.db) && ThreadsOk(m) && ReleasedOk(m) && BlacklistOk(m)
    && AttemptsOk(m.attempts, m.db) && AcceptedOk(m.accepted, m.db)
  }

  /** Every clause about the database is stable while the database evolves and time passes. */
  lemma Stable(pc: Pc, a: Database, b: Database, t: Millis, t': Millis)
    requires Evolves(a, b) && t <= t' && ThreadOk(pc, a, t)
    ensures ThreadOk(pc, b, t')
  {
  }

  /** Letting the database evolve and the clock advance preserves the whole invariant. */
  lemma Drift(m: Machine, db': Database, now': Millis)
    requires MachineInv(m) && DbInv(db') && Evolves(m.db, db') && m.now <= now'
    ensures MachineInv(m.(db := db', now := now'))
  {
    var m' := m.(db := db', now := now');
    forall t | t in m'.threads ensures ThreadOk(m'.threads[t], db', now') {
      Stable(m.threads[t], m.db, db', m.now, now');
    }
    assert AttemptsOk(m.attempts, db') by {
      forall i | 0 <= i < |m.attempts| && !m.attempts[i].won ensures Dead(db', m.attempts[i].sid) {
        assert Dead(m.db, m.attempts[i].sid);
      }
    }
  }

  lemma GotoKeeps(m: Machine, tid: ThreadId, pc: Pc)
    requires MachineInv(m) && ThreadOk(pc, m.db, m.now)
    ensures MachineInv(Goto(m, tid, pc))
  {
  }

  lemma FinishKeeps(m: Machine, tid: ThreadId)
    requires MachineInv(m)
    ensures MachineInv(Finish(m, tid))
  {
  }

  lemma ReleaseKeeps(m: Machine, c: Claims)
    requires MachineInv(m) && Agrees(m.db, c)
    ensures MachineInv(m.(released := m.released + {c}))
  {
  }

  lemma BlacklistKeeps(m: Machine, sid: Id, until: Millis, ok: bool)
    requires MachineInv(m) && Refused(m.db, sid, m.now)
    ensures MachineInv(m.(cache := SetRevoked(m.cache, sid, until, ok)))
  {
  }

  lemma AttemptKeeps(m: Machine, a: Attempt)
    requires MachineInv(m)
    requires a.hash in m.db.tokens && m.db.tokens[a.hash].revoked && m.db.tokens[a.hash].session == a.sid
    requires !a.won ==> Dead(m.db, a.sid)
    requires a.won ==> forall i :: 0 <= i < |m.attempts| ==>
               m.attempts[i].hash != a.hash && (!m.attempts[i].won ==> m.attempts[i].sid != a.sid)
    ensures MachineInv(m.(attempts := m.attempts + [a]))
  {
  }

  // ---------------------------------------------------------------- every step keeps it

  ghost predicate Keeps(m: Machine, m': Machine) {
    MachineInv(m') && Evolves(m.db, m'.db) && m.now <= m'.now
  }

  lemma CommitKeeps(m: Machine, sid: Id, s: Session, hash: Hash, c: Claims)
    requires MachineInv(m) && ThreadOk(CreateCommit(sid, s, hash, c), m.db, m.now)
    ensures Keeps(m, Commit(m, sid, s, hash, c))
  {
    EvolvesReflexive(m.db);
    if CanInsert(m.db, sid, s, hash) {
      var db' := CreateSessionAndToken(m.db, sid, s, hash, s.expiresAt);
      CreateKeeps(m.db, sid, s, hash, s.expiresAt);
      Drift(m, db', m.now);
      ReleaseKeeps(m.(db := db'), c);
    }
  }

  lemma ReplayKeeps(m: Machine, oldHash: Hash)
    requires MachineInv(m) && oldHash in m.db.tokens && m.db.tokens[oldHash].revoked
    ensures var sid := m.db.tokens[oldHash].session;
            Keeps(m, m.(db := RevokeSession(m.db, sid), attempts := m.attempts + [Attempt(oldHash, sid, false)]))
  {
    var sid := m.db.tokens[oldHash].session;
    RevokeSessionKeeps(m.db, sid);
    Drift(m, RevokeSession(m.db, sid), m.now);
    AttemptKeeps(m.(db := RevokeSession(m.db, sid)), Attempt(oldHash, sid, false));
  }

  /** A winner is the first arrival with its hash, and its family has not been killed. */
  lemma WinnerIsFirst(m: Machine, hash: Hash, i: nat)
    requires MachineInv(m) && CanSpend(m.db, hash) && i < |m.attempts|
    ensures m.attempts[i].hash != hash
    ensures !m.attempts[i].won ==> m.attempts[i].sid != m.db.tokens[hash].session
  {
  }

  /** The arrival that spends a hash is recorded as its winner. */
  lemma WinKeeps(m: Machine, db': Database, hash: Hash, sid: Id)
    requires MachineInv(m) && DbInv(db') && Evolves(m.db, db')
    requires CanSpend(m.db, hash) && m.db.tokens[hash].session == sid
    requires hash in db'.tokens && db'.tokens[hash].revoked && db'.tokens[hash].session == sid
    ensures Keeps(m, m.(db := db', attempts := m.attempts + [Attempt(hash, sid, true)]))
  {
    Drift(m, db', m.now);
    forall i | 0 <= i < |m.attempts|
      ensures m.attempts[i].hash != hash && (!m.attempts[i].won ==> m.attempts[i].sid != sid)
    {
      WinnerIsFirst(m, hash, i);
    }
    AttemptKeeps(m.(db := db'), Attempt(hash, sid, true));
  }

  lemma SpentDatabase(db: Database, oldHash: Hash, newHash: Hash, newExpiry: Millis, now: Millis)
    returns (db': Database)
    requires DbInv(db) && newHash !in db.tokens && CanSpend(db, oldHash)
    ensures db' == SpendToken(db, oldHash, newHash, newExpiry, now) && DbInv(db') && Evolves(db, db')
    ensures oldHash in db'.tokens && db'.tokens[oldHash].revoked
    ensures db'.tokens[oldHash].session == db.tokens[oldHash].session
  {
    db' := SpendToken(db, oldHash, newHash, newExpiry, now);
    SpendInv(db, oldHash, newHash, newExpiry, now);
    SpendEvolves(db, oldHash, newHash, newExpiry, now);
  }

  /** The machine after a successful rotation, before the user lookup. */
  function Won(m: Machine, oldHash: Hash, newHash: Hash): Machine
    requires CanSpend(m.db, oldHash)
  {
    m.(db := SpendToken(m.db, oldHash, newHash, m.now + SESSION_LIFETIME, m.now),
       attempts := m.attempts + [Attempt(oldHash, m.db.tokens[oldHash].session, true)])
  }

  lemma SpendKeeps(m: Machine, oldHash: Hash, newHash: Hash) returns (won: Machine)
    requires MachineInv(m) && newHash !in m.db.tokens && CanSpend(m.db, oldHash)
    ensures Keeps(m, won) && won == Won(m, oldHash, newHash)
  {
    var db' := SpentDatabase(m.db, oldHash, newHash, m.now + SESSION_LIFETIME, m.now);
    var sid := m.db.tokens[oldHash].session;
    won := m.(db := db', attempts := m.attempts + [Attempt(oldHash, sid, true)]);
    WinKeeps(m, db', oldHash, sid);
  }

  lemma RotateWins(m: Machine, tid: ThreadId, oldHash: Hash, newHash: Hash)
    requires CanSpend(m.db, oldHash)
    ensures var sid := m.db.tokens[oldHash].session;
            Rotate(m, tid, oldHash, newHash) ==
            Goto(Won(m, oldHash, newHash), tid, RefreshLookup(sid, m.db.sessions[sid].user))
  {
  }

  lemma RotateReplays(m: Machine, tid: ThreadId, oldHash: Hash, newHash: Hash)
    requires oldHash in m.db.tokens && m.db.tokens[oldHash].revoked
    ensures var sid := m.db.tokens[oldHash].session;
            Rotate(m, tid, oldHash, newHash) ==
            Finish(m.(db := RevokeSession(m.db, sid), attempts := m.attempts + [Attempt(oldHash, sid, false)]), tid)
  {
  }

  lemma WonOwner(m: Machine, oldHash: Hash, newHash: Hash)
    requires CanSpend(m.db, oldHash)
    ensures var sid := m.db.tokens[oldHash].session;
            ThreadOk(RefreshLookup(sid, m.db.sessions[sid].user), Won(m, oldHash, newHash).db, m.now)
  {
  }

  lemma RotateStepKeeps(m: Machine, tid: ThreadId, oldHash: Hash, newHash: Hash)
    requires MachineInv(m) && newHash !in m.db.tokens
    ensures Keeps(m, Rotate(m, tid, oldHash, newHash))
  {
    if CanSpend(m.db, oldHash) {
      var sid := m.db.tokens[oldHash].session;
      var won := SpendKeeps(m, oldHash, newHash);
      WonOwner(m, oldHash, newHash);
      GotoKeeps(won, tid, RefreshLookup(sid, m.db.sessions[sid].user));
      RotateWins(m, tid, oldHash, newHash);
    } else if oldHash in m.db.tokens && m.db.tokens[oldHash].revoked {
      var sid := m.db.tokens[oldHash].session;
      var lost := m.(db := RevokeSession(m.db, sid), attempts := m.attempts + [Attempt(oldHash, sid, false)]);
      ReplayKeeps(m, oldHash);
      FinishKeeps(lost, tid);
      RotateReplays(m, tid, oldHash, newHash);
    } else {
      EvolvesReflexive(m.db);
      FinishKeeps(m, tid);
    }
  }

  /** A transaction followed by a jump. */
  lemma DbStepKeeps(m: Machine, db': Database, tid: ThreadId, pc: Pc)
    requires MachineInv(m) && DbInv(db') && Evolves(m.db, db') && ThreadOk(pc, db', m.now)
    ensures Keeps(m, Goto(m.(db := db'), tid, pc)) && Keeps(m, Finish(m.(db := db'), tid))
  {
    Drift(m, db', m.now);
    GotoKeeps(m.(db := db'), tid, pc);
    FinishKeeps(m.(db := db'), tid);
  }

  lemma RevokingStepKeeps(m: Machine, tid: ThreadId, pc: Pc, sid: Id, hash: Hash, ok: bool)
    requires MachineInv(m) && ThreadOk(pc, m.db, m.now)
    requires pc.LogoutRevoke? || pc.LogoutAllRevoke? || pc.ResetRevoke?
    ensures Keeps(m, Step(m, tid, pc, sid, hash, ok))
  {
    match pc
    case LogoutRevoke(id) =>
      RevokeSessionKeeps(m.db, id);
      DbStepKeeps(m, RevokeSession(m.db, id), tid, LogoutCache(id));
    case LogoutAllRevoke(u) =>
      RevokeAllKeeps(m.db, u);
      DbStepKeeps(m, RevokeAllUserSessions(m.db, u), tid, LogoutAllCache(u));
    case ResetRevoke(u) =>
      RevokeAllKeeps(m.db, u);
      DbStepKeeps(m, RevokeAllUserSessions(m.db, u), tid, ResetRevoke(u));
  }

  lemma RemovingStepKeeps(m: Machine, tid: ThreadId, pc: Pc, sid: Id, hash: Hash, ok: bool)
    requires MachineInv(m) && ThreadOk(pc, m.db, m.now)
    requires pc.RemoveDelete? || pc.RemoveFind? || pc.RemoveFlag?
    ensures Keeps(m, Step(m, tid, pc, sid, hash, ok))
  {
    EvolvesReflexive(m.db);
    match pc
    case RemoveDelete(u) =>
      SoftDeleteKeeps(m.db, u);
      DbStepKeeps(m, SoftDelete(m.db, u), tid, RemoveFind(u));
    case RemoveFind(u) =>
      DbStepKeeps(m, m.db, tid, RemoveFlag(u, ActiveSessionsOf(m.db, u)));
    case RemoveFlag(u, found) =>
      if found == {} {
        FinishKeeps(m, tid);
      } else {
        FlagUserSessionsKeeps(m.db, u);
        assert forall i :: i in found ==> i in SessionsOf(m.db, u);
        DbStepKeeps(m, FlagUserSessions(m.db, u), tid, RemoveCache(found));
      }
  }

  lemma CacheStepKeeps(m: Machine, tid: ThreadId, pc: Pc, sid: Id, hash: Hash, ok: bool)
    requires MachineInv(m) && ThreadOk(pc, m.db, m.now)
    requires pc.LogoutCache? || pc.LogoutAllCache? || pc.RemoveCache? || pc.VerifyWrite?
    ensures Keeps(m, Step(m, tid, pc, sid, hash, ok))
  {
    EvolvesReflexive(m.db);
    match pc
    case LogoutCache(id) =>
      BlacklistKeeps(m, id, m.now + BLACKLIST_TTL, ok);
      FinishKeeps(m.(cache := SetRevoked(m.cache, id, m.now + BLACKLIST_TTL, ok)), tid);
    case LogoutAllCache(u) =>
      FinishKeeps(m.(cache := SetLogoutAll(m.cache, u, m.now, ok)), tid);
    case RemoveCache(rest) =>
      if sid in rest {
        BlacklistKeeps(m, sid, m.now + REMOVAL_TTL, ok);
        GotoKeeps(m.(cache := SetRevoked(m.cache, sid, m.now + REMOVAL_TTL, ok)), tid, RemoveCache(rest - {sid}));
      } else {
        FinishKeeps(m, tid);
      }
    case VerifyWrite(id) =>
      BlacklistKeeps(m, id, m.now + BLACKLIST_TTL, ok);
      FinishKeeps(m.(cache := SetRevoked(m.cache, id, m.now + BLACKLIST_TTL, ok)), tid);
  }

  lemma VerifyStepKeeps(m: Machine, tid: ThreadId, pc: Pc, sid: Id, hash: Hash, ok: bool)
    requires MachineInv(m) && ThreadOk(pc, m.db, m.now)
    requires pc.VerifyLogoutAll? || pc.VerifyBlacklist? || pc.VerifyDb?
    ensures Keeps(m, Step(m, tid, pc, sid, hash, ok))
  {
    EvolvesReflexive(m.db);
    FinishKeeps(m, tid);
    match pc
    case VerifyLogoutAll(c) => GotoKeeps(m, tid, VerifyBlacklist(c));
    case VerifyBlacklist(c) => GotoKeeps(m, tid, VerifyDb(c));
    case VerifyDb(c) =>
      if c.session.Some? && DbRejects(m.db, c.session.value, m.now) {
        GotoKeeps(m, tid, VerifyWrite(c.session.value));
      } else if c.session.Some? {
        FinishKeeps(m.(accepted := m.accepted + [Acceptance(c, m.now)]), tid);
      }
  }

  lemma IssuingStepKeeps(m: Machine, tid: ThreadId, pc: Pc, sid: Id, hash: Hash, ok: bool)
    requires MachineInv(m) && ThreadOk(pc, m.db, m.now)
    requires pc.CreateMint? || pc.CreateCommit? || pc.RefreshRotate? || pc.RefreshLookup? || pc.RefreshMint?
    ensures Keeps(m, Step(m, tid, pc, sid, hash, ok))
  {
    EvolvesReflexive(m.db);
    match pc
    case CreateMint(u, org) =>
      var c := AccessClaims(u, org, sid, m.now, m.expiryMin);
      GotoKeeps(m, tid, CreateCommit(sid, NewSession(u, org, m.now), hash, c));
    case CreateCommit(id, s, h, c) =>
      CommitKeeps(m, id, s, h, c);
      FinishKeeps(Commit(m, id, s, h, c), tid);
    case RefreshRotate(oldHash) =>
      if hash !in m.db.tokens {
        RotateStepKeeps(m, tid, oldHash, hash);
      }
    case RefreshLookup(id, u) =>
      FinishKeeps(m, tid);
      if Present(m.db.users, u) {
        GotoKeeps(m, tid, RefreshMint(id, u, m.db.users[u].org));
      }
    case RefreshMint(id, u, org) =>
      var c := AccessClaims(u, org, id, m.now, m.expiryMin);
      assert SessionsMatchUsers(m.db);
      ReleaseKeeps(m, c);
      FinishKeeps(m.(released := m.released + {c}), tid);
  }

  lemma StepKeeps(m: Machine, tid: ThreadId, pc: Pc, sid: Id, hash: Hash, ok: bool)
    requires MachineInv(m) && ThreadOk(pc, m.db, m.now)
    ensures Keeps(m, Step(m, tid, pc, sid, hash, ok))
  {
    if pc.CreateMint? || pc.CreateCommit? || pc.RefreshRotate? || pc.RefreshLookup? || pc.RefreshMint? {
      IssuingStepKeeps(m, tid, pc, sid, hash, ok);
    } else if pc.VerifyLogoutAll? || pc.VerifyBlacklist? || pc.VerifyDb? {
      VerifyStepKeeps(m, tid, pc, sid, hash, ok);
    } else if pc.LogoutCache? || pc.LogoutAllCache? || pc.RemoveCache? || pc.VerifyWrite? {
      CacheStepKeeps(m, tid, pc, sid, hash, ok);
    } else if pc.RemoveDelete? || pc.RemoveFind? || pc.RemoveFlag? {
      RemovingStepKeeps(m, tid, pc, sid, hash, ok);
    } else {
      RevokingStepKeeps(m, tid, pc, sid, hash, ok);
    }
  }

  lemma OnboardKeeps(m: Machine, user: Id, org: Id, sid: Id, hash: Hash, minted: Millis)
    requires MachineInv(m) && user !in m.db.users
    ensures var mid := m.(db := InsertUser(m.db, user, org));
            var c := AccessClaims(user, org, sid, minted, m.expiryMin);
            Keeps(m, Commit(mid, sid, NewSession(user, org, minted), hash, c))
  {
    var mid := m.(db := InsertUser(m.db, user, org));
    var c := AccessClaims(user, org, sid, minted, m.expiryMin);
    InsertUserKeeps(m.db, user, org);
    Drift(m, mid.db, m.now);
    CommitKeeps(mid, sid, NewSession(user, org, minted), hash, c);
    EvolvesTransitive(m.db, mid.db, Commit(mid, sid, NewSession(user, org, minted), hash, c).db);
  }

  lemma EnvironmentKeeps(m: Machine, a: Action)
    requires MachineInv(m) && (a.Tick? || a.Evict? || a.ResetRows? || a.DeleteOrganization? || a.Register?)
    ensures Keeps(m, Next(m, a))
  {
    EvolvesReflexive(m.db);
    match a
    case Tick(millis) => Drift(m, m.db, m.now + millis);
    case Evict(_, _) =>
    case ResetRows(resets) => ResetRowsKeep(m.db, resets); Drift(m, m.db.(resets := resets), m.now);
    case DeleteOrganization(org) =>
      DeleteOrganizationInv(m.db, org);
      DeleteOrganizationEvolves(m.db, org);
      Drift(m, Transactions.DeleteOrganization(m.db, org), m.now);
    case Register(u, org) => InsertUserKeeps(m.db, u, org); Drift(m, InsertUser(m.db, u, org), m.now);
  }

  lemma NextKeeps(m: Machine, a: Action)
    requires MachineInv(m)
    ensures Keeps(m, Next(m, a))
  {
    match a
    case Onboard(u, org, sid, hash, minted) =>
      EvolvesReflexive(m.db);
      if u !in m.db.users {
        OnboardKeeps(m, u, org, sid, hash, minted);
      }
    case Begin(tid, r) =>
      EvolvesReflexive(m.db);
      if tid !in m.threads && Start(m, r).Some? {
        GotoKeeps(m, tid, Start(m, r).value);
      }
    case Advance(tid, sid, hash, ok) =>
      EvolvesReflexive(m.db);
      if tid in m.threads {
        StepKeeps(m, tid, m.threads[tid], sid, hash, ok);
      }
    case _ => EnvironmentKeeps(m, a);
  }

  lemma {:induction false} ExecKeeps(m: Machine, acts: seq<Action>)
    requires MachineInv(m)
    ensures Keeps(m, Exec(m, acts))
    decreases |acts|
  {
    EvolvesReflexive(m.db);
    if acts != [] {
      var mid := Next(m, acts[0]);
      NextKeeps(m, acts[0]);
      ExecKeeps(mid, acts[1..]);
      EvolvesTransitive(m.db, mid.db, Exec(m, acts).db);
    }
  }
}
