/** When the logout-all key agrees with the rows, at the grain of single statements: the key refuses a released token
    only if the token's session is revoked. Exactly when that holds in every continuation. */
module LogoutAllKey {
  import opened Domain
  import opened Transactions
  import opened Handlers
  import opened Interleaving
  import opened InterleavingResults
  import opened Issuance

  // ---------------------------------------------------------------- two more invariants

  /** No recorded second lies in the future. */
  ghost predicate KeysArePast(m: Machine) {
    forall u :: u in m.cache.logoutAll ==> m.cache.logoutAll[u].second * 1000 <= m.now
  }

  /** A session is committed together with the release of a token of it. */
  ghost predicate HasToken(m: Machine, sid: Id) {
    exists c :: c in m.released && c.session == Some(sid)
  }

  ghost predicate SessionsHaveTokens(m: Machine) {
    forall sid {:trigger HasToken(m, sid)} :: sid in m.db.sessions ==> HasToken(m, sid)
  }

  ghost predicate KeyInv(m: Machine) {
    MachineInv(m) && KeysArePast(m) && SessionsHaveTokens(m)
  }

  /** A session appears only with the token that its creation hands out. */
  lemma StepHands(m: Machine, tid: ThreadId, pc: Pc, sid: Id, hash: Hash, ok: bool, id: Id)
    requires tid in m.threads && m.threads[tid] == pc && ThreadOk(pc, m.db, m.now)
    requires id in Step(m, tid, pc, sid, hash, ok).db.sessions && id !in m.db.sessions
    ensures pc.CreateCommit? && pc.sid == id && pc.claims.session == Some(id)
    ensures CanInsert(m.db, id, pc.session, pc.hash)
  {
  }

  lemma NewSessionsHand(m: Machine, a: Action, sid: Id)
    requires MachineInv(m) && sid in Next(m, a).db.sessions && sid !in m.db.sessions
    ensures Handed(m, a).Some? && Handed(m, a).value.session == Some(sid)
  {
    if a.Advance? && a.tid in m.threads {
      StepHands(m, a.tid, m.threads[a.tid], a.sid, a.hash, a.ok, sid);
    }
  }

  lemma TokensStay(m: Machine, a: Action)
    requires MachineInv(m) && SessionsHaveTokens(m)
    ensures SessionsHaveTokens(Next(m, a))
  {
    var m' := Next(m, a);
    ReleasedIsHanded(m, a);
    forall sid | sid in m'.db.sessions ensures HasToken(m', sid) {
      if sid in m.db.sessions {
        assert HasToken(m, sid);
        var c :| c in m.released && c.session == Some(sid);
        assert c in m'.released;
      } else {
        NewSessionsHand(m, a, sid);
        assert Handed(m, a).value in m'.released;
      }
    }
  }

  lemma KeysStayPast(m: Machine, a: Action)
    requires KeysArePast(m)
    ensures KeysArePast(Next(m, a))
  {
  }

  lemma KeyInvKept(m: Machine, a: Action)
    requires KeyInv(m)
    ensures KeyInv(Next(m, a))
  {
    NextKeeps(m, a);
    TokensStay(m, a);
    KeysStayPast(m, a);
  }

  lemma {:induction false} KeyInvHolds(m: Machine, acts: seq<Action>)
    requires KeyInv(m)
    ensures KeyInv(Exec(m, acts))
    decreases |acts|
  {
    if acts != [] {
      KeyInvKept(m, acts[0]);
      KeyInvHolds(Next(m, acts[0]), acts[1..]);
    }
  }

  /** It holds of every interleaving from empty tables. */
  lemma KeyInvReachable(now: Millis, expiryMin: nat, acts: seq<Action>)
    ensures KeyInv(Exec(Initial(now, expiryMin), acts))
  {
    KeyInvHolds(Initial(now, expiryMin), acts);
  }

  // ---------------------------------------------------------------- agreement, and what threatens it

  /** Every token that the key of the user refuses by age belongs to a revoked session. */
  ghost predicate KeyAgrees(m: Machine, user: Id) {
    user in m.cache.logoutAll ==>
      forall c :: c in m.released && c.sub == user && c.session.Some? && c.iat < m.cache.logoutAll[user].second ==>
        Revoked(m.db, c.session.value)
  }

  /** A creation with a token older than the key is about to commit. */
  predicate LateCommit(m: Machine, tid: ThreadId, user: Id) {
    tid in m.threads && user in m.cache.logoutAll
    && match m.threads[tid]
       case CreateCommit(sid, s, hash, c) =>
         s.user == user && c.iat < m.cache.logoutAll[user].second && CanInsert(m.db, sid, s, hash)
       case _ => false
  }

  /** A session of the user can still come into being. */
  ghost predicate Creatable(m: Machine, user: Id) {
    Present(m.db.users, user) || InFlight(m, user)
  }

  ghost predicate Waits(m: Machine, pc: Pc) {
    exists tid :: tid in m.threads && m.threads[tid] == pc
  }

  ghost predicate Sound(m: Machine, user: Id) {
    && KeyAgrees(m, user)
    && (forall tid :: !LateCommit(m, tid, user))
    && (Waits(m, LogoutAllRevoke(user)) ==> !Creatable(m, user))
    && (Waits(m, LogoutAllCache(user)) ==> !Creatable(m, user) && AllRevoked(m.db, user))
  }

  predicate NewLogoutAll(a: Action, user: Id) {
    a.Begin? && a.request == LogoutAllOf(user)
  }

  predicate Quiet(acts: seq<Action>, user: Id) {
    forall i :: 0 <= i < |acts| ==> !NewLogoutAll(acts[i], user)
  }

  // ---------------------------------------------------------------- main results

  ghost predicate AgreesAfter(m: Machine, acts: seq<Action>, user: Id) {
    KeyAgrees(Exec(m, acts), user)
  }

  /** As long as nobody asks for another logout-all of the user, the key agrees with the rows in every continuation if
      and only if it agrees now, no creation with an older token is about to commit, no session of the user can come
      into being while a logout-all is in flight, and one that is past its revocation has left none unrevoked. */
  lemma KeyAgreesIff(m: Machine, user: Id)
    requires KeyInv(m) && user in m.db.users
    ensures (forall acts {:trigger AgreesAfter(m, acts, user)} :: Quiet(acts, user) ==> AgreesAfter(m, acts, user)) <==>
            Sound(m, user)
  {
    if Sound(m, user) {
      forall acts | Quiet(acts, user) ensures AgreesAfter(m, acts, user) {
        SoundRun(m, acts, user);
      }
    } else {
      var acts := UnsoundFails(m, user);
      assert !AgreesAfter(m, acts, user);
    }
  }

  /** Whatever is asked for, it does so if and only if in addition no session of the user can come into being at all:
      the user is deleted and no creation is past its lookup. */
  lemma KeyAgreesForeverIff(m: Machine, user: Id)
    requires KeyInv(m) && user in m.db.users
    ensures (forall acts {:trigger AgreesAfter(m, acts, user)} :: AgreesAfter(m, acts, user)) <==>
            Sound(m, user) && !Creatable(m, user)
  {
    if Sound(m, user) && !Creatable(m, user) {
      forall acts ensures AgreesAfter(m, acts, user) {
        SoundRun(m, acts, user);
      }
    } else {
      var acts := NextLogoutAllThreatens(m, user);
      assert !AgreesAfter(m, acts, user);
    }
  }

  // ---------------------------------------------------------------- soundness is kept

  /** For a user whose row exists, sessions come from this user's creation requests only. */
  lemma NotCreatableStays(m: Machine, a: Action, user: Id)
    requires MachineInv(m) && user in m.db.users && !Creatable(m, user)
    ensures !Creatable(Next(m, a), user)
    ensures AllRevoked(m.db, user) ==> AllRevoked(Next(m, a).db, user)
  {
    assert Deleted(m.db, user);
    NextKeeps(m, a);
    forall tid ensures !Committing(Next(m, a), tid, user) {
      assert !Committing(m, tid, user);
      NobodyStarts(m, a, user, tid);
    }
    if AllRevoked(m.db, user) {
      NextStaysRevoked(m, a, user);
    }
  }

  /** What a step may put into the key. */
  lemma KeyMoves(m: Machine, a: Action, user: Id)
    requires user in Next(m, a).cache.logoutAll
    ensures Waits(m, LogoutAllCache(user))
            || (user in m.cache.logoutAll && Next(m, a).cache.logoutAll[user] == m.cache.logoutAll[user])
  {
  }

  /** A token handed out now is as young as the key, unless its creation was late. */
  lemma HandedIsYoung(m: Machine, a: Action, user: Id)
    requires MachineInv(m) && KeysArePast(m) && user in m.db.users && user in m.cache.logoutAll
    requires forall tid :: !LateCommit(m, tid, user)
    ensures Handed(m, a).Some? && Handed(m, a).value.sub == user ==>
              Handed(m, a).value.iat >= m.cache.logoutAll[user].second
  {
    if a.Advance? && a.tid in m.threads {
      assert !LateCommit(m, a.tid, user) && ThreadOk(m.threads[a.tid], m.db, m.now);
    }
  }

  /** Tokens refused by the key stay tokens of revoked sessions. */
  lemma AgreementStep(m: Machine, a: Action, user: Id)
    requires KeyInv(m) && user in m.db.users && Sound(m, user)
    ensures KeyAgrees(Next(m, a), user)
  {
    var m' := Next(m, a);
    NextKeeps(m, a);
    ReleasedIsHanded(m, a);
    if user in m'.cache.logoutAll {
      KeyMoves(m, a, user);
      if Waits(m, LogoutAllCache(user)) {
        NotCreatableStays(m, a, user);
        NextKeeps(m, a);
        forall c | c in m'.released && c.sub == user && c.session.Some? ensures Revoked(m'.db, c.session.value) {
          assert Agrees(m'.db, c);
        }
      } else {
        HandedIsYoung(m, a, user);
      }
    }
  }

  /** A request that moves while the key stays is late only if it was. */
  lemma MoverIsNotLate(m: Machine, tid: ThreadId, pc: Pc, sid: Id, hash: Hash, ok: bool, user: Id)
    requires KeysArePast(m) && tid in m.threads && m.threads[tid] == pc && user in m.cache.logoutAll
    requires user in Step(m, tid, pc, sid, hash, ok).cache.logoutAll
    requires Step(m, tid, pc, sid, hash, ok).cache.logoutAll[user] == m.cache.logoutAll[user]
    ensures !LateCommit(Step(m, tid, pc, sid, hash, ok), tid, user)
  {
  }

  /** A request that stands still while the key stays is late only if it was. */
  lemma BystanderIsNotLate(m: Machine, m': Machine, tid: ThreadId, user: Id)
    requires MachineInv(m) && Evolves(m.db, m'.db) && !LateCommit(m, tid, user)
    requires tid in m'.threads ==> tid in m.threads && m'.threads[tid] == m.threads[tid]
    requires user in m'.cache.logoutAll ==>
               user in m.cache.logoutAll && m'.cache.logoutAll[user] == m.cache.logoutAll[user]
    ensures !LateCommit(m', tid, user)
  {
    if tid in m'.threads {
      assert ThreadOk(m.threads[tid], m.db, m.now);
    }
  }

  lemma NobodyIsLate(m: Machine, a: Action, user: Id, tid: ThreadId)
    requires KeyInv(m) && user in m.db.users && Sound(m, user)
    ensures !LateCommit(Next(m, a), tid, user)
  {
    var m' := Next(m, a);
    NextKeeps(m, a);
    if user in m'.cache.logoutAll {
      KeyMoves(m, a, user);
      if Waits(m, LogoutAllCache(user)) {
        NotCreatableStays(m, a, user);
        assert !Committing(m', tid, user);
      } else if a.Advance? && a.tid == tid && tid in m.threads {
        MoverIsNotLate(m, tid, m.threads[tid], a.sid, a.hash, a.ok, user);
      } else if !(a.Begin? && a.tid == tid) {
        assert !LateCommit(m, tid, user);
        OthersStay(m, a, tid);
        BystanderIsNotLate(m, m', tid, user);
      } else {
        BeginnerIsNotLate(m, a, user);
      }
    }
  }

  lemma BeginnerIsNotLate(m: Machine, a: Action, user: Id)
    requires a.Begin? && !LateCommit(m, a.tid, user)
    ensures !LateCommit(Next(m, a), a.tid, user)
  {
  }

  /** Where a waiting request comes from. */
  lemma WaitingCameFrom(m: Machine, a: Action, pc: Pc)
    requires Waits(Next(m, a), pc) && (pc.LogoutAllRevoke? || pc.LogoutAllCache?)
    ensures Waits(m, pc) || (pc.LogoutAllRevoke? && NewLogoutAll(a, pc.user))
            || (pc.LogoutAllCache? && a.Advance? && a.tid in m.threads && m.threads[a.tid] == LogoutAllRevoke(pc.user))
  {
    var m' := Next(m, a);
    var tid :| tid in m'.threads && m'.threads[tid] == pc;
    if !((a.Advance? || a.Begin?) && a.tid == tid) {
      OthersStay(m, a, tid);
    }
  }

  lemma SoundStep(m: Machine, a: Action, user: Id)
    requires KeyInv(m) && user in m.db.users && Sound(m, user)
    requires NewLogoutAll(a, user) ==> !Creatable(m, user)
    ensures Sound(Next(m, a), user)
  {
    var m' := Next(m, a);
    AgreementStep(m, a, user);
    forall tid ensures !LateCommit(m', tid, user) {
      NobodyIsLate(m, a, user, tid);
    }
    if Waits(m', LogoutAllRevoke(user)) {
      WaitingCameFrom(m, a, LogoutAllRevoke(user));
      NotCreatableStays(m, a, user);
    }
    if Waits(m', LogoutAllCache(user)) {
      WaitingCameFrom(m, a, LogoutAllCache(user));
      NotCreatableStays(m, a, user);
    }
  }

  lemma {:induction false} SoundRun(m: Machine, acts: seq<Action>, user: Id)
    requires KeyInv(m) && user in m.db.users && Sound(m, user)
    requires Creatable(m, user) ==> forall i :: 0 <= i < |acts| ==> !NewLogoutAll(acts[i], user)
    ensures KeyAgrees(Exec(m, acts), user)
    decreases |acts|
  {
    if acts != [] {
      var mid := Next(m, acts[0]);
      SoundStep(m, acts[0], user);
      KeyInvKept(m, acts[0]);
      NextKeeps(m, acts[0]);
      if !Creatable(m, user) {
        NotCreatableStays(m, acts[0], user);
      }
      SoundRun(mid, acts[1..], user);
    }
  }

  // ---------------------------------------------------------------- and needed

  /** A logout-all of the user is past its revocation and a token of an unrevoked session is out: after a second the
      key refuses it. */
  lemma KeyOvertakes(m: Machine, tid: ThreadId, user: Id, c: Claims) returns (acts: seq<Action>)
    requires tid in m.threads && m.threads[tid] == LogoutAllCache(user)
    requires c in m.released && c.sub == user && c.session.Some? && !Revoked(m.db, c.session.value)
    ensures Quiet(acts, user) && !KeyAgrees(Exec(m, acts), user)
  {
    var wait, go := Action.Tick((c.iat + 1) * 1000), Advance(tid, 0, 0, true);
    acts := [wait, go];
    var m1 := Next(m, wait);
    var m2 := Next(m1, go);
    assert acts[1..] == [go] && [go][1..] == [];
    assert Exec(m, acts) == Exec(m1, [go]) == Exec(m2, []) == m2;
    assert m2.cache.logoutAll[user].second == m1.now / 1000 > c.iat;
  }

  /** A creation that can commit brings a token of an unrevoked session, and nobody else moves. */
  lemma CommitHands(m: Machine, t: ThreadId, user: Id) returns (a: Action, c: Claims)
    requires MachineInv(m) && t in m.threads && m.threads[t].CreateCommit? && Committing(m, t, user)
    ensures a == Advance(t, 0, 0, true) && c in Next(m, a).released && c.sub == user && c.session.Some?
    ensures !Revoked(Next(m, a).db, c.session.value) && Next(m, a).threads == m.threads - {t}
    ensures c == m.threads[t].claims && Next(m, a).cache == m.cache
  {
    a := Advance(t, 0, 0, true);
    c := m.threads[t].claims;
    assert ThreadOk(m.threads[t], m.db, m.now);
  }

  /** If a session can come into being, a creation can be brought to its commit without moving anybody else. */
  lemma CreationReaches(m: Machine, user: Id) returns (acts: seq<Action>, t: ThreadId)
    requires MachineInv(m) && Creatable(m, user)
    ensures Quiet(acts, user)
    ensures var m' := Exec(m, acts);
            && t in m'.threads && m'.threads[t].CreateCommit? && Committing(m', t, user)
            && forall tid :: tid in m.threads && (m.threads[tid].LogoutAllRevoke? || m.threads[tid].LogoutAllCache?) ==>
                 tid in m'.threads && m'.threads[tid] == m.threads[tid]
  {
    if InFlight(m, user) {
      t :| Committing(m, t, user);
      if m.threads[t].CreateCommit? {
        acts := [];
      } else {
        var a := MintFresh(m, t, user);
        acts := [a];
        assert acts[1..] == [];
        assert Exec(m, acts) == Exec(Next(m, a), []) == Next(m, a);
      }
    } else {
      t := FreshExists(m.threads.Keys);
      var begin := Begin(t, NewSessionFor(user));
      var m1 := Next(m, begin);
      NextKeeps(m, begin);
      var a := MintFresh(m1, t, user);
      acts := [begin, a];
      assert acts[1..] == [a] && [a][1..] == [];
      assert Exec(m, acts) == Exec(m1, [a]) == Exec(Next(m1, a), []) == Next(m1, a);
    }
  }

  lemma MintFresh(m: Machine, t: ThreadId, user: Id) returns (a: Action)
    requires MachineInv(m) && t in m.threads && m.threads[t].CreateMint? && Committing(m, t, user)
    ensures a.Advance? && a.tid == t
    ensures var m' := Next(m, a);
            && t in m'.threads && m'.threads[t].CreateCommit? && Committing(m', t, user)
            && m'.threads == m.threads[t := m'.threads[t]]
  {
    var sid := FreshExists(m.db.sessions.Keys);
    var hash := FreshExists(m.db.tokens.Keys);
    a := Advance(t, sid, hash, true);
    assert ThreadOk(m.threads[t], m.db, m.now);
  }

  lemma {:induction false} ExecTwice(m: Machine, a: seq<Action>, b: seq<Action>)
    ensures Exec(m, a + b) == Exec(Exec(m, a), b)
    decreases |a|
  {
    if a == [] {
      assert a + b == b;
    } else {
      ExecTwice(Next(m, a[0]), a[1..], b);
      assert (a + b)[1..] == a[1..] + b;
    }
  }

  /** A logout-all past its revocation, and a session that can still come into being. */
  lemma CachingThreatens(m: Machine, tid: ThreadId, user: Id) returns (acts: seq<Action>)
    requires MachineInv(m) && tid in m.threads && m.threads[tid] == LogoutAllCache(user) && Creatable(m, user)
    ensures Quiet(acts, user) && !KeyAgrees(Exec(m, acts), user)
  {
    var first, t := CreationReaches(m, user);
    var m1 := Exec(m, first);
    ExecKeeps(m, first);
    var a, c := CommitHands(m1, t, user);
    var m2 := Next(m1, a);
    var rest := KeyOvertakes(m2, tid, user, c);
    acts := first + [a] + rest;
    ExecSnoc(m, first, a);
    ExecTwice(m, first + [a], rest);
  }

  /** A logout-all before its revocation, and a session that can still come into being afterwards. */
  lemma RevokingThreatens(m: Machine, tid: ThreadId, user: Id) returns (acts: seq<Action>)
    requires MachineInv(m) && tid in m.threads && m.threads[tid] == LogoutAllRevoke(user) && Creatable(m, user)
    ensures Quiet(acts, user) && !KeyAgrees(Exec(m, acts), user)
  {
    var go := Advance(tid, 0, 0, true);
    var m1 := Next(m, go);
    NextKeeps(m, go);
    RevocationKeepsCreatable(m, tid, user);
    var rest := CachingThreatens(m1, tid, user);
    acts := [go] + rest;
    assert acts[1..] == rest;
  }

  lemma RevocationKeepsCreatable(m: Machine, tid: ThreadId, user: Id)
    requires tid in m.threads && m.threads[tid] == LogoutAllRevoke(user) && Creatable(m, user)
    ensures Creatable(Next(m, Advance(tid, 0, 0, true)), user)
  {
    if InFlight(m, user) {
      var t :| Committing(m, t, user);
      assert Committing(Next(m, Advance(tid, 0, 0, true)), t, user);
    }
  }

  /** A late commit releases a token that the key refuses at once. */
  lemma LateThreatens(m: Machine, tid: ThreadId, user: Id) returns (acts: seq<Action>)
    requires MachineInv(m) && LateCommit(m, tid, user)
    ensures Quiet(acts, user) && !KeyAgrees(Exec(m, acts), user)
  {
    var a, c := CommitHands(m, tid, user);
    acts := [a];
    assert acts[1..] == [];
    assert Exec(m, acts) == Exec(Next(m, a), []) == Next(m, a);
  }

  lemma UnsoundFails(m: Machine, user: Id) returns (acts: seq<Action>)
    requires KeyInv(m) && !Sound(m, user)
    ensures Quiet(acts, user) && !KeyAgrees(Exec(m, acts), user)
  {
    acts := [];
    if !KeyAgrees(m, user) {
    } else if tid :| LateCommit(m, tid, user) {
      acts := LateThreatens(m, tid, user);
    } else if Waits(m, LogoutAllRevoke(user)) && Creatable(m, user) {
      var tid :| tid in m.threads && m.threads[tid] == LogoutAllRevoke(user);
      acts := RevokingThreatens(m, tid, user);
    } else {
      var tid :| tid in m.threads && m.threads[tid] == LogoutAllCache(user);
      if Creatable(m, user) {
        acts := CachingThreatens(m, tid, user);
      } else {
        var sid :| sid in m.db.sessions && m.db.sessions[sid].user == user && !m.db.sessions[sid].revoked;
        assert HasToken(m, sid);
        var c :| c in m.released && c.session == Some(sid);
        assert Agrees(m.db, c);
        acts := KeyOvertakes(m, tid, user, c);
      }
    }
  }

  lemma NextLogoutAllThreatens(m: Machine, user: Id) returns (acts: seq<Action>)
    requires KeyInv(m) && (!Sound(m, user) || Creatable(m, user))
    ensures !AgreesAfter(m, acts, user)
  {
    if !Sound(m, user) {
      acts := UnsoundFails(m, user);
    } else {
      var tid := FreshExists(m.threads.Keys);
      var begin := Begin(tid, LogoutAllOf(user));
      var m1 := Next(m, begin);
      NextKeeps(m, begin);
      StillCreatable(m, tid, user);
      var rest := RevokingThreatens(m1, tid, user);
      acts := [begin] + rest;
      assert acts[1..] == rest;
    }
  }

  lemma StillCreatable(m: Machine, tid: ThreadId, user: Id)
    requires tid !in m.threads && Creatable(m, user)
    ensures Creatable(Next(m, Begin(tid, LogoutAllOf(user))), user)
  {
    if InFlight(m, user) {
      var t :| Committing(m, t, user);
      assert Committing(Next(m, Begin(tid, LogoutAllOf(user))), t, user);
    }
  }
}
