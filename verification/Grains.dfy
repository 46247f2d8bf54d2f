/** The two grains agree: a request that runs from its first statement to its last without interleaving performs exactly
    its handler's step, whichever way it runs, so every run of whole handlers is one of the interleavings. */
module Grains {
  import opened Domain
  import opened Transactions
  import H = Handlers
  import opened Interleaving

  /** What both grains can see. MFA tokens exist at the coarse grain only. */
  datatype View = View(now: Millis, expiryMin: nat, db: Database, cache: H.Cache, tokens: set<Claims>)

  function ViewOf(m: Machine): View {
    View(m.now, m.expiryMin, m.db, m.cache, m.released)
  }

  function CoarseView(w: H.World): View {
    View(w.now, w.expiryMin, w.db, w.cache, set c | c in w.issued && c.session.Some?)
  }

  /** Same clock, rows and keys, and the same access tokens in clients' hands. */
  predicate Agree(m: Machine, w: H.World) {
    ViewOf(m) == CoarseView(w)
  }

  // ---------------------------------------------------------------- what a request draws and meets

  /** The identifiers drawn during a request and the outcomes of its Redis commands. */
  datatype Inputs = Inputs(sid: Id, hash: Hash, getOk: bool, existsOk: bool, setOk: bool, reached: set<Id>)

  function InputsOf(op: H.Op): Inputs {
    match op
    case DoLogin(_, _, _, sid, hash) => Inputs(sid, hash, true, true, true, {})
    case DoMfaVerify(_, _, sid, hash) => Inputs(sid, hash, true, true, true, {})
    case DoRefresh(_, newHash) => Inputs(0, newHash, true, true, true, {})
    case DoLogout(_, f) => Inputs(0, 0, f.getOk, f.existsOk, f.setOk, {})
    case DoLogoutAll(_, f) => Inputs(0, 0, f.getOk, f.existsOk, f.setOk, {})
    case DoVerify(_, f) => Inputs(0, 0, f.getOk, f.existsOk, f.setOk, {})
    case DoRemoveMember(_, _, reached) => Inputs(0, 0, true, true, true, reached)
    case _ => Inputs(0, 0, true, true, true, {})
  }

  /** A move at this program counter draws and meets what the inputs say. The pipeline may take its keys in any
      order. */
  predicate Uses(pc: Pc, a: Action, x: Inputs)
    requires a.Advance?
  {
    match pc
    case CreateMint(_, _) => a.sid == x.sid && a.hash == x.hash
    case RefreshRotate(_) => a.hash == x.hash
    case LogoutCache(_) => a.ok == x.setOk
    case LogoutAllCache(_) => a.ok == x.setOk
    case RemoveCache(rest) => rest != {} ==> a.sid in rest && a.ok == (a.sid in x.reached)
    case VerifyLogoutAll(_) => a.ok == x.getOk
    case VerifyBlacklist(_) => a.ok == x.existsOk
    case VerifyWrite(_) => a.ok == x.setOk
    case _ => true
  }

  /** Only this request moves, always with its inputs. */
  predicate Played(m: Machine, tid: ThreadId, moves: seq<Action>, x: Inputs)
    decreases |moves|
  {
    moves == [] ||
    (&& moves[0].Advance? && moves[0].tid == tid
     && (tid in m.threads ==> Uses(m.threads[tid], moves[0], x))
     && Played(Next(m, moves[0]), tid, moves[1..], x))
  }

  // ---------------------------------------------------------------- handlers as requests

  /** The request of a call that passes the handler's own checks. */
  function Entry(w: H.World, op: H.Op): Option<Request> {
    match op
    case DoLogin(u, pw, mfa, _, _) =>
      if Present(w.db.users, u) && w.db.users[u].active && pw && !mfa then Some(NewSessionFor(u)) else None
    case DoMfaVerify(c, ok, _, _) =>
      if Presentable(w.issued, c, w.now) && c.mfaPending && ok && Present(w.db.users, c.sub)
      then Some(NewSessionFor(c.sub)) else None
    case DoRefresh(o, n) =>
      if o in w.db.tokens && n !in w.db.tokens && w.now <= w.db.tokens[o].expiresAt then Some(RefreshWith(o)) else None
    case DoLogout(c, _) =>
      if Presentable(w.issued, c, w.now) && c.session.Some? then Some(LogoutWith(c)) else None
    case DoLogoutAll(c, _) => if Presentable(w.issued, c, w.now) then Some(LogoutAllOf(c.sub)) else None
    case DoResetConfirm(h) => if Resettable(w, h) then Some(ResetOf(w.db.resets[h].user)) else None
    case DoRemoveMember(org, u, _) => if H.IsMember(w.db, org, u) then Some(RemovalOf(u)) else None
    case DoVerify(c, _) => if Presentable(w.issued, c, w.now) && c.session.Some? then Some(VerifyOf(c)) else None
    case _ => None
  }

  predicate Resettable(w: H.World, h: Hash) {
    h in w.db.resets && !w.db.resets[h].used && w.now <= w.db.resets[h].expiresAt
  }

  /** What an operation does before, or instead of, a request: the environment's actions and the reset-token row. */
  function Prelude(w: H.World, op: H.Op): seq<Action> {
    match op
    case Tick(millis) => [Action.Tick(millis)]
    case Evict(ss, us) => [Action.Evict(ss, us)]
    case DoRegister(u, org) => [Register(u, org)]
    case DoDeleteOrganization(org) => [Action.DeleteOrganization(org)]
    case DoOnboard(u, org, sid, hash) => [Onboard(u, org, sid, hash, w.now)]
    case DoResetRequest(u, h) => [ResetRows(H.PasswordResetRequest(w, u, h).db.resets)]
    case DoResetConfirm(h) => [ResetRows(H.PasswordResetConfirm(w, h).db.resets)]
    case _ => []
  }

  function Script(w: H.World, tid: ThreadId, op: H.Op, moves: seq<Action>): seq<Action> {
    Prelude(w, op) + match Entry(w, op) { case None => [] case Some(r) => [Begin(tid, r)] + moves }
  }

  /** The moves play the operation's request to its end, with the operation's inputs and nobody else moving. */
  predicate Plays(m: Machine, w: H.World, tid: ThreadId, op: H.Op, moves: seq<Action>) {
    var m1 := Exec(m, Prelude(w, op));
    match Entry(w, op)
    case None => true
    case Some(r) =>
      && Played(Next(m1, Begin(tid, r)), tid, moves, InputsOf(op))
      && tid !in Exec(Next(m1, Begin(tid, r)), moves).threads
  }

  ghost predicate Performs(m: Machine, w: H.World, tid: ThreadId, op: H.Op, m': Machine) {
    && Agree(m', H.Apply(w, op)) && m'.threads == m.threads
    && m'.accepted == m.accepted + if op.DoVerify? && H.Accepts(w, op.claims, op.faults)
                                   then [Acceptance(op.claims, w.now)] else []
  }

  // ---------------------------------------------------------------- main results

  /** Whatever else is in flight, and however the moves are made: a request that runs alone to its end, with the
      operation's identifiers and Redis outcomes, has exactly the effect of its handler's step, on rows, keys and
      tokens, and lets through exactly what the handler accepts. */
  lemma RequestPerformsItsStep(m: Machine, w: H.World, tid: ThreadId, op: H.Op, moves: seq<Action>)
    requires Agree(m, w) && tid !in m.threads && Plays(m, w, tid, op, moves)
    ensures Performs(m, w, tid, op, Exec(m, Script(w, tid, op, moves)))
  {
    var m1 := Exec(m, Prelude(w, op));
    match Entry(w, op)
    case None =>
      PreludeAgrees(m, w, op);
      assert Script(w, tid, op, moves) == Prelude(w, op);
    case Some(r) =>
      EntryStarts(m, w, op);
      BeginsToEnd(m1, tid, r, InputsOf(op));
      PlayedEnds(Next(m1, Begin(tid, r)), tid, moves, InputsOf(op));
      ExecAppend(m, Prelude(w, op), [Begin(tid, r)] + moves);
      ExecCons(m1, Begin(tid, r), moves);
      EndAgrees(m, w, op);
  }

  /** And every request can run so. */
  lemma RequestCanRun(m: Machine, w: H.World, tid: ThreadId, op: H.Op) returns (moves: seq<Action>)
    requires Agree(m, w) && tid !in m.threads
    ensures Plays(m, w, tid, op, moves)
  {
    moves := [];
    if Entry(w, op).Some? {
      var r := Entry(w, op).value;
      var m1 := Exec(m, Prelude(w, op));
      EntryStarts(m, w, op);
      AfterPrelude(m, w, op);
      BeginsToEnd(m1, tid, r, InputsOf(op));
      moves := RequestEnds(Next(m1, Begin(tid, r)), tid, InputsOf(op));
    }
  }

  lemma {:induction false} ContinuesAsInterleaving(m: Machine, w: H.World, ops: seq<H.Op>) returns (acts: seq<Action>)
    requires Agree(m, w) && m.threads == map[]
    ensures Agree(Exec(m, acts), H.Run(w, ops)) && Exec(m, acts).threads == map[]
    decreases |ops|
  {
    if ops == [] {
      acts := [];
    } else {
      var moves := RequestCanRun(m, w, 0, ops[0]);
      var first := Script(w, 0, ops[0], moves);
      RequestPerformsItsStep(m, w, 0, ops[0], moves);
      var rest := ContinuesAsInterleaving(Exec(m, first), H.Apply(w, ops[0]), ops[1..]);
      acts := first + rest;
      ExecAppend(m, first, rest);
    }
  }

  lemma StartsAgree(now: Millis, expiryMin: nat)
    ensures Agree(Initial(now, expiryMin), H.Start(now, expiryMin)) && Initial(now, expiryMin).threads == map[]
  {
  }

  /** Every run of whole handlers from empty tables is an interleaving of single statements, so what is proved of all
      interleavings holds of it too. */
  lemma RunsAreInterleavings(now: Millis, expiryMin: nat, ops: seq<H.Op>) returns (acts: seq<Action>)
    ensures Agree(Exec(Initial(now, expiryMin), acts), H.Run(H.Start(now, expiryMin), ops))
    ensures Exec(Initial(now, expiryMin), acts).threads == map[]
  {
    StartsAgree(now, expiryMin);
    acts := ContinuesAsInterleaving(Initial(now, expiryMin), H.Start(now, expiryMin), ops);
  }

  // ---------------------------------------------------------------- where a request ends

  function Rank(pc: Pc): nat {
    match pc
    case CreateMint(_, _) => 2
    case RefreshRotate(_) => 3
    case RefreshLookup(_, _) => 2
    case LogoutRevoke(_) => 2
    case LogoutAllRevoke(_) => 2
    case RemoveDelete(_) => 4
    case RemoveFind(_) => 3
    case RemoveFlag(_, _) => 2
    case VerifyLogoutAll(_) => 4
    case VerifyBlacklist(_) => 3
    case VerifyDb(_) => 2
    case _ => 1
  }

  /** The machine, without the request, once the request has run on from this program counter alone. */
  function After(b: Machine, pc: Pc, x: Inputs): Machine
    decreases Rank(pc)
  {
    match pc
    case CreateMint(u, org) =>
      Commit(b, x.sid, H.NewSession(u, org, b.now), x.hash, AccessClaims(u, org, x.sid, b.now, b.expiryMin))
    case CreateCommit(id, s, h, c) => Commit(b, id, s, h, c)
    case RefreshRotate(oldHash) =>
      var b' := b.(db := RotateRefreshToken(b.db, oldHash, x.hash, b.now + SESSION_LIFETIME, b.now));
      (match RotateOutcome(b.db, oldHash, b.now)
       case Unknown => b'
       case Orphaned => b'
       case Replayed => b'.(attempts := b.attempts + [Attempt(oldHash, b.db.tokens[oldHash].session, false)])
       case Rotated(sid, s) =>
         After(b'.(attempts := b.attempts + [Attempt(oldHash, sid, true)]), RefreshLookup(sid, s.user), x))
    case RefreshLookup(id, u) =>
      if Present(b.db.users, u) then After(b, RefreshMint(id, u, b.db.users[u].org), x) else b
    case RefreshMint(id, u, org) => b.(released := b.released + {AccessClaims(u, org, id, b.now, b.expiryMin)})
    case LogoutRevoke(id) => After(b.(db := RevokeSession(b.db, id)), LogoutCache(id), x)
    case LogoutCache(id) => b.(cache := H.SetRevoked(b.cache, id, b.now + BLACKLIST_TTL, x.setOk))
    case LogoutAllRevoke(u) => After(b.(db := RevokeAllUserSessions(b.db, u)), LogoutAllCache(u), x)
    case LogoutAllCache(u) => b.(cache := H.SetLogoutAll(b.cache, u, b.now, x.setOk))
    case ResetRevoke(u) => b.(db := RevokeAllUserSessions(b.db, u))
    case RemoveDelete(u) => After(b.(db := SoftDelete(b.db, u)), RemoveFind(u), x)
    case RemoveFind(u) => After(b, RemoveFlag(u, ActiveSessionsOf(b.db, u)), x)
    case RemoveFlag(u, found) =>
      if found == {} then b else After(b.(db := FlagUserSessions(b.db, u)), RemoveCache(found), x)
    case RemoveCache(rest) => b.(cache := H.SetRemoved(b.cache, rest, x.reached, b.now))
    case VerifyLogoutAll(c) =>
      if x.getOk && H.LogoutAllRejects(b.cache, c, b.now) then b else After(b, VerifyBlacklist(c), x)
    case VerifyBlacklist(c) =>
      if c.session.None? || (x.existsOk && H.BlacklistRejects(b.cache, c, b.now)) then b else After(b, VerifyDb(c), x)
    case VerifyDb(c) =>
      if c.session.None? then b
      else if H.DbRejects(b.db, c.session.value, b.now) then After(b, VerifyWrite(c.session.value), x)
      else b.(accepted := b.accepted + [Acceptance(c, b.now)])
    case VerifyWrite(id) => b.(cache := H.SetRevoked(b.cache, id, b.now + BLACKLIST_TTL, x.setOk))
  }

  /** The end of the request, if it is still running; the machine itself once it is done. */
  function EndOf(m: Machine, tid: ThreadId, x: Inputs): Machine {
    if tid in m.threads then After(Finish(m, tid), m.threads[tid], x) else m
  }

  lemma FinishGoto(m: Machine, tid: ThreadId, pc: Pc)
    ensures Finish(Goto(m, tid, pc), tid) == Finish(m, tid)
  {
  }

  /** A jump within the request leads to where the request would end from there. */
  lemma EndOfGoto(m: Machine, tid: ThreadId, pc: Pc, x: Inputs)
    ensures EndOf(Goto(m, tid, pc), tid, x) == After(Finish(m, tid), pc, x)
  {
    FinishGoto(m, tid, pc);
  }

  lemma OneKeyFirst(c: H.Cache, rest: set<Id>, sid: Id, reached: set<Id>, now: Millis)
    requires sid in rest
    ensures H.SetRemoved(H.SetRevoked(c, sid, now + REMOVAL_TTL, sid in reached), rest - {sid}, reached, now) ==
            H.SetRemoved(c, rest, reached, now)
  {
  }

  lemma NoKeys(c: H.Cache, reached: set<Id>, now: Millis)
    ensures H.SetRemoved(c, {}, reached, now) == c
  {
  }

  lemma CreatingMoves(m: Machine, tid: ThreadId, pc: Pc, a: Action, x: Inputs)
    requires tid in m.threads && m.threads[tid] == pc && a.Advance? && Uses(pc, a, x)
    requires pc.CreateMint? || pc.CreateCommit?
    ensures EndOf(Step(m, tid, pc, a.sid, a.hash, a.ok), tid, x) == After(Finish(m, tid), pc, x)
  {
    match pc
    case CreateMint(u, org) =>
      var c := AccessClaims(u, org, x.sid, m.now, m.expiryMin);
      EndOfGoto(m, tid, CreateCommit(x.sid, H.NewSession(u, org, m.now), x.hash, c), x);
    case CreateCommit(id, s, h, c) =>
  }

  lemma RotatingMoves(m: Machine, tid: ThreadId, oldHash: Hash, newHash: Hash, x: Inputs)
    requires tid in m.threads && newHash == x.hash
    ensures EndOf(Rotate(m, tid, oldHash, newHash), tid, x) == After(Finish(m, tid), RefreshRotate(oldHash), x)
  {
    var m' := m.(db := RotateRefreshToken(m.db, oldHash, newHash, m.now + SESSION_LIFETIME, m.now));
    match RotateOutcome(m.db, oldHash, m.now)
    case Unknown =>
    case Orphaned =>
    case Replayed =>
    case Rotated(sid, s) =>
      EndOfGoto(m'.(attempts := m.attempts + [Attempt(oldHash, sid, true)]), tid, RefreshLookup(sid, s.user), x);
  }

  lemma RefreshingMoves(m: Machine, tid: ThreadId, pc: Pc, a: Action, x: Inputs)
    requires tid in m.threads && m.threads[tid] == pc && a.Advance? && Uses(pc, a, x)
    requires pc.RefreshRotate? || pc.RefreshLookup? || pc.RefreshMint?
    ensures EndOf(Step(m, tid, pc, a.sid, a.hash, a.ok), tid, x) == After(Finish(m, tid), pc, x)
  {
    match pc
    case RefreshRotate(oldHash) => RotatingMoves(m, tid, oldHash, a.hash, x);
    case RefreshLookup(id, u) =>
      if Present(m.db.users, u) {
        EndOfGoto(m, tid, RefreshMint(id, u, m.db.users[u].org), x);
      }
    case RefreshMint(_, _, _) =>
  }

  lemma RevokingMoves(m: Machine, tid: ThreadId, pc: Pc, a: Action, x: Inputs)
    requires tid in m.threads && m.threads[tid] == pc && a.Advance? && Uses(pc, a, x)
    requires pc.LogoutRevoke? || pc.LogoutCache? || pc.LogoutAllRevoke? || pc.LogoutAllCache? || pc.ResetRevoke?
    ensures EndOf(Step(m, tid, pc, a.sid, a.hash, a.ok), tid, x) == After(Finish(m, tid), pc, x)
  {
    match pc
    case LogoutRevoke(id) => EndOfGoto(m.(db := RevokeSession(m.db, id)), tid, LogoutCache(id), x);
    case LogoutAllRevoke(u) => EndOfGoto(m.(db := RevokeAllUserSessions(m.db, u)), tid, LogoutAllCache(u), x);
    case _ =>
  }

  lemma RemovingMoves(m: Machine, tid: ThreadId, pc: Pc, a: Action, x: Inputs)
    requires tid in m.threads && m.threads[tid] == pc && a.Advance? && Uses(pc, a, x)
    requires pc.RemoveDelete? || pc.RemoveFind? || pc.RemoveFlag?
    ensures EndOf(Step(m, tid, pc, a.sid, a.hash, a.ok), tid, x) == After(Finish(m, tid), pc, x)
  {
    match pc
    case RemoveDelete(u) => EndOfGoto(m.(db := SoftDelete(m.db, u)), tid, RemoveFind(u), x);
    case RemoveFind(u) => EndOfGoto(m, tid, RemoveFlag(u, ActiveSessionsOf(m.db, u)), x);
    case RemoveFlag(u, found) => EndOfGoto(m.(db := FlagUserSessions(m.db, u)), tid, RemoveCache(found), x);
  }

  lemma KeysEnd(b: Machine, rest: set<Id>, x: Inputs)
    ensures After(b, RemoveCache(rest), x) == b.(cache := H.SetRemoved(b.cache, rest, x.reached, b.now))
  {
  }

  lemma KeyIsTaken(m: Machine, tid: ThreadId, rest: set<Id>, a: Action)
    requires a.Advance? && a.sid in rest
    ensures var cache := H.SetRevoked(m.cache, a.sid, m.now + REMOVAL_TTL, a.ok);
            Step(m, tid, RemoveCache(rest), a.sid, a.hash, a.ok) ==
            Goto(m.(cache := cache), tid, RemoveCache(rest - {a.sid}))
  {
  }

  lemma PipelineMoves(m: Machine, tid: ThreadId, rest: set<Id>, a: Action, x: Inputs)
    requires tid in m.threads && m.threads[tid] == RemoveCache(rest) && a.Advance? && Uses(RemoveCache(rest), a, x)
    ensures EndOf(Step(m, tid, RemoveCache(rest), a.sid, a.hash, a.ok), tid, x) ==
            After(Finish(m, tid), RemoveCache(rest), x)
  {
    var b := Finish(m, tid);
    KeysEnd(b, rest, x);
    if rest == {} {
      NoKeys(m.cache, x.reached, m.now);
    } else {
      var cache := H.SetRevoked(m.cache, a.sid, m.now + REMOVAL_TTL, a.ok);
      var left := rest - {a.sid};
      KeyIsTaken(m, tid, rest, a);
      EndOfGoto(m.(cache := cache), tid, RemoveCache(left), x);
      KeysEnd(b.(cache := cache), left, x);
      OneKeyFirst(m.cache, rest, a.sid, x.reached, m.now);
    }
  }

  lemma VerifyingMoves(m: Machine, tid: ThreadId, pc: Pc, a: Action, x: Inputs)
    requires tid in m.threads && m.threads[tid] == pc && a.Advance? && Uses(pc, a, x)
    requires pc.VerifyLogoutAll? || pc.VerifyBlacklist? || pc.VerifyDb? || pc.VerifyWrite?
    ensures EndOf(Step(m, tid, pc, a.sid, a.hash, a.ok), tid, x) == After(Finish(m, tid), pc, x)
  {
    match pc
    case VerifyLogoutAll(c) => EndOfGoto(m, tid, VerifyBlacklist(c), x);
    case VerifyBlacklist(c) => EndOfGoto(m, tid, VerifyDb(c), x);
    case VerifyDb(c) =>
      if c.session.Some? {
        EndOfGoto(m, tid, VerifyWrite(c.session.value), x);
      }
    case VerifyWrite(_) =>
  }

  /** No move of the request, made with its inputs, changes where the request ends. */
  lemma MoveKeepsEnd(m: Machine, tid: ThreadId, a: Action, x: Inputs)
    requires a.Advance? && a.tid == tid && (tid in m.threads ==> Uses(m.threads[tid], a, x))
    ensures EndOf(Next(m, a), tid, x) == EndOf(m, tid, x)
  {
    if tid in m.threads {
      var pc := m.threads[tid];
      if pc.CreateMint? || pc.CreateCommit? {
        CreatingMoves(m, tid, pc, a, x);
      } else if pc.RefreshRotate? || pc.RefreshLookup? || pc.RefreshMint? {
        RefreshingMoves(m, tid, pc, a, x);
      } else if pc.RemoveDelete? || pc.RemoveFind? || pc.RemoveFlag? {
        RemovingMoves(m, tid, pc, a, x);
      } else if pc.RemoveCache? {
        PipelineMoves(m, tid, pc.rest, a, x);
      } else if pc.VerifyLogoutAll? || pc.VerifyBlacklist? || pc.VerifyDb? || pc.VerifyWrite? {
        VerifyingMoves(m, tid, pc, a, x);
      } else {
        RevokingMoves(m, tid, pc, a, x);
      }
    }
  }

  /** However a request runs alone: once it is done, the machine is where the request was bound to end. */
  lemma {:induction false} PlayedEnds(m: Machine, tid: ThreadId, moves: seq<Action>, x: Inputs)
    requires Played(m, tid, moves, x) && tid !in Exec(m, moves).threads
    ensures Exec(m, moves) == EndOf(m, tid, x)
    decreases |moves|
  {
    if moves != [] {
      MoveKeepsEnd(m, tid, moves[0], x);
      PlayedEnds(Next(m, moves[0]), tid, moves[1..], x);
    }
  }

  // ---------------------------------------------------------------- every request comes to an end

  function Keys(pc: Pc): nat {
    if pc.RemoveCache? then |pc.rest| else 0
  }

  /** Closer to the request's end. */
  predicate Nearer(a: Pc, b: Pc) {
    Rank(a) < Rank(b) || (Rank(a) == Rank(b) && Keys(a) < Keys(b))
  }

  function PickMove(m: Machine, tid: ThreadId, x: Inputs, key: Id): Action
    requires tid in m.threads
  {
    match m.threads[tid]
    case VerifyLogoutAll(_) => Advance(tid, x.sid, x.hash, x.getOk)
    case VerifyBlacklist(_) => Advance(tid, x.sid, x.hash, x.existsOk)
    case RemoveCache(_) => Advance(tid, key, x.hash, key in x.reached)
    case _ => Advance(tid, x.sid, x.hash, x.setOk)
  }

  /** The move picked uses the inputs and brings the request nearer to its end. */
  predicate Brings(m: Machine, tid: ThreadId, a: Action, x: Inputs)
    requires tid in m.threads
  {
    var m' := Next(m, a);
    && a.Advance? && a.tid == tid && Uses(m.threads[tid], a, x)
    && (tid in m'.threads ==> !m'.threads[tid].RefreshRotate? && Nearer(m'.threads[tid], m.threads[tid]))
  }

  lemma IssuingAdvances(m: Machine, tid: ThreadId, x: Inputs)
    requires tid in m.threads && (m.threads[tid].RefreshRotate? ==> x.hash !in m.db.tokens)
    requires var pc := m.threads[tid];
             pc.CreateMint? || pc.CreateCommit? || pc.RefreshRotate? || pc.RefreshLookup? || pc.RefreshMint?
    ensures Brings(m, tid, PickMove(m, tid, x, 0), x)
  {
  }

  lemma RemovingAdvances(m: Machine, tid: ThreadId, x: Inputs, key: Id)
    requires tid in m.threads
    requires m.threads[tid].RemoveCache? && m.threads[tid].rest != {} ==> key in m.threads[tid].rest
    requires var pc := m.threads[tid]; pc.RemoveDelete? || pc.RemoveFind? || pc.RemoveFlag? || pc.RemoveCache?
    ensures Brings(m, tid, PickMove(m, tid, x, key), x)
  {
  }

  lemma RevokingAdvances(m: Machine, tid: ThreadId, x: Inputs)
    requires tid in m.threads
    requires var pc := m.threads[tid];
             pc.LogoutRevoke? || pc.LogoutCache? || pc.LogoutAllRevoke? || pc.LogoutAllCache? || pc.ResetRevoke?
    ensures Brings(m, tid, PickMove(m, tid, x, 0), x)
  {
  }

  lemma VerifyingAdvances(m: Machine, tid: ThreadId, x: Inputs)
    requires tid in m.threads
    requires var pc := m.threads[tid]; pc.VerifyLogoutAll? || pc.VerifyBlacklist? || pc.VerifyDb? || pc.VerifyWrite?
    ensures Brings(m, tid, PickMove(m, tid, x, 0), x)
  {
  }

  lemma MoveAdvances(m: Machine, tid: ThreadId, x: Inputs) returns (a: Action)
    requires tid in m.threads && (m.threads[tid].RefreshRotate? ==> x.hash !in m.db.tokens)
    ensures Brings(m, tid, a, x)
  {
    var pc := m.threads[tid];
    var key := 0;
    if pc.CreateMint? || pc.CreateCommit? || pc.RefreshRotate? || pc.RefreshLookup? || pc.RefreshMint? {
      IssuingAdvances(m, tid, x);
    } else if pc.RemoveDelete? || pc.RemoveFind? || pc.RemoveFlag? || pc.RemoveCache? {
      if pc.RemoveCache? && pc.rest != {} {
        key :| key in pc.rest;
      }
      RemovingAdvances(m, tid, x, key);
    } else if pc.VerifyLogoutAll? || pc.VerifyBlacklist? || pc.VerifyDb? || pc.VerifyWrite? {
      VerifyingAdvances(m, tid, x);
    } else {
      RevokingAdvances(m, tid, x);
    }
    a := PickMove(m, tid, x, key);
  }

  lemma {:induction false} RequestEnds(m: Machine, tid: ThreadId, x: Inputs) returns (moves: seq<Action>)
    requires tid in m.threads ==> m.threads[tid].RefreshRotate? ==> x.hash !in m.db.tokens
    ensures Played(m, tid, moves, x) && tid !in Exec(m, moves).threads
    decreases if tid in m.threads then 1 + Rank(m.threads[tid]) else 0,
              if tid in m.threads then Keys(m.threads[tid]) else 0
  {
    moves := [];
    if tid in m.threads {
      var a := MoveAdvances(m, tid, x);
      var rest := RequestEnds(Next(m, a), tid, x);
      moves := [a] + rest;
      assert moves[1..] == rest;
    }
  }

  // ---------------------------------------------------------------- executing a script

  lemma {:induction false} ExecAppend(m: Machine, a: seq<Action>, b: seq<Action>)
    ensures Exec(m, a + b) == Exec(Exec(m, a), b)
    decreases |a|
  {
    if a == [] {
      assert a + b == b;
    } else {
      ExecAppend(Next(m, a[0]), a[1..], b);
      assert (a + b)[1..] == a[1..] + b;
    }
  }

  lemma ExecCons(m: Machine, a: Action, rest: seq<Action>)
    ensures Exec(m, [a] + rest) == Exec(Next(m, a), rest)
  {
    assert ([a] + rest)[1..] == rest;
  }

  lemma ExecOne(m: Machine, a: Action)
    ensures Exec(m, [a]) == Next(m, a)
  {
    assert [a][1..] == [];
  }

  /** What the prelude leaves for the request. */
  lemma AfterPrelude(m: Machine, w: H.World, op: H.Op)
    requires Agree(m, w)
    ensures var m1 := Exec(m, Prelude(w, op));
            Entry(w, op).Some? ==>
              m1 == if !op.DoResetConfirm? then m
                    else m.(db := m.db.(resets := H.PasswordResetConfirm(w, op.hash).db.resets))
  {
    if op.DoResetConfirm? {
      ExecOne(m, Prelude(w, op)[0]);
    }
  }

  function FirstPc(r: Request, m: Machine): Pc {
    match r
    case NewSessionFor(u) => CreateMint(u, if u in m.db.users then m.db.users[u].org else 0)
    case RefreshWith(h) => RefreshRotate(h)
    case LogoutWith(c) => LogoutRevoke(if c.session.Some? then c.session.value else 0)
    case LogoutAllOf(u) => LogoutAllRevoke(u)
    case ResetOf(u) => ResetRevoke(u)
    case RemovalOf(u) => RemoveDelete(u)
    case VerifyOf(c) => VerifyLogoutAll(c)
  }

  /** The request starts, and its end is reckoned from its first program counter. */
  lemma BeginsToEnd(m: Machine, tid: ThreadId, r: Request, x: Inputs)
    requires tid !in m.threads && Start(m, r).Some?
    ensures var m2 := Next(m, Begin(tid, r));
            && tid in m2.threads && m2.threads[tid] == FirstPc(r, m) && m2.db == m.db
            && EndOf(m2, tid, x) == After(m, FirstPc(r, m), x)
  {
    EndOfGoto(m, tid, FirstPc(r, m), x);
    assert Finish(m, tid).threads == m.threads;
  }

  lemma EntryStarts(m: Machine, w: H.World, op: H.Op)
    requires Agree(m, w) && Entry(w, op).Some?
    ensures Start(Exec(m, Prelude(w, op)), Entry(w, op).value).Some?
    ensures Exec(m, Prelude(w, op)).threads == m.threads
  {
    AfterPrelude(m, w, op);
  }

  // ---------------------------------------------------------------- ends agree with handlers

  lemma CreationAgrees(m: Machine, w: H.World, user: Id, x: Inputs)
    requires Agree(m, w) && user in m.db.users
    ensures var m' := After(m, CreateMint(user, m.db.users[user].org), x);
            Agree(m', H.Establish(w, user, x.sid, x.hash)) && m'.threads == m.threads && m'.accepted == m.accepted
  {
  }

  lemma RefreshAgrees(m: Machine, w: H.World, op: H.Op)
    requires Agree(m, w) && op.DoRefresh? && Entry(w, op).Some?
    ensures Performs(m, w, 0, op, After(m, RefreshRotate(op.oldHash), InputsOf(op)))
  {
    var x := InputsOf(op);
    if CanSpend(m.db, op.oldHash) {
      var sid := m.db.tokens[op.oldHash].session;
      var b := m.(db := SpendToken(m.db, op.oldHash, op.newHash, m.now + SESSION_LIFETIME, m.now),
                  attempts := m.attempts + [Attempt(op.oldHash, sid, true)]);
      var user := TouchedSession(m.db, op.oldHash, m.now).user;
      assert After(m, RefreshRotate(op.oldHash), x) == After(b, RefreshLookup(sid, user), x);
      LookupEnds(b, sid, user, x);
    }
  }

  lemma LookupEnds(b: Machine, sid: Id, user: Id, x: Inputs)
    ensures After(b, RefreshLookup(sid, user), x) ==
            if Present(b.db.users, user)
            then b.(released := b.released + {AccessClaims(user, b.db.users[user].org, sid, b.now, b.expiryMin)})
            else b
  {
  }

  lemma LogoutAgrees(m: Machine, w: H.World, op: H.Op)
    requires Agree(m, w) && (op.DoLogout? || op.DoLogoutAll?) && Entry(w, op).Some?
    ensures Performs(m, w, 0, op, After(m, FirstPc(Entry(w, op).value, m), InputsOf(op)))
  {
  }

  lemma ResetAgrees(m: Machine, w: H.World, op: H.Op)
    requires Agree(m, w) && op.DoResetConfirm? && Entry(w, op).Some?
    ensures Performs(m, w, 0, op, After(Exec(m, Prelude(w, op)), FirstPc(Entry(w, op).value, m), InputsOf(op)))
  {
    AfterPrelude(m, w, op);
  }

  lemma RemovalEnds(b: Machine, user: Id, x: Inputs)
    requires Present(b.db.users, user)
    ensures var found := ActiveSessionsOf(b.db, user);
            After(b, RemoveDelete(user), x) ==
            b.(db := FlagUserSessions(SoftDelete(b.db, user), user),
               cache := H.SetRemoved(b.cache, found, x.reached, b.now))
  {
    var gone := SoftDelete(b.db, user);
    var found := ActiveSessionsOf(gone, user);
    assert found == ActiveSessionsOf(b.db, user);
    assert After(b, RemoveDelete(user), x) == After(b.(db := gone), RemoveFind(user), x);
    assert After(b.(db := gone), RemoveFind(user), x) == After(b.(db := gone), RemoveFlag(user, found), x);
    FlaggingEnds(b.(db := gone), user, found, x);
    if found == {} {
      NothingToFlag(gone, user);
      NoKeys(b.cache, x.reached, b.now);
    }
  }

  lemma FlaggingEnds(b: Machine, user: Id, found: set<Id>, x: Inputs)
    ensures After(b, RemoveFlag(user, found), x) ==
            if found == {} then b
            else b.(db := FlagUserSessions(b.db, user), cache := H.SetRemoved(b.cache, found, x.reached, b.now))
  {
  }

  lemma RemovalAgrees(m: Machine, w: H.World, op: H.Op)
    requires Agree(m, w) && op.DoRemoveMember? && Entry(w, op).Some?
    ensures Performs(m, w, 0, op, After(m, RemoveDelete(op.user), InputsOf(op)))
  {
    RemovalEnds(m, op.user, InputsOf(op));
  }

  lemma WriteBackEnds(b: Machine, sid: Id, x: Inputs)
    ensures After(b, VerifyWrite(sid), x) ==
            b.(cache := H.SetRevoked(b.cache, sid, b.now + BLACKLIST_TTL, x.setOk))
  {
  }

  lemma RowCheckEnds(b: Machine, c: Claims, x: Inputs)
    requires c.session.Some?
    ensures After(b, VerifyDb(c), x) ==
            if H.DbRejects(b.db, c.session.value, b.now)
            then b.(cache := H.SetRevoked(b.cache, c.session.value, b.now + BLACKLIST_TTL, x.setOk))
            else b.(accepted := b.accepted + [Acceptance(c, b.now)])
  {
    WriteBackEnds(b, c.session.value, x);
  }

  lemma VerificationEnds(b: Machine, c: Claims, x: Inputs)
    requires c.session.Some?
    ensures After(b, VerifyLogoutAll(c), x) ==
            if (x.getOk && H.LogoutAllRejects(b.cache, c, b.now))
               || (x.existsOk && H.BlacklistRejects(b.cache, c, b.now))
            then b else After(b, VerifyDb(c), x)
  {
    assert After(b, VerifyBlacklist(c), x) ==
           if x.existsOk && H.BlacklistRejects(b.cache, c, b.now) then b else After(b, VerifyDb(c), x);
  }

  lemma VerificationAgrees(m: Machine, w: H.World, op: H.Op)
    requires Agree(m, w) && op.DoVerify? && Entry(w, op).Some?
    ensures Performs(m, w, 0, op, After(m, VerifyLogoutAll(op.claims), InputsOf(op)))
  {
    VerificationEnds(m, op.claims, InputsOf(op));
    RowCheckEnds(m, op.claims, InputsOf(op));
  }

  lemma EndAgrees(m: Machine, w: H.World, op: H.Op)
    requires Agree(m, w) && Entry(w, op).Some?
    ensures var m1 := Exec(m, Prelude(w, op));
            Performs(m, w, 0, op, After(m1, FirstPc(Entry(w, op).value, m1), InputsOf(op)))
  {
    AfterPrelude(m, w, op);
    if op.DoLogin? {
      CreationAgrees(m, w, op.user, InputsOf(op));
    } else if op.DoMfaVerify? {
      CreationAgrees(m, w, op.claims.sub, InputsOf(op));
    } else if op.DoRefresh? {
      RefreshAgrees(m, w, op);
    } else if op.DoLogout? || op.DoLogoutAll? {
      LogoutAgrees(m, w, op);
    } else if op.DoResetConfirm? {
      ResetAgrees(m, w, op);
    } else if op.DoRemoveMember? {
      RemovalAgrees(m, w, op);
    } else {
      VerificationAgrees(m, w, op);
    }
  }

  /** An operation without a request: refused by the handler's checks, or the environment's own action. */
  lemma PreludeAgrees(m: Machine, w: H.World, op: H.Op)
    requires Agree(m, w) && Entry(w, op) == None
    ensures Performs(m, w, 0, op, Exec(m, Prelude(w, op)))
  {
    if op.DoOnboard? {
      ExecOne(m, Prelude(w, op)[0]);
      OnboardingAgrees(m, w, op.user, op.org, op.sid, op.hash);
    } else if Prelude(w, op) != [] {
      ExecOne(m, Prelude(w, op)[0]);
    }
  }

  lemma OnboardingAgrees(m: Machine, w: H.World, user: Id, org: Id, sid: Id, hash: Hash)
    requires Agree(m, w)
    ensures var m' := Next(m, Onboard(user, org, sid, hash, w.now));
            Agree(m', H.Onboard(w, user, org, sid, hash)) && m'.threads == m.threads && m'.accepted == m.accepted
  {
    if user !in m.db.users {
      var m1, w1 := m.(db := InsertUser(m.db, user, org)), H.Register(w, user, org);
      CreationAgrees(m1, w1, user, Inputs(sid, hash, true, true, true, {}));
    }
  }
}
