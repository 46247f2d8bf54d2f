/** Password reset tokens over whole runs: good for an hour, and for one reset. */
module ResetTokens {
  import opened Domain
  import opened Transactions
  import opened Handlers
  import opened Refinement

  /** The handler's three checks. */
  predicate Confirmable(w: World, hash: Hash) {
    hash in w.db.resets && !w.db.resets[hash].used && w.now <= w.db.resets[hash].expiresAt
  }

  /** A row stays what it is but for its use, and that is never taken back. */
  lemma RowStep(w: World, op: Op, hash: Hash)
    requires hash in w.db.resets
    ensures var a, b := w.db.resets[hash], Apply(w, op).db.resets;
            hash in b && b[hash] == a.(used := b[hash].used) && (a.used ==> b[hash].used)
  {
  }

  lemma {:induction false} SpentStaysSpent(w: World, ops: seq<Op>, hash: Hash)
    requires hash in w.db.resets && w.db.resets[hash].used
    ensures var w' := Run(w, ops); hash in w'.db.resets && w'.db.resets[hash].used
    decreases |ops|
  {
    if ops != [] {
      RowStep(w, ops[0], hash);
      SpentStaysSpent(Apply(w, ops[0]), ops[1..], hash);
    }
  }

  /** A token that has reset a password resets nothing again, whatever happens in between. */
  lemma ConfirmedOnce(w: World, hash: Hash, ops: seq<Op>)
    requires Confirmable(w, hash)
    ensures var w' := Run(PasswordResetConfirm(w, hash), ops);
            !Confirmable(w', hash) && PasswordResetConfirm(w', hash) == w'
  {
    SpentStaysSpent(PasswordResetConfirm(w, hash), ops, hash);
  }

  /** One operation decides: the use of this token, or the deletion of its user's organization. */
  lemma UseStep(w: World, op: Op, hash: Hash)
    requires hash in w.db.resets && w.db.resets[hash].user in w.db.users
    ensures var row := w.db.resets[hash];
            var org := w.db.users[row.user].org;
            Apply(w, op).db.resets[hash].used <==>
            row.used || (op == DoResetConfirm(hash) && w.now <= row.expiresAt) || op == DoDeleteOrganization(org)
  {
  }

  lemma {:induction false} ConfirmableAfter(w: World, ops: seq<Op>, hash: Hash)
    requires WorldInv(w) && hash in w.db.resets && w.db.resets[hash].user in w.db.users
    ensures var row := w.db.resets[hash];
            var org := w.db.users[row.user].org;
            var w' := Run(w, ops);
            Confirmable(w', hash) <==>
            !row.used && w'.now <= row.expiresAt && DoResetConfirm(hash) !in ops && DoDeleteOrganization(org) !in ops
    decreases |ops|
  {
    if ops != [] {
      var mid := Apply(w, ops[0]);
      ApplySteps(w, ops[0]);
      RowStep(w, ops[0], hash);
      UseStep(w, ops[0], hash);
      ConfirmableAfter(mid, ops[1..], hash);
      RunSteps(mid, ops[1..]);
      assert forall op :: op in ops <==> op == ops[0] || op in ops[1..];
    }
  }

  /** A token requested for a present user can be confirmed, whatever else happens, for exactly an hour and until it is
      confirmed or the user's organization deleted. */
  lemma ConfirmableForAnHour(w: World, user: Id, hash: Hash, ops: seq<Op>)
    requires WorldInv(w) && Present(w.db.users, user) && hash !in w.db.resets
    ensures var w' := Run(Apply(w, DoResetRequest(user, hash)), ops);
            Confirmable(w', hash) <==>
            && w'.now <= w.now + 3600000
            && DoResetConfirm(hash) !in ops && DoDeleteOrganization(w.db.users[user].org) !in ops
  {
    var mid := Apply(w, DoResetRequest(user, hash));
    ApplySteps(w, DoResetRequest(user, hash));
    ConfirmableAfter(mid, ops, hash);
  }

  /** A request for anybody else leaves no token. */
  lemma NoTokenForTheAbsent(w: World, user: Id, hash: Hash)
    requires !Present(w.db.users, user)
    ensures Apply(w, DoResetRequest(user, hash)) == w
  {
  }

  /** What a confirmation does to everybody's sessions: exactly the user's own end. */
  lemma ConfirmationEndsSessions(w: World, hash: Hash, sid: Id)
    requires Confirmable(w, hash) && sid in w.db.sessions
    ensures var s := PasswordResetConfirm(w, hash).db.sessions;
            sid in s && s[sid] == w.db.sessions[sid].(revoked := s[sid].revoked)
            && (s[sid].revoked <==> w.db.sessions[sid].revoked || w.db.sessions[sid].user == w.db.resets[hash].user)
  {
  }
}
