/** The login in two steps: what the MFA token of the first step is good for, for how long, and for nothing else. */
module SecondFactor {
  import opened Domain
  import opened Transactions
  import opened Handlers
  import opened Refinement
  import opened Finality

  /** The ids of the second step are new. */
  predicate Unused(w: World, sid: Id, hash: Hash) {
    sid !in w.db.sessions && hash !in w.db.tokens
  }

  // ---------------------------------------------------------------- two kinds of tokens

  /** A token either waits for the second factor or belongs to a session. */
  ghost predicate TwoKinds(w: World) {
    forall c :: c in w.issued ==> (c.mfaPending <==> c.session.None?)
  }

  lemma MintedOfOneKind(w: World, op: Op, c: Claims)
    requires Minted(w, op) == Some(c)
    ensures c.mfaPending <==> c.session.None?
  {
  }

  lemma {:induction false} RunKeepsKinds(w: World, ops: seq<Op>)
    requires TwoKinds(w)
    ensures TwoKinds(Run(w, ops))
    decreases |ops|
  {
    if ops != [] {
      IssuedIsMinted(w, ops[0]);
      if Minted(w, ops[0]).Some? {
        MintedOfOneKind(w, ops[0], Minted(w, ops[0]).value);
      }
      RunKeepsKinds(Apply(w, ops[0]), ops[1..]);
    }
  }

  /** In every run an access token never passes for a second factor, whatever code comes with it. */
  lemma AccessTokenIsNoSecondFactor(now: Millis, expiryMin: nat, ops: seq<Op>, c: Claims, codeOk: bool, sid: Id,
                                    hash: Hash)
    requires c.session.Some?
    ensures var w := Run(Start(now, expiryMin), ops);
            Minted(w, DoMfaVerify(c, codeOk, sid, hash)) == None && MfaVerify(w, c, codeOk, sid, hash) == w
  {
    RunKeepsKinds(Start(now, expiryMin), ops);
  }

  /** And an MFA token never passes for an access token, in any world at all. */
  lemma MfaTokenIsNeverAccepted(w: World, user: Id, sid: Id, hash: Hash, t: Claims, w': World, f: Faults)
    requires Minted(w, DoLogin(user, true, true, sid, hash)) == Some(t)
    ensures !Accepts(w', t, f)
  {
  }

  // ---------------------------------------------------------------- the second step

  /** The right password of a present, active user with MFA on is answered with an MFA token. Whatever happens next,
      presenting it gives that user an access token exactly if the code is right, the user still there and fewer than
      five minutes have passed, counted to whole seconds; otherwise nothing. */
  lemma SecondStepMintsIff(w: World, user: Id, sid: Id, hash: Hash, ops: seq<Op>, codeOk: bool, sid': Id, hash': Hash)
    requires WorldInv(w) && Present(w.db.users, user) && w.db.users[user].active
    ensures Minted(w, DoLogin(user, true, true, sid, hash)).Some?
    ensures var t := Minted(w, DoLogin(user, true, true, sid, hash)).value;
            var w' := Run(Apply(w, DoLogin(user, true, true, sid, hash)), ops);
            Unused(w', sid', hash') ==>
              Minted(w', DoMfaVerify(t, codeOk, sid', hash')) ==
              if codeOk && w'.now < (w.now + 300000) / 1000 * 1000 && Present(w'.db.users, user)
              then Some(AccessClaims(user, w.db.users[user].org, sid', w'.now, w'.expiryMin)) else None
  {
    var first := DoLogin(user, true, true, sid, hash);
    var t := Minted(w, first).value;
    var mid := Apply(w, first);
    var w' := Run(mid, ops);
    ApplySteps(w, first);
    RunSteps(mid, ops);
    IssuedIsMinted(w, first);
    assert t in w'.issued;
    assert Unexpired(t, w'.now) <==> w'.now < (w.now + 300000) / 1000 * 1000;
  }

  /** The access token of the second step is accepted at once. */
  lemma SecondStepIsAccepted(w: World, t: Claims, sid: Id, hash: Hash, c: Claims, f: Faults)
    requires WorldInv(w) && w.expiryMin > 0 && Minted(w, DoMfaVerify(t, true, sid, hash)) == Some(c)
    ensures c.sub == t.sub && c.session == Some(sid) && Accepts(Apply(w, DoMfaVerify(t, true, sid, hash)), c, f)
  {
    EstablishSteps(w, t.sub, sid, hash);
    FreshTokenIsValid(w, t.sub, sid, hash, f);
  }

  /** A session that has just been created, under any faults and whatever the caches hold. */
  lemma FreshTokenIsValid(w: World, user: Id, sid: Id, hash: Hash, f: Faults)
    requires WorldInv(w) && w.expiryMin > 0 && Present(w.db.users, user) && Unused(w, sid, hash)
    ensures var w' := Establish(w, user, sid, hash);
            Accepts(w', AccessClaims(user, w.db.users[user].org, sid, w.now, w.expiryMin), f)
  {
    EstablishSteps(w, user, sid, hash);
  }

  /** Password and code, one after the other: a login with MFA ends in an accepted access token. */
  lemma TwoStepLogin(w: World, user: Id, sid: Id, hash: Hash, ops: seq<Op>, sid': Id, hash': Hash, f: Faults)
    requires WorldInv(w) && w.expiryMin > 0 && Present(w.db.users, user) && w.db.users[user].active
    requires var w' := Run(Apply(w, DoLogin(user, true, true, sid, hash)), ops);
             w'.now < (w.now + 300000) / 1000 * 1000 && Present(w'.db.users, user) && Unused(w', sid', hash')
    ensures Minted(w, DoLogin(user, true, true, sid, hash)).Some?
    ensures var t := Minted(w, DoLogin(user, true, true, sid, hash)).value;
            var w' := Run(Apply(w, DoLogin(user, true, true, sid, hash)), ops);
            var second := DoMfaVerify(t, true, sid', hash');
            Minted(w', second).Some? && Minted(w', second).value.sub == user
            && Accepts(Apply(w', second), Minted(w', second).value, f)
  {
    var first := DoLogin(user, true, true, sid, hash);
    SecondStepMintsIff(w, user, sid, hash, ops, true, sid', hash');
    ApplySteps(w, first);
    RunSteps(Apply(w, first), ops);
    var w' := Run(Apply(w, first), ops);
    var second := DoMfaVerify(Minted(w, first).value, true, sid', hash');
    SecondStepIsAccepted(w', Minted(w, first).value, sid', hash', Minted(w', second).value, f);
  }
}
