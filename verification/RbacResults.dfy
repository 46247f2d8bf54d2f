/** What the tenant model keeps over whole runs: system roles, effective permissions, and who can join. */
module RbacResults {
  import opened Domain
  import opened Rbac

  // ---------------------------------------------------------------- system roles

  function PermissionsOf(t: Tables, role: Id): set<Id> {
    set rp | rp in t.rolePermissions && rp.0 == role :: rp.1
  }

  lemma SystemRoleStep(t: Tables, role: Id, op: Op)
    requires role in t.roles && t.roles[role].system && op != OpDeleteOrganization(t.roles[role].org)
    ensures var s := Perform(t, op).tables;
            role in s.roles && s.roles[role] == t.roles[role] && PermissionsOf(s, role) == PermissionsOf(t, role)
  {
  }

  /** A system role keeps its name and its permissions for as long as its organization is not deleted. */
  lemma {:induction false} SystemRolesAreFixed(t: Tables, role: Id, ops: seq<Op>)
    requires role in t.roles && t.roles[role].system && Spares(ops, t.roles[role].org)
    ensures var s := Run(t, ops);
            role in s.roles && s.roles[role] == t.roles[role] && PermissionsOf(s, role) == PermissionsOf(t, role)
  {
    if ops != [] {
      SystemRolesAreFixed(t, role, ops[..|ops| - 1]);
      SystemRoleStep(Run(t, ops[..|ops| - 1]), role, ops[|ops| - 1]);
    }
  }

  // ---------------------------------------------------------------- effective permissions

  /** The names a role grants. */
  function Grants(t: Tables, role: Id): set<string> {
    set p | p in PermissionsOf(t, role) && p in t.catalogue :: t.catalogue[p]
  }

  /** SELECT DISTINCT over permissions, role_permissions and user_roles. */
  function Effective(t: Tables, user: Id): set<string> {
    set rp, ur | rp in t.rolePermissions && ur in t.userRoles && ur.0 == user && rp.0 == ur.1 && rp.1 in t.catalogue
      :: t.catalogue[rp.1]
  }

  /** The join is the union over the user's roles. */
  lemma EffectiveIsUnion(t: Tables, user: Id, name: string)
    ensures name in Effective(t, user) <==> exists r :: (user, r) in t.userRoles && name in Grants(t, r)
  {
  }

  /** The count comparison in the code accepts exactly the duplicate-free lists of existing ids. */
  lemma AssignSucceedsIff(t: Tables, org: Id, role: Id, ids: seq<Id>)
    ensures AssignPermissions(t, org, role, ids).error == None <==>
            && OwnRole(t, org, role) && !t.roles[role].system
            && NoDuplicates(ids) && (forall i :: 0 <= i < |ids| ==> ids[i] in t.catalogue)
    ensures AssignPermissions(t, org, role, ids).error != None ==> AssignPermissions(t, org, role, ids).tables == t
  {
    FoundExist(t, ids);
  }

  lemma BoundGrants(t: Tables, role: Id, ids: seq<Id>, r: Id)
    ensures PermissionsOf(Bound(t, role, Elements(ids)), r) == if r == role then Elements(ids) else PermissionsOf(t, r)
  {
  }

  /** After a successful assignment every user's permissions are the union over the user's roles, in which that role
      now grants the assigned ids and nothing else. */
  lemma AssignedPermissionsAreEffective(t: Tables, org: Id, role: Id, ids: seq<Id>, user: Id, name: string)
    requires AssignPermissions(t, org, role, ids).error == None
    ensures name in Effective(AssignPermissions(t, org, role, ids).tables, user) <==>
            || ((user, role) in t.userRoles
                && exists i :: 0 <= i < |ids| && ids[i] in t.catalogue && name == t.catalogue[ids[i]])
            || exists r :: r != role && (user, r) in t.userRoles && name in Grants(t, r)
  {
    var s := AssignPermissions(t, org, role, ids).tables;
    EffectiveIsUnion(s, user, name);
    forall r ensures Grants(s, r) == if r == role then Grants(s, role) else Grants(t, r) {
      BoundGrants(t, role, ids, r);
    }
    BoundGrants(t, role, ids, role);
    if name in Grants(s, role) {
      var p :| p in Elements(ids) && p in t.catalogue && name == t.catalogue[p];
      var i :| 0 <= i < |ids| && ids[i] == p;
    }
    if i :| 0 <= i < |ids| && ids[i] in t.catalogue && name == t.catalogue[ids[i]] {
      assert ids[i] in Elements(ids);
    }
  }

  /** A role that is deleted stops granting, and takes nothing else along. */
  lemma DeletedRoleStopsGranting(t: Tables, org: Id, role: Id, user: Id, name: string)
    requires DeleteRole(t, org, role).error == None
    ensures name in Effective(DeleteRole(t, org, role).tables, user) <==>
            exists r :: r != role && (user, r) in t.userRoles && name in Grants(t, r)
  {
    var s := DeleteRole(t, org, role).tables;
    EffectiveIsUnion(s, user, name);
    forall r | r != role ensures Grants(s, r) == Grants(t, r) {
      assert PermissionsOf(s, r) == PermissionsOf(t, r);
    }
  }

  /** A new role grants nothing and nobody holds it, even if its id was in use before. */
  lemma CreatedRoleGrantsNothing(t: Tables, org: Id, role: Id, name: string)
    requires Inv(t) && CreateRole(t, org, role, name).error == None
    ensures var s := CreateRole(t, org, role, name).tables;
            && OwnRole(s, org, role) && s.roles[role].name == name && !s.roles[role].system
            && (forall p :: (role, p) !in s.rolePermissions) && forall user :: (user, role) !in s.userRoles
  {
  }

  // ---------------------------------------------------------------- who can join

  /** The member edits the own profile, which may give up the address. */
  predicate Edits(op: Op, user: Id) {
    op.OpUpdateProfile? && op.user == user
  }

  lemma MemberStep(t: Tables, user: Id, op: Op)
    requires user in t.members && op != OpDeleteOrganization(t.members[user].org)
    ensures var s := Perform(t, op).tables;
            && user in s.members && s.members[user].org == t.members[user].org
            && (t.members[user].deleted ==> s.members[user] == t.members[user])
            && (!Edits(op, user) ==>
                  && s.members[user].email == t.members[user].email
                  && s.members[user].username == t.members[user].username)
  {
  }

  /** A member's row stays until its organization is deleted: unchanged once soft-deleted, and with its address and
      user name as long as the member does not edit them. */
  lemma {:induction false} MembersStay(t: Tables, user: Id, ops: seq<Op>)
    requires user in t.members && Spares(ops, t.members[user].org)
    ensures var s := Run(t, ops);
            && user in s.members && s.members[user].org == t.members[user].org
            && (t.members[user].deleted ==> s.members[user] == t.members[user])
            && ((forall i :: 0 <= i < |ops| ==> !Edits(ops[i], user)) ==>
                  && s.members[user].email == t.members[user].email
                  && s.members[user].username == t.members[user].username)
  {
    if ops != [] {
      var before := ops[..|ops| - 1];
      MembersStay(t, user, before);
      MemberStep(Run(t, before), user, ops[|ops| - 1]);
      assert forall i :: 0 <= i < |before| ==> before[i] == ops[i];
    }
  }

  /** Some row of the organization, perhaps a soft-deleted one, has it as e-mail address or user name. */
  predicate AddressTaken(t: Tables, org: Id, address: string) {
    TakenByOther(t, org, address, address, None)
  }

  /** When an invitation is accepted, and what has happened when it is not. */
  lemma AcceptSucceedsIff(t: Tables, token: string, user: Id, accepted: bool)
    ensures var r := Accept(t, token, user, accepted);
            var admits := token in t.invitations && accepted && user !in t.members
                          && t.invitations[token].org in t.orgs
                          && !AddressTaken(t, t.invitations[token].org, Clean(t.invitations[token].email));
            && (r.error == None <==> admits && t.invitations[token].role in t.roles)
            && (r.error == Some(RoleGone) <==> admits && t.invitations[token].role !in t.roles)
            && (r.error != None && r.error != Some(RoleGone) ==> r.tables == t)
            && (r.error == None ==> (user, t.invitations[token].role) in r.tables.userRoles
                                    && token !in r.tables.invitations)
            && (admits ==> user in r.tables.members && !r.tables.members[user].deleted)
  {
  }

  lemma TakenIsRefused(t: Tables, user: Id, token: string, v: Id, accepted: bool)
    requires user in t.members && token in t.invitations
    requires t.invitations[token].org == t.members[user].org
    requires Clean(t.invitations[token].email) == t.members[user].email
    ensures Accept(t, token, v, accepted) == Fail(t, RegistrationRefused)
  {
  }

  /** A removed member's address can be invited again for ever, and never accepted again: the invitation's check
      skips deleted rows, the unique constraint does not. */
  lemma RemovedMembersCannotReturn(t: Tables, org: Id, user: Id, ops: seq<Op>, role: Id, token: string,
                                   v: Id, accepted: bool)
    requires Inv(t) && RemoveMember(t, org, user).error == None
    requires FreshRun(RemoveMember(t, org, user).tables, ops) && Spares(ops, org)
    ensures var s := Run(RemoveMember(t, org, user).tables, ops);
            var email := t.members[user].email;
            && (Invite(s, org, role, email, token).error == None <==> OwnRole(s, org, role))
            && (Reinvites(s, token, org, email) ==>
                  Accept(s, token, v, accepted) == Fail(s, RegistrationRefused))
  {
    var r := RemoveMember(t, org, user).tables;
    var s := Run(r, ops);
    MemberOpsKeep(t, org, user, "", false);
    RunKeeps(r, ops);
    MembersStay(r, user, ops);
    if Reinvites(s, token, org, t.members[user].email) {
      TakenIsRefused(s, user, token, v, accepted);
    }
  }

  /** An invitation of the same address to the same organization. */
  predicate Reinvites(t: Tables, token: string, org: Id, address: string) {
    token in t.invitations && t.invitations[token].org == org && Clean(t.invitations[token].email) == address
  }

  /** However often and under however many tokens an address is invited, it joins an organization once, until the member
      who joined edits it away. If the role was deleted meanwhile, the one join leaves a member without any role and the
      invitation unusable. */
  lemma AddressJoinsOnce(t: Tables, token: string, user: Id, ops: seq<Op>, token': string, v: Id, accepted: bool)
    requires Inv(t)
    requires var e := Accept(t, token, user, true).error; e == None || e == Some(RoleGone)
    requires Spares(ops, t.invitations[token].org) && forall i :: 0 <= i < |ops| ==> !Edits(ops[i], user)
    ensures var r := Accept(t, token, user, true);
            var s := Run(r.tables, ops);
            && (Reinvites(s, token', t.invitations[token].org, Clean(t.invitations[token].email)) ==>
                  Accept(s, token', v, accepted) == Fail(s, RegistrationRefused))
            && (r.error == Some(RoleGone) ==>
                  token in r.tables.invitations && forall role :: (user, role) !in r.tables.userRoles)
  {
    AcceptSucceedsIff(t, token, user, true);
    var r := Accept(t, token, user, true).tables;
    MembersStay(r, user, ops);
    var s := Run(r, ops);
    if Reinvites(s, token', t.invitations[token].org, Clean(t.invitations[token].email)) {
      TakenIsRefused(s, user, token', v, accepted);
    }
  }

  /** Exactly when it joins again: when every row that ever took it, the first joiner's included, has been edited to
      another address and another user name. */
  lemma AddressJoinsAgainIff(t: Tables, token: string, user: Id, ops: seq<Op>, token': string, v: Id)
    requires Inv(t)
    requires var e := Accept(t, token, user, true).error; e == None || e == Some(RoleGone)
    requires FreshRun(Accept(t, token, user, true).tables, ops) && Spares(ops, t.invitations[token].org)
    requires var s := Run(Accept(t, token, user, true).tables, ops);
             v !in s.members && Reinvites(s, token', t.invitations[token].org, Clean(t.invitations[token].email))
    ensures var address := Clean(t.invitations[token].email);
            var s := Run(Accept(t, token, user, true).tables, ops);
            v in Accept(s, token', v, true).tables.members <==>
            forall u :: u in s.members && s.members[u].org == t.invitations[token].org ==>
                          s.members[u].email != address && s.members[u].username != address
  {
    AcceptSucceedsIff(t, token, user, true);
    var r := Accept(t, token, user, true).tables;
    InvitationOpsKeep(t, 0, 0, "", token, user, true);
    RunKeeps(r, ops);
    MembersStay(r, user, ops);
    AcceptSucceedsIff(Run(r, ops), token', v, true);
  }

  /** One member, who was invited and accepted. */
  lemma OneJoined(email: string) returns (ops: seq<Op>, t: Tables)
    ensures t == Run(OneOrganization(), ops)
    ensures t == OneOrganization().(roles := map[1 := Role(7, "editor", false)], userRoles := {(2, 1)},
                                    members := map[2 := Member(7, Clean(email), Clean(email), false)])
  {
    var a, b, c := OpCreateRole(7, 1, "editor"), OpInvite(7, 1, email, "k"), OpAccept("k", 2, true);
    var t0 := OneOrganization();
    var t1 := t0.(roles := map[1 := Role(7, "editor", false)]);
    var t2 := t1.(invitations := map["k" := Invitation(email, 7, 1)]);
    ops := [] + [a] + [b] + [c];
    RunSnoc(t0, [], a);
    RunSnoc(t0, [] + [a], b);
    RunSnoc(t0, [] + [a] + [b], c);
    assert Perform(t0, a).tables == t1;
    assert Perform(t1, b).tables == t2;
    t := Perform(t2, c).tables;
    assert t.invitations == map[];
  }

  /** The member gives the address up. */
  lemma OneEdited(email: string, other: string, username: string) returns (ops: seq<Op>, t: Tables)
    ensures t == Run(OneOrganization(), ops)
    ensures t == OneOrganization().(roles := map[1 := Role(7, "editor", false)], userRoles := {(2, 1)},
                                    members := map[2 := Member(7, Clean(other), username, false)])
  {
    var before, t1 := OneJoined(email);
    var edit := OpUpdateProfile(2, other, username);
    ops := before + [edit];
    RunSnoc(OneOrganization(), before, edit);
    t := UpdateProfile(t1, 2, other, username).tables;
    assert t.members == map[2 := Member(7, Clean(other), username, false)];
  }

  /** And is invited again. */
  lemma OneLeft(email: string, other: string, username: string) returns (ops: seq<Op>, t: Tables)
    requires Clean(other) != email
    ensures t == Run(OneOrganization(), ops)
    ensures t == OneOrganization().(roles := map[1 := Role(7, "editor", false)], userRoles := {(2, 1)},
                                    members := map[2 := Member(7, Clean(other), username, false)],
                                    invitations := map["l" := Invitation(email, 7, 1)])
  {
    var before, t1 := OneEdited(email, other, username);
    var invite := OpInvite(7, 1, email, "l");
    ops := before + [invite];
    RunSnoc(OneOrganization(), before, invite);
    t := Invite(t1, 7, 1, email, "l").tables;
  }

  /** So an address joins twice: invite, accept, edit, invite, accept. */
  lemma EditedAddressJoinsAgain(email: string, other: string, username: string) returns (ops: seq<Op>)
    requires Clean(other) != email && Clean(other) != Clean(email) && username != Clean(email)
    ensures var s := Run(OneOrganization(), ops);
            var r := Accept(s, "l", 3, true);
            && 2 in s.members && Reinvites(s, "l", 7, Clean(email))
            && r.error == None && r.tables.members[3].email == Clean(email) && !r.tables.members[2].deleted
  {
    var t: Tables;
    ops, t := OneLeft(email, other, username);
    AcceptSucceedsIff(t, "l", 3, true);
  }

  /** Whoever accepts an invitation holds its role, nothing else, and exactly that role's permissions. */
  lemma AcceptedHoldsTheRole(t: Tables, token: string, user: Id)
    requires Inv(t) && Accept(t, token, user, true).error == None
    ensures var s := Accept(t, token, user, true).tables;
            var i := t.invitations[token];
            && s.members[user] == Member(i.org, Clean(i.email), Clean(i.email), false)
            && (forall r :: (user, r) in s.userRoles <==> r == i.role)
            && Effective(s, user) == Grants(s, i.role)
  {
    var s := Accept(t, token, user, true).tables;
    var role := t.invitations[token].role;
    assert forall r :: (user, r) !in t.userRoles;
    forall name ensures name in Effective(s, user) <==> name in Grants(s, role) {
      EffectiveIsUnion(s, user, name);
    }
  }

  /** Whatever happens between invitation and acceptance, as long as the invitation lasts: whoever accepts it becomes a
      member of the inviting organization, under the invited address, with the invited role and no other, and with
      exactly that role's permissions. */
  lemma InvitationGivesItsRole(t: Tables, org: Id, role: Id, email: string, token: string, ops: seq<Op>, user: Id)
    requires Inv(t) && Invite(t, org, role, email, token).error == None
    requires FreshRun(Invite(t, org, role, email, token).tables, ops)
    requires forall i :: 0 <= i < |ops| ==> !(ops[i].OpInvite? && ops[i].token == token)
    requires var s := Run(Invite(t, org, role, email, token).tables, ops);
             Accept(s, token, user, true).error == None
    ensures var s := Accept(Run(Invite(t, org, role, email, token).tables, ops), token, user, true).tables;
            && s.members[user] == Member(org, Clean(email), Clean(email), false)
            && (forall r :: (user, r) in s.userRoles <==> r == role)
            && Effective(s, user) == Grants(s, role)
  {
    var invited := Invite(t, org, role, email, token).tables;
    InvitationOpsKeep(t, org, role, email, token, user, true);
    RunKeeps(invited, ops);
    InvitationStays(invited, ops, token);
    AcceptedHoldsTheRole(Run(invited, ops), token, user);
  }

  lemma {:induction false} InvitationStays(t: Tables, ops: seq<Op>, token: string)
    requires token in t.invitations && forall i :: 0 <= i < |ops| ==> !(ops[i].OpInvite? && ops[i].token == token)
    ensures token in Run(t, ops).invitations ==> Run(t, ops).invitations[token] == t.invitations[token]
  {
    if ops != [] {
      InvitationStays(t, ops[..|ops| - 1], token);
      InvitationStep(Run(t, ops[..|ops| - 1]), ops[|ops| - 1], token);
    }
  }

  lemma InvitationStep(t: Tables, op: Op, token: string)
    requires !(op.OpInvite? && op.token == token)
    ensures var s := Perform(t, op).tables;
            token in s.invitations ==> token in t.invitations && s.invitations[token] == t.invitations[token]
  {
  }

  /** One organization, and nothing else. */
  function OneOrganization(): Tables {
    Tables({7}, map[], map[], {}, map[], {}, map[])
  }

  /** Create a role, invite with it, delete it. */
  lemma RoleDeletedMeanwhile(email: string) returns (ops: seq<Op>, t: Tables)
    ensures t == Run(OneOrganization(), ops)
    ensures t == OneOrganization().(invitations := map["k" := Invitation(email, 7, 1)])
  {
    var a, b, c := OpCreateRole(7, 1, "editor"), OpInvite(7, 1, email, "k"), OpDeleteRole(7, 1);
    var t0 := OneOrganization();
    var t1 := t0.(roles := map[1 := Role(7, "editor", false)]);
    var t2 := t1.(invitations := map["k" := Invitation(email, 7, 1)]);
    ops := [] + [a] + [b] + [c];
    RunSnoc(t0, [], a);
    RunSnoc(t0, [] + [a], b);
    RunSnoc(t0, [] + [a] + [b], c);
    assert Perform(t0, a).tables == t1;
    assert Perform(t1, b).tables == t2;
    t := Perform(t2, c).tables;
  }

  /** An orphaned invitation is reached, for any address: accepting it makes a member without a role, and accepting it
      again is refused. */
  lemma DeletedRoleOrphansInvitation(email: string) returns (ops: seq<Op>)
    ensures Inv(OneOrganization())
    ensures var t := Run(OneOrganization(), ops);
            var r := Accept(t, "k", 2, true);
            && r.error == Some(RoleGone) && 2 in r.tables.members && "k" in r.tables.invitations
            && Effective(r.tables, 2) == {} && Accept(r.tables, "k", 3, true) == Fail(r.tables, RegistrationRefused)
  {
    var t: Tables;
    ops, t := RoleDeletedMeanwhile(email);
    AcceptSucceedsIff(t, "k", 2, true);
    var r := Accept(t, "k", 2, true).tables;
    TakenIsRefused(r, 2, "k", 3, true);
  }

  lemma RunSnoc(t: Tables, ops: seq<Op>, op: Op)
    ensures Run(t, ops + [op]) == Perform(Run(t, ops), op).tables
  {
    assert (ops + [op])[..|ops|] == ops;
  }

  // ---------------------------------------------------------------- where roles and permissions come from

  /** The i-th operation is this user's successful acceptance of an invitation with this role. */
  ghost predicate AcceptedAt(t: Tables, ops: seq<Op>, i: nat, user: Id, role: Id) {
    && i < |ops| && ops[i].OpAccept? && ops[i].user == user
    && var s := Run(t, ops[..i]);
       && Perform(s, ops[i]).error == None
       && ops[i].token in s.invitations && s.invitations[ops[i].token].role == role
  }

  /** In every run, a role that a user holds was held at the start or came with an invitation the user accepted. */
  lemma {:induction false} RolesComeFromInvitations(t: Tables, ops: seq<Op>, user: Id, role: Id)
    requires (user, role) in Run(t, ops).userRoles && (user, role) !in t.userRoles
    ensures exists i: nat :: AcceptedAt(t, ops, i, user, role)
  {
    if ops != [] {
      var n := |ops| - 1;
      var before := ops[..n];
      if (user, role) in Run(t, before).userRoles {
        RolesComeFromInvitations(t, before, user, role);
        var i: nat :| AcceptedAt(t, before, i, user, role);
        assert before[..i] == ops[..i];
        assert AcceptedAt(t, ops, i, user, role);
      } else {
        NewLinkIsAccepted(Run(t, before), ops[n], user, role);
        assert AcceptedAt(t, ops, n, user, role);
      }
    }
  }

  lemma NewLinkIsAccepted(t: Tables, op: Op, user: Id, role: Id)
    requires (user, role) in Perform(t, op).tables.userRoles && (user, role) !in t.userRoles
    ensures op.OpAccept? && op.user == user && Perform(t, op).error == None
    ensures op.token in t.invitations && t.invitations[op.token].role == role
  {
  }

  /** In every run, a permission that a role grants was granted at the start or is on a list assigned to it. */
  lemma {:induction false} GrantsComeFromAssignments(t: Tables, ops: seq<Op>, role: Id, p: Id)
    requires (role, p) in Run(t, ops).rolePermissions && (role, p) !in t.rolePermissions
    ensures exists i :: 0 <= i < |ops| && ops[i].OpAssign? && ops[i].id == role && p in ops[i].ids
  {
    if ops != [] {
      var n := |ops| - 1;
      if (role, p) in Run(t, ops[..n]).rolePermissions {
        GrantsComeFromAssignments(t, ops[..n], role, p);
        var i :| 0 <= i < n && ops[..n][i].OpAssign? && ops[..n][i].id == role && p in ops[..n][i].ids;
        assert ops[i] == ops[..n][i];
      } else {
        NewGrantIsAssigned(Run(t, ops[..n]), ops[n], role, p);
      }
    }
  }

  lemma NewGrantIsAssigned(t: Tables, op: Op, role: Id, p: Id)
    requires (role, p) in Perform(t, op).tables.rolePermissions && (role, p) !in t.rolePermissions
    ensures op.OpAssign? && op.id == role && p in op.ids
  {
  }

  /** Whoever holds a role that was created has since accepted an invitation with it, and whatever it grants has since
      been assigned to it, even if its id was in use before. */
  lemma CreatedRoleIsEarned(t: Tables, org: Id, role: Id, name: string, ops: seq<Op>, user: Id, p: Id)
    requires Inv(t) && CreateRole(t, org, role, name).error == None
    ensures var s := CreateRole(t, org, role, name).tables;
            && ((user, role) in Run(s, ops).userRoles ==> exists i: nat :: AcceptedAt(s, ops, i, user, role))
            && ((role, p) in Run(s, ops).rolePermissions ==>
                  exists i :: 0 <= i < |ops| && ops[i].OpAssign? && ops[i].id == role && p in ops[i].ids)
  {
    var s := CreateRole(t, org, role, name).tables;
    CreatedRoleGrantsNothing(t, org, role, name);
    if (user, role) in Run(s, ops).userRoles {
      RolesComeFromInvitations(s, ops, user, role);
    }
    if (role, p) in Run(s, ops).rolePermissions {
      GrantsComeFromAssignments(s, ops, role, p);
    }
  }
}
