/** What each tenant operation answers and changes, over whole runs: who can be invited, how a role is named, and what
    reaches another organization. */
module RbacLaws {
  import opened Domain
  import opened Rbac
  import opened RbacResults

  // ---------------------------------------------------------------- inviting a member

  /** The member is removed in the course of the run. */
  predicate Removes(ops: seq<Op>, org: Id, user: Id) {
    exists i :: 0 <= i < |ops| && ops[i] == OpRemoveMember(org, user)
  }

  predicate NeverEdits(ops: seq<Op>, user: Id) {
    forall i :: 0 <= i < |ops| ==> !Edits(ops[i], user)
  }

  lemma DeletedStep(t: Tables, user: Id, op: Op)
    requires user in t.members && op != OpDeleteOrganization(t.members[user].org)
    ensures var s := Perform(t, op).tables;
            user in s.members
            && (s.members[user].deleted <==> t.members[user].deleted || op == OpRemoveMember(t.members[user].org, user))
  {
  }

  /** A member is soft-deleted by being removed from the own organization and by nothing else, and for good. */
  lemma {:induction false} DeletedIffRemoved(t: Tables, user: Id, ops: seq<Op>)
    requires user in t.members && Spares(ops, t.members[user].org)
    ensures user in Run(t, ops).members
    ensures Run(t, ops).members[user].deleted <==> t.members[user].deleted || Removes(ops, t.members[user].org, user)
  {
    if ops != [] {
      var n := |ops| - 1;
      DeletedIffRemoved(t, user, ops[..n]);
      MembersStay(t, user, ops[..n]);
      DeletedStep(Run(t, ops[..n]), user, ops[n]);
      assert forall i :: 0 <= i < n ==> ops[..n][i] == ops[i];
    }
  }

  /** When the address has one holder, whether it can be invited depends on that row alone. */
  lemma InviteByHolder(t: Tables, org: Id, role: Id, email: string, token: string, user: Id)
    requires EmailsUnique(t) && user in t.members && t.members[user].org == org && t.members[user].email == email
    ensures var r := Invite(t, org, role, email, token);
            && (r.error == None <==> OwnRole(t, org, role) && t.members[user].deleted)
            && (r.error == Some(AlreadyMember) <==> OwnRole(t, org, role) && !t.members[user].deleted)
            && (r.error == Some(RoleNotFound) <==> !OwnRole(t, org, role))
            && (r.error != None ==> r.tables == t)
  {
  }

  /** Whoever joined under an address, with a role or without, cannot be invited under it, whatever happens, until being
      removed, and after that can, as long as the own profile is not edited. */
  lemma JoinedIsInvitedAgainIff(t: Tables, token: string, user: Id, ops: seq<Op>, role: Id, token': string)
    requires Inv(t)
    requires var e := Accept(t, token, user, true).error; e == None || e == Some(RoleGone)
    requires FreshRun(Accept(t, token, user, true).tables, ops)
    requires Spares(ops, t.invitations[token].org) && NeverEdits(ops, user)
    requires Clean(t.invitations[token].email) == t.invitations[token].email
    ensures var org, email := t.invitations[token].org, t.invitations[token].email;
            var s := Run(Accept(t, token, user, true).tables, ops);
            var r := Invite(s, org, role, email, token');
            && (r.error == Some(AlreadyMember) <==> OwnRole(s, org, role) && !Removes(ops, org, user))
            && (r.error == None <==> OwnRole(s, org, role) && Removes(ops, org, user))
            && (r.error != None ==> r.tables == s)
  {
    var org, email := t.invitations[token].org, t.invitations[token].email;
    var joined := Accept(t, token, user, true).tables;
    AcceptSucceedsIff(t, token, user, true);
    InvitationOpsKeep(t, 0, 0, "", token, user, true);
    RunKeeps(joined, ops);
    MembersStay(joined, user, ops);
    DeletedIffRemoved(joined, user, ops);
    InviteByHolder(Run(joined, ops), org, role, email, token', user);
  }

  /** The holder who edits the address away frees it at once. */
  lemma EditFreesTheAddress(t: Tables, user: Id, other: string, username: string, role: Id, token: string)
    requires Inv(t) && UpdateProfile(t, user, other, username).error == None
    requires Clean(other) != t.members[user].email
    ensures var s := UpdateProfile(t, user, other, username).tables;
            var org, email := t.members[user].org, t.members[user].email;
            && (Invite(s, org, role, email, token).error == None <==> OwnRole(s, org, role))
            && Invite(s, org, role, Clean(other), token).error
               == if OwnRole(s, org, role) then Some(AlreadyMember) else Some(RoleNotFound)
  {
    var s := UpdateProfile(t, user, other, username).tables;
    ProfileKeeps(t, user, other, username);
    InviteByHolder(s, t.members[user].org, role, Clean(other), token, user);
  }

  /** The check compares the address as it was typed with the stored form: another spelling of a member's address is
      invited, and cannot be accepted. */
  lemma OtherSpellingIsInvited(t: Tables, org: Id, role: Id, email: string, token: string, user: Id, v: Id,
                               accepted: bool)
    requires user in t.members && t.members[user].org == org && t.members[user].email == Clean(email)
    requires OwnRole(t, org, role) && forall u :: u in t.members ==> t.members[u].email != email
    ensures var r := Invite(t, org, role, email, token);
            r.error == None && Accept(r.tables, token, v, accepted) == Fail(r.tables, RegistrationRefused)
  {
    TakenIsRefused(Invite(t, org, role, email, token).tables, user, token, v, accepted);
  }

  // ---------------------------------------------------------------- names of roles

  /** The operation names the role: at its creation, or by an update that carries a name. */
  predicate Names(op: Op, role: Id, name: string) {
    || (op.OpCreateRole? && op.id == role && op.name == name)
    || (op.OpUpdateRole? && op.id == role && op.newName == Some(name))
  }

  /** The operation can end the name a role has: another update, or the role's deletion. */
  predicate Unnames(op: Op, role: Id) {
    || (op.OpUpdateRole? && op.id == role && op.newName.Some?)
    || (op.OpDeleteRole? && op.id == role)
  }

  predicate KeepsName(ops: seq<Op>, role: Id) {
    forall i :: 0 <= i < |ops| ==> !Unnames(ops[i], role)
  }

  lemma NamedStep(t: Tables, op: Op, role: Id, name: string)
    requires Names(op, role, name) && Perform(t, op).error == None
    ensures var s := Perform(t, op).tables;
            role in s.roles && s.roles[role].name == name && !s.roles[role].system && s.roles[role].org == op.org
  {
  }

  lemma RoleStep(t: Tables, op: Op, role: Id)
    requires role in t.roles && !Unnames(op, role) && op != OpDeleteOrganization(t.roles[role].org)
    ensures var s := Perform(t, op).tables; role in s.roles && s.roles[role] == t.roles[role]
  {
  }

  lemma {:induction false} RolesStay(t: Tables, role: Id, ops: seq<Op>)
    requires role in t.roles && KeepsName(ops, role) && Spares(ops, t.roles[role].org)
    ensures role in Run(t, ops).roles && Run(t, ops).roles[role] == t.roles[role]
  {
    if ops != [] {
      var n := |ops| - 1;
      assert forall i :: 0 <= i < n ==> ops[..n][i] == ops[i];
      RolesStay(t, role, ops[..n]);
      RoleStep(Run(t, ops[..n]), ops[n], role);
    }
  }

  /** A role carries the name its latest creation or renaming gave it, until it is renamed or deleted. */
  lemma LatestNameHolds(t: Tables, op: Op, role: Id, name: string, ops: seq<Op>)
    requires Names(op, role, name) && Perform(t, op).error == None
    requires KeepsName(ops, role) && Spares(ops, op.org)
    ensures var s := Run(Perform(t, op).tables, ops);
            role in s.roles && s.roles[role] == Role(op.org, name, false)
  {
    NamedStep(t, op, role, name);
    RolesStay(Perform(t, op).tables, role, ops);
  }

  /** Another role of the organization has the name. */
  predicate NameInUse(t: Tables, org: Id, role: Id, name: string) {
    exists r :: r in t.roles && r != role && t.roles[r] in {Role(org, name, true), Role(org, name, false)}
  }

  /** When a role can be created, renamed and deleted. */
  lemma RoleOperationsSucceedIff(t: Tables, org: Id, role: Id, name: string)
    ensures CreateRole(t, org, role, name).error == None <==>
            org in t.orgs && role !in t.roles && !NameInUse(t, org, role, name)
    ensures UpdateRole(t, org, role, Some(name)).error == None <==>
            role in t.roles && t.roles[role].org == org && !t.roles[role].system && !NameInUse(t, org, role, name)
    ensures UpdateRole(t, org, role, None).error == None <==>
            role in t.roles && t.roles[role].org == org && !t.roles[role].system
    ensures DeleteRole(t, org, role).error == None <==>
            role in t.roles && t.roles[role].org == org && !t.roles[role].system
  {
    assert forall r :: r in t.roles ==>
      (t.roles[r] in {Role(org, name, true), Role(org, name, false)}
       <==> t.roles[r].org == org && t.roles[r].name == name);
  }

  // ---------------------------------------------------------------- nothing is lost

  /** The operation may take the role from its holders and its permissions from it. */
  predicate Unbinds(op: Op, role: Id) {
    (op.OpAssign? && op.id == role) || (op.OpDeleteRole? && op.id == role) || op.OpDeleteOrganization?
  }

  /** The operation may consume the invitation: its acceptance, its expiry, or another invitation under its token. */
  predicate Consumes(op: Op, token: string) {
    (op.OpAccept? || op.OpExpire? || op.OpInvite?) && op.token == token
  }

  lemma LinkStep(t: Tables, op: Op, user: Id, role: Id)
    requires (user, role) in t.userRoles && !op.OpDeleteOrganization? && !(op.OpDeleteRole? && op.id == role)
    ensures (user, role) in Perform(t, op).tables.userRoles
  {
  }

  lemma GrantStep(t: Tables, op: Op, role: Id, p: Id)
    requires !Unbinds(op, role) && (role, p) in t.rolePermissions
    ensures (role, p) in Perform(t, op).tables.rolePermissions
  {
  }

  lemma TokenStep(t: Tables, op: Op, token: string)
    requires !Consumes(op, token) && token in t.invitations
    ensures var s := Perform(t, op).tables;
            token in s.invitations && s.invitations[token] == t.invitations[token]
  {
  }

  /** No operation of the run deletes the role or an organization. */
  predicate KeepsRole(ops: seq<Op>, role: Id) {
    forall i :: 0 <= i < |ops| ==> !ops[i].OpDeleteOrganization? && !(ops[i].OpDeleteRole? && ops[i].id == role)
  }

  predicate KeepsGrants(ops: seq<Op>, role: Id) {
    forall i :: 0 <= i < |ops| ==> !Unbinds(ops[i], role)
  }

  predicate KeepsToken(ops: seq<Op>, token: string) {
    forall i :: 0 <= i < |ops| ==> !Consumes(ops[i], token)
  }

  /** A member keeps a role until the role or an organization is deleted; removal does not take it. */
  lemma {:induction false} HeldRolesStay(t: Tables, ops: seq<Op>, user: Id, role: Id)
    requires (user, role) in t.userRoles && KeepsRole(ops, role)
    ensures (user, role) in Run(t, ops).userRoles
  {
    if ops != [] {
      var n := |ops| - 1;
      assert forall i :: 0 <= i < n ==> ops[..n][i] == ops[i];
      HeldRolesStay(t, ops[..n], user, role);
      LinkStep(Run(t, ops[..n]), ops[n], user, role);
    }
  }

  /** A role keeps a permission until its permissions are assigned anew or it or an organization is deleted. */
  lemma {:induction false} GrantsStay(t: Tables, ops: seq<Op>, role: Id, p: Id)
    requires (role, p) in t.rolePermissions && KeepsGrants(ops, role)
    ensures (role, p) in Run(t, ops).rolePermissions
  {
    if ops != [] {
      var n := |ops| - 1;
      assert forall i :: 0 <= i < n ==> ops[..n][i] == ops[i];
      GrantsStay(t, ops[..n], role, p);
      GrantStep(Run(t, ops[..n]), ops[n], role, p);
    }
  }

  /** An invitation lasts, with what it says, until it is accepted, expires or is written over. */
  lemma {:induction false} InvitationsLast(t: Tables, ops: seq<Op>, token: string)
    requires token in t.invitations && KeepsToken(ops, token)
    ensures token in Run(t, ops).invitations && Run(t, ops).invitations[token] == t.invitations[token]
  {
    if ops != [] {
      var n := |ops| - 1;
      assert forall i :: 0 <= i < n ==> ops[..n][i] == ops[i];
      InvitationsLast(t, ops[..n], token);
      TokenStep(Run(t, ops[..n]), ops[n], token);
    }
  }

  predicate Reissues(ops: seq<Op>, token: string) {
    exists i :: 0 <= i < |ops| && ops[i].OpInvite? && ops[i].token == token
  }

  lemma {:induction false} GoneStaysGone(t: Tables, ops: seq<Op>, token: string)
    requires token !in t.invitations && !Reissues(ops, token)
    ensures token !in Run(t, ops).invitations
  {
    if ops != [] {
      var n := |ops| - 1;
      assert forall i :: 0 <= i < n ==> ops[..n][i] == ops[i];
      GoneStaysGone(t, ops[..n], token);
      InvitationStep(Run(t, ops[..n]), ops[n], token);
    }
  }

  /** An invitation that was accepted with its role, or has expired, is accepted nevermore. */
  lemma ConsumedIsGone(t: Tables, op: Op, ops: seq<Op>, token: string, user: Id, accepted: bool)
    requires (op.OpExpire? || (op.OpAccept? && Perform(t, op).error == None)) && op.token == token
    requires !Reissues(ops, token)
    ensures var s := Run(Perform(t, op).tables, ops);
            Accept(s, token, user, accepted) == Fail(s, InvitationInvalid)
  {
    GoneStaysGone(Perform(t, op).tables, ops, token);
  }

  // ---------------------------------------------------------------- refusals

  /** A refused operation changes nothing, but for the acceptance whose role has gone: that leaves the member. */
  lemma RefusalsChangeNothing(t: Tables, op: Op)
    ensures var r := Perform(t, op);
            r.error != None && r.tables != t ==>
              op.OpAccept? && r.error == Some(RoleGone) && r.tables == t.(members := r.tables.members)
  {
  }

  /** Which error a role operation reports: a foreign role looks like a missing one, a system role is refused before
      anything else about the request is looked at. */
  lemma RoleErrors(t: Tables, org: Id, role: Id, name: Option<string>, ids: seq<Id>)
    ensures var errors := {UpdateRole(t, org, role, name).error, DeleteRole(t, org, role).error,
                           AssignPermissions(t, org, role, ids).error};
            if role !in t.roles || t.roles[role].org != org then errors == {Some(RoleNotFound)}
            else if t.roles[role].system then errors == {Some(SystemRole)}
            else errors <= {None, Some(NameTaken), Some(InvalidPermissions)} && None in errors
  {
  }

  /** From invitation to permission: an invitation that is not consumed meanwhile can be accepted as long as its role
      and organization are there and nobody took the address, and gives the role it was made for. */
  lemma InvitedCanJoin(t: Tables, org: Id, role: Id, email: string, token: string, ops: seq<Op>, user: Id)
    requires Inv(t) && Invite(t, org, role, email, token).error == None
    requires FreshRun(Invite(t, org, role, email, token).tables, ops) && KeepsToken(ops, token)
    ensures var s := Run(Invite(t, org, role, email, token).tables, ops);
            var r := Accept(s, token, user, true);
            && (r.error == None <==>
                  role in s.roles && org in s.orgs && user !in s.members && !AddressTaken(s, org, Clean(email)))
            && (r.error == None ==> (user, role) in r.tables.userRoles
                                    && r.tables.members[user] == Member(org, Clean(email), Clean(email), false))
  {
    var invited := Invite(t, org, role, email, token).tables;
    InvitationsLast(invited, ops, token);
    var s := Run(invited, ops);
    AcceptSucceedsIff(s, token, user, true);
  }

  // ---------------------------------------------------------------- isolation of organizations

  /** What the tables hold of one organization. */
  datatype View = View(known: bool, catalogue: map<Id, string>, roles: map<Id, Role>, members: map<Id, Member>,
                       rolePermissions: set<(Id, Id)>, userRoles: set<(Id, Id)>)

  function ViewOf(t: Tables, org: Id): View {
    View(org in t.orgs, t.catalogue,
         map r | r in t.roles && t.roles[r].org == org :: t.roles[r],
         map u | u in t.members && t.members[u].org == org :: t.members[u],
         set rp | rp in t.rolePermissions && rp.0 in t.roles && t.roles[rp.0].org == org,
         set ur | ur in t.userRoles && ur.0 in t.members && t.members[ur.0].org == org)
  }

  /** The organization the operation works for: named in the request, or found behind its token or its user. */
  function WorksFor(t: Tables, op: Op): Option<Id> {
    match op
    case OpCreateRole(org, _, _) => Some(org)
    case OpUpdateRole(org, _, _) => Some(org)
    case OpDeleteRole(org, _) => Some(org)
    case OpAssign(org, _, _) => Some(org)
    case OpInvite(org, _, _, _) => Some(org)
    case OpRegister(org, _, _, _) => Some(org)
    case OpAccept(token, _, _) => if token in t.invitations then Some(t.invitations[token].org) else None
    case OpExpire(_) => None
    case OpRemoveMember(org, _) => Some(org)
    case OpUpdateProfile(user, _, _) => if user in t.members then Some(t.members[user].org) else None
    case OpCreateOrganization(org) => Some(org)
    case OpDeleteOrganization(org) => Some(org)
  }

  lemma CreateRoleIsolated(t: Tables, org: Id, role: Id, name: string, o: Id)
    requires Inv(t) && org != o
    ensures ViewOf(CreateRole(t, org, role, name).tables, o) == ViewOf(t, o)
  {
  }

  lemma UpdateRoleIsolated(t: Tables, org: Id, role: Id, name: Option<string>, o: Id)
    requires Inv(t) && org != o
    ensures ViewOf(UpdateRole(t, org, role, name).tables, o) == ViewOf(t, o)
  {
  }

  lemma DeleteRoleIsolated(t: Tables, org: Id, role: Id, o: Id)
    requires Inv(t) && org != o
    ensures ViewOf(DeleteRole(t, org, role).tables, o) == ViewOf(t, o)
  {
  }

  lemma AssignIsolated(t: Tables, org: Id, role: Id, ids: seq<Id>, o: Id)
    requires Inv(t) && org != o
    ensures ViewOf(AssignPermissions(t, org, role, ids).tables, o) == ViewOf(t, o)
  {
  }

  lemma RegisterIsolated(t: Tables, org: Id, user: Id, email: string, accepted: bool, o: Id)
    requires Inv(t) && org != o
    ensures ViewOf(Register(t, org, user, email, accepted).tables, o) == ViewOf(t, o)
  {
  }

  lemma AcceptIsolated(t: Tables, token: string, user: Id, accepted: bool, o: Id)
    requires Inv(t) && (token in t.invitations ==> t.invitations[token].org != o)
    ensures ViewOf(Accept(t, token, user, accepted).tables, o) == ViewOf(t, o)
  {
    if token in t.invitations {
      var i := t.invitations[token];
      RegisterIsolated(t, i.org, user, i.email, accepted, o);
    }
  }

  lemma RemoveMemberIsolated(t: Tables, org: Id, user: Id, o: Id)
    requires org != o
    ensures ViewOf(RemoveMember(t, org, user).tables, o) == ViewOf(t, o)
  {
  }

  lemma UpdateProfileIsolated(t: Tables, user: Id, email: string, username: string, o: Id)
    requires user in t.members ==> t.members[user].org != o
    ensures ViewOf(UpdateProfile(t, user, email, username).tables, o) == ViewOf(t, o)
  {
  }

  lemma DeletedRowsElsewhere(t: Tables, org: Id, o: Id)
    requires org in t.orgs && org != o && PermissionsExist(t)
    ensures var v, w := ViewOf(DeleteOrganization(t, org).tables, o), ViewOf(t, o);
            v.roles == w.roles && v.members == w.members && v.rolePermissions == w.rolePermissions
  {
  }

  lemma DeletedLinksElsewhere(t: Tables, org: Id, o: Id)
    requires org in t.orgs && org != o && LinksStayInside(t)
    ensures ViewOf(DeleteOrganization(t, org).tables, o).userRoles == ViewOf(t, o).userRoles
  {
  }

  lemma DeleteOrganizationIsolated(t: Tables, org: Id, o: Id)
    requires Inv(t) && org != o
    ensures ViewOf(DeleteOrganization(t, org).tables, o) == ViewOf(t, o)
  {
    if org in t.orgs {
      DeletedRowsElsewhere(t, org, o);
      DeletedLinksElsewhere(t, org, o);
    }
  }

  lemma StepIsolated(t: Tables, op: Op, o: Id)
    requires Inv(t) && WorksFor(t, op) != Some(o)
    ensures ViewOf(Perform(t, op).tables, o) == ViewOf(t, o)
  {
    match op
    case OpCreateRole(org, role, name) => CreateRoleIsolated(t, org, role, name, o);
    case OpUpdateRole(org, role, name) => UpdateRoleIsolated(t, org, role, name, o);
    case OpDeleteRole(org, role) => DeleteRoleIsolated(t, org, role, o);
    case OpAssign(org, role, ids) => AssignIsolated(t, org, role, ids, o);
    case OpInvite(_, _, _, _) =>
    case OpRegister(org, user, email, accepted) => RegisterIsolated(t, org, user, email, accepted, o);
    case OpAccept(token, user, accepted) => AcceptIsolated(t, token, user, accepted, o);
    case OpExpire(_) =>
    case OpRemoveMember(org, user) => RemoveMemberIsolated(t, org, user, o);
    case OpUpdateProfile(user, email, username) => UpdateProfileIsolated(t, user, email, username, o);
    case OpCreateOrganization(org) =>
    case OpDeleteOrganization(org) => DeleteOrganizationIsolated(t, org, o);
  }

  /** No operation of the run works for the organization. */
  predicate WorksElsewhere(t: Tables, ops: seq<Op>, o: Id) {
    ops != [] ==>
      WorksElsewhere(t, ops[..|ops| - 1], o) && WorksFor(Run(t, ops[..|ops| - 1]), ops[|ops| - 1]) != Some(o)
  }

  lemma {:induction false} ViewStays(t: Tables, ops: seq<Op>, o: Id)
    requires Inv(t) && FreshRun(t, ops) && WorksElsewhere(t, ops, o)
    ensures ViewOf(Run(t, ops), o) == ViewOf(t, o)
  {
    if ops != [] {
      var before := ops[..|ops| - 1];
      ViewStays(t, before, o);
      RunKeeps(t, before);
      StepIsolated(Run(t, before), ops[|ops| - 1], o);
    }
  }

  /** The links of a member are in the view, and so are the bindings of the roles it knows. */
  lemma LinksInView(t: Tables, s: Tables, o: Id, user: Id, r: Id)
    requires LinksStayInside(t) && ViewOf(t, o) == ViewOf(s, o)
    requires user in t.members && t.members[user].org == o && (user, r) in t.userRoles
    ensures (user, r) in s.userRoles && r in t.roles && t.roles[r].org == o
  {
    assert (user, r) in ViewOf(t, o).userRoles;
    assert (user, r) in ViewOf(s, o).userRoles;
  }

  lemma GrantsInView(t: Tables, s: Tables, o: Id, r: Id, name: string)
    requires ViewOf(t, o) == ViewOf(s, o) && r in t.roles && t.roles[r].org == o && name in Grants(t, r)
    ensures name in Grants(s, r)
  {
    var p :| p in PermissionsOf(t, r) && p in t.catalogue && name == t.catalogue[p];
    assert (r, p) in ViewOf(t, o).rolePermissions;
    assert (r, p) in ViewOf(s, o).rolePermissions;
    assert p in PermissionsOf(s, r) && ViewOf(t, o).catalogue == ViewOf(s, o).catalogue;
  }

  lemma ViewDecides(t: Tables, s: Tables, o: Id, user: Id, name: string)
    requires LinksStayInside(t) && ViewOf(t, o) == ViewOf(s, o)
    requires user in t.members && t.members[user].org == o && name in Effective(t, user)
    ensures name in Effective(s, user)
  {
    EffectiveIsUnion(t, user, name);
    EffectiveIsUnion(s, user, name);
    var r :| (user, r) in t.userRoles && name in Grants(t, r);
    LinksInView(t, s, o, user, r);
    GrantsInView(t, s, o, r, name);
  }

  /** Whatever the others do, an organization's roles, members, bindings and links stay as they are as long as no
      operation works for it; so do the permissions of every one of its members. */
  lemma OrganizationsAreIsolated(t: Tables, ops: seq<Op>, o: Id, user: Id)
    requires Inv(t) && FreshRun(t, ops) && WorksElsewhere(t, ops, o)
    ensures ViewOf(Run(t, ops), o) == ViewOf(t, o)
    ensures user in t.members && t.members[user].org == o ==> Effective(Run(t, ops), user) == Effective(t, user)
  {
    var s := Run(t, ops);
    ViewStays(t, ops, o);
    RunKeeps(t, ops);
    if user in t.members && t.members[user].org == o {
      assert user in ViewOf(t, o).members && user in ViewOf(s, o).members;
      forall name ensures name in Effective(s, user) <==> name in Effective(t, user) {
        if name in Effective(t, user) {
          ViewDecides(t, s, o, user, name);
        }
        if name in Effective(s, user) {
          ViewDecides(s, t, o, user, name);
        }
      }
    }
  }

  /** A new organization is known and empty, and an old one keeps everything. */
  lemma CreatedOrganizationIsEmpty(t: Tables, org: Id)
    requires OwnersExist(t) && LinksStayInside(t) && PermissionsExist(t)
    ensures var s := CreateOrganization(t, org).tables;
            ViewOf(s, org) == ViewOf(t, org).(known := true)
            && (org !in t.orgs ==> ViewOf(s, org) == View(true, t.catalogue, map[], map[], {}, {}))
  {
  }

  /** Deleting an organization leaves nothing of it. */
  lemma DeletedOrganizationIsGone(t: Tables, org: Id)
    requires org in t.orgs
    ensures DeleteOrganization(t, org).error == None
    ensures ViewOf(DeleteOrganization(t, org).tables, org) == View(false, t.catalogue, map[], map[], {}, {})
  {
  }

  // ---------------------------------------------------------------- addresses

  lemma LoweredSpace(c: char)
    ensures |Slug.GoLower(c)| == 1
    ensures Slug.GoSpace(Slug.GoLower(c)[0]) <==> Slug.GoSpace(c)
    ensures Slug.GoLower(Slug.GoLower(c)[0]) == Slug.GoLower(c)
  {
  }

  lemma {:induction false} LoweredLength(s: string)
    ensures |Slug.Lowered(Slug.GoLower, s)| == |s|
    ensures forall i :: 0 <= i < |s| ==> Slug.Lowered(Slug.GoLower, s)[i] == Slug.GoLower(s[i])[0]
  {
    if s != [] {
      LoweredSpace(s[0]);
      LoweredLength(s[1..]);
    }
  }

  lemma {:induction false} LoweredTwice(s: string)
    ensures Slug.Lowered(Slug.GoLower, Slug.Lowered(Slug.GoLower, s)) == Slug.Lowered(Slug.GoLower, s)
  {
    if s != [] {
      LoweredSpace(s[0]);
      LoweredTwice(s[1..]);
    }
  }

  lemma LoweredFront(s: string)
    requires s != []
    ensures var t := Slug.Lowered(Slug.GoLower, s);
            |t| == |s| && t[..|t| - 1] == Slug.Lowered(Slug.GoLower, s[..|s| - 1])
            && t[1..] == Slug.Lowered(Slug.GoLower, s[1..])
            && (Slug.GoSpace(t[0]) <==> Slug.GoSpace(s[0]))
            && (Slug.GoSpace(t[|t| - 1]) <==> Slug.GoSpace(s[|s| - 1]))
  {
    LoweredLength(s);
    LoweredLength(s[..|s| - 1]);
    LoweredSpace(s[0]);
    LoweredSpace(s[|s| - 1]);
  }

  lemma {:induction false} TrimmedLowered(s: string)
    ensures Slug.Trimmed(Slug.GoSpace, Slug.Lowered(Slug.GoLower, s))
            == Slug.Lowered(Slug.GoLower, Slug.Trimmed(Slug.GoSpace, s))
    decreases |s|
  {
    if s != [] {
      LoweredFront(s);
      if Slug.GoSpace(s[0]) {
        TrimmedLowered(s[1..]);
      } else if Slug.GoSpace(s[|s| - 1]) {
        TrimmedLowered(s[..|s| - 1]);
      }
    }
  }

  lemma {:induction false} TrimmedTwice(s: string)
    ensures Slug.Trimmed(Slug.GoSpace, Slug.Trimmed(Slug.GoSpace, s)) == Slug.Trimmed(Slug.GoSpace, s)
    decreases |s|
  {
    if s != [] {
      if Slug.GoSpace(s[0]) {
        TrimmedTwice(s[1..]);
      } else if Slug.GoSpace(s[|s| - 1]) {
        TrimmedTwice(s[..|s| - 1]);
      }
    }
  }

  /** Storing an address that is stored already, or a lower-case spelling of it, changes nothing. */
  lemma CleanIsStable(email: string)
    ensures Clean(Clean(email)) == Clean(email) == Clean(Slug.Lowered(Slug.GoLower, email))
  {
    var trimmed := Slug.Trimmed(Slug.GoSpace, email);
    TrimmedLowered(email);
    LoweredTwice(trimmed);
    TrimmedLowered(trimmed);
    TrimmedTwice(email);
  }

  /** Every stored address is in its stored form. */
  ghost predicate AddressesClean(t: Tables) {
    forall u :: u in t.members ==> Clean(t.members[u].email) == t.members[u].email
  }

  /** A stored address was there before or is the stored form of what the operation was given. */
  lemma AddressFrom(t: Tables, op: Op, u: Id) returns (given: string)
    requires u in Perform(t, op).tables.members
    ensures var s := Perform(t, op).tables;
            || (u in t.members && s.members[u].email == t.members[u].email)
            || s.members[u].email == Clean(given)
  {
    given := match op
      case OpRegister(_, _, email, _) => email
      case OpUpdateProfile(_, email, _) => email
      case OpAccept(token, _, _) => if token in t.invitations then t.invitations[token].email else ""
      case _ => "";
  }

  lemma AddressStep(t: Tables, op: Op)
    requires AddressesClean(t)
    ensures AddressesClean(Perform(t, op).tables)
  {
    var s := Perform(t, op).tables;
    forall u | u in s.members ensures Clean(s.members[u].email) == s.members[u].email {
      var given := AddressFrom(t, op, u);
      CleanIsStable(given);
    }
  }

  lemma {:induction false} AddressesStayClean(t: Tables, ops: seq<Op>)
    requires AddressesClean(t)
    ensures AddressesClean(Run(t, ops))
  {
    if ops != [] {
      AddressesStayClean(t, ops[..|ops| - 1]);
      AddressStep(Run(t, ops[..|ops| - 1]), ops[|ops| - 1]);
    }
  }

  /** Another row of the organization, deleted or not, has the address or the user name. */
  predicate Held(t: Tables, user: Id, email: string, username: string) {
    exists u :: u in t.members && u != user && user in t.members && t.members[u].org == t.members[user].org
                && (t.members[u].email == email || t.members[u].username == username)
  }

  /** In every run, a profile edit goes through exactly when the member is there and no other row holds the stored form
      of the new address or the new user name: the handler's own lookups only choose which error is reported. */
  lemma ProfileEditSucceedsIff(t: Tables, ops: seq<Op>, user: Id, email: string, username: string)
    requires AddressesClean(t)
    ensures var s := Run(t, ops);
            var r := UpdateProfile(s, user, email, username);
            && (r.error == None <==>
                  user in s.members && !s.members[user].deleted && !Held(s, user, Clean(email), username))
            && (r.error == None ==>
                  var stored := Member(s.members[user].org, Clean(email), username, false);
                  r.tables == s.(members := s.members[user := stored]))
            && (r.error != None ==> r.tables == s)
  {
    var s := Run(t, ops);
    AddressesStayClean(t, ops);
    CleanIsStable(email);
    if user in s.members {
      var lowered := Slug.Lowered(Slug.GoLower, email);
      if ActiveOther(s, s.members[user].org, user, (o: Member) => o.email == lowered) {
        var u :| u in s.members && u != user && s.members[u].org == s.members[user].org
                 && s.members[u].email == lowered;
        assert Clean(s.members[u].email) == Clean(email);
      }
    }
  }

  /** Removing a member flags the row and changes nothing else. */
  lemma RemovedIsFlagged(t: Tables, org: Id, user: Id)
    ensures var r := RemoveMember(t, org, user);
            && (r.error == None <==>
                  user in t.members && t.members[user].org == org && !t.members[user].deleted)
            && (r.error == None ==>
                  var flagged := Member(org, t.members[user].email, t.members[user].username, true);
                  r.tables == t.(members := t.members[user := flagged]))
            && (r.error != None ==> r.tables == t)
  {
  }
}
