/** Roles, permissions, members and invitations of the tenants: what each operation of the two services does to the
    tables, and what every run of them keeps. */
module Rbac {
  import opened Domain
  import opened Slug

  /** A row of auth.roles. */
  datatype Role = Role(org: Id, name: string, system: bool)

  /** A row of auth.users, as far as membership goes. */
  datatype Member = Member(org: Id, email: string, username: string, deleted: bool)

  /** The payload stored under an invitation token. */
  datatype Invitation = Invitation(email: string, org: Id, role: Id)

  /** The junction tables are sets of key pairs: (user, role) and (role, permission). */
  datatype Tables = Tables(
    orgs: set<Id>,
    catalogue: map<Id, string>,
    roles: map<Id, Role>,
    rolePermissions: set<(Id, Id)>,
    members: map<Id, Member>,
    userRoles: set<(Id, Id)>,
    invitations: map<string, Invitation>)

  datatype Error =
    | NoSuchOrganization
    | RoleNotFound
    | SystemRole
    | NameTaken
    | InvalidPermissions
    | AlreadyMember
    | InvitationInvalid
    | RegistrationRefused
    | RoleGone
    | MemberNotFound
    | UsernameExists
    | EmailExists
    | ConstraintViolated

  datatype Result = Result(tables: Tables, error: Option<Error>)

  function Ok(t: Tables): Result { Result(t, None) }
  function Fail(t: Tables, e: Error): Result { Result(t, Some(e)) }

  /** Registration stores addresses trimmed and in lower case. */
  function Clean(email: string): string {
    Lowered(GoLower, Trimmed(GoSpace, email))
  }

  // ---------------------------------------------------------------- roles

  predicate NameTakenBy(t: Tables, org: Id, name: string, other: Option<Id>) {
    exists r :: r in t.roles && Some(r) != other && t.roles[r].org == org && t.roles[r].name == name
  }

  function CreateRole(t: Tables, org: Id, id: Id, name: string): Result {
    if org !in t.orgs then Fail(t, NoSuchOrganization)
    else if id in t.roles || NameTakenBy(t, org, name, None) then Fail(t, NameTaken)
    else Ok(t.(roles := t.roles[id := Role(org, name, false)]))
  }

  predicate OwnRole(t: Tables, org: Id, id: Id) {
    id in t.roles && t.roles[id].org == org
  }

  function UpdateRole(t: Tables, org: Id, id: Id, name: Option<string>): Result {
    if !OwnRole(t, org, id) then Fail(t, RoleNotFound)
    else if t.roles[id].system then Fail(t, SystemRole)
    else if name == None then Ok(t)
    else if NameTakenBy(t, org, name.value, Some(id)) then Fail(t, NameTaken)
    else Ok(t.(roles := t.roles[id := t.roles[id].(name := name.value)]))
  }

  function WithoutRole(t: Tables, id: Id): Tables {
    t.(roles := t.roles - {id},
       rolePermissions := (set rp | rp in t.rolePermissions && rp.0 != id),
       userRoles := (set ur | ur in t.userRoles && ur.1 != id))
  }

  function DeleteRole(t: Tables, org: Id, id: Id): Result {
    if !OwnRole(t, org, id) then Fail(t, RoleNotFound)
    else if t.roles[id].system then Fail(t, SystemRole)
    else Ok(WithoutRole(t, id))
  }

  function Elements(ids: seq<Id>): set<Id> {
    set i | 0 <= i < |ids| :: ids[i]
  }

  /** The rows that findMany returns for the ids. */
  function Found(t: Tables, ids: seq<Id>): set<Id> {
    set p | p in t.catalogue && p in ids
  }

  function Bound(t: Tables, id: Id, permissions: set<Id>): Tables {
    t.(rolePermissions := (set rp | rp in t.rolePermissions && rp.0 != id) + (set p | p in permissions :: (id, p)))
  }

  function AssignPermissions(t: Tables, org: Id, id: Id, ids: seq<Id>): Result {
    if !OwnRole(t, org, id) then Fail(t, RoleNotFound)
    else if t.roles[id].system then Fail(t, SystemRole)
    else if |Found(t, ids)| != |ids| then Fail(t, InvalidPermissions)
    else Ok(Bound(t, id, Elements(ids)))
  }

  // ---------------------------------------------------------------- members

  predicate ActiveMember(t: Tables, org: Id, email: string) {
    exists u :: u in t.members && t.members[u].org == org && t.members[u].email == email && !t.members[u].deleted
  }

  /** The unique constraints on (organization, e-mail) and (organization, user name) also count soft-deleted rows. */
  predicate TakenByOther(t: Tables, org: Id, email: string, username: string, other: Option<Id>) {
    exists u :: u in t.members && Some(u) != other && t.members[u].org == org
                && (t.members[u].email == email || t.members[u].username == username)
  }

  predicate ActiveOther(t: Tables, org: Id, user: Id, p: Member -> bool) {
    exists u :: u in t.members && u != user && t.members[u].org == org && !t.members[u].deleted && p(t.members[u])
  }

  function Invite(t: Tables, org: Id, role: Id, email: string, token: string): Result {
    if !OwnRole(t, org, role) then Fail(t, RoleNotFound)
    else if ActiveMember(t, org, email) then Fail(t, AlreadyMember)
    else Ok(t.(invitations := t.invitations[token := Invitation(email, org, role)]))
  }

  /** The auth service's registration, which takes the address as the user name too; `accepted` stands for its checks
      of the request itself. */
  function Register(t: Tables, org: Id, user: Id, email: string, accepted: bool): Result {
    if !accepted || org !in t.orgs || user in t.members || TakenByOther(t, org, Clean(email), Clean(email), None)
    then Fail(t, RegistrationRefused)
    else Ok(t.(members := t.members[user := Member(org, Clean(email), Clean(email), false)]))
  }

  /** Registration, the role row and the invitation's removal are separate steps: a role deleted meanwhile makes
      the second one fail and leaves the first in place. */
  function Accept(t: Tables, token: string, user: Id, accepted: bool): Result {
    if token !in t.invitations then Fail(t, InvitationInvalid)
    else
      var i := t.invitations[token];
      var r := Register(t, i.org, user, i.email, accepted);
      if r.error != None then r
      else if i.role !in t.roles then Fail(r.tables, RoleGone)
      else Ok(r.tables.(userRoles := t.userRoles + {(user, i.role)}, invitations := t.invitations - {token}))
  }

  function RemoveMember(t: Tables, org: Id, user: Id): Result {
    if user in t.members && t.members[user].org == org && !t.members[user].deleted
    then Ok(t.(members := t.members[user := t.members[user].(deleted := true)]))
    else Fail(t, MemberNotFound)
  }

  /** The member edits the own profile. The handler looks for conflicts among active members, and only if something
      changes; the constraints count every row. */
  function UpdateProfile(t: Tables, user: Id, email: string, username: string): Result {
    if user !in t.members || t.members[user].deleted then Fail(t, MemberNotFound)
    else
      var m := t.members[user];
      var lowered := Lowered(GoLower, email);
      var changes := username != m.username || lowered != m.email;
      if changes && ActiveOther(t, m.org, user, (o: Member) => o.username == username) then Fail(t, UsernameExists)
      else if changes && ActiveOther(t, m.org, user, (o: Member) => o.email == lowered) then Fail(t, EmailExists)
      else if TakenByOther(t, m.org, Clean(email), username, Some(user)) then Fail(t, ConstraintViolated)
      else Ok(t.(members := t.members[user := m.(email := Clean(email), username := username)]))
  }

  // ---------------------------------------------------------------- organizations

  function CreateOrganization(t: Tables, org: Id): Result {
    Ok(t.(orgs := t.orgs + {org}))
  }

  /** Deletion cascades over every table; invitations live in Redis and stay. */
  function DeleteOrganization(t: Tables, org: Id): Result {
    if org !in t.orgs then Fail(t, NoSuchOrganization)
    else
      var roles := map r | r in t.roles && t.roles[r].org != org :: t.roles[r];
      var members := map u | u in t.members && t.members[u].org != org :: t.members[u];
      Ok(t.(orgs := t.orgs - {org}, roles := roles, members := members,
            rolePermissions := (set rp | rp in t.rolePermissions && rp.0 in roles),
            userRoles := (set ur | ur in t.userRoles && ur.0 in members && ur.1 in roles)))
  }

  // ---------------------------------------------------------------- runs

  datatype Op =
    | OpCreateRole(org: Id, id: Id, name: string)
    | OpUpdateRole(org: Id, id: Id, newName: Option<string>)
    | OpDeleteRole(org: Id, id: Id)
    | OpAssign(org: Id, id: Id, ids: seq<Id>)
    | OpInvite(org: Id, id: Id, email: string, token: string)
    | OpRegister(org: Id, user: Id, email: string, accepted: bool)
    | OpAccept(token: string, user: Id, accepted: bool)
    | OpExpire(token: string)
    | OpRemoveMember(org: Id, user: Id)
    | OpUpdateProfile(user: Id, email: string, username: string)
    | OpCreateOrganization(org: Id)
    | OpDeleteOrganization(org: Id)

  function Perform(t: Tables, op: Op): Result {
    match op
    case OpCreateRole(org, id, name) => CreateRole(t, org, id, name)
    case OpUpdateRole(org, id, name) => UpdateRole(t, org, id, name)
    case OpDeleteRole(org, id) => DeleteRole(t, org, id)
    case OpAssign(org, id, ids) => AssignPermissions(t, org, id, ids)
    case OpInvite(org, id, email, token) => Invite(t, org, id, email, token)
    case OpRegister(org, user, email, accepted) => Register(t, org, user, email, accepted)
    case OpAccept(token, user, accepted) => Accept(t, token, user, accepted)
    case OpExpire(token) => Ok(t.(invitations := t.invitations - {token}))
    case OpRemoveMember(org, user) => RemoveMember(t, org, user)
    case OpUpdateProfile(user, email, username) => UpdateProfile(t, user, email, username)
    case OpCreateOrganization(org) => CreateOrganization(t, org)
    case OpDeleteOrganization(org) => DeleteOrganization(t, org)
  }

  /** A new role's random id is not the id of a deleted role that some invitation still names. */
  predicate FreshIds(t: Tables, op: Op) {
    op.OpCreateRole? ==> forall k :: k in t.invitations ==> t.invitations[k].role != op.id
  }

  function Run(t: Tables, ops: seq<Op>): Tables {
    if ops == [] then t else Perform(Run(t, ops[..|ops| - 1]), ops[|ops| - 1]).tables
  }

  predicate FreshRun(t: Tables, ops: seq<Op>) {
    ops != [] ==> FreshRun(t, ops[..|ops| - 1]) && FreshIds(Run(t, ops[..|ops| - 1]), ops[|ops| - 1])
  }

  /** The run does not delete the organization. */
  predicate Spares(ops: seq<Op>, org: Id) {
    OpDeleteOrganization(org) !in ops
  }

  // ---------------------------------------------------------------- the invariant

  /** Every user_roles row links a user and a role of one organization. */
  ghost predicate LinksStayInside(t: Tables) {
    forall u, r :: (u, r) in t.userRoles ==> u in t.members && r in t.roles && t.members[u].org == t.roles[r].org
  }

  ghost predicate InvitationsStayInside(t: Tables) {
    forall k :: k in t.invitations && t.invitations[k].role in t.roles ==>
      t.roles[t.invitations[k].role].org == t.invitations[k].org
  }

  ghost predicate PermissionsExist(t: Tables) {
    forall r, p :: (r, p) in t.rolePermissions ==> r in t.roles && p in t.catalogue
  }

  ghost predicate NamesUnique(t: Tables) {
    forall r, s ::
      (r in t.roles && s in t.roles && t.roles[r].org == t.roles[s].org
       && t.roles[r].name == t.roles[s].name) ==> r == s
  }

  ghost predicate EmailsUnique(t: Tables) {
    forall u, v ::
      (u in t.members && v in t.members && t.members[u].org == t.members[v].org
       && t.members[u].email == t.members[v].email) ==> u == v
  }

  ghost predicate UsernamesUnique(t: Tables) {
    forall u, v ::
      (u in t.members && v in t.members && t.members[u].org == t.members[v].org
       && t.members[u].username == t.members[v].username) ==> u == v
  }

  ghost predicate OwnersExist(t: Tables) {
    && (forall r :: r in t.roles ==> t.roles[r].org in t.orgs)
    && (forall u :: u in t.members ==> t.members[u].org in t.orgs)
  }

  ghost predicate Inv(t: Tables) {
    && LinksStayInside(t) && InvitationsStayInside(t) && PermissionsExist(t)
    && NamesUnique(t) && EmailsUnique(t) && UsernamesUnique(t) && OwnersExist(t)
  }

  lemma CreateRoleKeeps(t: Tables, org: Id, id: Id, name: string)
    requires Inv(t) && FreshIds(t, OpCreateRole(org, id, name))
    ensures Inv(CreateRole(t, org, id, name).tables)
  {
  }

  lemma UpdateRoleKeeps(t: Tables, org: Id, id: Id, name: Option<string>)
    requires Inv(t)
    ensures Inv(UpdateRole(t, org, id, name).tables)
  {
  }

  lemma DeleteRoleKeeps(t: Tables, org: Id, id: Id)
    requires Inv(t)
    ensures Inv(DeleteRole(t, org, id).tables)
  {
  }

  lemma FoundExist(t: Tables, ids: seq<Id>)
    ensures Found(t, ids) <= Elements(ids)
    ensures |Found(t, ids)| == |ids| ==> Found(t, ids) == Elements(ids)
    ensures |Found(t, ids)| == |ids| <==> NoDuplicates(ids) && forall i :: 0 <= i < |ids| ==> ids[i] in t.catalogue
  {
    ElementsBound(ids);
    if |Found(t, ids)| == |ids| {
      SubsetOfSameSize(Found(t, ids), Elements(ids));
      assert forall i :: 0 <= i < |ids| ==> ids[i] in Elements(ids);
    }
    if forall i :: 0 <= i < |ids| ==> ids[i] in t.catalogue {
      assert Found(t, ids) == Elements(ids);
    }
  }

  predicate NoDuplicates(ids: seq<Id>) {
    forall i, j :: 0 <= i < j < |ids| ==> ids[i] != ids[j]
  }

  lemma SubsetOfSameSize(a: set<Id>, b: set<Id>)
    requires a <= b && |a| >= |b|
    ensures a == b
  {
    assert b == a + (b - a);
  }

  /** A list has as many elements as entries exactly when it repeats none. */
  lemma {:induction false} ElementsBound(ids: seq<Id>)
    ensures |Elements(ids)| <= |ids|
    ensures |Elements(ids)| == |ids| <==> NoDuplicates(ids)
  {
    if ids != [] {
      var n := |ids| - 1;
      var front := ids[..n];
      ElementsBound(front);
      assert Elements(ids) == Elements(front) + {ids[n]};
      if ids[n] in Elements(front) {
        assert Elements(ids) == Elements(front);
      }
    }
  }

  lemma AssignKeeps(t: Tables, org: Id, id: Id, ids: seq<Id>)
    requires Inv(t)
    ensures Inv(AssignPermissions(t, org, id, ids).tables)
  {
    FoundExist(t, ids);
  }

  lemma MemberOpsKeep(t: Tables, org: Id, user: Id, email: string, accepted: bool)
    requires Inv(t)
    ensures Inv(Register(t, org, user, email, accepted).tables)
    ensures Inv(RemoveMember(t, org, user).tables)
  {
  }

  lemma ProfileKeeps(t: Tables, user: Id, email: string, username: string)
    requires Inv(t)
    ensures Inv(UpdateProfile(t, user, email, username).tables)
  {
  }

  lemma InvitationOpsKeep(t: Tables, org: Id, id: Id, email: string, token: string, user: Id, accepted: bool)
    requires Inv(t)
    ensures Inv(Invite(t, org, id, email, token).tables)
    ensures Inv(Accept(t, token, user, accepted).tables)
  {
    if token in t.invitations {
      MemberOpsKeep(t, t.invitations[token].org, user, t.invitations[token].email, accepted);
    }
  }

  lemma OrganizationOpsKeep(t: Tables, org: Id)
    requires Inv(t)
    ensures Inv(CreateOrganization(t, org).tables)
    ensures Inv(DeleteOrganization(t, org).tables)
  {
  }

  lemma PerformKeeps(t: Tables, op: Op)
    requires Inv(t) && FreshIds(t, op)
    ensures Inv(Perform(t, op).tables)
  {
    match op
    case OpCreateRole(org, id, name) => CreateRoleKeeps(t, org, id, name);
    case OpUpdateRole(org, id, name) => UpdateRoleKeeps(t, org, id, name);
    case OpDeleteRole(org, id) => DeleteRoleKeeps(t, org, id);
    case OpAssign(org, id, ids) => AssignKeeps(t, org, id, ids);
    case OpInvite(org, id, email, token) => InvitationOpsKeep(t, org, id, email, token, 0, false);
    case OpRegister(org, user, email, accepted) => MemberOpsKeep(t, org, user, email, accepted);
    case OpAccept(token, user, accepted) => InvitationOpsKeep(t, 0, 0, "", token, user, accepted);
    case OpExpire(token) =>
    case OpRemoveMember(org, user) => MemberOpsKeep(t, org, user, "", false);
    case OpUpdateProfile(user, email, username) => ProfileKeeps(t, user, email, username);
    case OpCreateOrganization(org) => OrganizationOpsKeep(t, org);
    case OpDeleteOrganization(org) => OrganizationOpsKeep(t, org);
  }

  /** In every run, also across organizations, the constraints hold; in particular no user holds a role of another
      organization. */
  lemma {:induction false} RunKeeps(t: Tables, ops: seq<Op>)
    requires Inv(t) && FreshRun(t, ops)
    ensures Inv(Run(t, ops))
  {
    if ops != [] {
      RunKeeps(t, ops[..|ops| - 1]);
      PerformKeeps(Run(t, ops[..|ops| - 1]), ops[|ops| - 1]);
    }
  }
}
