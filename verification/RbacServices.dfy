/** rbac.service.ts, memberships.service.ts and the role query of user_repository.go, working on the tables in place. */
module RbacServices {
  import opened Domain
  import opened Rbac
  import opened RbacResults
  import opened Slug

  class TenantDatabase {
    const catalogue: map<Id, string>
    var orgs: set<Id>
    var roles: map<Id, Role>
    var rolePermissions: set<(Id, Id)>
    var members: map<Id, Member>
    var userRoles: set<(Id, Id)>
    var invitations: map<string, Invitation>

    constructor (t: Tables)
      ensures Contents() == t
    {
      catalogue, orgs, roles, rolePermissions := t.catalogue, t.orgs, t.roles, t.rolePermissions;
      members, userRoles, invitations := t.members, t.userRoles, t.invitations;
    }

    function Contents(): Tables
      reads this
    {
      Tables(orgs, catalogue, roles, rolePermissions, members, userRoles, invitations)
    }

    method CreateRole(org: Id, id: Id, name: string) returns (error: Option<Error>)
      modifies this
      ensures Result(Contents(), error) == Rbac.CreateRole(old(Contents()), org, id, name)
    {
      if org !in orgs {
        return Some(NoSuchOrganization);
      }
      if id in roles || NameTakenBy(Contents(), org, name, None) {
        return Some(NameTaken);
      }
      roles := roles[id := Role(org, name, false)];
      error := None;
    }

    method UpdateRole(org: Id, id: Id, name: Option<string>) returns (error: Option<Error>)
      modifies this
      ensures Result(Contents(), error) == Rbac.UpdateRole(old(Contents()), org, id, name)
    {
      if !OwnRole(Contents(), org, id) {
        return Some(RoleNotFound);
      }
      if roles[id].system {
        return Some(SystemRole);
      }
      if name.Some? {
        if NameTakenBy(Contents(), org, name.value, Some(id)) {
          return Some(NameTaken);
        }
        roles := roles[id := roles[id].(name := name.value)];
      }
      error := None;
    }

    method DeleteRole(org: Id, id: Id) returns (error: Option<Error>)
      modifies this
      ensures Result(Contents(), error) == Rbac.DeleteRole(old(Contents()), org, id)
    {
      if !OwnRole(Contents(), org, id) {
        return Some(RoleNotFound);
      }
      if roles[id].system {
        return Some(SystemRole);
      }
      roles := roles - {id};
      rolePermissions := set rp | rp in rolePermissions && rp.0 != id;
      userRoles := set ur | ur in userRoles && ur.1 != id;
      error := None;
    }

    /** findMany over the listed ids: the rows come back once each, however often an id is listed. */
    method FindPermissions(ids: seq<Id>) returns (rows: seq<Id>)
      ensures |rows| == |Found(Contents(), ids)|
    {
      rows := [];
      var rest := catalogue.Keys;
      ghost var seen: set<Id> := {};
      while rest != {}
        invariant rest <= catalogue.Keys
        invariant seen == set p | p in catalogue && p !in rest && p in ids
        invariant |rows| == |seen|
        decreases rest
      {
        var p :| p in rest;
        assert p !in seen;
        if p in ids {
          rows := rows + [p];
          seen := seen + {p};
        }
        rest := rest - {p};
      }
      assert seen == Found(Contents(), ids);
    }

    /** The transaction: deletes the role's bindings, then inserts a row for every listed id. */
    method AssignPermissions(org: Id, id: Id, ids: seq<Id>) returns (error: Option<Error>)
      modifies this`rolePermissions
      ensures Result(Contents(), error) == Rbac.AssignPermissions(old(Contents()), org, id, ids)
    {
      if !OwnRole(Contents(), org, id) {
        return Some(RoleNotFound);
      }
      if roles[id].system {
        return Some(SystemRole);
      }
      var permissions := FindPermissions(ids);
      if |permissions| != |ids| {
        return Some(InvalidPermissions);
      }
      rolePermissions := set rp | rp in rolePermissions && rp.0 != id;
      ghost var others := rolePermissions;
      for i := 0 to |ids|
        invariant rolePermissions == others + set p | p in Elements(ids[..i]) :: (id, p)
      {
        assert Elements(ids[..i + 1]) == Elements(ids[..i]) + {ids[i]};
        rolePermissions := rolePermissions + {(id, ids[i])};
      }
      assert ids[..|ids|] == ids;
      error := None;
    }

    method Invite(org: Id, role: Id, email: string, token: string) returns (error: Option<Error>)
      modifies this
      ensures Result(Contents(), error) == Rbac.Invite(old(Contents()), org, role, email, token)
    {
      if !OwnRole(Contents(), org, role) {
        return Some(RoleNotFound);
      }
      if ActiveMember(Contents(), org, email) {
        return Some(AlreadyMember);
      }
      invitations := invitations[token := Invitation(email, org, role)];
      error := None;
    }

    method Register(org: Id, user: Id, email: string, accepted: bool) returns (error: Option<Error>)
      modifies this
      ensures Result(Contents(), error) == Rbac.Register(old(Contents()), org, user, email, accepted)
    {
      if !accepted {
        return Some(RegistrationRefused);
      }
      var cleaned := Clean(email);
      if org !in orgs || user in members || TakenByOther(Contents(), org, cleaned, cleaned, None) {
        return Some(RegistrationRefused);
      }
      members := members[user := Member(org, cleaned, cleaned, false)];
      error := None;
    }

    /** Registers, then inserts the role row, then consumes the invitation. */
    method Accept(token: string, user: Id, accepted: bool) returns (error: Option<Error>)
      modifies this
      ensures Result(Contents(), error) == Rbac.Accept(old(Contents()), token, user, accepted)
    {
      if token !in invitations {
        return Some(InvitationInvalid);
      }
      var i := invitations[token];
      error := Register(i.org, user, i.email, accepted);
      if error != None {
        return;
      }
      if i.role !in roles {
        return Some(RoleGone);
      }
      userRoles := userRoles + {(user, i.role)};
      invitations := invitations - {token};
    }

    method RemoveMember(org: Id, user: Id) returns (error: Option<Error>)
      modifies this
      ensures Result(Contents(), error) == Rbac.RemoveMember(old(Contents()), org, user)
    {
      if user !in members || members[user].org != org || members[user].deleted {
        return Some(MemberNotFound);
      }
      members := members[user := members[user].(deleted := true)];
      error := None;
    }

    /** The handler's two lookups, and then the constraints. */
    method UpdateProfile(user: Id, email: string, username: string) returns (error: Option<Error>)
      modifies this`members
      ensures Result(Contents(), error) == Rbac.UpdateProfile(old(Contents()), user, email, username)
    {
      if user !in members || members[user].deleted {
        return Some(MemberNotFound);
      }
      var current := members[user];
      var lowered := Lowered(GoLower, email);
      if username != current.username || lowered != current.email {
        if ActiveOther(Contents(), current.org, user, (o: Member) => o.username == username) {
          return Some(UsernameExists);
        }
        if ActiveOther(Contents(), current.org, user, (o: Member) => o.email == lowered) {
          return Some(EmailExists);
        }
      }
      var cleaned := Clean(email);
      if TakenByOther(Contents(), current.org, cleaned, username, Some(user)) {
        return Some(ConstraintViolated);
      }
      members := members[user := current.(email := cleaned, username := username)];
      error := None;
    }

    /** The first query: one row for every role the user holds. */
    method RoleNames(user: Id) returns (names: seq<string>)
      requires LinksStayInside(Contents()) && NamesUnique(Contents())
      ensures forall n :: n in names <==> exists r :: (user, r) in userRoles && roles[r].name == n
      ensures Distinct(names)
    {
      names := [];
      var held := set ur | ur in userRoles && ur.0 == user :: ur.1;
      assert forall r :: r in held <==> (user, r) in userRoles;
      var rest := held;
      while rest != {}
        invariant rest <= held
        invariant forall n :: n in names <==> exists r :: r in held - rest && roles[r].name == n
        invariant Distinct(names)
        decreases rest
      {
        var r :| r in rest;
        assert (user, r) in userRoles && roles[r].name !in names;
        names := names + [roles[r].name];
        rest := rest - {r};
      }
    }

    /** The second query: every binding of every role the user holds; DISTINCT makes the names a set. */
    method PermissionNames(user: Id) returns (rows: set<string>)
      ensures rows == Effective(Contents(), user)
    {
      rows := {};
      var held := set ur | ur in userRoles && ur.0 == user;
      var rest := held;
      while rest != {}
        invariant rest <= held
        invariant forall n :: n in rows <==> exists ur :: ur in held - rest && n in Grants(Contents(), ur.1)
        decreases rest
      {
        var ur :| ur in rest;
        var names := Bindings(ur.1);
        rows := rows + names;
        rest := rest - {ur};
      }
      forall n ensures n in rows <==> n in Effective(Contents(), user) {
        EffectiveIsUnion(Contents(), user, n);
        assert forall r :: (user, r) in userRoles <==> (user, r) in held;
      }
    }

    /** The inner join of role_permissions and permissions for one role. */
    method Bindings(role: Id) returns (names: set<string>)
      ensures names == Grants(Contents(), role)
    {
      names := {};
      var bound := set rp | rp in rolePermissions && rp.0 == role;
      var rest := bound;
      while rest != {}
        invariant rest <= bound
        invariant names == set rp | rp in bound - rest && rp.1 in catalogue :: catalogue[rp.1]
        decreases rest
      {
        var rp :| rp in rest;
        if rp.1 in catalogue {
          names := names + {catalogue[rp.1]};
        }
        rest := rest - {rp};
      }
      assert forall p :: (role, p) in bound <==> p in PermissionsOf(Contents(), role);
    }

    /** Rows appended one by one. */
    static method Listed(rows: set<string>) returns (list: seq<string>)
      ensures forall n :: n in list <==> n in rows
      ensures Distinct(list)
    {
      list := [];
      var rest := rows;
      while rest != {}
        invariant rest <= rows
        invariant forall n :: n in list <==> n in rows && n !in rest
        invariant Distinct(list)
        decreases rest
      {
        var p :| p in rest;
        assert p !in list;
        list := list + [p];
        rest := rest - {p};
      }
    }

    /** Every role the user holds is listed once and under its own name, every permission name once. */
    method GetUserRolesAndPermissions(user: Id) returns (names: seq<string>, permissions: seq<string>)
      requires LinksStayInside(Contents()) && NamesUnique(Contents())
      ensures forall n :: n in names <==> exists r :: (user, r) in userRoles && roles[r].name == n
      ensures forall n :: n in permissions <==> n in Effective(Contents(), user)
      ensures Distinct(names) && Distinct(permissions)
    {
      names := RoleNames(user);
      var rows := PermissionNames(user);
      permissions := Listed(rows);
    }
  }

  predicate Distinct(list: seq<string>) {
    forall i, j :: 0 <= i < j < |list| ==> list[i] != list[j]
  }
}
