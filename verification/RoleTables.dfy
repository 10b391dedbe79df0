/**
 The role and user DAOs statement by statement over their five tables, each method proved to be
 the atomic operation of module TokenScopes, and the loops that read scopes.
 */
module RoleTables {
  import opened Wrappers
  import opened TokenScopes

  datatype Account = Account(version: nat, active: bool)

  function SecondOf(pairs: set<(nat, nat)>, first: nat): set<nat> {
    set x | x in pairs && x.0 == first :: x.1
  }

  function Pairs(first: nat, seconds: seq<nat>): set<(nat, nat)> {
    set x | x in seconds :: (first, x)
  }

  function RolesOf(names: map<nat, string>, pairs: set<(nat, nat)>): map<nat, Role> {
    map r | r in names :: Role(names[r], SecondOf(pairs, r))
  }

  function UsersOf(accounts: map<nat, Account>, pairs: set<(nat, nat)>): map<nat, User> {
    map u | u in accounts :: User(accounts[u].version, SecondOf(pairs, u), accounts[u].active)
  }

  /** DELETE ... WHERE the first column is id. */
  function Without(pairs: set<(nat, nat)>, id: nat): set<(nat, nat)> {
    set x | x in pairs && x.0 != id
  }

  lemma SecondOfWithout(pairs: set<(nat, nat)>, id: nat, other: nat)
    ensures SecondOf(Without(pairs, id), other) == if other == id then {} else SecondOf(pairs, other)
  {
    forall x | x in SecondOf(pairs, other) && other != id ensures x in SecondOf(Without(pairs, id), other) {
      assert (other, x) in Without(pairs, id);
    }
  }

  lemma SecondOfAdded(pairs: set<(nat, nat)>, id: nat, seconds: seq<nat>, other: nat)
    ensures SecondOf(pairs + Pairs(id, seconds), other)
      == if other == id then SecondOf(pairs, id) + Elements(seconds) else SecondOf(pairs, other)
  {
    var all := pairs + Pairs(id, seconds);
    forall s | s in seconds && other == id ensures s in SecondOf(all, id) {
      assert (id, s) in all;
    }
    forall x | x in SecondOf(pairs, other) ensures x in SecondOf(all, other) {
      assert (other, x) in all;
    }
  }

  lemma ReplacedPermissions(names: map<nat, string>, pairs: set<(nat, nat)>, id: nat, seconds: seq<nat>)
    ensures
      var before := RolesOf(names, pairs);
      && RolesOf(names, Without(pairs, id)) == (if id in names
         then before[id := before[id].(permissions := {})] else before)
      && RolesOf(names, Without(pairs, id) + Pairs(id, seconds))
        == (if id in names then before[id := before[id].(permissions := Elements(seconds))] else before)
  {
    forall r: nat ensures SecondOf(Without(pairs, id), r) == (if r == id then {} else SecondOf(pairs, r))
      && SecondOf(Without(pairs, id) + Pairs(id, seconds), r)
         == if r == id then Elements(seconds) else SecondOf(pairs, r)
    {
      SecondOfWithout(pairs, id, r);
      SecondOfAdded(Without(pairs, id), id, seconds, r);
    }
    hide SecondOf, Without, Pairs, Elements;
  }

  lemma DroppedRoles(names: map<nat, string>, pairs: set<(nat, nat)>, ids: set<nat>)
    ensures RolesOf(names - ids, set x | x in pairs && x.0 !in ids) == RolesOf(names, pairs) - ids
  {
    var left := set x | x in pairs && x.0 !in ids;
    forall r | r in names - ids ensures SecondOf(left, r) == SecondOf(pairs, r) {
      forall x | x in SecondOf(pairs, r) ensures x in SecondOf(left, r) {
        assert (r, x) in left;
      }
    }
    hide SecondOf;
  }

  lemma DroppedHoldings(accounts: map<nat, Account>, pairs: set<(nat, nat)>, ids: set<nat>)
    ensures
      var before := UsersOf(accounts, pairs);
      UsersOf(accounts, set x | x in pairs && x.1 !in ids) == map u | u in before ::
        before[u].(roles := before[u].roles - ids)
  {
    var left := set x | x in pairs && x.1 !in ids;
    forall u | u in accounts ensures SecondOf(left, u) == SecondOf(pairs, u) - ids {
      forall x | x in SecondOf(pairs, u) - ids ensures x in SecondOf(left, u) {
        assert (u, x) in left;
      }
    }
    hide SecondOf;
  }

  function Bumped(account: Account): Account {
    account.(version := account.version + 1)
  }

  lemma AssignedRoles(accounts: map<nat, Account>, pairs: set<(nat, nat)>, id: nat, seconds: seq<nat>)
    requires id in accounts
    ensures
      var before := UsersOf(accounts, pairs);
      var user := before[id].(version := before[id].version + 1);
      && UsersOf(accounts[id := Bumped(accounts[id])], pairs) == before[id := user]
      && UsersOf(accounts[id := Bumped(accounts[id])], pairs + Pairs(id, seconds))
        == before[id := user.(roles := user.roles + Elements(seconds))]
  {
    forall u: nat
      ensures SecondOf(pairs + Pairs(id, seconds), u)
        == if u == id then SecondOf(pairs, id) + Elements(seconds) else SecondOf(pairs, u)
    {
      SecondOfAdded(pairs, id, seconds, u);
    }
    hide SecondOf, Pairs, Elements;
  }

  /** The store is what the rows say. */
  lemma RowsSay(names: map<nat, string>, given: set<(nat, nat)>, accounts: map<nat, Account>, held: set<(nat, nat)>)
    ensures RolesOf(names, given).Keys == names.Keys && UsersOf(accounts, held).Keys == accounts.Keys
    ensures forall r :: r in names ==> RolesOf(names, given)[r].name == names[r]
    ensures forall r, p :: r in names ==> (p in RolesOf(names, given)[r].permissions <==> (r, p) in given)
    ensures forall u, r :: u in accounts ==> (r in UsersOf(accounts, held)[u].roles <==> (u, r) in held)
    ensures forall u :: u in accounts ==> UsersOf(accounts, held)[u].version == accounts[u].version
    ensures forall u :: u in accounts ==> UsersOf(accounts, held)[u].active == accounts[u].active
  {
    forall pairs, a: nat, b: nat ensures b in SecondOf(pairs, a) <==> (a, b) in pairs {
      if (a, b) in pairs { assert (a, b).0 == a; }
    }
    hide SecondOf;
  }

  class Tables {
    var permissions: map<nat, string>
    var roles: map<nat, string>
    var rolePermissions: set<(nat, nat)>
    var users: map<nat, Account>
    var userRoles: set<(nat, nat)>

    ghost predicate Valid()
      reads this
    {
      && (forall x :: x in rolePermissions ==> x.0 in roles && x.1 in permissions)
      && (forall x :: x in userRoles ==> x.0 in users && x.1 in roles)
    }

    ghost function State(): Store
      reads this
    {
      Store(permissions, RolesOf(roles, rolePermissions), UsersOf(users, userRoles))
    }

    method BumpHolders(id: nat)
      requires Valid()
      modifies this`users
      ensures Valid() && State() == Bump(old(State()), Holders(old(State()), id))
    {
      users := map u | u in users ::
        if (u, id) in userRoles then users[u].(version := users[u].version + 1) else users[u];
      forall u | u in old(users) ensures u in Holders(old(State()), id) <==> (u, id) in userRoles {
      }
    }

    method InsertPermissions(id: nat, permissionIds: seq<nat>) returns (raised: bool)
      requires Valid() && SecondOf(rolePermissions, id) == {}
      modifies this`rolePermissions
      ensures Valid() && raised == !Insertable(State(), id, permissionIds)
      ensures rolePermissions == if raised then old(rolePermissions)
        else old(rolePermissions) + Pairs(id, permissionIds)
    {
      raised := id !in roles || (exists p :: p in permissionIds && p !in permissions)
        || (exists i, j :: 0 <= i < j < |permissionIds| && permissionIds[i] == permissionIds[j]);
      if !raised {
        rolePermissions := rolePermissions + set x | x in permissionIds :: (id, x);
      }
    }

    method Rename(id: nat, name: string) returns (raised: bool)
      requires Valid() && id in roles
      modifies this`roles
      ensures Valid() && raised == NameTaken(old(State()), name, id)
      ensures State() == if raised then old(State()) else Renamed(old(State()), id, Some(name))
    {
      raised := exists r :: r in roles && r != id && roles[r] == name;
      TakenInTables(State(), roles, rolePermissions, name, id);
      if !raised {
        roles := roles[id := name];
      }
    }

    method UpdateRole(id: nat, name: Option<string>, permissionIds: Option<seq<nat>>) returns (raised: bool)
      requires Valid()
      modifies this
      ensures Valid() && (State(), raised) == TokenScopes.UpdateRole(old(State()), id, name, permissionIds)
    {
      hide NameTaken, Insertable, Bump, UsersOf;
      raised := false;
      if name.Some? && id in roles {
        raised := Rename(id, name.value);
        if raised {
          return;
        }
      }
      if permissionIds.Some? {
        ReplacedPermissions(roles, rolePermissions, id, permissionIds.value);
        SecondOfWithout(rolePermissions, id, id);
        hide RolesOf, Pairs;
        rolePermissions := set x | x in rolePermissions && x.0 != id;
        if permissionIds.value != [] {
          SameInsertable(old(State()), State(), id, permissionIds.value);
          raised := InsertPermissions(id, permissionIds.value);
          SameInsertable(old(State()), State(), id, permissionIds.value);
          if raised {
            return;
          }
        }
      }
      SameHolders(old(State()), State(), id);
      BumpHolders(id);
    }

    /** One transaction: raise the versions, then delete the role with its rows elsewhere. */
    method DeleteRole(id: nat)
      requires Valid()
      modifies this
      ensures Valid() && State() == TokenScopes.DeleteRole(old(State()), id)
    {
      hide Bump, Holders, DropRoles, UsersOf, RolesOf;
      BumpHolders(id);
      DropRows({id});
    }

    /** delete_roles: the bulk statement alone. */
    method DropRows(ids: set<nat>)
      requires Valid()
      modifies this`roles, this`rolePermissions, this`userRoles
      ensures Valid() && State() == DropRoles(old(State()), ids)
    {
      DroppedRoles(roles, rolePermissions, ids);
      DroppedHoldings(users, userRoles, ids);
      hide RolesOf, UsersOf;
      roles := roles - ids;
      rolePermissions := set x | x in rolePermissions && x.0 !in ids;
      userRoles := set x | x in userRoles && x.1 !in ids;
    }

    method CreateRole(id: nat, name: string, permissionIds: seq<nat>) returns (raised: bool)
      requires Valid()
      modifies this`roles, this`rolePermissions
      ensures Valid() && (State(), raised) == TokenScopes.CreateRole(old(State()), id, name, permissionIds)
    {
      hide Insertable, UsersOf;
      raised := exists r :: r in roles && r != id && roles[r] == name;
      TakenInTables(State(), roles, rolePermissions, name, id);
      if raised || id in roles {
        return true;
      }
      assert SecondOf(rolePermissions, id) == {} && Without(rolePermissions, id) == rolePermissions;
      roles := roles[id := name];
      ReplacedPermissions(roles, rolePermissions, id, permissionIds);
      assert RolesOf(roles, rolePermissions) == old(State()).roles[id := Role(name, {})];
      hide RolesOf, Pairs, NameTaken;
      ghost var bare := old(State()).roles[id := Role(name, {})];
      assert bare[id := Role(name, Elements(permissionIds))]
        == old(State()).roles[id := Role(name, Elements(permissionIds))];
      if permissionIds != [] {
        raised := InsertPermissions(id, permissionIds);
        SameInsertable(old(State()).(roles := old(State()).roles[id := Role(name, {})]), State(), id, permissionIds);
      }
    }

    method AssignRoles(u: nat, ids: seq<nat>) returns (raised: bool)
      requires Valid()
      modifies this`users, this`userRoles
      ensures Valid() && (State(), raised) == TokenScopes.AssignRoles(old(State()), u, ids)
      ensures userRoles == old(userRoles) + if raised then {} else set r | r in ids :: (u, r)
    {
      raised := false;
      if ids == [] {
        return;
      }
      raised := u !in users || exists r :: r in ids && r !in roles;
      if u in users {
        AssignedRoles(users, userRoles, u, ids);
      }
      assert (forall r :: r in ids ==> r in roles) <==> forall r :: r in ids ==> r in State().roles;
      hide UsersOf, RolesOf, Elements;
      if !raised {
        userRoles := userRoles + set r | r in ids :: (u, r);
      }
      if u in users {
        users := users[u := users[u].(version := users[u].version + 1)];
      }
    }
  }

  lemma TakenInTables(db: Store, names: map<nat, string>, pairs: set<(nat, nat)>, name: string, id: nat)
    requires db.roles == RolesOf(names, pairs)
    ensures NameTaken(db, name, id) <==> exists r :: r in names && r != id && names[r] == name
  {
    hide SecondOf;
    if r :| r in names && r != id && names[r] == name {
      assert r in db.roles && db.roles[r].name == name;
    }
  }

  lemma SameInsertable(a: Store, b: Store, id: nat, ids: seq<nat>)
    requires a.permissions == b.permissions && a.roles.Keys == b.roles.Keys
    ensures Insertable(a, id, ids) == Insertable(b, id, ids)
  {
  }

  lemma SameHolders(a: Store, b: Store, id: nat)
    requires a.users == b.users
    ensures Holders(a, id) == Holders(b, id)
  {
  }

  /* ----- reading ----- */

  datatype RoleData = RoleData(name: string, permissions: seq<string>)

  /** The names of the permissions of the first n roles. */
  function NamesOf(roles: seq<RoleData>): set<string> {
    set r, name | r in roles && name in r.permissions :: name
  }

  method GetUserScopes(roles: seq<RoleData>) returns (scopes: set<string>)
    ensures scopes == NamesOf(roles)
  {
    scopes := {};
    for i := 0 to |roles|
      invariant scopes == NamesOf(roles[..i])
    {
      ghost var before := scopes;
      for j := 0 to |roles[i].permissions|
        invariant scopes == before + set name | name in roles[i].permissions[..j]
      {
        scopes := scopes + {roles[i].permissions[j]};
      }
      assert roles[..i + 1] == roles[..i] + [roles[i]];
      assert roles[i].permissions[..|roles[i].permissions|] == roles[i].permissions;
    }
    assert roles[..|roles|] == roles;
  }

  /** The rows a user is fetched with: its roles in some order, each with its permissions in some order. */
  ghost predicate Represents(db: Store, u: nat, roles: seq<RoleData>) {
    && u in db.users
    && (forall r :: r in db.users[u].roles ==>
          r in db.roles &&
            exists d ::
              && d in roles && d.name == db.roles[r].name
              && forall n :: n in d.permissions <==> n in RoleScopes(db, r))
    && (forall d :: d in roles ==>
          exists r :: r in db.users[u].roles && r in db.roles && d.name == db.roles[r].name
            && forall n :: n in d.permissions <==> n in RoleScopes(db, r))
  }

  /** The two loops over a fetched user compute the scopes of module TokenScopes. */
  lemma FetchedScopes(db: Store, u: nat, roles: seq<RoleData>)
    requires Represents(db, u, roles)
    ensures NamesOf(roles) == Scopes(db, db.users[u].roles)
  {
    hide RoleScopes;
  }

  method GetCurrentUser(db: Store, token: Token, revoked: bool, required: seq<string>)
    returns (r: Result<User, AuthError>)
    ensures r == CurrentUser(db, token, revoked, set s | s in required)
    ensures r.Ok? <==>
      token.kind == Access && !revoked && (forall scope :: scope in required ==> scope in token.scopes)
      && token.user in db.users && token.version == db.users[token.user].version
    ensures r.Ok? ==> r.value == db.users[token.user]
  {
    if token.kind != Access || revoked {
      return Err(BadToken);
    }
    for i := 0 to |required|
      invariant forall k :: 0 <= k < i ==> required[k] in token.scopes
    {
      if required[i] !in token.scopes {
        return Err(NotEnoughPermissions);
      }
    }
    if token.user !in db.users {
      return Err(UserNotFound);
    }
    if db.users[token.user].version != token.version {
      return Err(VersionMismatch);
    }
    return Ok(db.users[token.user]);
  }
}
