/**
 What the operations of module TokenScopes leave in the store, row by row, and which tokens each
 of them issues, without the functions that compute them.
 */
module RoleEffects {
  import opened Wrappers
  import opened TokenScopes

  /* ----- what stays ----- */

  ghost predicate OtherRolesStay(db: Store, after: Store, id: nat) {
    forall r :: r != id ==> (r in after.roles <==> r in db.roles) && (r in db.roles ==> after.roles[r] == db.roles[r])
  }

  ghost predicate OtherUsersStay(db: Store, after: Store, u: nat) {
    after.users.Keys == db.users.Keys && forall v :: v in db.users && v != u ==> after.users[v] == db.users[v]
  }

  /** The rows of role_permissions would be refused: no such role, no such permission, or a pair given twice. */
  ghost predicate Refused(db: Store, id: nat, ids: seq<nat>) {
    || id !in db.roles
    || (exists p :: p in ids && p !in db.permissions)
    || (exists i, j :: 0 <= i < j < |ids| && ids[i] == ids[j])
  }

  ghost predicate Clashes(db: Store, id: nat, name: string) {
    exists r :: r in db.roles && r != id && db.roles[r].name == name
  }

  lemma RefusedIff(db: Store, id: nat, ids: seq<nat>)
    ensures Refused(db, id, ids) <==> !Insertable(db, id, ids)
  {
  }

  lemma ElementsAre(ids: seq<nat>)
    ensures forall x :: x in Elements(ids) <==> x in ids
  {
  }

  /* ----- assigning ----- */

  /**
   With roles to give: the user holds what it held and, if all of them exist, exactly these besides; its version
   goes up either way, and nothing else changes. With none, or no such user, nothing does.
   */
  ghost predicate Assigned(db: Store, after: Store, raised: bool, u: nat, ids: seq<nat>) {
    && after.permissions == db.permissions && after.roles == db.roles && OtherUsersStay(db, after, u)
    && (ids == [] ==> after == db && !raised)
    && (ids != [] && u !in db.users ==> after == db && raised)
    && (ids != [] && u in db.users ==>
          && after.users[u].version == db.users[u].version + 1 && after.users[u].active == db.users[u].active
          && (raised <==> exists r :: r in ids && r !in db.roles)
          && (raised ==> after.users[u].roles == db.users[u].roles)
          && (!raised ==> forall r :: r in after.users[u].roles <==> r in db.users[u].roles || r in ids))
  }

  lemma AssignmentAssigns(db: Store, u: nat, ids: seq<nat>)
    ensures
      var (after, raised) := AssignRoles(db, u, ids);
      Assigned(db, after, raised, u, ids)
  {
    ElementsAre(ids);
    hide Elements;
  }

  /** A permission name of a role. */
  ghost predicate RoleGives(db: Store, r: nat, name: string) {
    r in db.roles && exists p :: p in db.roles[r].permissions && p in db.permissions && db.permissions[p] == name
  }

  /** A name is among the scopes of a token exactly if some role of its user gives it. */
  lemma ScopesAreTheNames(db: Store, roles: set<nat>, name: string)
    ensures name in Scopes(db, roles) <==> exists r :: r in roles && RoleGives(db, r, name)
  {
    if r :| r in roles && RoleGives(db, r, name) {
      assert name in RoleScopes(db, r);
    }
    if name in Scopes(db, roles) {
      var r :| r in roles && name in RoleScopes(db, r);
      assert RoleGives(db, r, name);
    }
  }

  /** A token issued after an assignment carries the names it carried before and those of the roles assigned. */
  lemma AssignedNamesAreCarried(db: Store, u: nat, ids: seq<nat>, kind: TokenType, admin: Option<nat>, name: string)
    requires u in db.users && forall r :: r in ids ==> r in db.roles
    ensures u in AssignRoles(db, u, ids).0.users
    ensures
      name in Issue(AssignRoles(db, u, ids).0, u, kind, admin).scopes
      <==> name in Issue(db, u, kind, admin).scopes || exists r :: r in ids && RoleGives(db, r, name)
  {
    var after := AssignRoles(db, u, ids).0;
    AssignmentAssigns(db, u, ids);
    hide AssignRoles;
    ScopesAreTheNames(db, db.users[u].roles, name);
    ScopesAreTheNames(after, after.users[u].roles, name);
    hide Scopes;
    forall r ensures RoleGives(after, r, name) <==> RoleGives(db, r, name) {}
    hide RoleGives;
    if ids != [] {
      assert forall r :: r in after.users[u].roles <==> r in db.users[u].roles || r in ids;
    }
  }

  /* ----- creating ----- */

  /**
   A new role of that name with exactly the permissions given, or, where their insert is refused, with none; all
   else as it was. Nothing at all if the name or the id is taken.
   */
  ghost predicate Created(db: Store, after: Store, raised: bool, id: nat, name: string, ids: seq<nat>) {
    && after.permissions == db.permissions && after.users == db.users && OtherRolesStay(db, after, id)
    && if id in db.roles || Clashes(db, id, name) then after == db && raised
       else
         && id in after.roles && after.roles[id].name == name
         && (raised <==>
               (exists p :: p in ids && p !in db.permissions) || exists i, j :: 0 <= i < j < |ids| && ids[i] == ids[j])
         && (raised ==> after.roles[id].permissions == {})
         && (!raised ==> forall p :: p in after.roles[id].permissions <==> p in ids)
  }

  lemma CreationCreates(db: Store, id: nat, name: string, ids: seq<nat>)
    ensures
      var (after, raised) := CreateRole(db, id, name, ids);
      Created(db, after, raised, id, name, ids)
  {
    ElementsAre(ids);
    hide Elements;
    if !(id in db.roles || NameTaken(db, name, id)) {
      RefusedIff(db.(roles := db.roles[id := Role(name, {})]), id, ids);
      hide Insertable;
    }
  }

  /* ----- updating ----- */

  /**
   The role has the name given, or its old one, and exactly the permissions given, or its old ones, or none where
   their insert is refused; the versions of its holders go up if the update returns, and all else is as it was.
   Nothing changes if the name is taken.
   */
  ghost predicate Updated(db: Store, after: Store, raised: bool, id: nat, name: Option<string>, ids: Option<seq<nat>>) {
    && after.permissions == db.permissions && OtherRolesStay(db, after, id)
    && (id in after.roles <==> id in db.roles)
    && VersionsRise(db, after, if raised then {} else set u | u in db.users && id in db.users[u].roles)
    && if name.Some? && id in db.roles && Clashes(db, id, name.value) then after == db && raised
       else
         && (raised <==> ids.Some? && ids.value != [] && Refused(db, id, ids.value))
         && (id in db.roles ==>
               && after.roles[id].name == (if name.Some? then name.value else db.roles[id].name)
               && (ids.None? ==> after.roles[id].permissions == db.roles[id].permissions)
               && (ids.Some? && raised ==> after.roles[id].permissions == {})
               && (ids.Some? && !raised ==> forall p :: p in after.roles[id].permissions <==> p in ids.value))
  }

  /** The users are as they were, but for the versions of these, one up each. */
  ghost predicate VersionsRise(db: Store, after: Store, who: set<nat>) {
    && after.users.Keys == db.users.Keys
    && forall u :: u in db.users ==>
         && after.users[u].roles == db.users[u].roles && after.users[u].active == db.users[u].active
         && after.users[u].version == db.users[u].version + if u in who then 1 else 0
  }

  lemma BumpRaises(db: Store, who: set<nat>)
    ensures VersionsRise(db, Bump(db, who), who)
    ensures Bump(db, who).roles == db.roles && Bump(db, who).permissions == db.permissions
  {
  }

  /** Only this role changes: to the name, if given, and to the permissions, if given. */
  ghost predicate RoleIs(db: Store, after: Store, id: nat, name: Option<string>, permissions: Option<set<nat>>) {
    && OtherRolesStay(db, after, id) && after.permissions == db.permissions
    && (id in after.roles <==> id in db.roles)
    && (id in db.roles ==>
          && after.roles[id].name == (if name.Some? then name.value else db.roles[id].name)
          && after.roles[id].permissions == if permissions.Some? then permissions.value else db.roles[id].permissions)
  }

  lemma WrittenRole(db: Store, id: nat, name: Option<string>, permissions: set<nat>)
    ensures RoleIs(db, Renamed(db, id, name), id, name, None)
    ensures RoleIs(db, WithPermissions(Renamed(db, id, name), id, permissions), id, name, Some(permissions))
    ensures WithPermissions(Renamed(db, id, name), id, permissions).users == db.users == Renamed(db, id, name).users
  {
  }

  lemma RaisedRole(db: Store, written: Store, id: nat, name: Option<string>, permissions: Option<set<nat>>)
    requires RoleIs(db, written, id, name, permissions) && written.users == db.users
    ensures RoleIs(db, Bump(written, Holders(db, id)), id, name, permissions)
    ensures VersionsRise(db, Bump(written, Holders(db, id)), set u | u in db.users && id in db.users[u].roles)
  {
    BumpRaises(written, Holders(db, id));
  }

  lemma UpdateUpdates(db: Store, id: nat, name: Option<string>, ids: Option<seq<nat>>)
    ensures
      var (after, raised) := UpdateRole(db, id, name, ids);
      Updated(db, after, raised, id, name, ids)
  {
    hide Elements, Bump, Insertable, Refused, Holders, Renamed, WithPermissions, OtherRolesStay;
    if name.Some? && id in db.roles && NameTaken(db, name.value, id) {
      assert OtherRolesStay(db, db, id) by { NothingChanges(db, id); }
    } else if ids.None? {
      WrittenRole(db, id, name, {});
      RaisedRole(db, Renamed(db, id, name), id, name, None);
    } else {
      UpdatePermissions(db, id, name, ids.value);
    }
  }

  lemma NothingChanges(db: Store, id: nat)
    ensures OtherRolesStay(db, db, id)
  {
  }

  lemma UpdatePermissions(db: Store, id: nat, name: Option<string>, ids: seq<nat>)
    requires !(name.Some? && id in db.roles && NameTaken(db, name.value, id))
    ensures
      var (after, raised) := UpdateRole(db, id, name, Some(ids));
      Updated(db, after, raised, id, name, Some(ids))
  {
    hide Elements, Bump, Insertable, Refused, Holders, Renamed, WithPermissions, OtherRolesStay, NameTaken, Clashes;
    assert !(name.Some? && id in db.roles && Clashes(db, id, name.value)) by { ClashesIff(db, id, name); }
    ElementsAre(ids);
    RefusedIff(db, id, ids);
    var given := if ids == [] || !Insertable(db, id, ids) then {} else Elements(ids);
    WrittenRole(db, id, name, given);
    RaisedRole(db, WithPermissions(Renamed(db, id, name), id, given), id, name, Some(given));
  }

  lemma ClashesIff(db: Store, id: nat, name: Option<string>)
    ensures name.Some? ==> (Clashes(db, id, name.value) <==> NameTaken(db, name.value, id))
  {
  }

  /* ----- deleting ----- */

  /** The roles are gone, from the users too; the versions of `who` are one up, and all else is as it was. */
  ghost predicate Dropped(db: Store, after: Store, gone: set<nat>, who: set<nat>) {
    && after.permissions == db.permissions
    && (forall r :: r in after.roles <==> r in db.roles && r !in gone)
    && (forall r :: r in after.roles ==> after.roles[r] == db.roles[r])
    && after.users.Keys == db.users.Keys
    && forall u :: u in db.users ==>
         && (forall r :: r in after.users[u].roles <==> r in db.users[u].roles && r !in gone)
         && after.users[u].active == db.users[u].active
         && after.users[u].version == db.users[u].version + if u in who then 1 else 0
  }

  lemma DeletionDeletes(db: Store, id: nat, ids: set<nat>)
    ensures Dropped(db, DropRoles(db, ids), ids, {})
    ensures Dropped(db, DeleteRole(db, id), {id}, set u | u in db.users && id in db.users[u].roles)
  {
    var holders := Holders(db, id);
    BumpRaises(db, holders);
    hide Bump;
    var bumped := Bump(db, holders);
    assert Dropped(db, DropRoles(bumped, {id}), {id}, holders);
  }

  /* ----- issuing ----- */

  /** A token of this kind, with the names of its user's roles and its user's version. */
  ghost predicate IsFor(db: Store, token: Token, kind: TokenType, u: nat, admin: Option<nat>) {
    && u in db.users && token.kind == kind && token.user == u && token.impersonator == admin
    && token.version == db.users[u].version
    && forall name :: name in token.scopes <==> exists r :: r in db.users[u].roles && RoleGives(db, r, name)
  }

  ghost predicate PairIssued(s: State, t: State, u: nat) {
    && |t.tokens| == |s.tokens| + 2 && t.tokens[..|s.tokens|] == s.tokens
    && IsFor(s.db, t.tokens[|s.tokens|], Access, u, None) && IsFor(s.db, t.tokens[|s.tokens| + 1], Refresh, u, None)
  }

  lemma IssueIsFor(db: Store, u: nat, kind: TokenType, admin: Option<nat>)
    requires u in db.users
    ensures IsFor(db, Issue(db, u, kind, admin), kind, u, admin)
  {
    forall name ensures name in Scopes(db, db.users[u].roles)
      <==> exists r :: r in db.users[u].roles && RoleGives(db, r, name)
    {
      ScopesAreTheNames(db, db.users[u].roles, name);
    }
    hide Scopes;
  }

  /**
   Tokens come from three steps only: a verified login and a refresh issue a pair for the user, the refresh for
   nothing but a refresh token of the current version of a user that is still there; and an impersonation an
   access token for an active user that is not the administrator itself and holds no administrator role. A
   refused one, and every other step, issues none.
   */
  lemma TokensAreIssuedBy(s: State, step: Step)
    ensures
      var t := Next(s, step);
      match step
      case Login(u, verified) => if verified && u in s.db.users then PairIssued(s, t, u) else t.tokens == s.tokens
      case RefreshToken(i, mfaAllows) =>
        if mfaAllows && i < |s.tokens| && s.tokens[i].kind == Refresh && s.tokens[i].user in s.db.users
           && s.db.users[s.tokens[i].user].version == s.tokens[i].version
        then PairIssued(s, t, s.tokens[i].user) else t.tokens == s.tokens
      case Impersonate(admin, target, nested) =>
        if !nested && admin != target && target in s.db.users && s.db.users[target].active
           && (forall r :: r in s.db.users[target].roles && r in s.db.roles ==>
                 s.db.roles[r].name != "Super Admin" && s.db.roles[r].name != "Admin")
        then
          && |t.tokens| == |s.tokens| + 1 && t.tokens[..|s.tokens|] == s.tokens
          && IsFor(s.db, t.tokens[|s.tokens|], Access, target, Some(admin))
        else t.tokens == s.tokens
      case _ => t.tokens == s.tokens
  {
    match step
    case Login(u, _) => if u in s.db.users { IssuedPair(s, u); }
    case RefreshToken(i, _) => if MayRefresh(s, i) { IssuedPair(s, s.tokens[i].user); }
    case Impersonate(admin, target, _) =>
      if target in s.db.users { IssueIsFor(s.db, target, Access, Some(admin)); }
      hide Issue, IsFor;
    case _ => hide Bump, AssignRoles, UpdateRole, CreateRole, DeleteRole;
  }

  lemma IssuedPair(s: State, u: nat)
    requires u in s.db.users
    ensures PairIssued(s, IssuePair(s, u), u)
  {
    IssueIsFor(s.db, u, Access, None);
    IssueIsFor(s.db, u, Refresh, None);
    hide Issue, IsFor;
  }

  /** A token is accepted exactly if it is an access token that is not revoked, has what is required, and is current. */
  lemma AcceptedIff(db: Store, token: Token, revoked: bool, required: set<string>)
    ensures CurrentUser(db, token, revoked, required).Ok? <==>
      token.kind == Access && !revoked && (forall scope :: scope in required ==> scope in token.scopes)
      && token.user in db.users && token.version == db.users[token.user].version
  {
  }

  /* ----- the users themselves ----- */

  /** A new user starts at version 1 without roles; a deleted one is gone; a new password only raises the version. */
  lemma UsersComeAndGo(s: State, u: nat, active: bool, gone: set<nat>)
    ensures u !in s.known ==> Next(s, AddUser(u, active)).db == s.db.(users := s.db.users[u := User(1, {}, active)])
    ensures u in s.known ==> Next(s, AddUser(u, active)) == s
    ensures
      var left := Next(s, DeleteUsers(gone)).db;
      && left.roles == s.db.roles && left.permissions == s.db.permissions
      && (forall v :: v in left.users <==> v in s.db.users && v !in gone)
      && (forall v :: v in left.users ==> left.users[v] == s.db.users[v])
    ensures
      var after := Next(s, UpdatePassword(u)).db;
      after.roles == s.db.roles && after.permissions == s.db.permissions && VersionsRise(s.db, after, {u})
  {
    BumpRaises(s.db, {u});
    hide Bump, VersionsRise;
  }
}
