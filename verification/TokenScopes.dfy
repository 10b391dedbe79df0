/**
 Access tokens against the roles behind them: a token carries the permission names its user had
 when it was issued and the user's token_version; whatever changes those names raises the version.
 Every service operation is one atomic step.
 */
module TokenScopes {
  import opened Wrappers

  /* ----- users, roles and permissions ----- */

  datatype Role = Role(name: string, permissions: set<nat>)

  datatype User = User(version: nat, roles: set<nat>, active: bool)

  /** permissions, roles with role_permissions, and users with user_roles. */
  datatype Store = Store(permissions: map<nat, string>, roles: map<nat, Role>, users: map<nat, User>)

  /** The foreign keys. */
  predicate Sound(db: Store) {
    && (forall r :: r in db.roles ==> db.roles[r].permissions <= db.permissions.Keys)
    && (forall u :: u in db.users ==> db.users[u].roles <= db.roles.Keys)
  }

  function RoleScopes(db: Store, r: nat): set<string> {
    if r in db.roles then set p | p in db.roles[r].permissions && p in db.permissions :: db.permissions[p] else {}
  }

  /** The names of the permissions of any of the roles. */
  function Scopes(db: Store, roles: set<nat>): set<string> {
    set r, name | r in roles && name in RoleScopes(db, r) :: name
  }

  predicate Privileged(db: Store, u: nat) {
    u in db.users && exists r :: r in db.users[u].roles && r in db.roles && db.roles[r].name in {"Super Admin", "Admin"}
  }

  function Holders(db: Store, r: nat): set<nat> {
    set u | u in db.users && r in db.users[u].roles
  }

  /** token_version = token_version + 1 for these users. */
  function Bump(db: Store, who: set<nat>): Store {
    db.(users := map u | u in db.users :: if u in who then db.users[u].(version := db.users[u].version + 1)
      else db.users[u])
  }

  predicate NameTaken(db: Store, name: string, self: nat) {
    exists r :: r in db.roles && r != self && db.roles[r].name == name
  }

  predicate Distinct(ids: seq<nat>) {
    forall i, j :: 0 <= i < j < |ids| ==> ids[i] != ids[j]
  }

  /** role_permissions accepts these rows: the role and the permissions exist and no pair comes twice. */
  predicate Insertable(db: Store, role: nat, ids: seq<nat>) {
    role in db.roles && Distinct(ids) && forall p :: p in ids ==> p in db.permissions
  }

  function Elements(ids: seq<nat>): set<nat> {
    set i | i in ids
  }

  /* ----- what changes roles: the store afterwards, and whether the operation raised ----- */

  function CreateRole(db: Store, id: nat, name: string, permissionIds: seq<nat>): (Store, bool) {
    if id in db.roles || NameTaken(db, name, id) then (db, true)
    else
      var bare := db.(roles := db.roles[id := Role(name, {})]);
      if permissionIds == [] then (bare, false)
      else if !Insertable(bare, id, permissionIds) then (bare, true)
      else (db.(roles := db.roles[id := Role(name, Elements(permissionIds))]), false)
  }

  function Renamed(db: Store, id: nat, name: Option<string>): Store {
    if name.Some? && id in db.roles then db.(roles := db.roles[id := db.roles[id].(name := name.value)]) else db
  }

  function WithPermissions(db: Store, id: nat, permissions: set<nat>): Store {
    if id in db.roles then db.(roles := db.roles[id := db.roles[id].(permissions := permissions)]) else db
  }

  /** A failing insert leaves the role with no permissions and its holders' versions as they were. */
  function UpdateRole(db: Store, id: nat, name: Option<string>, permissionIds: Option<seq<nat>>): (Store, bool) {
    if name.Some? && id in db.roles && NameTaken(db, name.value, id) then (db, true)
    else
      var named := Renamed(db, id, name);
      if permissionIds.None? then (Bump(named, Holders(db, id)), false)
      else if permissionIds.value == [] then (Bump(WithPermissions(named, id, {}), Holders(db, id)), false)
      else if !Insertable(db, id, permissionIds.value) then (WithPermissions(named, id, {}), true)
      else (Bump(WithPermissions(named, id, Elements(permissionIds.value)), Holders(db, id)), false)
  }

  /** The rows of these roles go, and with them their rows in user_roles and role_permissions. */
  function DropRoles(db: Store, ids: set<nat>): Store {
    db.(roles := db.roles - ids, users := map u | u in db.users :: db.users[u].(roles := db.users[u].roles - ids))
  }

  function DeleteRole(db: Store, id: nat): Store {
    DropRoles(Bump(db, Holders(db, id)), {id})
  }

  /** Both statements run whatever becomes of the other; an unknown role fails the insert. */
  function AssignRoles(db: Store, u: nat, ids: seq<nat>): (Store, bool) {
    if ids == [] then (db, false)
    else if u !in db.users then (db, true)
    else
      var known := forall r :: r in ids ==> r in db.roles;
      var user := db.users[u].(version := db.users[u].version + 1,
                               roles := if known then db.users[u].roles + Elements(ids) else db.users[u].roles);
      (db.(users := db.users[u := user]), !known)
  }

  /* ----- tokens ----- */

  datatype TokenType = Access | Refresh

  datatype Token = Token(kind: TokenType, user: nat, scopes: set<string>, version: nat, impersonator: Option<nat>)

  datatype AuthError = BadToken | NotEnoughPermissions | UserNotFound | VersionMismatch

  /** get_current_user, for a token whose signature and expiry hold. */
  function CurrentUser(db: Store, token: Token, revoked: bool, required: set<string>): Result<User, AuthError> {
    if token.kind != Access || revoked then Err(BadToken)
    else if !(required <= token.scopes) then Err(NotEnoughPermissions)
    else if token.user !in db.users then Err(UserNotFound)
    else if db.users[token.user].version != token.version then Err(VersionMismatch)
    else Ok(db.users[token.user])
  }

  function Issue(db: Store, u: nat, kind: TokenType, impersonator: Option<nat>): Token
    requires u in db.users
  {
    Token(kind, u, Scopes(db, db.users[u].roles), db.users[u].version, impersonator)
  }

  /* ----- runs ----- */

  /** The store, every user id ever used, and every token ever issued. */
  datatype State = State(db: Store, known: set<nat>, tokens: seq<Token>)

  datatype Step =
    | AddUser(user: nat, active: bool)
    | DeleteUsers(users: set<nat>)
    | Login(user: nat, verified: bool)
    | RefreshToken(index: nat, mfaAllows: bool)
    | Impersonate(admin: nat, target: nat, nested: bool)
    | Assign(user: nat, ids: seq<nat>)
    | Create(id: nat, name: string, permissionIds: seq<nat>)
    | Update(id: nat, rename: Option<string>, newPermissions: Option<seq<nat>>)
    | Delete(id: nat)
    | DeleteMany(roles: set<nat>)
    | UpdatePassword(user: nat)

  function IssuePair(s: State, u: nat): State
    requires u in s.db.users
  {
    s.(tokens := s.tokens + [Issue(s.db, u, Access, None), Issue(s.db, u, Refresh, None)])
  }

  predicate MayRefresh(s: State, index: nat) {
    && index < |s.tokens| && s.tokens[index].kind == Refresh && s.tokens[index].user in s.db.users
    && s.db.users[s.tokens[index].user].version == s.tokens[index].version
  }

  predicate MayImpersonate(s: State, admin: nat, target: nat, nested: bool) {
    !nested && admin != target && target in s.db.users && s.db.users[target].active && !Privileged(s.db, target)
  }

  function Next(s: State, step: Step): State {
    match step
    case AddUser(u, active) =>
      if u in s.known then s else State(s.db.(users := s.db.users[u := User(1, {}, active)]), s.known + {u}, s.tokens)
    case DeleteUsers(gone) => s.(db := s.db.(users := s.db.users - gone))
    case Login(u, verified) => if verified && u in s.db.users then IssuePair(s, u) else s
    case RefreshToken(i, mfaAllows) => if mfaAllows && MayRefresh(s, i) then IssuePair(s, s.tokens[i].user) else s
    case Impersonate(admin, target, nested) =>
      if MayImpersonate(s, admin, target, nested)
        then s.(tokens := s.tokens + [Issue(s.db, target, Access, Some(admin))]) else s
    case Assign(u, ids) => s.(db := AssignRoles(s.db, u, ids).0)
    case Create(id, name, permissionIds) => s.(db := CreateRole(s.db, id, name, permissionIds).0)
    case Update(id, name, permissionIds) => s.(db := UpdateRole(s.db, id, name, permissionIds).0)
    case Delete(id) => s.(db := DeleteRole(s.db, id))
    case DeleteMany(ids) => s.(db := DropRoles(s.db, ids))
    case UpdatePassword(u) => s.(db := Bump(s.db, {u}))
  }

  function Runs(s: State, steps: seq<Step>): State
    decreases |steps|
  {
    if steps == [] then s else Runs(Next(s, steps[0]), steps[1..])
  }

  /** The two ways roles change without a version: the bulk delete, and an update whose insert of permissions fails. */
  predicate Silent(db: Store, step: Step) {
    || step.DeleteMany?
    || (step.Update? && step.newPermissions.Some? && step.newPermissions.value != []
        && !Insertable(db, step.id, step.newPermissions.value)
        && !(step.rename.Some? && step.id in db.roles && NameTaken(db, step.rename.value, step.id)))
  }

  predicate NeverSilent(s: State, steps: seq<Step>)
    decreases |steps|
  {
    steps != [] ==> !Silent(s.db, steps[0]) && NeverSilent(Next(s, steps[0]), steps[1..])
  }

  /** No token is ahead of its user, and a token of the current version is what would be issued now. */
  predicate TokenIsFresh(s: State, t: Token) {
    && t.user in s.known
    && (t.user in s.db.users ==>
          && t.version <= s.db.users[t.user].version
          && (t.version == s.db.users[t.user].version ==>
                && t.scopes == Scopes(s.db, s.db.users[t.user].roles)
                && (t.impersonator.Some? ==> !Privileged(s.db, t.user))))
  }

  predicate Inv(s: State) {
    && Sound(s.db) && s.db.users.Keys <= s.known
    && forall i :: 0 <= i < |s.tokens| ==> TokenIsFresh(s, s.tokens[i])
  }

  lemma StepKeepsSound(s: State, step: Step)
    requires Sound(s.db) && s.db.users.Keys <= s.known
    ensures Sound(Next(s, step).db) && Next(s, step).db.users.Keys <= Next(s, step).known
  {
    hide Scopes, RoleScopes, Privileged, NameTaken;
    if step.Create? {
      CreateKeepsSound(s.db, step.id, step.name, step.permissionIds);
      hide CreateRole;
    } else if step.Update? {
      UpdateKeepsSound(s.db, step.id, step.rename, step.newPermissions);
      hide UpdateRole;
    } else {
      hide CreateRole, UpdateRole, Insertable;
    }
  }

  lemma CreateKeepsSound(db: Store, id: nat, name: string, permissionIds: seq<nat>)
    requires Sound(db)
    ensures Sound(CreateRole(db, id, name, permissionIds).0)
      && CreateRole(db, id, name, permissionIds).0.users == db.users
  {
    hide NameTaken;
  }

  lemma UpdateKeepsSound(db: Store, id: nat, name: Option<string>, permissionIds: Option<seq<nat>>)
    requires Sound(db)
    ensures Sound(UpdateRole(db, id, name, permissionIds).0)
      && UpdateRole(db, id, name, permissionIds).0.users.Keys == db.users.Keys
  {
    hide NameTaken, Holders;
  }

  lemma RolesHeldAreUntouched(s: State, step: Step, u: nat)
    requires Sound(s.db) && !Silent(s.db, step) && u in s.db.users && s.db.users.Keys <= s.known
    requires u in Next(s, step).db.users && s.db.users[u].version == Next(s, step).db.users[u].version
    ensures
      var t := Next(s, step);
      && t.db.users[u].roles == s.db.users[u].roles && t.db.permissions == s.db.permissions
      && forall r :: r in s.db.users[u].roles ==> r in t.db.roles && t.db.roles[r] == s.db.roles[r]
  {
    hide Scopes, RoleScopes, Privileged, Insertable, NameTaken;
    if step.Update? {
      UpdateTouchesOneRole(s.db, step.id, step.rename, step.newPermissions, u);
      hide UpdateRole;
    } else {
      hide UpdateRole;
      forall r | r in s.db.users[u].roles ensures r in Next(s, step).db.roles
        && Next(s, step).db.roles[r] == s.db.roles[r] {
        assert step.Delete? && step.id == r ==> u in Holders(s.db, r);
      }
    }
  }

  lemma UpdateTouchesOneRole(db: Store, id: nat, name: Option<string>, permissionIds: Option<seq<nat>>, u: nat)
    requires Sound(db) && u in db.users && !Silent(db, Update(id, name, permissionIds))
    ensures
      var after := UpdateRole(db, id, name, permissionIds).0;
      && u in after.users && after.users[u].roles == db.users[u].roles && after.permissions == db.permissions
      && (after.users[u].version == db.users[u].version ==>
            forall r :: r in db.users[u].roles ==> r in after.roles && after.roles[r] == db.roles[r])
  {
    hide Scopes, RoleScopes, Privileged, Insertable, NameTaken;
  }

  /** A user a step leaves at its version keeps, unless the step is silent, its permission names and its rank. */
  lemma UnbumpedUserIsUnchanged(s: State, step: Step, u: nat)
    requires Sound(s.db) && !Silent(s.db, step) && u in s.db.users && s.db.users.Keys <= s.known
    ensures
      var t := Next(s, step);
      u in t.db.users ==>
        && s.db.users[u].version <= t.db.users[u].version
        && (s.db.users[u].version == t.db.users[u].version ==>
              Scopes(t.db, t.db.users[u].roles) == Scopes(s.db, s.db.users[u].roles)
              && (Privileged(t.db, u) <==> Privileged(s.db, u)))
  {
    VersionsNeverFall(s, step, u);
    var t := Next(s, step);
    hide Next;
    if u in t.db.users && s.db.users[u].version == t.db.users[u].version {
      RolesHeldAreUntouched(s, step, u);
      hide Silent;
      SameRolesSameScopes(s.db, t.db, s.db.users[u].roles);
    }
  }

  lemma SameRolesSameScopes(a: Store, b: Store, roles: set<nat>)
    requires a.permissions == b.permissions
    requires forall r :: r in roles ==> r in a.roles && r in b.roles && a.roles[r] == b.roles[r]
    ensures Scopes(a, roles) == Scopes(b, roles)
  {
    forall r | r in roles ensures RoleScopes(a, r) == RoleScopes(b, r) {
    }
  }

  lemma StepKeepsInv(s: State, step: Step)
    requires Inv(s) && !Silent(s.db, step)
    ensures Inv(Next(s, step))
  {
    var t := Next(s, step);
    StepKeepsSound(s, step);
    forall i | 0 <= i < |t.tokens| ensures TokenIsFresh(t, t.tokens[i]) {
      if i < |s.tokens| {
        assert t.tokens[i] == s.tokens[i] by {
          hide Scopes, Privileged, Bump, AssignRoles, UpdateRole, CreateRole, DeleteRole;
        }
        OldTokenStaysFresh(s, step, s.tokens[i]);
      } else {
        hide Scopes, Privileged, Bump, AssignRoles, UpdateRole, CreateRole, DeleteRole;
      }
    }
  }

  lemma OldTokenStaysFresh(s: State, step: Step, t: Token)
    requires Inv(s) && !Silent(s.db, step) && TokenIsFresh(s, t)
    ensures TokenIsFresh(Next(s, step), t)
  {
    if t.user in s.db.users {
      UnbumpedUserIsUnchanged(s, step, t.user);
      KnownGrows(s, step);
      hide Next, Scopes, Privileged, Sound;
    } else {
      NoUserComesBack(s, step, t.user);
    }
  }

  lemma KnownGrows(s: State, step: Step)
    ensures s.known <= Next(s, step).known
  {
    hide Scopes, Privileged, Bump, AssignRoles, UpdateRole, CreateRole, DeleteRole;
  }

  lemma NoUserComesBack(s: State, step: Step, u: nat)
    requires u in s.known && u !in s.db.users
    ensures u in Next(s, step).known && u !in Next(s, step).db.users
  {
    hide Scopes, Privileged, Insertable, NameTaken;
  }

  lemma {:induction false} EveryRunKeepsInv(s: State, steps: seq<Step>)
    requires Inv(s) && NeverSilent(s, steps)
    ensures Inv(Runs(s, steps))
    decreases |steps|
  {
    hide Next, Inv, Silent;
    if steps != [] {
      StepKeepsInv(s, steps[0]);
      EveryRunKeepsInv(Next(s, steps[0]), steps[1..]);
    }
  }

  /**
   In every run without a silent step, a token that get_current_user accepts carries exactly the
   permission names of its user's current roles, so whatever the endpoint requires the user now
   has; and an accepted impersonation token is not for a holder of an administrator role.
   */
  lemma AcceptedTokensAreCurrent(s: State, steps: seq<Step>, token: Token, revoked: bool, required: set<string>)
    requires Inv(s) && NeverSilent(s, steps)
    requires token in Runs(s, steps).tokens && CurrentUser(Runs(s, steps).db, token, revoked, required).Ok?
    ensures
      var db := Runs(s, steps).db;
      && token.user in db.users && token.scopes == Scopes(db, db.users[token.user].roles)
      && required <= Scopes(db, db.users[token.user].roles)
      && (token.impersonator.Some? ==> !Privileged(db, token.user))
  {
    hide Next, Runs, Scopes, Privileged, NeverSilent;
    EveryRunKeepsInv(s, steps);
  }

  /* ----- versions only rise ----- */

  lemma VersionsNeverFall(s: State, step: Step, u: nat)
    requires u in s.db.users && s.db.users.Keys <= s.known
    ensures u in Next(s, step).db.users ==> Next(s, step).db.users[u].version >= s.db.users[u].version
  {
    hide Scopes, Privileged, Insertable, NameTaken;
  }

  lemma KeysStayKnown(s: State, step: Step)
    requires s.db.users.Keys <= s.known
    ensures Next(s, step).db.users.Keys <= Next(s, step).known
  {
    hide Scopes, Privileged, Insertable, NameTaken;
  }

  /** A token below its user's version, or without a user, is not accepted again in any run, silent steps included. */
  lemma {:induction false} OutdatedTokensStayOut(s: State, steps: seq<Step>, token: Token, revoked: bool,
          required: set<string>)
    requires s.db.users.Keys <= s.known && token.user in s.known
    requires token.user in s.db.users ==> token.version < s.db.users[token.user].version
    ensures CurrentUser(Runs(s, steps).db, token, revoked, required).Err?
    decreases |steps|
  {
    if steps != [] {
      var t := Next(s, steps[0]);
      KeysStayKnown(s, steps[0]);
      KnownGrows(s, steps[0]);
      if token.user in s.db.users {
        VersionsNeverFall(s, steps[0], token.user);
      } else {
        NoUserComesBack(s, steps[0], token.user);
      }
      hide Next;
      OutdatedTokensStayOut(t, steps[1..], token, revoked, required);
    }
  }

  /** The users whose version an operation raises. */
  function Affected(db: Store, step: Step): set<nat> {
    match step
    case UpdatePassword(u) => {u}
    case Assign(u, ids) => if ids == [] then {} else {u}
    case Delete(id) => Holders(db, id)
    case Update(id, name, permissionIds) => if UpdateRole(db, id, name, permissionIds).1 then {} else Holders(db, id)
    case _ => {}
  }

  /**
   A password change, a non-empty role assignment, a deletion of a role and an update of one that
   returns end every token their users had, for good; no other operation raises a version.
   */
  lemma BumpEndsOldTokens(s: State, step: Step, steps: seq<Step>, token: Token, revoked: bool, required: set<string>)
    requires s.db.users.Keys <= s.known && token.user in s.db.users && token.version <= s.db.users[token.user].version
    ensures
      token.user in Affected(s.db, step) ==> CurrentUser(Runs(Next(s, step), steps).db, token, revoked, required).Err?
    ensures
      token.user !in Affected(s.db, step) && token.user in Next(s, step).db.users ==>
        Next(s, step).db.users[token.user].version == s.db.users[token.user].version
  {
    KeysStayKnown(s, step);
    KnownGrows(s, step);
    AffectedAreBumped(s, step, token.user);
    if token.user in Affected(s.db, step) {
      hide Next, Affected;
      OutdatedTokensStayOut(Next(s, step), steps, token, revoked, required);
    }
  }

  lemma AffectedAreBumped(s: State, step: Step, u: nat)
    requires u in s.db.users && s.db.users.Keys <= s.known
    ensures u in Next(s, step).db.users ==>
      Next(s, step).db.users[u].version == s.db.users[u].version + if u in Affected(s.db, step) then 1 else 0
  {
    hide Scopes, Privileged, Insertable, NameTaken;
  }

  /* ----- the silent steps ----- */

  /**
   A bulk delete leaves a current token accepted with the scopes it had. They are still the user's
   if and only if every permission name of a deleted role of the user is also in a remaining one.
   */
  lemma BulkDeleteLeavesScopes(s: State, ids: set<nat>, token: Token, revoked: bool, required: set<string>)
    requires Inv(s) && token in s.tokens && CurrentUser(s.db, token, revoked, required).Ok?
    ensures
      var t := Next(s, DeleteMany(ids));
      var held := s.db.users[token.user].roles;
      && CurrentUser(t.db, token, revoked, required).Ok?
      && token.scopes == Scopes(t.db, t.db.users[token.user].roles) + Scopes(s.db, held * ids)
      && (token.scopes == Scopes(t.db, t.db.users[token.user].roles)
          <==> Scopes(s.db, held * ids) <= Scopes(s.db, held - ids))
  {
    var t := Next(s, DeleteMany(ids));
    var held := s.db.users[token.user].roles;
    assert TokenIsFresh(s, token);
    assert held == (held - ids) + (held * ids);
    ScopesOfUnion(s.db, held - ids, held * ids);
    SameRolesSameScopes(s.db, t.db, held - ids);
  }

  lemma ScopesOfUnion(db: Store, a: set<nat>, b: set<nat>)
    ensures Scopes(db, a + b) == Scopes(db, a) + Scopes(db, b)
  {
    hide RoleScopes;
  }

  /**
   An update that raises on its permissions has already emptied the role, and its holders' tokens
   stay accepted with what the role gave; they are still right if and only if the other roles give it too.
   */
  lemma FailedUpdateLeavesScopes(s: State, step: Step, token: Token, revoked: bool, required: set<string>)
    requires Inv(s) && step.Update? && Silent(s.db, step) && token in s.tokens
      && CurrentUser(s.db, token, revoked, required).Ok?
    requires step.id in s.db.users[token.user].roles
    ensures
      var t := Next(s, step);
      var others := s.db.users[token.user].roles - {step.id};
      && UpdateRole(s.db, step.id, step.rename, step.newPermissions).1
      && CurrentUser(t.db, token, revoked, required).Ok?
      && (token.scopes == Scopes(t.db, t.db.users[token.user].roles)
          <==> RoleScopes(s.db, step.id) <= Scopes(s.db, others))
  {
    var t := Next(s, step);
    hide NameTaken;
    var held := s.db.users[token.user].roles;
    var others := held - {step.id};
    assert TokenIsFresh(s, token);
    assert held == others + {step.id};
    ScopesOfUnion(s.db, others, {step.id});
    ScopesOfUnion(t.db, others, {step.id});
    SameRolesSameScopes(s.db, t.db, others);
    ScopesOfOne(s.db, step.id);
    ScopesOfOne(t.db, step.id);
    assert RoleScopes(t.db, step.id) == {};
  }

  lemma ScopesOfOne(db: Store, r: nat)
    ensures Scopes(db, {r}) == RoleScopes(db, r)
  {
    hide RoleScopes;
    assert r in {r};
  }

  /* ----- runs with silent steps ----- */

  /** The roles of a user that a step empties or deletes without a new version. */
  function SilentlyEmptied(db: Store, step: Step, u: nat): set<nat>
    requires u in db.users
  {
    match step
    case DeleteMany(ids) => db.users[u].roles * ids
    case Update(id, _, _) => if Silent(db, step) then db.users[u].roles * {id} else {}
    case _ => {}
  }

  /** Some permission name of those is in no other role of the user. */
  predicate TakesNames(db: Store, step: Step, u: nat) {
    u in db.users &&
    var emptied := SilentlyEmptied(db, step, u);
    !(Scopes(db, emptied) <= Scopes(db, db.users[u].roles - emptied))
  }

  predicate TakesNamesDuring(s: State, steps: seq<Step>, u: nat)
    decreases |steps|
  {
    steps != [] && (TakesNames(s.db, steps[0], u) || TakesNamesDuring(Next(s, steps[0]), steps[1..], u))
  }

  function NamesOf(db: Store, u: nat): set<string>
    requires u in db.users
  {
    Scopes(db, db.users[u].roles)
  }

  /** While its version stays a user's names only shrink, and exactly where a silent step takes one. */
  lemma NamesOnlyShrink(s: State, step: Step, u: nat)
    requires Sound(s.db) && s.db.users.Keys <= s.known && u in s.db.users
    requires u in Next(s, step).db.users && Next(s, step).db.users[u].version == s.db.users[u].version
    ensures NamesOf(Next(s, step).db, u) <= NamesOf(s.db, u)
    ensures NamesOf(Next(s, step).db, u) == NamesOf(s.db, u) <==> !TakesNames(s.db, step, u)
  {
    if !Silent(s.db, step) {
      UnbumpedUserIsUnchanged(s, step, u);
      hide Next, Silent;
      assert SilentlyEmptied(s.db, step, u) == {};
      NoScopesOfNone(s.db);
    } else {
      SilentStepKeepsTheRest(s, step, u);
    }
  }

  lemma NoScopesOfNone(db: Store)
    ensures Scopes(db, {}) == {}
  {
  }

  /** After a silent step a user has the names of the roles it has not emptied. */
  lemma SilentStepKeepsTheRest(s: State, step: Step, u: nat)
    requires Sound(s.db) && u in s.db.users && Silent(s.db, step)
    ensures u in Next(s, step).db.users
    ensures
      var rest := Scopes(s.db, s.db.users[u].roles - SilentlyEmptied(s.db, step, u));
      && NamesOf(Next(s, step).db, u) == rest
      && NamesOf(s.db, u) == rest + Scopes(s.db, SilentlyEmptied(s.db, step, u))
  {
    var held, emptied := s.db.users[u].roles, SilentlyEmptied(s.db, step, u);
    assert held == (held - emptied) + emptied;
    ScopesOfUnion(s.db, held - emptied, emptied);
    var t := Next(s, step);
    if step.DeleteMany? {
      assert held - emptied == held - step.roles;
      SameRolesSameScopes(s.db, t.db, held - emptied);
    } else {
      FailedUpdateEmptiesOne(s, step, u);
    }
  }

  lemma FailedUpdateEmptiesOne(s: State, step: Step, u: nat)
    requires Sound(s.db) && u in s.db.users && step.Update? && Silent(s.db, step)
    ensures u in Next(s, step).db.users
    ensures NamesOf(Next(s, step).db, u) == Scopes(s.db, s.db.users[u].roles - {step.id})
  {
    hide NameTaken, Insertable;
    var t := Next(s, step);
    var held := s.db.users[u].roles;
    assert t.db.users == s.db.users;
    SameRolesSameScopes(s.db, t.db, held - {step.id});
    if step.id in held {
      assert held == (held - {step.id}) + {step.id};
      ScopesOfUnion(t.db, held - {step.id}, {step.id});
      ScopesOfOne(t.db, step.id);
      assert RoleScopes(t.db, step.id) == {};
    } else {
      assert held - {step.id} == held;
    }
  }

  lemma {:induction false} EveryRunKeepsSound(s: State, steps: seq<Step>)
    requires Sound(s.db) && s.db.users.Keys <= s.known
    ensures Sound(Runs(s, steps).db) && Runs(s, steps).db.users.Keys <= Runs(s, steps).known
    decreases |steps|
  {
    if steps != [] {
      StepKeepsSound(s, steps[0]);
      hide Next, Sound;
      EveryRunKeepsSound(Next(s, steps[0]), steps[1..]);
    }
  }

  /** Of a token of the current version of its user, still accepted after a run: what became of the names. */
  lemma {:induction false} NamesShrinkAlong(s: State, steps: seq<Step>, token: Token, revoked: bool,
          required: set<string>)
    requires Sound(s.db) && s.db.users.Keys <= s.known
    requires token.user in s.db.users && token.version == s.db.users[token.user].version
    requires CurrentUser(Runs(s, steps).db, token, revoked, required).Ok?
    ensures
      var db := Runs(s, steps).db;
      && token.user in db.users && NamesOf(db, token.user) <= NamesOf(s.db, token.user)
      && (NamesOf(db, token.user) == NamesOf(s.db, token.user) <==> !TakesNamesDuring(s, steps, token.user))
    decreases |steps|
  {
    if steps != [] {
      var t, u := Next(s, steps[0]), token.user;
      StepKeepsSound(s, steps[0]);
      KnownGrows(s, steps[0]);
      VersionsNeverFall(s, steps[0], u);
      if u !in t.db.users || token.version != t.db.users[u].version {
        OutdatedTokensStayOut(t, steps[1..], token, revoked, required);
        assert false;
      } else {
        NamesOnlyShrink(s, steps[0], u);
        hide Next, Sound, TakesNames, NamesOf;
        NamesShrinkAlong(t, steps[1..], token, revoked, required);
      }
    }
  }

  /** The tokens a step adds. */
  function Issued(s: State, step: Step): seq<Token> {
    var tokens := Next(s, step).tokens;
    if |s.tokens| <= |tokens| then tokens[|s.tokens|..] else []
  }

  lemma IssuedTokenIsCurrent(s: State, step: Step, token: Token)
    requires token in Issued(s, step)
    ensures
      var db := Next(s, step).db;
      token.user in db.users && token.version == db.users[token.user].version && token.scopes == NamesOf(db, token.user)
  {
    hide Scopes, Privileged, Bump, AssignRoles, UpdateRole, CreateRole, DeleteRole;
  }

  /**
   In every run, silent steps included: a token that is accepted carries at least the permission names its
   user now has; and no more if and only if no silent step since its issue took one of the user's names away.
   */
  lemma AcceptedTokensAreNeverShort(s: State, before: seq<Step>, step: Step, after: seq<Step>, token: Token,
          revoked: bool, required: set<string>)
    requires Sound(s.db) && s.db.users.Keys <= s.known
    requires token in Issued(Runs(s, before), step)
    requires CurrentUser(Runs(Next(Runs(s, before), step), after).db, token, revoked, required).Ok?
    ensures
      var issued := Next(Runs(s, before), step);
      var db := Runs(issued, after).db;
      && token.user in db.users && NamesOf(db, token.user) <= token.scopes
      && (NamesOf(db, token.user) == token.scopes <==> !TakesNamesDuring(issued, after, token.user))
  {
    EveryRunKeepsSound(s, before);
    var issuing := Runs(s, before);
    IssuedTokenIsCurrent(issuing, step, token);
    StepKeepsSound(issuing, step);
    hide Runs, Next, Issued, CurrentUser, NamesOf;
    NamesShrinkAlong(Next(issuing, step), after, token, revoked, required);
  }
}
