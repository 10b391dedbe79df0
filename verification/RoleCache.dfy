/**
 The cache decorator in front of the role reads: one Redis hash holds a field per read and is
 dropped whole by every mutator of roles that returns.
 */
module RoleCache {
  import opened Wrappers
  import opened Text
  import Pagination
  import opened TokenScopes

  /* ----- the uncached reads ----- */

  datatype RoleRow = RoleRow(id: nat, role: Role)

  datatype Read = ById(id: nat) | All(limit: nat, cursor: Option<string>)

  datatype Value = One(row: RoleRow) | Many(rows: seq<RoleRow>)

  datatype ReadError = NotAnId

  /** How ids are written in field names and read from cursors. */
  datatype Naming = Naming(show: nat -> string, parse: string -> Option<nat>)

  predicate IdChar(c: char) {
    c == '-' || IsDigit(c) || 'a' <= c <= 'f'
  }

  /** Ids are written in hexadecimal digits and dashes, one way each; "None" is not an id. */
  ghost predicate Canonical(naming: Naming) {
    && (forall id: nat {:trigger naming.show(id)} :: naming.show(id) != ""
          && forall c :: c in naming.show(id) ==> IdChar(c))
    && (forall i: nat, j: nat {:trigger naming.show(i), naming.show(j)} :: naming.show(i) == naming.show(j) ==> i == j)
    && naming.parse("None").None?
  }

  function RowsOf(db: Store, ids: seq<nat>): seq<RoleRow>
    requires forall id :: id in ids ==> id in db.roles
  {
    seq(|ids|, i requires 0 <= i < |ids| => RoleRow(ids[i], db.roles[ids[i]]))
  }

  /** What the database answers; None where the source returns None. */
  function Uncached(db: Store, read: Read, naming: Naming): Result<Option<Value>, ReadError> {
    match read
    case ById(id) => Ok(if id in db.roles then Some(One(RoleRow(id, db.roles[id]))) else None)
    case All(limit, cursor) =>
      if cursor.None? || cursor.value == "" then Ok(Some(Many(Page(db, None, limit))))
      else if naming.parse(cursor.value).None? then Err(NotAnId)
      else Ok(Some(Many(Page(db, naming.parse(cursor.value), limit))))
  }

  /** The roles below the cursor in descending order of id, at most `limit` of them. */
  function Page(db: Store, below: Option<nat>, limit: nat): seq<RoleRow> {
    Pagination.TakenFromTheTop(db.roles.Keys, limit, below);
    RowsOf(db, Pagination.Top(db.roles.Keys, below, limit))
  }

  /** One role, as its row is. */
  lemma OneRoleIsRead(db: Store, id: nat, naming: Naming)
    ensures
      var answer := Uncached(db, ById(id), naming);
      && answer.Ok? && (answer.value.Some? <==> id in db.roles)
      && (id in db.roles ==> answer.value.value == One(RoleRow(id, db.roles[id])))
  {
  }

  /** These rows are roles below the cursor, from the highest id down; a full page of them, or all there are. */
  ghost predicate ListsFrom(db: Store, below: Option<nat>, limit: nat, rows: seq<RoleRow>) {
    && |rows| <= limit
    && (forall i :: 0 <= i < |rows| ==> rows[i].id in db.roles && rows[i].role == db.roles[rows[i].id])
    && (forall i, j :: 0 <= i < j < |rows| ==> rows[i].id > rows[j].id)
    && (forall i :: 0 <= i < |rows| && below.Some? ==> rows[i].id < below.value)
    && forall id :: id in db.roles && (below.Some? ==> id < below.value) ==>
         Lists(rows, id) || (|rows| == limit && forall i :: 0 <= i < |rows| ==> id < rows[i].id)
  }

  predicate Lists(rows: seq<RoleRow>, id: nat) {
    exists i :: 0 <= i < |rows| && rows[i].id == id
  }

  /** A list read lists the roles from the start, or below the id its cursor names; any other cursor is an error. */
  lemma RolesAreListed(db: Store, limit: nat, cursor: Option<string>, naming: Naming)
    ensures
      var answer := Uncached(db, All(limit, cursor), naming);
      var fromTheStart := cursor.None? || cursor.value == "";
      && (answer.Err? <==> !fromTheStart && naming.parse(cursor.value).None?)
      && (answer.Ok? ==>
            && answer.value.Some? && answer.value.value.Many?
            && ListsFrom(db, if fromTheStart then None else naming.parse(cursor.value), limit,
                         answer.value.value.rows))
  {
    PageLists(db, None, limit);
    if cursor.Some? { PageLists(db, naming.parse(cursor.value), limit); }
    hide Page, ListsFrom;
  }

  lemma PageLists(db: Store, below: Option<nat>, limit: nat)
    ensures ListsFrom(db, below, limit, Page(db, below, limit))
  {
    Pagination.TakenFromTheTop(db.roles.Keys, limit, below);
    Pagination.TopIs(db.roles.Keys, below, limit);
    RowsList(db, below, limit, Pagination.Top(db.roles.Keys, below, limit));
    hide Pagination.Top, ListsFrom, RowsOf;
  }

  lemma RowsList(db: Store, below: Option<nat>, limit: nat, ids: seq<nat>)
    requires Pagination.IsTop(db.roles.Keys, below, limit, ids)
    ensures (forall id :: id in ids ==> id in db.roles) && ListsFrom(db, below, limit, RowsOf(db, ids))
  {
    var rows := RowsOf(db, ids);
    forall id | id in ids ensures Lists(rows, id) {
      var i :| 0 <= i < |ids| && ids[i] == id;
      assert rows[i].id == id;
    }
    forall i | 0 <= i < |rows| ensures rows[i].id in ids && rows[i].role == db.roles[rows[i].id] {
      assert rows[i].id == ids[i];
    }
    assert Pagination.Descending(ids);
    forall i, j | 0 <= i < j < |rows| ensures rows[i].id > rows[j].id {
      assert ids[i] > ids[j];
    }
    assert forall id: nat :: Pagination.Asked(db.roles.Keys, below, id) <==>
      id in db.roles && (below.Some? ==> id < below.value);
    hide Lists, Pagination.Descending;
  }

  /* ----- field names ----- */

  function Printed(cursor: Option<string>): string {
    if cursor.None? then "None" else cursor.value
  }

  /** _generate_key: the patterns "{role_id}" and "all:{limit}:{cursor}"; a missing cursor prints as None. */
  function Field(read: Read, naming: Naming): string {
    match read
    case ById(id) => naming.show(id)
    case All(limit, cursor) => "all:" + Decimal(limit) + ":" + Printed(cursor)
  }

  lemma DecimalHasNoColon(n: nat)
    ensures ':' !in Decimal(n)
  {
  }

  /**
   Two reads share a field only if they are the same read, or both list with the same limit, one
   without a cursor and one with the text "None". The two families never meet.
   */
  lemma FieldsCollideOnlyOnNone(p: Read, q: Read, naming: Naming)
    requires Canonical(naming)
    ensures Field(p, naming) == Field(q, naming)
      <==> p == q || (p.All? && q.All? && p.limit == q.limit && Printed(p.cursor) == Printed(q.cursor) == "None")
  {
    if p.All? && q.All? {
      ListFieldsAreInjective(p.limit, p.cursor, q.limit, q.cursor, naming);
    } else if p.ById? && q.All? {
      FamiliesAreDisjoint(p.id, q.limit, q.cursor, naming);
    } else if p.All? && q.ById? {
      FamiliesAreDisjoint(q.id, p.limit, p.cursor, naming);
    }
  }

  lemma ListFieldsAreInjective(m: nat, c: Option<string>, n: nat, d: Option<string>, naming: Naming)
    ensures Field(All(m, c), naming) == Field(All(n, d), naming) <==> m == n && Printed(c) == Printed(d)
  {
    DecimalHasNoColon(m);
    DecimalHasNoColon(n);
    DecimalRoundTrip(m);
    DecimalRoundTrip(n);
    var a, b := Field(All(m, c), naming), Field(All(n, d), naming);
    hide Decimal, DecimalValue;
    assert a[4..] == Decimal(m) + ":" + Printed(c) && b[4..] == Decimal(n) + ":" + Printed(d);
    if a == b {
      ColonSplits(Decimal(m), Printed(c), Decimal(n), Printed(d));
    }
  }

  lemma FamiliesAreDisjoint(id: nat, limit: nat, cursor: Option<string>, naming: Naming)
    requires Canonical(naming)
    ensures Field(ById(id), naming) != Field(All(limit, cursor), naming)
  {
    var list := Field(All(limit, cursor), naming);
    assert list[1] == 'l' && !IdChar('l');
    assert 'l' in list && 'l' !in naming.show(id);
  }

  /* ----- the cache ----- */

  /** The tables and the live fields of the hash. */
  datatype Cached = Cached(state: State, hash: map<string, Value>)

  datatype Op =
    | Lookup(read: Read, get: bool, save: bool)
    | Mutate(step: Step, deletes: bool)
    | Other(otherStep: Step)
    | ExpireHash

  /** What the decorated read returns: the field if it can be had, else the database's answer. */
  function Answer(c: Cached, read: Read, get: bool, naming: Naming): Result<Option<Value>, ReadError> {
    var field := Field(read, naming);
    if get && field in c.hash then Ok(Some(c.hash[field])) else Uncached(c.state.db, read, naming)
  }

  function AfterLookup(c: Cached, read: Read, get: bool, save: bool, naming: Naming): Cached {
    var field := Field(read, naming);
    var result := Uncached(c.state.db, read, naming);
    if (get && field in c.hash) || !save || result.Err? || result.value.None? then c
    else c.(hash := c.hash[field := result.value.value])
  }

  /** The operations behind cache_invalidate. */
  predicate IsMutator(step: Step) {
    step.Create? || step.Update? || step.Delete? || step.DeleteMany?
  }

  predicate Raises(db: Store, step: Step) {
    match step
    case Create(id, name, permissionIds) => CreateRole(db, id, name, permissionIds).1
    case Update(id, name, permissionIds) => UpdateRole(db, id, name, permissionIds).1
    case _ => false
  }

  function NextOp(c: Cached, op: Op, naming: Naming): Cached {
    match op
    case Lookup(read, get, save) => AfterLookup(c, read, get, save, naming)
    case Mutate(step, deletes) =>
      if !IsMutator(step) then c
      else Cached(Next(c.state, step), if deletes && !Raises(c.state.db, step) then map[] else c.hash)
    case Other(step) => if IsMutator(step) then c else c.(state := Next(c.state, step))
    case ExpireHash => c.(hash := map[])
  }

  function RunOps(c: Cached, ops: seq<Op>, naming: Naming): Cached
    decreases |ops|
  {
    if ops == [] then c else RunOps(NextOp(c, ops[0], naming), ops[1..], naming)
  }

  /** Every mutator returns, or raises before it has written, and every delete of the hash works. */
  predicate Orderly(c: Cached, ops: seq<Op>, naming: Naming)
    decreases |ops|
  {
    ops != [] ==>
      && (ops[0].Mutate? && IsMutator(ops[0].step) ==>
            if Raises(c.state.db, ops[0].step) then Next(c.state, ops[0].step).db.roles == c.state.db.roles
              else ops[0].deletes)
      && Orderly(NextOp(c, ops[0], naming), ops[1..], naming)
  }

  /** The text "None" stands where no cursor was given: the one cursor the field name cannot tell from its absence. */
  predicate Ambiguous(read: Read) {
    read.All? && read.cursor == Some("None")
  }

  ghost predicate Agrees(c: Cached, naming: Naming) {
    forall read: Read :: !Ambiguous(read) && Field(read, naming) in c.hash
      ==> Uncached(c.state.db, read, naming) == Ok(Some(c.hash[Field(read, naming)]))
  }

  lemma SameRolesSameReads(a: Store, b: Store, read: Read, naming: Naming)
    requires a.roles == b.roles
    ensures Uncached(a, read, naming) == Uncached(b, read, naming)
  {
  }

  lemma OthersKeepRoles(s: State, step: Step)
    requires !IsMutator(step)
    ensures Next(s, step).db.roles == s.db.roles
  {
    hide Scopes, Privileged, Insertable;
  }

  lemma OpKeepsAgreement(c: Cached, op: Op, naming: Naming)
    requires Canonical(naming) && Agrees(c, naming) && Orderly(c, [op], naming)
    ensures Agrees(NextOp(c, op, naming), naming)
  {
    hide Canonical, Next, Raises;
    var d := NextOp(c, op, naming);
    assert [op][0] == op;
    forall read: Read | !Ambiguous(read) && Field(read, naming) in d.hash
      ensures Uncached(d.state.db, read, naming) == Ok(Some(d.hash[Field(read, naming)]))
    {
      match op
      case Lookup(r, get, save) => {
        FieldsCollideOnlyOnNone(read, r, naming);
        NoneIsNotAnId(c.state.db, r, naming);
      }
      case Mutate(step, deletes) => {
        if IsMutator(step) { SameReadsIfKept(c.state, step, read, naming); }
      }
      case Other(step) => {
        if !IsMutator(step) {
          OthersKeepRoles(c.state, step);
          SameRolesSameReads(c.state.db, Next(c.state, step).db, read, naming);
        }
      }
      case ExpireHash =>
    }
  }

  lemma SameReadsIfKept(s: State, step: Step, read: Read, naming: Naming)
    ensures Next(s, step).db.roles == s.db.roles ==>
      Uncached(Next(s, step).db, read, naming) == Uncached(s.db, read, naming)
  {
    hide Next;
    if Next(s, step).db.roles == s.db.roles { SameRolesSameReads(Next(s, step).db, s.db, read, naming); }
  }

  lemma NoneIsNotAnId(db: Store, read: Read, naming: Naming)
    requires Canonical(naming)
    ensures Ambiguous(read) ==> Uncached(db, read, naming).Err?
  {
  }

  lemma {:induction false} EveryRunAgrees(c: Cached, ops: seq<Op>, naming: Naming)
    requires Canonical(naming) && Agrees(c, naming) && Orderly(c, ops, naming)
    ensures Agrees(RunOps(c, ops, naming), naming)
    decreases |ops|
  {
    hide Canonical, Agrees, NextOp;
    if ops != [] {
      assert Orderly(c, [ops[0]], naming) by { assert [ops[0]][0] == ops[0]; }
      OpKeepsAgreement(c, ops[0], naming);
      EveryRunAgrees(NextOp(c, ops[0], naming), ops[1..], naming);
    }
  }

  /**
   In every sequential run of reads, mutators, expiry and failing cache reads and writes, the cached
   reads return what the uncached ones return, whatever the cache does; only a list read with the
   cursor text "None" may be answered with the first page, exactly while that page is cached.
   */
  lemma CachedReadsAreTheReads(db: State, ops: seq<Op>, read: Read, get: bool, naming: Naming)
    requires Canonical(naming) && Orderly(Cached(db, map[]), ops, naming)
    ensures
      var c := RunOps(Cached(db, map[]), ops, naming);
      (Answer(c, read, get, naming) == Uncached(c.state.db, read, naming))
        <==> !(Ambiguous(read) && get && Field(All(read.limit, None), naming) in c.hash)
  {
    hide Next;
    EveryRunAgrees(Cached(db, map[]), ops, naming);
    var c := RunOps(Cached(db, map[]), ops, naming);
    NoneIsNotAnId(c.state.db, read, naming);
  }

  /**
   When the delete of the hash fails, or the mutator raises after writing, a cached role is served
   as it was; that is right if and only if the operation left this role alone.
   */
  lemma SkippedInvalidationServesTheOldRole(c: Cached, step: Step, deletes: bool, id: nat, naming: Naming)
    requires Canonical(naming) && Agrees(c, naming) && IsMutator(step) && Field(ById(id), naming) in c.hash
    requires !deletes || Raises(c.state.db, step)
    ensures
      var d := NextOp(c, Mutate(step, deletes), naming);
      && Answer(d, ById(id), true, naming) == Uncached(c.state.db, ById(id), naming)
      && (Answer(d, ById(id), true, naming) == Uncached(d.state.db, ById(id), naming)
          <==> id in c.state.db.roles && id in d.state.db.roles && d.state.db.roles[id] == c.state.db.roles[id])
  {
    hide Next, Raises, Canonical;
    assert !Ambiguous(ById(id));
  }

  /* ----- the decorators ----- */

  class RoleHash {
    var fields: map<string, Value>

    /** _get_from_cache; a failing read is a miss. */
    method GetFromCache(field: string, get: bool) returns (value: Option<Value>)
      ensures value == if get && field in fields then Some(fields[field]) else None
    {
      if !get || field !in fields {
        return None;
      }
      return Some(fields[field]);
    }

    /** _save_to_cache; None is not saved and a failing write is swallowed. */
    method SaveToCache(field: string, value: Option<Value>, save: bool)
      modifies this
      ensures fields == if value.Some? && save then old(fields)[field := value.value] else old(fields)
    {
      if value.Some? && save {
        fields := fields[field := value.value];
      }
    }

    /** The wrapper of cache around a read of the tables. */
    method CachedRead(state: State, read: Read, get: bool, save: bool, naming: Naming)
      returns (result: Result<Option<Value>, ReadError>)
      modifies this
      ensures result == Answer(Cached(state, old(fields)), read, get, naming)
      ensures Cached(state, fields) == AfterLookup(Cached(state, old(fields)), read, get, save, naming)
    {
      var field := Field(read, naming);
      var cached := GetFromCache(field, get);
      if cached.Some? {
        return Ok(cached);
      }
      result := Uncached(state.db, read, naming);
      if result.Ok? {
        SaveToCache(field, result.value, save);
      }
    }

    /** The wrapper of cache_invalidate: the operation first, then the whole hash unless it raised. */
    method Invalidating(state: State, step: Step, deletes: bool, naming: Naming) returns (after: State, raised: bool)
      requires IsMutator(step)
      modifies this
      ensures Cached(after, fields) == NextOp(Cached(state, old(fields)), Mutate(step, deletes), naming)
      ensures raised == Raises(state.db, step)
    {
      after, raised := Next(state, step), Raises(state.db, step);
      if !raised && deletes {
        fields := map[];
      }
    }
  }
}
