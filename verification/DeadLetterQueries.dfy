/**
 The dead-letter DAO: filters compiled to a list query and to a count query, and the bulk update
 of stored payloads.
 */
module DeadLetterQueries {
  import opened Wrappers
  import opened SqlConditions

  const SEARCHED := ["task_name", "exception_message", "traceback"]

  datatype TaskFilter = TaskFilter(
    taskName: Option<string>, exceptionType: Option<string>, search: Option<string>,
    dateFrom: Option<int>, dateTo: Option<int>)

  /** What the filter asks of a row. */
  predicate Matches(server: Server, f: TaskFilter, row: Row) {
    && (Given(f.taskName) ==> Get(row, "task_name") == Text(f.taskName.value))
    && (Given(f.exceptionType) ==> Get(row, "exception_type") == Text(f.exceptionType.value))
    && (Given(f.search) ==>
          exists c :: c in SEARCHED && Compare(server, ILike, Get(row, c), Containing(f.search.value)))
    && (f.dateFrom.Some? ==> Compare(server, Ge, Get(row, "failed_at"), Time(f.dateFrom.value)))
    && (f.dateTo.Some? ==> Compare(server, Le, Get(row, "failed_at"), Time(f.dateTo.value)))
  }

  predicate IsBelow(server: Server, cursor: Option<string>, row: Row) {
    Given(cursor) ==> Compare(server, LtUuid, Get(row, "id"), Text(cursor.value))
  }

  /** A cursor, if given, that can be cast. */
  predicate IsUuid(server: Server, cursor: Option<string>) {
    Given(cursor) ==> server.uuid(cursor.value).Some?
  }

  function WantsOf(f: TaskFilter): seq<Want> {
    var w2 := IfText(IfText([], "task_name", Eq, f.taskName), "exception_type", Eq, f.exceptionType);
    IfTime(IfTime(IfContains(w2, SEARCHED, f.search), "failed_at", Ge, f.dateFrom), "failed_at", Le, f.dateTo)
  }

  lemma WantsMatch(server: Server, f: TaskFilter, row: Row)
    ensures PassesAll(server, WantsOf(f), row) <==> Matches(server, f, row)
  {
    hide PassesAll, IfText, IfContains, IfTime;
    var w1 := IfText([], "task_name", Eq, f.taskName);
    var w2 := IfText(w1, "exception_type", Eq, f.exceptionType);
    var w3 := IfContains(w2, SEARCHED, f.search);
    var w4 := IfTime(w3, "failed_at", Ge, f.dateFrom);
    PassesNothing(server, row);
    PassesIfText(server, [], "task_name", Eq, f.taskName, row);
    PassesIfText(server, w1, "exception_type", Eq, f.exceptionType, row);
    PassesIfContains(server, w2, SEARCHED, f.search, row);
    PassesIfTime(server, w3, "failed_at", Ge, f.dateFrom, row);
    PassesIfTime(server, w4, "failed_at", Le, f.dateTo, row);
  }

  /** The LIMIT and OFFSET of list_tasks, each with its own parameter. */
  method Paged(server: Server, b: Builder, limit: Option<int>, offset: int) returns (q: Query)
    requires b.Valid()
    modifies b
    ensures b.wants == old(b.wants) && WellFormed(q)
    ensures forall row :: Selects(server, q.conditions, q.params, row) <==> PassesAll(server, b.wants, row)
    ensures Casts(server, q.conditions, q.params) <==> AllCast(server, b.wants)
    ensures LimitOf(q) == if limit.Some? && limit.value > 0 then limit else None
    ensures OffsetOf(q) == if offset > 0 then offset else 0
  {
    hide Selects, Casts, Compiled, PassesAll, AllCast;
    var limitIndex, offsetIndex := None, None;
    if limit.Some? && limit.value > 0 {
      b.Extend([Number(limit.value)]);
      limitIndex := Some(|b.params|);
    }
    if offset > 0 {
      b.Extend([Number(offset)]);
      offsetIndex := Some(|b.params|);
    }
    q := Query(b.conditions, b.params, limitIndex, offsetIndex);
    CompiledSelectsAll(server, q.conditions, q.params, b.wants);
    CompiledCasts(server, q.conditions, q.params, b.wants);
  }

  /**
   list_tasks: the query selects the rows the filter means below the cursor, and carries limit and offset where
   they are positive.
   */
  method ListTasks(server: Server, filters: TaskFilter, limit: Option<int>, cursor: Option<string>, offset: int)
    returns (q: Query)
    ensures WellFormed(q)
    ensures forall row :: Selects(server, q.conditions, q.params, row) <==>
      Matches(server, filters, row) && IsBelow(server, cursor, row)
    ensures Casts(server, q.conditions, q.params) <==> IsUuid(server, cursor)
    ensures LimitOf(q) == if limit.Some? && limit.value > 0 then limit else None
    ensures OffsetOf(q) == if offset > 0 then offset else 0
  {
    hide Selects, Casts, Compiled, Tests, Matches, Containing, IsBelow;
    var b := new Builder([Always]);
    if Given(filters.taskName) {
      b.Add(["task_name"], Eq, Text(filters.taskName.value));
    }
    if Given(filters.exceptionType) {
      b.Add(["exception_type"], Eq, Text(filters.exceptionType.value));
    }
    if Given(filters.search) {
      b.Add(SEARCHED, ILike, Containing(filters.search.value));
    }
    if filters.dateFrom.Some? {
      b.Add(["failed_at"], Ge, Time(filters.dateFrom.value));
    }
    if filters.dateTo.Some? {
      b.Add(["failed_at"], Le, Time(filters.dateTo.value));
    }
    assert b.wants == WantsOf(filters);
    if Given(cursor) {
      b.Add(["id"], LtUuid, Text(cursor.value));
    }
    assert b.wants == BoundedWants(filters, cursor);
    q := Paged(server, b, limit, offset);
    BoundedWantsMatch(server, filters, cursor);
    BoundedWantsCast(server, filters, cursor);
    hide BoundedWants, WantsOf, IfText, IfTime, IfContains, PassesAll, AllCast;
  }

  function BoundedWants(f: TaskFilter, cursor: Option<string>): seq<Want> {
    IfText(WantsOf(f), "id", LtUuid, cursor)
  }

  lemma BoundedWantsMatch(server: Server, f: TaskFilter, cursor: Option<string>)
    ensures forall row :: PassesAll(server, BoundedWants(f, cursor), row) <==>
      Matches(server, f, row) && IsBelow(server, cursor, row)
  {
    hide PassesAll, Matches, IfText, WantsOf;
    forall row ensures PassesAll(server, BoundedWants(f, cursor), row) <==>
      Matches(server, f, row) && IsBelow(server, cursor, row) {
      WantsMatch(server, f, row);
      PassesIfText(server, WantsOf(f), "id", LtUuid, cursor, row);
    }
  }

  lemma WantsCast(server: Server, f: TaskFilter)
    ensures AllCast(server, WantsOf(f))
  {
    var w1 := IfText([], "task_name", Eq, f.taskName);
    var w2 := IfText(w1, "exception_type", Eq, f.exceptionType);
    var w3 := IfContains(w2, SEARCHED, f.search);
    CastsIfText(server, [], "task_name", Eq, f.taskName);
    CastsIfText(server, w1, "exception_type", Eq, f.exceptionType);
    CastsIfOther(server, w2, SEARCHED, f.search, None, Eq, None);
    CastsIfOther(server, w3, ["failed_at"], None, None, Ge, f.dateFrom);
    CastsIfOther(server, IfTime(w3, "failed_at", Ge, f.dateFrom), ["failed_at"], None, None, Le, f.dateTo);
    assert AllCast(server, []);
    hide AllCast, IfText, IfContains, IfTime;
  }

  lemma BoundedWantsCast(server: Server, f: TaskFilter, cursor: Option<string>)
    ensures AllCast(server, BoundedWants(f, cursor)) <==> IsUuid(server, cursor)
  {
    WantsCast(server, f);
    CastsIfText(server, WantsOf(f), "id", LtUuid, cursor);
    hide AllCast, IfText, WantsOf;
  }

  /** count_tasks builds its conditions anew; they mean the same. */
  method CountQuery(server: Server, filters: TaskFilter) returns (q: Query)
    ensures WellFormed(q) && q.limit == None && q.offset == None
    ensures forall row :: Selects(server, q.conditions, q.params, row) <==> Matches(server, filters, row)
    ensures Casts(server, q.conditions, q.params)
  {
    hide Selects, Casts, Compiled, Tests, Matches, Containing;
    var b := new Builder([Always]);
    if Given(filters.taskName) {
      b.Add(["task_name"], Eq, Text(filters.taskName.value));
    }
    if Given(filters.exceptionType) {
      b.Add(["exception_type"], Eq, Text(filters.exceptionType.value));
    }
    if Given(filters.search) {
      b.Add(SEARCHED, ILike, Containing(filters.search.value));
    }
    if filters.dateFrom.Some? {
      b.Add(["failed_at"], Ge, Time(filters.dateFrom.value));
    }
    if filters.dateTo.Some? {
      b.Add(["failed_at"], Le, Time(filters.dateTo.value));
    }
    q := Query(b.conditions, b.params, None, None);
    assert b.wants == WantsOf(filters);
    hide WantsOf, IfText, IfTime, IfContains, AllCast;
    CompiledSelectsAll(server, q.conditions, q.params, b.wants);
    CompiledCasts(server, q.conditions, q.params, b.wants);
    WantsCast(server, filters);
    forall row ensures PassesAll(server, WantsOf(filters), row) <==> Matches(server, filters, row) {
      WantsMatch(server, filters, row);
    }
  }

  /**
   Two queries that mean the same rows return the same: so a listing without cursor, limit and
   offset has as many rows as the count, and any other is a slice of those.
   */
  lemma SameMeaningSameRows(server: Server, list: Query, count: Query, table: seq<Row>)
    requires WellFormed(list) && WellFormed(count) && count.limit == None && count.offset == None
    requires forall row :: Selects(server, list.conditions, list.params, row) <==>
      Selects(server, count.conditions, count.params, row)
    ensures Execute(server, list, table) == Slice(Execute(server, count, table), OffsetOf(list), LimitOf(list))
    ensures LimitOf(list) == None && OffsetOf(list) == 0 ==>
      |Execute(server, list, table)| == |Execute(server, count, table)|
  {
    hide Selects;
    SameFilter(table,
               row => AllNumbered(list.conditions, |list.params|) && Selects(server, list.conditions, list.params, row),
               row => AllNumbered(count.conditions, |count.params|)
                 && Selects(server, count.conditions, count.params, row));
  }

  lemma CountIsTheMatches(server: Server, filters: TaskFilter, count: Query, table: seq<Row>)
    requires WellFormed(count) && count.limit == None && count.offset == None
    requires forall row :: Selects(server, count.conditions, count.params, row) <==> Matches(server, filters, row)
    ensures Execute(server, count, table) == Filter(table, row => Matches(server, filters, row))
  {
    hide Selects, Matches;
    SameFilter(table, row => AllNumbered(count.conditions, |count.params|)
      && Selects(server, count.conditions, count.params, row),
               row => Matches(server, filters, row));
  }

  /**
   list_tasks and count_tasks for one filter. The listing raises exactly on a cursor that is no UUID;
   without cursor, limit and offset it has as many rows as counted.
   */
  method ListAndCount(server: Server, filters: TaskFilter, limit: Option<int>, cursor: Option<string>, offset: int,
          table: seq<Row>)
    returns (rows: Option<seq<Row>>, counted: Option<seq<Row>>)
    ensures counted == Some(Filter(table, row => Matches(server, filters, row)))
    ensures rows.Some? <==> IsUuid(server, cursor)
    ensures !Given(cursor) ==>
      rows == Some(Slice(counted.value, if offset > 0 then offset else 0, if limit.Some? && limit.value > 0
        then limit else None))
    ensures !Given(cursor) && (limit.None? || limit.value <= 0) && offset <= 0 ==> |rows.value| == |counted.value|
  {
    hide Selects, Casts, Matches, IsBelow, Execute, Slice, Filter;
    var list := ListTasks(server, filters, limit, cursor, offset);
    var count := CountQuery(server, filters);
    ListingsAgreeWithCounts(server, filters, cursor, list, count, table);
    rows, counted := Answer(server, list, table), Answer(server, count, table);
  }

  /**
   The two queries of one filter agree: the count is the number of matching rows, and a listing
   without cursor is the counted rows from its offset up to its limit.
   */
  lemma ListingsAgreeWithCounts(server: Server, filters: TaskFilter, cursor: Option<string>, list: Query,
          count: Query, table: seq<Row>)
    requires WellFormed(list) && WellFormed(count) && count.limit == None && count.offset == None
    requires forall row :: Selects(server, list.conditions, list.params, row) <==>
      Matches(server, filters, row) && IsBelow(server, cursor, row)
    requires forall row :: Selects(server, count.conditions, count.params, row) <==> Matches(server, filters, row)
    ensures Execute(server, count, table) == Filter(table, row => Matches(server, filters, row))
    ensures !Given(cursor) ==>
      Execute(server, list, table) == Slice(Execute(server, count, table), OffsetOf(list), LimitOf(list))
    ensures !Given(cursor) && LimitOf(list) == None && OffsetOf(list) == 0 ==>
      |Execute(server, list, table)| == |Execute(server, count, table)|
  {
    hide Selects, Matches, Execute;
    CountIsTheMatches(server, filters, count, table);
    if !Given(cursor) {
      SameMeaningSameRows(server, list, count, table);
    }
  }

  /* ----- update_task_payload ----- */

  /** None leaves a column; ids and name choose the rows. */
  datatype Payload = Payload(
    args: Option<Value>, kwargs: Option<Value>, mergeKwargs: bool, queue: Option<string>,
    ids: Option<seq<nat>>, taskName: Option<string>)

  datatype Assignment = Assign(column: string, index: nat) | Merge(column: string, index: nat)

  /** UPDATE ... SET a column to NOW() and assignments WHERE. */
  datatype Update = Update(stamped: string, sets: seq<Assignment>, where: seq<Clause>, params: seq<Value>)

  predicate WellFormedUpdate(u: Update) {
    && AllNumbered(u.where, |u.params|)
    && forall s :: s in u.sets ==> 1 <= s.index <= |u.params|
  }

  /**
   The assignments all read the row as it was; no column is set twice. The concatenation of JSON objects is a
   parameter.
   */
  function Assigned(sets: seq<Assignment>, params: seq<Value>, concat: (Value, Value) -> Value, row: Row): Row
    requires forall s :: s in sets ==> 1 <= s.index <= |params|
  {
    if sets == [] then row
    else
      var last := sets[|sets| - 1];
      var value := params[last.index - 1];
      Assigned(sets[..|sets| - 1], params, concat, row)[last.column := if last.Assign? then value
        else concat(Get(row, last.column), value)]
  }

  predicate Chosen(payload: Payload, taskId: Option<nat>, row: Row) {
    if taskId.Some? then Get(row, "id") == Id(taskId.value)
    else if payload.ids.Some? && payload.ids.value != [] then Get(row, "id").Id?
      && Get(row, "id").id in payload.ids.value
    else Given(payload.taskName) ==> Get(row, "task_name") == Text(payload.taskName.value)
  }

  /** What the update makes of a chosen row; merging is only for bulk updates. */
  function Revised(payload: Payload, taskId: Option<nat>, concat: (Value, Value) -> Value, row: Row): Row {
    var withArgs := if payload.args.Some? then row["args" := payload.args.value] else row;
    var withKwargs :=
      if payload.kwargs.None? then withArgs
      else withArgs["kwargs" := if payload.mergeKwargs && taskId.None?
        then concat(Get(row, "kwargs"), payload.kwargs.value) else payload.kwargs.value];
    if payload.queue.Some? then withKwargs["queue" := Text(payload.queue.value)] else withKwargs
  }

  lemma AssignedSnoc(sets: seq<Assignment>, last: Assignment, params: seq<Value>, concat: (Value, Value) -> Value,
          row: Row)
    requires forall s :: s in sets + [last] ==> 1 <= s.index <= |params|
    requires forall s :: s in sets ==> 1 <= s.index <= |params|
    ensures Assigned(sets + [last], params, concat, row)
      == Assigned(sets, params, concat, row)[last.column :=
           if last.Assign? then params[last.index - 1] else concat(Get(row, last.column), params[last.index - 1])]
  {
    assert (sets + [last])[..|sets|] == sets;
  }

  lemma {:induction false} AssignedMoreParameters(sets: seq<Assignment>, params: seq<Value>, more: seq<Value>,
          concat: (Value, Value) -> Value, row: Row)
    requires forall s :: s in sets ==> 1 <= s.index <= |params|
    ensures forall s :: s in sets ==> 1 <= s.index <= |params + more|
    ensures Assigned(sets, params + more, concat, row) == Assigned(sets, params, concat, row)
  {
    if sets != [] {
      var last := sets[|sets| - 1];
      assert (params + more)[last.index - 1] == params[last.index - 1];
      AssignedMoreParameters(sets[..|sets| - 1], params, more, concat, row);
    }
  }

  /** One assignment appended with its value. */
  lemma AssignmentAdded(sets: seq<Assignment>, params: seq<Value>, column: string, merge: bool, value: Value,
          concat: (Value, Value) -> Value, row: Row)
    requires forall s :: s in sets ==> 1 <= s.index <= |params|
    ensures
      var last := if merge then Merge(column, |params| + 1) else Assign(column, |params| + 1);
      && (forall s :: s in sets + [last] ==> 1 <= s.index <= |params + [value]|)
      && Assigned(sets + [last], params + [value], concat, row)
        == Assigned(sets, params, concat, row)[column := if merge then concat(Get(row, column), value) else value]
  {
    var last := if merge then Merge(column, |params| + 1) else Assign(column, |params| + 1);
    AssignedMoreParameters(sets, params, [value], concat, row);
    assert forall s :: s in sets + [last] ==> s in sets || s == last;
    AssignedSnoc(sets, last, params + [value], concat, row);
  }

  predicate AllIndexed(sets: seq<Assignment>, n: nat) {
    forall s :: s in sets ==> 1 <= s.index <= n
  }

  /** The assignments so far revise a row as the parts of the payload they were made from. */
  ghost predicate Revises(sets: seq<Assignment>, params: seq<Value>, concat: (Value, Value) -> Value,
          payload: Payload, taskId: Option<nat>) {
    && AllIndexed(sets, |params|)
    && forall row :: Assigned(sets, params, concat, row) == Revised(payload, taskId, concat, row)
  }

  /** What is left of a payload when only its first parts are considered. */
  function Only(payload: Payload, args: bool, kwargs: bool, queue: bool): Payload {
    payload.(args := if args then payload.args else None, kwargs := if kwargs then payload.kwargs else None,
             queue := if queue then payload.queue else None)
  }

  lemma NothingRevised(concat: (Value, Value) -> Value, payload: Payload, taskId: Option<nat>)
    ensures Revises([], [], concat, Only(payload, false, false, false), taskId)
  {
  }

  lemma RevisesMoreParameters(sets: seq<Assignment>, params: seq<Value>, more: seq<Value>,
          concat: (Value, Value) -> Value, payload: Payload, taskId: Option<nat>)
    requires Revises(sets, params, concat, payload, taskId)
    ensures Revises(sets, params + more, concat, payload, taskId)
  {
    forall row ensures AllIndexed(sets, |params + more|)
      && Assigned(sets, params + more, concat, row) == Revised(payload, taskId, concat, row) {
      AssignedMoreParameters(sets, params, more, concat, row);
    }
  }

  lemma RevisesOneMore(sets: seq<Assignment>, params: seq<Value>, column: string, merge: bool, value: Value,
          concat: (Value, Value) -> Value, before: Payload, after: Payload, taskId: Option<nat>)
    requires Revises(sets, params, concat, before, taskId)
    requires forall row ::
      Revised(after, taskId, concat, row)
      == Revised(before, taskId, concat, row)[column := if merge then concat(Get(row, column), value) else value]
    ensures Revises(sets + [if merge then Merge(column, |params| + 1) else Assign(column, |params| + 1)],
      params + [value], concat, after, taskId)
  {
    var last := if merge then Merge(column, |params| + 1) else Assign(column, |params| + 1);
    forall row ensures AllIndexed(sets + [last], |params + [value]|)
      && Assigned(sets + [last], params + [value], concat, row) == Revised(after, taskId, concat, row)
    {
      AssignmentAdded(sets, params, column, merge, value, concat, row);
      hide Assigned, Revised;
    }
  }

  lemma ArgsRevised(sets: seq<Assignment>, params: seq<Value>, concat: (Value, Value) -> Value, payload: Payload,
          taskId: Option<nat>)
    requires Revises(sets, params, concat, Only(payload, false, false, false), taskId)
    ensures payload.args.None? ==> Revises(sets, params, concat, Only(payload, true, false, false), taskId)
    ensures payload.args.Some? ==>
      Revises(sets + [Assign("args", |params| + 1)], params + [payload.args.value], concat,
        Only(payload, true, false, false), taskId)
  {
    if payload.args.Some? {
      RevisesOneMore(sets, params, "args", false, payload.args.value, concat, Only(payload, false, false, false),
        Only(payload, true, false, false), taskId);
    }
  }

  predicate Merges(payload: Payload, taskId: Option<nat>) {
    payload.mergeKwargs && taskId.None?
  }

  lemma KwargsRevised(sets: seq<Assignment>, params: seq<Value>, concat: (Value, Value) -> Value, payload: Payload,
          taskId: Option<nat>)
    requires Revises(sets, params, concat, Only(payload, true, false, false), taskId)
    ensures payload.kwargs.None? ==> Revises(sets, params, concat, Only(payload, true, true, false), taskId)
    ensures payload.kwargs.Some? ==>
      Revises(sets + [if Merges(payload, taskId) then Merge("kwargs", |params| + 1)
        else Assign("kwargs", |params| + 1)],
              params + [payload.kwargs.value], concat, Only(payload, true, true, false), taskId)
  {
    if payload.kwargs.Some? {
      RevisesOneMore(sets, params, "kwargs", Merges(payload, taskId), payload.kwargs.value, concat,
        Only(payload, true, false, false), Only(payload, true, true, false), taskId);
    }
  }

  lemma QueueRevised(sets: seq<Assignment>, params: seq<Value>, concat: (Value, Value) -> Value, payload: Payload,
          taskId: Option<nat>)
    requires Revises(sets, params, concat, Only(payload, true, true, false), taskId)
    ensures payload.queue.None? ==> Revises(sets, params, concat, payload, taskId)
    ensures payload.queue.Some? ==>
      Revises(sets + [Assign("queue", |params| + 1)], params + [Text(payload.queue.value)], concat, payload, taskId)
  {
    if payload.queue.Some? {
      RevisesOneMore(sets, params, "queue", false, Text(payload.queue.value), concat,
        Only(payload, true, true, false), payload, taskId);
    } else {
      assert Only(payload, true, true, false) == payload;
    }
  }

  /** What the statement makes of a chosen row at a time. */
  function UpdatedRow(u: Update, concat: (Value, Value) -> Value, now: int, row: Row): Row
    requires WellFormedUpdate(u)
  {
    Assigned(u.sets, u.params, concat, row)[u.stamped := Time(now)]
  }

  /** The SET clause: an assignment for each part of the payload that is given. */
  method AddAssignments(b: Builder, payload: Payload, taskId: Option<nat>, ghost concat: (Value, Value) -> Value)
    returns (sets: seq<Assignment>)
    requires b.Valid() && b.params == []
    modifies b`params
    ensures b.Valid() && Revises(sets, b.params, concat, payload, taskId)
  {
    hide Compiled, Revises, Only;
    sets := [];
    NothingRevised(concat, payload, taskId);
    ArgsRevised(sets, b.params, concat, payload, taskId);
    if payload.args.Some? {
      b.Extend([payload.args.value]);
      sets := sets + [Assign("args", |b.params|)];
    }
    KwargsRevised(sets, b.params, concat, payload, taskId);
    if payload.kwargs.Some? {
      b.Extend([payload.kwargs.value]);
      sets := sets + [if payload.mergeKwargs && taskId.None? then Merge("kwargs", |b.params|)
        else Assign("kwargs", |b.params|)];
    }
    QueueRevised(sets, b.params, concat, payload, taskId);
    if payload.queue.Some? {
      b.Extend([Text(payload.queue.value)]);
      sets := sets + [Assign("queue", |b.params|)];
    }
  }

  /**
   update_task_payload: the statement stamps and revises exactly the chosen rows; with no id and no
   name that is every row.
   */
  method UpdateTaskPayload(server: Server, payload: Payload, taskId: Option<nat>,
          ghost concat: (Value, Value) -> Value)
    returns (u: Update)
    ensures WellFormedUpdate(u)
    ensures forall row :: Selects(server, u.where, u.params, row) <==> Chosen(payload, taskId, row)
    ensures forall now, row ::
      UpdatedRow(u, concat, now, row)
      == Revised(payload, taskId, concat, row)["updated_at" := Time(now)]
  {
    hide Selects, Assigned, Compiled, Revises, Chosen, Revised, TargetWants;
    var b := new Builder([Always]);
    var sets := AddAssignments(b, payload, taskId, concat);
    ghost var before := b.params;
    AddTarget(b, payload, taskId);
    RevisesMoreParameters(sets, before, b.params[|before|..], concat, payload, taskId);
    assert before + b.params[|before|..] == b.params;
    u := Update("updated_at", sets, b.conditions, b.params);
    ChosenRows(server, u.where, u.params, b.wants, payload, taskId);
    IndexedRevision(sets, u.params, concat, payload, taskId);
  }

  /** The WHERE clause: the ids if there are any, else the name if there is one. */
  method AddTarget(b: Builder, payload: Payload, taskId: Option<nat>)
    requires b.Valid() && b.wants == []
    modifies b
    ensures b.Valid() && b.wants == TargetWants(payload, taskId)
    ensures old(b.params) <= b.params
  {
    hide Compiled, Tests;
    var ids := if taskId.Some? then Some([taskId.value]) else payload.ids;
    if ids.Some? && ids.value != [] {
      b.Add(["id"], EqAny, Ids(ids.value));
    } else if Given(payload.taskName) {
      b.Add(["task_name"], Eq, Text(payload.taskName.value));
    }
  }

  lemma IndexedRevision(sets: seq<Assignment>, params: seq<Value>, concat: (Value, Value) -> Value, payload: Payload,
          taskId: Option<nat>)
    requires Revises(sets, params, concat, payload, taskId)
    ensures forall s :: s in sets ==> 1 <= s.index <= |params|
    ensures forall row :: Assigned(sets, params, concat, row) == Revised(payload, taskId, concat, row)
  {
  }

  function TargetWants(payload: Payload, taskId: Option<nat>): seq<Want> {
    var ids := if taskId.Some? then Some([taskId.value]) else payload.ids;
    if ids.Some? && ids.value != [] then [Tests(["id"], EqAny, Ids(ids.value))]
    else if Given(payload.taskName) then [Tests(["task_name"], Eq, Text(payload.taskName.value))]
    else []
  }

  lemma ChosenRows(server: Server, conditions: seq<Clause>, params: seq<Value>, wants: seq<Want>, payload: Payload,
          taskId: Option<nat>)
    requires Compiled(conditions, params, wants) && wants == TargetWants(payload, taskId)
    ensures AllNumbered(conditions, |params|)
    ensures forall row :: Selects(server, conditions, params, row) <==> Chosen(payload, taskId, row)
  {
    hide Compiled, Selects, Tests, PassesAll;
    CompiledSelectsAll(server, conditions, params, wants);
    forall row ensures PassesAll(server, wants, row) <==> Chosen(payload, taskId, row) {
      PassesNothing(server, row);
      if wants != [] {
        assert wants == [] + [wants[0]];
        PassesSnoc(server, [], wants[0], row);
        PassesOne(server, "id", EqAny, Ids(if taskId.Some? then [taskId.value]
          else if payload.ids.Some? then payload.ids.value else []), row);
        PassesOne(server, "task_name", Eq, Text(if payload.taskName.Some? then payload.taskName.value else ""), row);
      }
    }
  }
}
