/**
 What the filters of modules DeadLetterQueries and LogQueries mean for a stored row, in terms of the record it
 holds: which texts must be equal, which may be found where, and between which times the row must lie.
 */
module FilterMeanings {
  import opened Wrappers
  import SC = SqlConditions
  import DL = DeadLetterQueries
  import LQ = LogQueries

  /* ----- comparing and slicing ----- */

  /** Times compare as numbers, texts by the server's ILIKE and ids by equality; nothing compares with NULL. */
  lemma ComparisonsMean(server: SC.Server, op: SC.Op, v: SC.Value, a: int, b: int, s: string, t: string, x: nat,
          ids: seq<nat>)
    ensures !SC.Compare(server, op, SC.Null, v) && !SC.Compare(server, op, v, SC.Null)
    ensures SC.Compare(server, SC.Ge, SC.Time(a), SC.Time(b)) <==> a >= b
    ensures SC.Compare(server, SC.Le, SC.Time(a), SC.Time(b)) <==> a <= b
    ensures SC.Compare(server, SC.ILike, SC.Text(s), SC.Text(t)) <==> server.ilike(s, t)
    ensures SC.Compare(server, SC.Eq, SC.Text(s), SC.Text(t)) <==> s == t
    ensures SC.Compare(server, SC.EqAny, SC.Id(x), SC.Ids(ids)) <==> x in ids
    ensures SC.Compare(server, SC.LtUuid, SC.Id(x), SC.Text(t)) <==>
      server.uuid(t).Some? && x < server.uuid(t).value
    ensures SC.Compare(server, SC.LtTimestamp, SC.Time(a), SC.Text(t)) <==>
      server.timestamp(t).Some? && a < server.timestamp(t).value
  {
  }

  /** A slice starts `offset` rows in, and ends after `limit` rows or with the last. */
  lemma SliceMeans(rows: seq<SC.Row>, offset: nat, limit: nat)
    ensures
      var left := if offset >= |rows| then 0 else |rows| - offset;
      var r := SC.Slice(rows, offset, Some(limit));
      && |r| == (if limit < left then limit else left)
      && (forall k :: 0 <= k < |r| ==> r[k] == rows[offset + k])
      && |SC.Slice(rows, offset, None)| == left
      && forall k :: 0 <= k < left ==> SC.Slice(rows, offset, None)[k] == rows[offset + k]
  {
  }

  /** The rows wanted are kept, each as often as it is there, and no other. */
  lemma {:induction false} FilterKeeps(table: seq<SC.Row>, keep: SC.Row -> bool, row: SC.Row)
    ensures multiset(SC.Filter(table, keep))[row] == if keep(row) then multiset(table)[row] else 0
  {
    if table != [] {
      FilterKeeps(table[1..], keep, row);
      assert table == [table[0]] + table[1..];
      assert multiset(table) == multiset{table[0]} + multiset(table[1..]);
    }
  }

  /** And they are kept in the order of the table. */
  lemma {:induction false} FilterAppends(table: seq<SC.Row>, more: seq<SC.Row>, keep: SC.Row -> bool)
    ensures SC.Filter(table + more, keep) == SC.Filter(table, keep) + SC.Filter(more, keep)
  {
    if table == [] {
      assert table + more == more;
    } else {
      var head := if keep(table[0]) then [table[0]] else [];
      var rest, others := SC.Filter(table[1..], keep), SC.Filter(more, keep);
      assert (table + more)[0] == table[0] && (table + more)[1..] == table[1..] + more;
      assert SC.Filter(table, keep) == head + rest;
      assert SC.Filter(table + more, keep) == head + SC.Filter(table[1..] + more, keep);
      hide SC.Filter;
      FilterAppends(table[1..], more, keep);
      Associates(head, rest, others);
    }
  }

  lemma Associates<T>(a: seq<T>, b: seq<T>, c: seq<T>)
    ensures a + (b + c) == a + b + c
  {
  }

  /** A text that is given: not missing and not empty. */
  predicate Asks(s: Option<string>) {
    s.Some? && |s.value| > 0
  }

  /** A column that may be NULL. */
  function Nullable(s: Option<string>): SC.Value {
    if s.Some? then SC.Text(s.value) else SC.Null
  }

  predicate Finds(server: SC.Server, text: Option<string>, s: string) {
    text.Some? && server.ilike(text.value, "%" + s + "%")
  }

  lemma FindsIs(server: SC.Server, row: SC.Row, column: string, text: Option<string>, s: string)
    requires SC.Get(row, column) == Nullable(text)
    ensures SC.Compare(server, SC.ILike, SC.Get(row, column), SC.Containing(s)) <==> Finds(server, text, s)
  {
  }

  /* ----- the dead letters ----- */

  datatype DeadTask = DeadTask(id: nat, name: string, exceptionType: Option<string>, message: Option<string>,
    traceback: Option<string>, failedAt: int)

  predicate HoldsTask(row: SC.Row, t: DeadTask) {
    && SC.Get(row, "id") == SC.Id(t.id) && SC.Get(row, "task_name") == SC.Text(t.name)
    && SC.Get(row, "exception_type") == Nullable(t.exceptionType)
    && SC.Get(row, "exception_message") == Nullable(t.message)
    && SC.Get(row, "traceback") == Nullable(t.traceback) && SC.Get(row, "failed_at") == SC.Time(t.failedAt)
  }

  /**
   Of this name and this type of exception, with the text in its name, message or traceback, and failed from the
   one time to the other, both included; what is not given does not count.
   */
  predicate TaskWanted(server: SC.Server, f: DL.TaskFilter, t: DeadTask) {
    && (Asks(f.taskName) ==> t.name == f.taskName.value)
    && (Asks(f.exceptionType) ==> t.exceptionType == f.exceptionType)
    && (Asks(f.search) ==>
          || Finds(server, Some(t.name), f.search.value)
          || Finds(server, t.message, f.search.value) || Finds(server, t.traceback, f.search.value))
    && (f.dateFrom.Some? ==> f.dateFrom.value <= t.failedAt) && (f.dateTo.Some? ==> t.failedAt <= f.dateTo.value)
  }

  lemma TaskFilterMeans(server: SC.Server, f: DL.TaskFilter, row: SC.Row, t: DeadTask)
    requires HoldsTask(row, t)
    ensures DL.Matches(server, f, row) <==> TaskWanted(server, f, t)
  {
    if Asks(f.search) {
      SearchOfColumns(server, DL.SEARCHED, row, ["task_name", "exception_message", "traceback"],
        [Some(t.name), t.message, t.traceback], f.search.value);
    }
    hide Finds, SC.Get, SC.Containing, Nullable;
  }

  /** A search over columns finds the text in one of them. */
  lemma SearchOfColumns(server: SC.Server, columns: seq<string>, row: SC.Row, names: seq<string>,
          texts: seq<Option<string>>, s: string)
    requires columns == names && |texts| == |names|
    requires forall i :: 0 <= i < |names| ==> SC.Get(row, names[i]) == Nullable(texts[i])
    ensures (exists c :: c in columns && SC.Compare(server, SC.ILike, SC.Get(row, c), SC.Containing(s)))
      <==> exists i :: 0 <= i < |texts| && Finds(server, texts[i], s)
  {
    forall i | 0 <= i < |texts|
      ensures SC.Compare(server, SC.ILike, SC.Get(row, names[i]), SC.Containing(s)) <==> Finds(server, texts[i], s)
    {
      FindsIs(server, row, names[i], texts[i], s);
    }
    hide SC.Compare, Finds, SC.Get, Nullable;
    if i :| 0 <= i < |texts| && Finds(server, texts[i], s) { assert names[i] in columns; }
  }

  /** The cursor of the list is an id, and the rows listed are those below it. */
  lemma TaskCursorMeans(server: SC.Server, cursor: Option<string>, row: SC.Row, t: DeadTask)
    requires HoldsTask(row, t)
    ensures DL.IsBelow(server, cursor, row) <==>
      (Asks(cursor) ==> server.uuid(cursor.value).Some? && t.id < server.uuid(cursor.value).value)
    ensures DL.IsUuid(server, cursor) <==> (Asks(cursor) ==> server.uuid(cursor.value).Some?)
  {
  }

  /** The rows an update is for: the one of the id; else those of the ids; else those of the name; else all. */
  lemma ChosenMeans(payload: DL.Payload, taskId: Option<nat>, row: SC.Row, t: DeadTask)
    requires HoldsTask(row, t)
    ensures taskId.Some? ==> (DL.Chosen(payload, taskId, row) <==> t.id == taskId.value)
    ensures taskId.None? && payload.ids.Some? && |payload.ids.value| > 0 ==>
      (DL.Chosen(payload, taskId, row) <==> t.id in payload.ids.value)
    ensures taskId.None? && (payload.ids.None? || |payload.ids.value| == 0) ==>
      (DL.Chosen(payload, taskId, row) <==> (Asks(payload.taskName) ==> t.name == payload.taskName.value))
  {
  }

  /**
   A chosen row has the arguments and the queue given, or its own; keyword arguments given take the place of its
   own, or, in a bulk update that merges, are added to them; and no other column changes.
   */
  lemma RevisionMeans(payload: DL.Payload, taskId: Option<nat>, concat: (SC.Value, SC.Value) -> SC.Value, row: SC.Row)
    ensures
      var after := DL.Revised(payload, taskId, concat, row);
      && (payload.args.Some? ==> SC.Get(after, "args") == payload.args.value)
      && (payload.args.None? ==> SC.Get(after, "args") == SC.Get(row, "args"))
      && (payload.queue.Some? ==> SC.Get(after, "queue") == SC.Text(payload.queue.value))
      && (payload.queue.None? ==> SC.Get(after, "queue") == SC.Get(row, "queue"))
      && (payload.kwargs.None? ==> SC.Get(after, "kwargs") == SC.Get(row, "kwargs"))
      && (payload.kwargs.Some? && payload.mergeKwargs && taskId.None? ==>
            SC.Get(after, "kwargs") == concat(SC.Get(row, "kwargs"), payload.kwargs.value))
      && (payload.kwargs.Some? && (!payload.mergeKwargs || taskId.Some?) ==>
            SC.Get(after, "kwargs") == payload.kwargs.value)
    ensures forall c :: c !in {"args", "kwargs", "queue"} ==>
      SC.Get(DL.Revised(payload, taskId, concat, row), c) == SC.Get(row, c)
  {
  }

  /* ----- the webhook log ----- */

  datatype Delivery = Delivery(direction: string, status: string, source: Option<string>, eventName: Option<string>,
    url: Option<string>, errorMessage: Option<string>, endpoint: Option<nat>, createdAt: int)

  predicate HoldsDelivery(row: SC.Row, d: Delivery) {
    && SC.Get(row, "direction") == SC.Text(d.direction) && SC.Get(row, "status") == SC.Text(d.status)
    && SC.Get(row, "source") == Nullable(d.source) && SC.Get(row, "event_name") == Nullable(d.eventName)
    && SC.Get(row, "url") == Nullable(d.url) && SC.Get(row, "error_message") == Nullable(d.errorMessage)
    && SC.Get(row, "endpoint_id") == (if d.endpoint.Some? then SC.Id(d.endpoint.value) else SC.Null)
    && SC.Get(row, "created_at") == SC.Time(d.createdAt)
  }

  /** Everything that is given must be equal; created from the one time to the other, and before the cursor. */
  predicate DeliveryWanted(server: SC.Server, f: LQ.LogFilter, cursor: Option<string>, d: Delivery) {
    && (Asks(f.direction) ==> d.direction == f.direction.value) && (Asks(f.status) ==> d.status == f.status.value)
    && (Asks(f.source) ==> d.source == f.source) && (Asks(f.eventName) ==> d.eventName == f.eventName)
    && (f.endpointId.Some? ==> d.endpoint == f.endpointId)
    && (f.fromDate.Some? ==> f.fromDate.value <= d.createdAt) && (f.toDate.Some? ==> d.createdAt <= f.toDate.value)
    && (Asks(cursor) ==>
          server.timestamp(cursor.value).Some? && d.createdAt < server.timestamp(cursor.value).value)
  }

  lemma LogFilterMeans(server: SC.Server, f: LQ.LogFilter, cursor: Option<string>, row: SC.Row, d: Delivery)
    requires HoldsDelivery(row, d)
    ensures LQ.LogMatches(server, f, cursor, row) <==> DeliveryWanted(server, f, cursor, d)
  {
    hide SC.Get;
  }

  /** A rule on one of the four columns, with a value, and what the row has there. */
  predicate RuleMet(rule: LQ.Rule, d: Delivery) {
    rule.Rule? && |rule.value| > 0 ==>
      && (rule.field == "direction" ==> d.direction == rule.value)
      && (rule.field == "status" ==> d.status == rule.value)
      && (rule.field == "source" ==> d.source == Some(rule.value))
      && (rule.field == "event_name" ==> d.eventName == Some(rule.value))
  }

  lemma RuleIsMet(rule: LQ.Rule, row: SC.Row, d: Delivery)
    requires HoldsDelivery(row, d)
    ensures (LQ.Filters(rule) ==> SC.Get(row, rule.field) == SC.Text(rule.value)) <==> RuleMet(rule, d)
  {
    hide SC.Get;
  }

  /** Meets every rule, lies in the period, and has the text, its spaces stripped, in one of four columns. */
  predicate DeliveryListed(server: SC.Server, rules: seq<LQ.Rule>, from: int, to: int, q: Option<string>, d: Delivery) {
    && (forall i :: 0 <= i < |rules| ==> RuleMet(rules[i], d)) && from <= d.createdAt <= to
    && (Asks(LQ.Stripped(q)) ==>
          var s := LQ.Stripped(q).value;
          || Finds(server, d.eventName, s) || Finds(server, d.source, s)
          || Finds(server, d.url, s) || Finds(server, d.errorMessage, s))
  }

  lemma WebhookFilterMeans(server: SC.Server, rules: seq<LQ.Rule>, period: (int, int), q: Option<string>,
          row: SC.Row, d: Delivery)
    requires HoldsDelivery(row, d)
    ensures LQ.WebhookMatches(server, rules, period, q, row) <==>
      DeliveryListed(server, rules, period.0, period.1, q, d)
  {
    forall i | 0 <= i < |rules|
      ensures RuleMet(rules[i], d) <==>
        (LQ.Filters(rules[i]) ==> SC.Get(row, rules[i].field) == SC.Text(rules[i].value))
    {
      RuleIsMet(rules[i], row, d);
    }
    if Asks(LQ.Stripped(q)) {
      SearchOfColumns(server, LQ.WEBHOOK_SEARCHED, row, ["event_name", "source", "url", "error_message"],
        [d.eventName, d.source, d.url, d.errorMessage], LQ.Stripped(q).value);
    }
    hide Finds, SC.Get, SC.Containing, Nullable, LQ.Stripped, LQ.Filters, RuleMet;
  }

  /* ----- the period of a list of rules ----- */

  /**
   What one rule on the time of creation says: from its value on, up to the end of it, both, or between two
   values; anything else says nothing.
   */
  predicate Says(rule: LQ.Rule, parse: LQ.DateParser, start: Option<int>, end: Option<int>)
    requires rule.Rule?
  {
    var from := if |rule.value| > 0 then Some(parse.at(rule.value, false)) else None;
    var to := if |rule.value| > 0 then Some(parse.at(rule.value, true)) else None;
    var to2 := if |rule.value2| > 0 then Some(parse.at(rule.value2, true)) else None;
    if rule.filter == "gte" || rule.filter == "gt" then start == from && end == None
    else if rule.filter == "lte" || rule.filter == "lt" then start == None && end == to
    else if rule.filter == "eq" then start == from && end == to
    else if rule.filter == "between" then start == from && end == to2
    else start == None && end == None
  }

  lemma BoundsMean(rule: LQ.Rule, parse: LQ.DateParser)
    requires rule.Rule?
    ensures Says(rule, parse, LQ.RangeStart(rule, parse), LQ.RangeEnd(rule, parse))
  {
  }

  /** And it raises exactly if a text it reads a bound from is no date. */
  lemma BadDateMeans(rule: LQ.Rule, parse: LQ.DateParser)
    ensures LQ.BadDate(rule, parse) <==>
      && rule.Rule? && rule.field == "created_at"
      && ((|rule.value| > 0 && !parse.isDate(rule.value)
             && (LQ.RangeStart(rule, parse).Some?
                   || (rule.filter != "between" && LQ.RangeEnd(rule, parse).Some?)))
          || (rule.filter == "between" && |rule.value2| > 0 && !parse.isDate(rule.value2)))
  {
  }

  /** The last start and the last end given; without an end it is now, and without a start 30 days before the end. */
  lemma PeriodMeans(rules: seq<LQ.Rule>, now: int, parse: LQ.DateParser)
    ensures
      var (from, to) := LQ.Period(rules, now, parse);
      && LastSaid(rules, rule => LQ.StartOf(rule, parse), from, to - 2_592_000)
      && LastSaid(rules, rule => LQ.EndOf(rule, parse), to, now)
    ensures forall rule: LQ.Rule :: !(rule.Rule? && rule.field == "created_at") ==>
      LQ.StartOf(rule, parse) == None && LQ.EndOf(rule, parse) == None
    ensures forall rule: LQ.Rule :: rule.Rule? && rule.field == "created_at" ==>
      LQ.StartOf(rule, parse) == LQ.RangeStart(rule, parse) && LQ.EndOf(rule, parse) == LQ.RangeEnd(rule, parse)
  {
    hide LQ.RangeStart, LQ.RangeEnd;
  }

  /** What the last rule that says something says, or else this. */
  ghost predicate LastSaid<T(!new)>(rules: seq<LQ.Rule>, of: LQ.Rule -> Option<T>, said: T, otherwise: T) {
    || (said == otherwise && forall i :: 0 <= i < |rules| ==> of(rules[i]) == None)
    || exists i :: 0 <= i < |rules| && of(rules[i]) == Some(said)
         && forall j :: i < j < |rules| ==> of(rules[j]) == None
  }

  /* ----- the audit log ----- */

  datatype Audit = Audit(id: nat, actor: Option<nat>, fullName: Option<string>, username: Option<string>,
    email: Option<string>, action: string, resource: string, resourceId: Option<string>, ip: Option<string>,
    createdAt: int)

  predicate HoldsAudit(row: SC.Row, a: Audit) {
    && SC.Get(row, "a.id") == SC.Id(a.id)
    && SC.Get(row, "a.actor_id") == (if a.actor.Some? then SC.Id(a.actor.value) else SC.Null)
    && SC.Get(row, "u.full_name") == Nullable(a.fullName) && SC.Get(row, "u.username") == Nullable(a.username)
    && SC.Get(row, "u.email") == Nullable(a.email) && SC.Get(row, "a.action") == Nullable(Some(a.action))
    && SC.Get(row, "a.resource") == Nullable(Some(a.resource))
    && SC.Get(row, "a.resource_id") == Nullable(a.resourceId) && SC.Get(row, "a.ip_address") == Nullable(a.ip)
    && SC.Get(row, "a.created_at") == SC.Time(a.createdAt)
  }

  /** What the search of the audit log looks through. */
  function AuditTexts(a: Audit): seq<Option<string>> {
    [a.fullName, a.username, a.email, Some(a.action), Some(a.resource), a.resourceId, a.ip]
  }

  /** The text is in one of these, or is the id of the entry or of its actor. */
  predicate AuditFound(server: SC.Server, s: string, uuid: string -> Option<nat>, a: Audit) {
    || (exists i :: 0 <= i < |AuditTexts(a)| && Finds(server, AuditTexts(a)[i], s))
    || (uuid(s).Some? && (a.id == uuid(s).value || a.actor == uuid(s)))
  }

  /** In the period, by the actor, with the name, resource and action given, and found by the search. */
  predicate AuditListed(server: SC.Server, f: LQ.AuditFilter, q: Option<string>, uuid: string -> Option<nat>,
          a: Audit) {
    && f.period.0 <= a.createdAt <= f.period.1 && (f.actorId.Some? ==> a.actor == f.actorId)
    && (Asks(f.actorName) ==>
          Finds(server, a.fullName, f.actorName.value) || Finds(server, a.username, f.actorName.value))
    && (Asks(f.resource) ==> Finds(server, Some(a.resource), f.resource.value))
    && (Asks(f.action) ==> Finds(server, Some(a.action), f.action.value))
    && (Asks(LQ.Stripped(q)) ==> AuditFound(server, LQ.Stripped(q).value, uuid, a))
  }

  lemma AuditFilterMeans(server: SC.Server, f: LQ.AuditFilter, q: Option<string>, uuid: string -> Option<nat>,
          row: SC.Row, a: Audit)
    requires HoldsAudit(row, a)
    ensures LQ.AuditMatches(server, f, q, uuid, row) <==> AuditListed(server, f, q, uuid, a)
  {
    if Asks(f.actorName) {
      FoundInTwo(server, row, "u.full_name", a.fullName, "u.username", a.username, f.actorName.value);
    }
    if Asks(f.resource) { FoundInOne(server, row, "a.resource", Some(a.resource), f.resource.value); }
    if Asks(f.action) { FoundInOne(server, row, "a.action", Some(a.action), f.action.value); }
    AuditSearchMeans(server, q, uuid, row, a);
    PeriodIs(server, row, "a.created_at", f.period.0, f.period.1, a.createdAt);
    hide SC.Compare, Finds, SC.Get, SC.Containing, Nullable, LQ.Stripped, AuditFound, LQ.SearchMatches;
  }

  lemma PeriodIs(server: SC.Server, row: SC.Row, column: string, from: int, to: int, t: int)
    requires SC.Get(row, column) == SC.Time(t)
    ensures SC.Compare(server, SC.Ge, SC.Get(row, column), SC.Time(from)) <==> from <= t
    ensures SC.Compare(server, SC.Le, SC.Get(row, column), SC.Time(to)) <==> t <= to
  {
  }

  lemma FoundInOne(server: SC.Server, row: SC.Row, column: string, text: Option<string>, s: string)
    requires SC.Get(row, column) == Nullable(text)
    ensures (exists c :: c in [column] && SC.Compare(server, SC.ILike, SC.Get(row, c), SC.Containing(s)))
      <==> Finds(server, text, s)
  {
    FindsIs(server, row, column, text, s);
    hide SC.Compare, Finds, Nullable;
    assert column in [column];
  }

  lemma FoundInTwo(server: SC.Server, row: SC.Row, one: string, text: Option<string>, other: string,
          otherText: Option<string>, s: string)
    requires SC.Get(row, one) == Nullable(text) && SC.Get(row, other) == Nullable(otherText)
    ensures (exists c :: c in [one, other] && SC.Compare(server, SC.ILike, SC.Get(row, c), SC.Containing(s)))
      <==> Finds(server, text, s) || Finds(server, otherText, s)
  {
    FindsIs(server, row, one, text, s);
    FindsIs(server, row, other, otherText, s);
    hide SC.Compare, Finds, Nullable;
    assert one in [one, other] && other in [one, other];
  }

  lemma AuditSearchMeans(server: SC.Server, q: Option<string>, uuid: string -> Option<nat>, row: SC.Row, a: Audit)
    requires HoldsAudit(row, a)
    ensures LQ.SearchMatches(server, q, uuid, row) <==>
      (Asks(LQ.Stripped(q)) ==> AuditFound(server, LQ.Stripped(q).value, uuid, a))
  {
    if Asks(LQ.Stripped(q)) {
      SearchOfColumns(server, LQ.AUDIT_SEARCHED, row,
        ["u.full_name", "u.username", "u.email", "a.action", "a.resource", "a.resource_id", "a.ip_address"],
        AuditTexts(a), LQ.Stripped(q).value);
    }
    hide Finds, SC.Get, SC.Containing, SC.Compare, Nullable, LQ.Stripped, AuditTexts;
  }

  /** A filter of the audit view is the last text given for its field. */
  lemma FieldMeans(rules: seq<LQ.Rule>, field: string)
    ensures match LQ.LastField(rules, field)
      case Some(text) =>
        exists i :: 0 <= i < |rules| && Fills(rules[i], field, text)
          && forall j :: i < j < |rules| ==> FillsNothing(rules[j], field)
      case None => forall i :: 0 <= i < |rules| ==> FillsNothing(rules[i], field)
  {
  }

  predicate Fills(rule: LQ.Rule, field: string, text: string) {
    rule.Rule? && rule.field == field && rule.value == text && |text| > 0
  }

  predicate FillsNothing(rule: LQ.Rule, field: string) {
    rule.Rule? && rule.field == field ==> |rule.value| == 0
  }
}
