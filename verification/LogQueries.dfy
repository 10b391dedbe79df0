/**
 The builders over logs: the webhook DAO's list, and the two admin views, whose count reuses the
 list's conditions without its last two parameters.
 */
module LogQueries {
  import opened Wrappers
  import opened Text
  import opened SqlConditions

  const THIRTY_DAYS := 30 * 86400

  /* ----- webhook_log.py: list_logs ----- */

  datatype LogFilter = LogFilter(
    direction: Option<string>, status: Option<string>, source: Option<string>, eventName: Option<string>,
    endpointId: Option<nat>, fromDate: Option<int>, toDate: Option<int>)

  const NO_FILTER := LogFilter(None, None, None, None, None, None, None)

  predicate LogMatches(server: Server, f: LogFilter, cursor: Option<string>, row: Row) {
    && (Given(f.direction) ==> Get(row, "direction") == SqlConditions.Text(f.direction.value))
    && (Given(f.status) ==> Get(row, "status") == SqlConditions.Text(f.status.value))
    && (Given(f.source) ==> Get(row, "source") == SqlConditions.Text(f.source.value))
    && (Given(f.eventName) ==> Get(row, "event_name") == SqlConditions.Text(f.eventName.value))
    && (f.endpointId.Some? ==> Get(row, "endpoint_id") == Id(f.endpointId.value))
    && (f.fromDate.Some? ==> Compare(server, Ge, Get(row, "created_at"), Time(f.fromDate.value)))
    && (f.toDate.Some? ==> Compare(server, Le, Get(row, "created_at"), Time(f.toDate.value)))
    && (Given(cursor) ==> Compare(server, LtTimestamp, Get(row, "created_at"), SqlConditions.Text(cursor.value)))
  }

  function NamedWants(f: LogFilter): seq<Want> {
    IfText(IfText(IfText(IfText([], "direction", Eq, f.direction), "status", Eq, f.status), "source", Eq, f.source),
      "event_name", Eq, f.eventName)
  }

  function LogWants(f: LogFilter, cursor: Option<string>): seq<Want> {
    IfText(IfTime(IfTime(IfId(NamedWants(f), "endpoint_id", f.endpointId), "created_at", Ge, f.fromDate),
      "created_at", Le, f.toDate),
           "created_at", LtTimestamp, cursor)
  }

  lemma NamedWantsMatch(server: Server, f: LogFilter, row: Row)
    ensures PassesAll(server, NamedWants(f), row) <==>
      && (Given(f.direction) ==> Get(row, "direction") == SqlConditions.Text(f.direction.value))
      && (Given(f.status) ==> Get(row, "status") == SqlConditions.Text(f.status.value))
      && (Given(f.source) ==> Get(row, "source") == SqlConditions.Text(f.source.value))
      && (Given(f.eventName) ==> Get(row, "event_name") == SqlConditions.Text(f.eventName.value))
  {
    hide PassesAll, IfText;
    var w1 := IfText([], "direction", Eq, f.direction);
    var w2 := IfText(w1, "status", Eq, f.status);
    var w3 := IfText(w2, "source", Eq, f.source);
    PassesNothing(server, row);
    PassesIfText(server, [], "direction", Eq, f.direction, row);
    PassesIfText(server, w1, "status", Eq, f.status, row);
    PassesIfText(server, w2, "source", Eq, f.source, row);
    PassesIfText(server, w3, "event_name", Eq, f.eventName, row);
  }

  lemma LogWantsMatch(server: Server, f: LogFilter, cursor: Option<string>, row: Row)
    ensures PassesAll(server, LogWants(f, cursor), row) <==> LogMatches(server, f, cursor, row)
  {
    NamedWantsMatch(server, f, row);
    hide PassesAll, IfText, IfTime, IfId, NamedWants;
    var w1 := IfId(NamedWants(f), "endpoint_id", f.endpointId);
    var w2 := IfTime(w1, "created_at", Ge, f.fromDate);
    var w3 := IfTime(w2, "created_at", Le, f.toDate);
    PassesIfId(server, NamedWants(f), "endpoint_id", f.endpointId, row);
    PassesIfTime(server, w1, "created_at", Ge, f.fromDate, row);
    PassesIfTime(server, w2, "created_at", Le, f.toDate, row);
    PassesIfText(server, w3, "created_at", LtTimestamp, cursor, row);
  }

  lemma NamedWantsCast(server: Server, f: LogFilter)
    ensures AllCast(server, NamedWants(f))
  {
    var w1 := IfText([], "direction", Eq, f.direction);
    var w2 := IfText(w1, "status", Eq, f.status);
    CastsIfText(server, [], "direction", Eq, f.direction);
    CastsIfText(server, w1, "status", Eq, f.status);
    CastsIfText(server, w2, "source", Eq, f.source);
    CastsIfText(server, IfText(w2, "source", Eq, f.source), "event_name", Eq, f.eventName);
    assert AllCast(server, []);
    hide AllCast, IfText;
  }

  lemma LogWantsCast(server: Server, f: LogFilter, cursor: Option<string>)
    ensures AllCast(server, LogWants(f, cursor)) <==> (Given(cursor) ==> server.timestamp(cursor.value).Some?)
  {
    NamedWantsCast(server, f);
    var w1 := IfId(NamedWants(f), "endpoint_id", f.endpointId);
    var w2 := IfTime(w1, "created_at", Ge, f.fromDate);
    CastsIfOther(server, NamedWants(f), ["endpoint_id"], None, f.endpointId, Eq, None);
    CastsIfOther(server, w1, ["created_at"], None, None, Ge, f.fromDate);
    CastsIfOther(server, w2, ["created_at"], None, None, Le, f.toDate);
    CastsIfText(server, IfTime(w2, "created_at", Le, f.toDate), "created_at", LtTimestamp, cursor);
    hide AllCast, IfText, IfTime, IfId, NamedWants;
  }

  method AddNamed(b: Builder, f: LogFilter)
    requires b.Valid() && b.wants == []
    modifies b
    ensures b.Valid() && b.wants == NamedWants(f)
  {
    hide Compiled, Tests;
    if Given(f.direction) {
      b.Add(["direction"], Eq, SqlConditions.Text(f.direction.value));
    }
    if Given(f.status) {
      b.Add(["status"], Eq, SqlConditions.Text(f.status.value));
    }
    if Given(f.source) {
      b.Add(["source"], Eq, SqlConditions.Text(f.source.value));
    }
    if Given(f.eventName) {
      b.Add(["event_name"], Eq, SqlConditions.Text(f.eventName.value));
    }
  }

  method AddEndpointAndDates(b: Builder, f: LogFilter)
    requires b.Valid()
    modifies b
    ensures b.Valid()
    ensures b.wants == IfTime(IfTime(IfId(old(b.wants), "endpoint_id", f.endpointId), "created_at", Ge, f.fromDate),
      "created_at", Le, f.toDate)
  {
    hide Compiled, Tests;
    if f.endpointId.Some? {
      b.Add(["endpoint_id"], Eq, Id(f.endpointId.value));
    }
    if f.fromDate.Some? {
      b.Add(["created_at"], Ge, Time(f.fromDate.value));
    }
    if f.toDate.Some? {
      b.Add(["created_at"], Le, Time(f.toDate.value));
    }
  }

  /** list_logs: the query selects what the filter means before the cursor, and its limit is the last parameter. */
  method ListLogs(server: Server, limit: int, cursor: Option<string>, filterParams: Option<LogFilter>)
    returns (q: Query)
    ensures WellFormed(q) && LimitOf(q) == Some(limit) && q.offset == None
    ensures forall row ::
      (Selects(server, q.conditions, q.params, row) <==>
       LogMatches(server, if filterParams.Some? then filterParams.value else NO_FILTER, cursor, row))
    ensures Casts(server, q.conditions, q.params) <==> (Given(cursor) ==> server.timestamp(cursor.value).Some?)
  {
    hide Selects, Casts, Compiled, Tests, LogMatches, PassesAll, AllCast;
    var f := if filterParams.Some? then filterParams.value else NO_FILTER;
    var b := new Builder([Always]);
    AddNamed(b, f);
    AddEndpointAndDates(b, f);
    if Given(cursor) {
      b.Add(["created_at"], LtTimestamp, SqlConditions.Text(cursor.value));
    }
    assert b.wants == LogWants(f, cursor);
    hide LogWants, NamedWants, IfText, IfTime, IfId;
    b.Extend([Number(limit)]);
    q := Query(b.conditions, b.params, Some(|b.params|), None);
    CompiledSelectsAll(server, q.conditions, q.params, b.wants);
    CompiledCasts(server, q.conditions, q.params, b.wants);
    LogWantsCast(server, f, cursor);
    forall row ensures PassesAll(server, LogWants(f, cursor), row) <==> LogMatches(server, f, cursor, row) {
      LogWantsMatch(server, f, cursor, row);
    }
  }

  /* ----- filter rules of the admin views ----- */

  /** A rule of the filter form; a nested group is skipped. An absent value is the empty string. */
  datatype Rule = Rule(field: string, filter: string, value: string, value2: string) | Group

  /** parse_admin_datetime: what is a date or a time, and which; the flag asks for the end of a date. */
  datatype DateParser = DateParser(isDate: string -> bool, at: (string, bool) -> int)

  datatype FilterError = NotAUuid | NotADate

  function RangeStart(rule: Rule, parse: DateParser): Option<int>
    requires rule.Rule?
  {
    if rule.value == "" || rule.filter !in ["gte", "gt", "between", "eq"] then None
      else Some(parse.at(rule.value, false))
  }

  function RangeEnd(rule: Rule, parse: DateParser): Option<int>
    requires rule.Rule?
  {
    if rule.filter == "between" then (if rule.value2 == "" then None else Some(parse.at(rule.value2, true)))
    else if rule.value == "" || rule.filter !in ["lte", "lt", "eq"] then None
    else Some(parse.at(rule.value, true))
  }

  /** A rule that gives a bound by something that is no date. */
  predicate BadRange(rule: Rule, parse: DateParser)
    requires rule.Rule?
  {
    || (rule.value != "" && rule.filter in ["gte", "gt", "lte", "lt", "between", "eq"] && !parse.isDate(rule.value))
    || (rule.value2 != "" && rule.filter == "between" && !parse.isDate(rule.value2))
  }

  predicate OnCreation(rule: Rule) {
    rule.Rule? && rule.field == "created_at"
  }

  function StartOf(rule: Rule, parse: DateParser): Option<int> {
    if OnCreation(rule) then RangeStart(rule, parse) else None
  }

  function EndOf(rule: Rule, parse: DateParser): Option<int> {
    if OnCreation(rule) then RangeEnd(rule, parse) else None
  }

  predicate BadDate(rule: Rule, parse: DateParser) {
    OnCreation(rule) && BadRange(rule, parse)
  }

  /** The call of parse_admin_datetime, which raises on what is no date. */
  method ParseDate(value: string, end: bool, parse: DateParser) returns (r: Result<Option<int>, FilterError>)
    ensures r == if parse.isDate(value) then Ok(Some(parse.at(value, end))) else Err(NotADate)
  {
    r := if parse.isDate(value) then Ok(Some(parse.at(value, end))) else Err(NotADate);
  }

  /** extract_date_range: the branches of the source. */
  method ExtractDateRange(rule: Rule, parse: DateParser) returns (r: Result<(Option<int>, Option<int>), FilterError>)
    requires rule.Rule?
    ensures r == if BadRange(rule, parse) then Err(NotADate) else Ok((RangeStart(rule, parse), RangeEnd(rule, parse)))
  {
    var start, end: Option<int> := None, None;
    if rule.filter in ["gte", "gt"] && rule.value != "" {
      start :- ParseDate(rule.value, false, parse);
    } else if rule.filter in ["lte", "lt"] && rule.value != "" {
      end :- ParseDate(rule.value, true, parse);
    } else if rule.filter == "between" {
      if rule.value != "" {
        start :- ParseDate(rule.value, false, parse);
      }
      if rule.value2 != "" {
        end :- ParseDate(rule.value2, true, parse);
      }
    } else if rule.filter == "eq" && rule.value != "" {
      start :- ParseDate(rule.value, false, parse);
      var late := ParseDate(rule.value, true, parse);
      end := late.value;
    }
    r := Ok((start, end));
  }

  /** What the last rule that gives one gives. */
  function LastGiven<T>(rules: seq<Rule>, of: Rule -> Option<T>): (r: Option<T>)
    ensures r.None? ==> forall i :: 0 <= i < |rules| ==> of(rules[i]).None?
    ensures r.Some? ==> exists i :: 0 <= i < |rules| && of(rules[i]) == r && forall j :: i < j < |rules| ==>
      of(rules[j]).None?
  {
    if rules == [] then None
    else
      var n := |rules| - 1;
      assert forall i :: 0 <= i < n ==> rules[..n][i] == rules[i];
      if of(rules[n]).Some? then of(rules[n]) else LastGiven(rules[..n], of)
  }

  lemma LastGivenSnoc<T>(rules: seq<Rule>, of: Rule -> Option<T>, i: nat)
    requires i < |rules|
    ensures LastGiven(rules[..i + 1], of) == if of(rules[i]).Some? then of(rules[i]) else LastGiven(rules[..i], of)
  {
    assert rules[..i + 1][..i] == rules[..i];
  }

  function LastStart(rules: seq<Rule>, parse: DateParser): Option<int> {
    LastGiven(rules, (rule: Rule) => StartOf(rule, parse))
  }

  function LastEnd(rules: seq<Rule>, parse: DateParser): Option<int> {
    LastGiven(rules, (rule: Rule) => EndOf(rule, parse))
  }

  lemma LastBoundsSnoc(rules: seq<Rule>, parse: DateParser, i: nat)
    requires i < |rules|
    ensures LastStart(rules[..i + 1], parse) == if StartOf(rules[i], parse).Some? then StartOf(rules[i], parse)
      else LastStart(rules[..i], parse)
    ensures LastEnd(rules[..i + 1], parse) == if EndOf(rules[i], parse).Some? then EndOf(rules[i], parse)
      else LastEnd(rules[..i], parse)
  {
    hide StartOf, EndOf;
    LastGivenSnoc(rules, (rule: Rule) => StartOf(rule, parse), i);
    LastGivenSnoc(rules, (rule: Rule) => EndOf(rule, parse), i);
  }

  function Period(rules: seq<Rule>, now: int, parse: DateParser): (int, int) {
    var (from, to) := (LastStart(rules, parse), LastEnd(rules, parse));
    var end := if to.Some? then to.value else now;
    (if from.Some? then from.value else end - THIRTY_DAYS, end)
  }

  predicate SomeBadDate(rules: seq<Rule>, parse: DateParser) {
    exists i :: 0 <= i < |rules| && BadDate(rules[i], parse)
  }

  /**
   _extract_date_bounds: the last bounds given, or the thirty days up to the end; it raises exactly on a rule
   whose date is none.
   */
  method ExtractDateBounds(rules: seq<Rule>, now: int, parse: DateParser) returns (r: Result<(int, int), FilterError>)
    ensures r == if SomeBadDate(rules, parse) then Err(NotADate) else Ok(Period(rules, now, parse))
  {
    hide LastStart, LastEnd, RangeStart, RangeEnd, BadRange;
    var from: Option<int>, to: Option<int> := None, None;
    NoBounds(parse);
    for i := 0 to |rules|
      invariant from == LastStart(rules[..i], parse) && to == LastEnd(rules[..i], parse)
      invariant forall k :: 0 <= k < i ==> !BadDate(rules[k], parse)
    {
      LastBoundsSnoc(rules, parse, i);
      if rules[i].Rule? && rules[i].field == "created_at" {
        var bounds :- ExtractDateRange(rules[i], parse);
        var (start, end) := bounds;
        from := if start.Some? then start else from;
        to := if end.Some? then end else to;
      }
    }
    assert rules[..|rules|] == rules;
    var toDate := if to.Some? then to.value else now;
    r := Ok((if from.Some? then from.value else toDate - THIRTY_DAYS, toDate));
  }

  lemma NoBounds(parse: DateParser)
    ensures LastStart([], parse) == None && LastEnd([], parse) == None
  {
  }

  /**
   A list query whose last two parameters are its limit and offset; dropping them loses none a condition refers
   to.
   */
  ghost predicate EndsWithPage(q: Query, limit: int, skip: int) {
    && WellFormed(q) && |q.params| >= 2
    && q.limit == Some(|q.params| - 1) && q.offset == Some(|q.params|) && LimitOf(q) == Some(limit)
       && OffsetOf(q) == skip
    && AllNumbered(q.conditions, |q.params| - 2)
  }

  /** count: the conditions of the list under all but the last two parameters. */
  function CountOf(q: Query): Query
    requires |q.params| >= 2
  {
    Query(q.conditions, q.params[..|q.params| - 2], None, None)
  }

  /** Limit and offset appended, the query and its count select what passes. */
  lemma PagedSelects(server: Server, conditions: seq<Clause>, params: seq<Value>, wants: seq<Want>, limit: int,
          skip: int)
    requires Compiled(conditions, params, wants)
    ensures
      var all := params + [Number(limit), Number(skip)];
      var q := Query(conditions, all, Some(|all| - 1), Some(|all|));
      && EndsWithPage(q, limit, skip) && CountOf(q).params == params
      && (forall row :: Selects(server, q.conditions, q.params, row) <==> PassesAll(server, wants, row))
      && (forall row :: Selects(server, CountOf(q).conditions, CountOf(q).params, row) <==>
            PassesAll(server, wants, row))
  {
    var all := params + [Number(limit), Number(skip)];
    MoreParameters(conditions, params, [Number(limit), Number(skip)], wants);
    CompiledSelectsAll(server, conditions, all, wants);
    CompiledSelectsAll(server, conditions, params, wants);
    hide Compiled, Selects, PassesAll;
    assert all[..|all| - 2] == params;
  }

  /** The filtered count is the number of rows the listing has before its limit and offset. */
  lemma CountIsTheListedRows(server: Server, q: Query, limit: int, skip: int, table: seq<Row>)
    requires EndsWithPage(q, limit, skip)
    requires forall row :: Selects(server, q.conditions, q.params, row) <==>
      Selects(server, CountOf(q).conditions, CountOf(q).params, row)
    ensures |Execute(server, CountOf(q), table)| == |Selected(server, q, table)|
    ensures Execute(server, q, table) == Slice(Execute(server, CountOf(q), table), skip, Some(limit))
  {
    hide Selects;
    var c := CountOf(q);
    SameFilter(table,
               row => AllNumbered(q.conditions, |q.params|) && Selects(server, q.conditions, q.params, row),
               row => AllNumbered(c.conditions, |c.params|) && Selects(server, c.conditions, c.params, row));
  }

  /* ----- admin_views/webhook_log.py ----- */

  const FILTERED := ["direction", "status", "source", "event_name"]
  const WEBHOOK_SEARCHED := ["event_name", "source", "url", "error_message"]

  predicate Filters(rule: Rule) {
    rule.Rule? && rule.field in FILTERED && rule.value != ""
  }

  function RuleWants(rules: seq<Rule>): seq<Want> {
    if rules == [] then []
    else
      var rule := rules[|rules| - 1];
      var before := RuleWants(rules[..|rules| - 1]);
      if Filters(rule) then before + [Tests([rule.field], Eq, SqlConditions.Text(rule.value))] else before
  }

  /** Every rule on a filtered column must hold, and the row lie in the period and contain the search text. */
  predicate WebhookMatches(server: Server, rules: seq<Rule>, period: (int, int), q: Option<string>, row: Row) {
    && (forall r :: r in rules && Filters(r) ==> Get(row, r.field) == SqlConditions.Text(r.value))
    && Compare(server, Ge, Get(row, "created_at"), Time(period.0))
       && Compare(server, Le, Get(row, "created_at"), Time(period.1))
    && (Given(Stripped(q)) ==>
          exists c :: c in WEBHOOK_SEARCHED && Compare(server, ILike, Get(row, c), Containing(Stripped(q).value)))
  }

  function Stripped(q: Option<string>): Option<string> {
    if q.Some? then Some(Strip(q.value)) else None
  }

  lemma {:induction false} RuleWantsMatch(server: Server, rules: seq<Rule>, row: Row)
    ensures PassesAll(server, RuleWants(rules), row)
      <==> forall r :: r in rules && Filters(r) ==> Get(row, r.field) == SqlConditions.Text(r.value)
  {
    hide PassesAll, Filters, Tests;
    if rules == [] {
      PassesNothing(server, row);
    } else {
      var n := |rules| - 1;
      var rule := rules[n];
      RuleWantsMatch(server, rules[..n], row);
      assert rules == rules[..n] + [rule];
      if Filters(rule) {
        FilteringRule(rule);
        PassesSnoc(server, RuleWants(rules[..n]), Tests([rule.field], Eq, SqlConditions.Text(rule.value)), row);
        PassesOne(server, rule.field, Eq, SqlConditions.Text(rule.value), row);
      }
    }
  }

  lemma FilteringRule(rule: Rule)
    requires Filters(rule)
    ensures rule.Rule?
  {
  }

  function PeriodWants(wants: seq<Want>, period: (int, int)): seq<Want> {
    wants + [[Test("created_at", Ge, Time(period.0))]] + [[Test("created_at", Le, Time(period.1))]]
  }

  lemma PassesPeriod(server: Server, wants: seq<Want>, column: string, period: (int, int), row: Row)
    ensures PassesAll(server, wants + [[Test(column, Ge, Time(period.0))]] + [[Test(column, Le, Time(period.1))]], row)
      <==>
      && PassesAll(server, wants, row) && Compare(server, Ge, Get(row, column), Time(period.0))
      && Compare(server, Le, Get(row, column), Time(period.1))
  {
    var from, to := [Test(column, Ge, Time(period.0))], [Test(column, Le, Time(period.1))];
    PassesSnoc(server, wants, from, row);
    PassesSnoc(server, wants + [from], to, row);
    PassesOne(server, column, Ge, Time(period.0), row);
    PassesOne(server, column, Le, Time(period.1), row);
    assert Tests([column], Ge, Time(period.0)) == from && Tests([column], Le, Time(period.1)) == to;
  }

  function WebhookWants(rules: seq<Rule>, period: (int, int), q: Option<string>): seq<Want> {
    IfContains(PeriodWants(RuleWants(rules), period), WEBHOOK_SEARCHED, Stripped(q))
  }

  lemma WebhookWantsMatch(server: Server, rules: seq<Rule>, period: (int, int), q: Option<string>, row: Row)
    ensures PassesAll(server, WebhookWants(rules, period, q), row) <==> WebhookMatches(server, rules, period, q, row)
  {
    hide PassesAll, IfContains, RuleWants, Compare;
    RuleWantsMatch(server, rules, row);
    PassesPeriod(server, RuleWants(rules), "created_at", period, row);
    PassesIfContains(server, PeriodWants(RuleWants(rules), period), WEBHOOK_SEARCHED, Stripped(q), row);
  }

  /** _build_filter_query of the webhook log view. */
  method BuildWebhookQuery(server: Server, rules: seq<Rule>, limit: int, skip: int, search: Option<string>, now: int,
          parse: DateParser)
    returns (r: Result<Query, FilterError>)
    ensures r.Err? <==> SomeBadDate(rules, parse)
    ensures r.Ok? ==> EndsWithPage(r.value, limit, skip)
    ensures r.Ok? ==> forall row :: Selects(server, r.value.conditions, r.value.params, row) <==>
      WebhookMatches(server, rules, Period(rules, now, parse), search, row)
    ensures r.Ok? ==>
      var count := CountOf(r.value);
      forall row :: Selects(server, count.conditions, count.params, row) <==>
        WebhookMatches(server, rules, Period(rules, now, parse), search, row)
  {
    hide Selects, Compiled, Tests, WebhookMatches, PassesAll, Period, Filters, Containing, Strip;
    var b := new Builder([Always]);
    for i := 0 to |rules|
      invariant b.Valid() && b.wants == RuleWants(rules[..i])
    {
      assert rules[..i + 1][..i] == rules[..i];
      if Filters(rules[i]) {
        FilteringRule(rules[i]);
        b.Add([rules[i].field], Eq, SqlConditions.Text(rules[i].value));
      }
    }
    assert rules[..|rules|] == rules;
    var period :- ExtractDateBounds(rules, now, parse);
    var (fromDate, toDate) := period;
    AddPeriod(b, "created_at", fromDate, toDate);
    var text := Stripped(search);
    if Given(text) {
      b.Add(WEBHOOK_SEARCHED, ILike, Containing(text.value));
    }
    assert b.wants == WebhookWants(rules, (fromDate, toDate), search);
    var q := Page(server, b, limit, skip);
    hide WebhookWants;
    forall row ensures PassesAll(server, b.wants, row) <==>
      WebhookMatches(server, rules, (fromDate, toDate), search, row) {
      WebhookWantsMatch(server, rules, (fromDate, toDate), search, row);
    }
    r := Ok(q);
  }

  /** What a list and a count ask of a row besides the period. */
  predicate WebhookMatchesBut(server: Server, rules: seq<Rule>, q: Option<string>, row: Row) {
    && (forall r :: r in rules && Filters(r) ==> Get(row, r.field) == SqlConditions.Text(r.value))
    && (Given(Stripped(q)) ==>
          exists c :: c in WEBHOOK_SEARCHED && Compare(server, ILike, Get(row, c), Containing(Stripped(q).value)))
  }

  predicate EndGiven(rules: seq<Rule>, parse: DateParser) {
    LastEnd(rules, parse).Some?
  }

  /** The clock matters to the period exactly if no end is given. */
  lemma PeriodOfTwoClocks(rules: seq<Rule>, now: int, later: int, parse: DateParser)
    ensures Period(rules, now, parse) == Period(rules, later, parse) <==> now == later || EndGiven(rules, parse)
    ensures !EndGiven(rules, parse) ==> Period(rules, now, parse).1 == now && Period(rules, later, parse).1 == later
    ensures now <= later ==> Period(rules, now, parse).0 <= Period(rules, later, parse).0
  {
    hide LastStart, LastEnd;
  }

  /**
   A list and a count built at different times differ on a row exactly if no end is given and the row,
   meeting all else, was created after the list's clock, or fell out of the thirty days in between.
   */
  lemma ClocksDifferOn(server: Server, rules: seq<Rule>, now: int, later: int, parse: DateParser, q: Option<string>,
          row: Row)
    requires now <= later
    ensures
      var (from1, to1) := Period(rules, now, parse);
      var (from2, to2) := Period(rules, later, parse);
      (WebhookMatches(server, rules, (from1, to1), q, row) != WebhookMatches(server, rules, (from2, to2), q, row))
      <==>
      && !EndGiven(rules, parse) && WebhookMatchesBut(server, rules, q, row)
      && Get(row, "created_at").Time?
      && var t := Get(row, "created_at").time;
         (from1 <= t <= now && t < from2) || (from2 <= t <= later && t > now)
  {
    PeriodOfTwoClocks(rules, now, later, parse);
    hide Period, EndGiven, Filters, Containing, Strip;
  }

  /**
   find_all and then count, each with its own clock. Without rules and search, or where it fails, the count
   is an estimate of the whole table; otherwise, with an end given or no time between, it is of the listed rows.
   */
  method ListAndCountWebhookLogs(server: Server, rules: seq<Rule>, limit: int, skip: int, search: Option<string>,
                                 now: int, later: int, parse: DateParser, countFails: bool, table: seq<Row>)
    returns (r: Result<(seq<Row>, Option<seq<Row>>), FilterError>)
    ensures r.Err? <==> SomeBadDate(rules, parse)
    ensures r.Ok? ==>
      var (rows, counted) := r.value;
      && rows == Slice(Filter(table, row => WebhookMatches(server, rules, Period(rules, now, parse), search, row)),
         skip, Some(limit))
      && (counted.Some? <==> !countFails && (rules != [] || Given(Stripped(search))))
      && (counted.Some? ==>
            counted.value
            == Filter(table, row => WebhookMatches(server, rules, Period(rules, later, parse), search, row)))
      && (counted.Some? && (now == later || EndGiven(rules, parse)) ==> rows == Slice(counted.value, skip, Some(limit)))
  {
    hide Selects, WebhookMatches, Period, EndGiven, Slice, Filter, SomeBadDate, Stripped;
    var list :- BuildWebhookQuery(server, rules, limit, skip, search, now, parse);
    SelectedIs(server, list, table, row => WebhookMatches(server, rules, Period(rules, now, parse), search, row));
    var rows := Execute(server, list, table);
    if countFails || (rules == [] && !Given(Stripped(search))) {
      return Ok((rows, None));
    }
    var other := BuildWebhookQuery(server, rules, 0, 0, search, later, parse);
    var count := CountOf(other.value);
    PeriodOfTwoClocks(rules, now, later, parse);
    SelectedIs(server, count, table, row => WebhookMatches(server, rules, Period(rules, later, parse), search, row));
    SliceOfAll(Selected(server, count, table));
    r := Ok((rows, Some(Execute(server, count, table))));
  }

  lemma SelectedIs(server: Server, q: Query, table: seq<Row>, meant: Row -> bool)
    requires WellFormed(q) && forall row :: Selects(server, q.conditions, q.params, row) <==> meant(row)
    ensures Selected(server, q, table) == Filter(table, meant)
  {
    hide Selects;
    SameFilter(table, row => AllNumbered(q.conditions, |q.params|)
      && Selects(server, q.conditions, q.params, row), meant);
  }

  lemma SliceOfAll(rows: seq<Row>)
    ensures Slice(rows, 0, None) == rows
  {
  }

  /** Both bounds as parameters, then a clause for each. */
  method AddPeriod(b: Builder, column: string, fromDate: int, toDate: int)
    requires b.Valid()
    modifies b
    ensures b.Valid()
      && b.wants == old(b.wants) + [[Test(column, Ge, Time(fromDate))]] + [[Test(column, Le, Time(toDate))]]
  {
    hide Compiled;
    b.Extend([Time(fromDate), Time(toDate)]);
    b.AddClause(AnyOf([Atom(column, Ge, |b.params| - 1)]), [Test(column, Ge, Time(fromDate))]);
    b.AddClause(AnyOf([Atom(column, Le, |b.params|)]), [Test(column, Le, Time(toDate))]);
  }

  /** params.extend([limit, skip]), and the query. */
  method Page(server: Server, b: Builder, limit: int, skip: int) returns (q: Query)
    requires b.Valid()
    modifies b
    ensures b.wants == old(b.wants) && EndsWithPage(q, limit, skip)
    ensures forall row :: Selects(server, q.conditions, q.params, row) <==> PassesAll(server, b.wants, row)
    ensures forall row :: Selects(server, CountOf(q).conditions, CountOf(q).params, row) <==>
      PassesAll(server, b.wants, row)
  {
    hide Compiled, Selects, PassesAll;
    PagedSelects(server, b.conditions, b.params, b.wants, limit, skip);
    b.Extend([Number(limit), Number(skip)]);
    q := Query(b.conditions, b.params, Some(|b.params| - 1), Some(|b.params|));
  }

  /* ----- admin_views/audit_log.py ----- */

  const AUDIT_SEARCHED :=
    ["u.full_name", "u.username", "u.email", "a.action", "a.resource", "a.resource_id", "a.ip_address"]

  /** The last value given for each; Err where an actor id is no UUID. */
  datatype AuditFilter = AuditFilter(period: (int, int), actorId: Option<nat>, actorName: Option<string>,
    resource: Option<string>, action: Option<string>)

  function FieldOf(rule: Rule, field: string): Option<string> {
    if rule.Rule? && rule.field == field && rule.value != "" then Some(rule.value) else None
  }

  function LastField(rules: seq<Rule>, field: string): Option<string> {
    LastGiven(rules, (rule: Rule) => FieldOf(rule, field))
  }

  lemma LastFieldSnoc(rules: seq<Rule>, field: string, i: nat)
    requires i < |rules|
    ensures LastField(rules[..i + 1], field) == if FieldOf(rules[i], field).Some? then FieldOf(rules[i], field)
      else LastField(rules[..i], field)
  {
    hide FieldOf;
    LastGivenSnoc(rules, (rule: Rule) => FieldOf(rule, field), i);
  }

  lemma NoField()
    ensures forall field :: LastField([], field) == None
  {
  }

  /** A rule that asks for an actor by something that is no UUID. */
  predicate BadActor(rule: Rule, uuid: string -> Option<nat>) {
    FieldOf(rule, "actor_id").Some? && uuid(FieldOf(rule, "actor_id").value).None?
  }

  function ActorOf(text: Option<string>, uuid: string -> Option<nat>): Option<nat> {
    if text.Some? then uuid(text.value) else None
  }

  function BadRule(rule: Rule, parse: DateParser, uuid: string -> Option<nat>): Option<FilterError> {
    if BadDate(rule, parse) then Some(NotADate) else if BadActor(rule, uuid) then Some(NotAUuid) else None
  }

  /** _extract_query_filters: each filter is what the last rule on its field gives; the first bad rule raises. */
  method ExtractQueryFilters(rules: seq<Rule>, now: int, parse: DateParser, uuid: string -> Option<nat>)
    returns (r: Result<AuditFilter, FilterError>)
    ensures r.Ok? <==> forall i :: 0 <= i < |rules| ==> BadRule(rules[i], parse, uuid) == None
    ensures r.Err? ==>
      exists i :: 0 <= i < |rules| && BadRule(rules[i], parse, uuid) == Some(r.error) && forall k :: 0 <= k < i ==>
        BadRule(rules[k], parse, uuid) == None
    ensures r.Ok? ==>
      && r.value.period == Period(rules, now, parse)
      && r.value.actorId == ActorOf(LastField(rules, "actor_id"), uuid)
      && r.value.actorName == LastField(rules, "actor_name")
      && r.value.resource == LastField(rules, "resource")
      && r.value.action == LastField(rules, "action")
  {
    hide LastField, LastStart, LastEnd, RangeStart, RangeEnd, BadRange;
    var from: Option<int>, to: Option<int> := None, None;
    var actorId: Option<nat> := None;
    var actorName, resource, action: Option<string> := None, None, None;
    NoField();
    NoBounds(parse);
    for i := 0 to |rules|
      invariant forall k :: 0 <= k < i ==> BadRule(rules[k], parse, uuid) == None
      invariant from == LastStart(rules[..i], parse) && to == LastEnd(rules[..i], parse)
      invariant actorId == ActorOf(LastField(rules[..i], "actor_id"), uuid)
      invariant actorName == LastField(rules[..i], "actor_name")
      invariant resource == LastField(rules[..i], "resource") && action == LastField(rules[..i], "action")
    {
      LastBoundsSnoc(rules, parse, i);
      LastFieldSnoc(rules, "actor_id", i);
      LastFieldSnoc(rules, "actor_name", i);
      LastFieldSnoc(rules, "resource", i);
      LastFieldSnoc(rules, "action", i);
      if rules[i].Rule? {
        var rule := rules[i];
        if rule.field == "created_at" {
          var bounds :- ExtractDateRange(rule, parse);
          var (start, end) := bounds;
          from := if start.Some? then start else from;
          to := if end.Some? then end else to;
        } else if rule.field == "actor_id" && rule.value != "" {
          if uuid(rule.value).None? {
            return Err(NotAUuid);
          }
          actorId := uuid(rule.value);
        } else if rule.field == "actor_name" && rule.value != "" {
          actorName := Some(rule.value);
        } else if rule.field == "resource" && rule.value != "" {
          resource := Some(rule.value);
        } else if rule.field == "action" && rule.value != "" {
          action := Some(rule.value);
        }
      }
    }
    assert rules[..|rules|] == rules;
    var toDate := if to.Some? then to.value else now;
    var fromDate := if from.Some? then from.value else toDate - THIRTY_DAYS;
    r := Ok(AuditFilter((fromDate, toDate), actorId, actorName, resource, action));
  }

  predicate SearchMatches(server: Server, q: Option<string>, uuid: string -> Option<nat>, row: Row) {
    Given(Stripped(q)) ==>
      var text := Stripped(q).value;
      || (exists c :: c in AUDIT_SEARCHED && Compare(server, ILike, Get(row, c), Containing(text)))
      || (uuid(text).Some?
            && (Get(row, "a.id") == Id(uuid(text).value) || Get(row, "a.actor_id") == Id(uuid(text).value)))
  }

  predicate AuditMatches(server: Server, f: AuditFilter, q: Option<string>, uuid: string -> Option<nat>, row: Row) {
    && Compare(server, Ge, Get(row, "a.created_at"), Time(f.period.0))
       && Compare(server, Le, Get(row, "a.created_at"), Time(f.period.1))
    && (f.actorId.Some? ==> Get(row, "a.actor_id") == Id(f.actorId.value))
    && (Given(f.actorName) ==>
          exists c ::
            c in ["u.full_name", "u.username"] && Compare(server, ILike, Get(row, c), Containing(f.actorName.value)))
    && (Given(f.resource) ==>
          exists c :: c in ["a.resource"] && Compare(server, ILike, Get(row, c), Containing(f.resource.value)))
    && (Given(f.action) ==>
          exists c :: c in ["a.action"] && Compare(server, ILike, Get(row, c), Containing(f.action.value)))
    && SearchMatches(server, q, uuid, row)
  }

  function SearchWant(text: string, uuid: string -> Option<nat>): Want {
    Tests(AUDIT_SEARCHED, ILike, Containing(text))
    + if uuid(text).Some?
      then [Test("a.id", Eq, Id(uuid(text).value)), Test("a.actor_id", Eq, Id(uuid(text).value))] else []
  }

  lemma SearchWantMatches(server: Server, text: string, uuid: string -> Option<nat>, row: Row)
    ensures Passes(server, SearchWant(text, uuid), row) <==>
      || (exists c :: c in AUDIT_SEARCHED && Compare(server, ILike, Get(row, c), Containing(text)))
      || (uuid(text).Some?
            && (Get(row, "a.id") == Id(uuid(text).value) || Get(row, "a.actor_id") == Id(uuid(text).value)))
  {
    PassesTests(server, AUDIT_SEARCHED, ILike, Containing(text), row);
    hide Tests;
    var columns := Tests(AUDIT_SEARCHED, ILike, Containing(text));
    if uuid(text).Some? {
      var ids := [Test("a.id", Eq, Id(uuid(text).value)), Test("a.actor_id", Eq, Id(uuid(text).value))];
      PassesEither(server, columns, ids, row);
      assert ids[0] in ids && ids[1] in ids;
    } else {
      assert SearchWant(text, uuid) == columns;
    }
  }

  lemma PassesEither(server: Server, a: Want, b: Want, row: Row)
    ensures Passes(server, a + b, row) <==> Passes(server, a, row) || Passes(server, b, row)
  {
    hide Compare;
  }

  /** _build_search_clause: appends its parameters to the caller's list; None without a text. */
  method BuildSearchClause(b: Builder, q: Option<string>, uuid: string -> Option<nat>) returns (clause: Option<Clause>)
    requires b.Valid()
    modifies b`params
    ensures b.Valid()
    ensures clause.Some? <==> Given(Stripped(q))
    ensures clause.Some? ==> ClauseEncodes(clause.value, SearchWant(Stripped(q).value, uuid), b.params)
  {
    hide Compiled, Strip;
    var stripped := Stripped(q);
    if !Given(stripped) {
      return None;
    }
    var text := stripped.value;
    b.Extend([Containing(text)]);
    var atoms := Each(AUDIT_SEARCHED, ILike, |b.params|);
    if uuid(text).Some? {
      b.Extend([Id(uuid(text).value)]);
      atoms := atoms + [Atom("a.id", Eq, |b.params|)];
      atoms := atoms + [Atom("a.actor_id", Eq, |b.params|)];
    }
    return Some(AnyOf(atoms));
  }

  function AuditWants(f: AuditFilter, q: Option<string>, uuid: string -> Option<nat>): seq<Want> {
    var w0 := [] + [[Test("a.created_at", Ge, Time(f.period.0))]] + [[Test("a.created_at", Le, Time(f.period.1))]];
    var w1 := IfContains(IfId(w0, "a.actor_id", f.actorId), ["u.full_name", "u.username"], f.actorName);
    var w2 := IfContains(IfContains(w1, ["a.resource"], f.resource), ["a.action"], f.action);
    if Given(Stripped(q)) then w2 + [SearchWant(Stripped(q).value, uuid)] else w2
  }

  lemma AuditWantsMatch(server: Server, f: AuditFilter, q: Option<string>, uuid: string -> Option<nat>, row: Row)
    ensures PassesAll(server, AuditWants(f, q, uuid), row) <==> AuditMatches(server, f, q, uuid, row)
  {
    hide PassesAll, Passes, IfContains, IfId, Compare, SearchWant, Strip;
    var w0 := [] + [[Test("a.created_at", Ge, Time(f.period.0))]] + [[Test("a.created_at", Le, Time(f.period.1))]];
    var w1 := IfId(w0, "a.actor_id", f.actorId);
    var w2 := IfContains(w1, ["u.full_name", "u.username"], f.actorName);
    var w3 := IfContains(w2, ["a.resource"], f.resource);
    var w4 := IfContains(w3, ["a.action"], f.action);
    PassesNothing(server, row);
    PassesPeriod(server, [], "a.created_at", f.period, row);
    PassesIfId(server, w0, "a.actor_id", f.actorId, row);
    PassesIfContains(server, w1, ["u.full_name", "u.username"], f.actorName, row);
    PassesIfContains(server, w2, ["a.resource"], f.resource, row);
    PassesIfContains(server, w3, ["a.action"], f.action, row);
    if Given(Stripped(q)) {
      SearchWantMatches(server, Stripped(q).value, uuid, row);
      PassesSnoc(server, w4, SearchWant(Stripped(q).value, uuid), row);
    }
  }

  /** _build_filter_query of the audit log view, from the extracted filters. */
  method BuildAuditQuery(server: Server, f: AuditFilter, limit: int, skip: int, search: Option<string>,
          uuid: string -> Option<nat>)
    returns (q: Query)
    ensures EndsWithPage(q, limit, skip)
    ensures forall row :: Selects(server, q.conditions, q.params, row) <==> AuditMatches(server, f, search, uuid, row)
    ensures forall row :: Selects(server, CountOf(q).conditions, CountOf(q).params, row) <==>
      AuditMatches(server, f, search, uuid, row)
  {
    hide Selects, Compiled, Tests, AuditMatches, PassesAll, SearchWant, Containing, Strip, ClauseEncodes;
    var b := new Builder([]);
    AddPeriod(b, "a.created_at", f.period.0, f.period.1);
    if f.actorId.Some? {
      b.Add(["a.actor_id"], Eq, Id(f.actorId.value));
    }
    if Given(f.actorName) {
      b.Add(["u.full_name", "u.username"], ILike, Containing(f.actorName.value));
    }
    if Given(f.resource) {
      b.Add(["a.resource"], ILike, Containing(f.resource.value));
    }
    if Given(f.action) {
      b.Add(["a.action"], ILike, Containing(f.action.value));
    }
    var clause := BuildSearchClause(b, search, uuid);
    if clause.Some? {
      b.AddClause(clause.value, SearchWant(Stripped(search).value, uuid));
    }
    assert b.wants == AuditWants(f, search, uuid);
    q := Page(server, b, limit, skip);
    hide AuditWants;
    forall row ensures PassesAll(server, b.wants, row) <==> AuditMatches(server, f, search, uuid, row) {
      AuditWantsMatch(server, f, search, uuid, row);
    }
  }
}
