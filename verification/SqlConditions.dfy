/**
 What the query builders write and the server reads: conditions over columns and numbered
 placeholders, the list of parameters, and how both decide which rows are meant.
 */
module SqlConditions {
  import opened Wrappers

  datatype Value = Null | Text(text: string) | Id(id: nat) | Ids(ids: seq<nat>) | Time(time: int) | Number(number: int)

  type Row = map<string, Value>

  /** A column that is absent is NULL. */
  function Get(row: Row, column: string): Value {
    if column in row then row[column] else Null
  }

  /** ILIKE, and the casts of a text to uuid and to timestamptz. */
  datatype Server = Server(ilike: (string, string) -> bool, uuid: string -> Option<nat>,
    timestamp: string -> Option<int>)

  datatype Op = Eq | Ge | Le | ILike | LtUuid | LtTimestamp | EqAny

  /** column op $index; placeholders count from 1. */
  datatype Atom = Atom(column: string, op: Op, index: nat)

  /** 1=1, or atoms joined by OR. The clauses of a query are joined by AND. */
  datatype Clause = Always | AnyOf(atoms: seq<Atom>)

  /** A comparison with NULL, or between values that do not compare, selects nothing. */
  predicate Compare(server: Server, op: Op, v: Value, p: Value) {
    match op
    case Eq => v == p && v != Null
    case Ge => v.Time? && p.Time? && v.time >= p.time
    case Le => v.Time? && p.Time? && v.time <= p.time
    case ILike => v.Text? && p.Text? && server.ilike(v.text, p.text)
    case LtUuid => v.Id? && p.Text? && server.uuid(p.text).Some? && v.id < server.uuid(p.text).value
    case LtTimestamp => v.Time? && p.Text? && server.timestamp(p.text).Some? && v.time < server.timestamp(p.text).value
    case EqAny => v.Id? && p.Ids? && v.id in p.ids
  }

  predicate Numbered(clause: Clause, n: nat) {
    clause.AnyOf? ==> forall a :: a in clause.atoms ==> 1 <= a.index <= n
  }

  predicate AllNumbered(clauses: seq<Clause>, n: nat) {
    forall c :: c in clauses ==> Numbered(c, n)
  }

  predicate Holds(server: Server, clause: Clause, params: seq<Value>, row: Row)
    requires Numbered(clause, |params|)
  {
    clause.AnyOf? ==> exists a :: a in clause.atoms && Compare(server, a.op, Get(row, a.column), params[a.index - 1])
  }

  /** Whether WHERE selects the row. */
  predicate Selects(server: Server, clauses: seq<Clause>, params: seq<Value>, row: Row)
    requires AllNumbered(clauses, |params|)
  {
    forall c :: c in clauses ==> Holds(server, c, params, row)
  }

  /** The casts of text; where one fails the server raises instead of selecting. */
  predicate CanCast(server: Server, op: Op, p: Value) {
    && (op == LtUuid && p.Text? ==> server.uuid(p.text).Some?)
    && (op == LtTimestamp && p.Text? ==> server.timestamp(p.text).Some?)
  }

  predicate ClauseCasts(server: Server, clause: Clause, params: seq<Value>)
    requires Numbered(clause, |params|)
  {
    clause.AnyOf? ==> forall a :: a in clause.atoms ==> CanCast(server, a.op, params[a.index - 1])
  }

  predicate Casts(server: Server, clauses: seq<Clause>, params: seq<Value>)
    requires AllNumbered(clauses, |params|)
  {
    forall c :: c in clauses ==> ClauseCasts(server, c, params)
  }

  /* ----- what is asked of a row ----- */

  /** A column compared with a value. */
  datatype Test = Test(column: string, op: Op, value: Value)

  /** One of the tests must pass. */
  type Want = seq<Test>

  predicate Passes(server: Server, want: Want, row: Row) {
    exists t :: t in want && Compare(server, t.op, Get(row, t.column), t.value)
  }

  predicate PassesAll(server: Server, wants: seq<Want>, row: Row) {
    forall w :: w in wants ==> Passes(server, w, row)
  }

  predicate WantCasts(server: Server, want: Want) {
    forall t :: t in want ==> CanCast(server, t.op, t.value)
  }

  predicate AllCast(server: Server, wants: seq<Want>) {
    forall w :: w in wants ==> WantCasts(server, w)
  }

  /** The columns, each compared with the value. */
  function Tests(columns: seq<string>, op: Op, value: Value): (tests: Want)
    ensures |tests| == |columns| && forall i :: 0 <= i < |columns| ==> tests[i] == Test(columns[i], op, value)
  {
    seq(|columns|, i requires 0 <= i < |columns| => Test(columns[i], op, value))
  }

  function Each(columns: seq<string>, op: Op, index: nat): (atoms: seq<Atom>)
    ensures |atoms| == |columns| && forall i :: 0 <= i < |columns| ==> atoms[i] == Atom(columns[i], op, index)
  {
    seq(|columns|, i requires 0 <= i < |columns| => Atom(columns[i], op, index))
  }

  /** Python's truth of an optional string. */
  predicate Given(s: Option<string>) {
    s.Some? && s.value != ""
  }

  /** The pattern of a substring search. */
  function Containing(s: string): Value {
    Text("%" + s + "%")
  }

  function IfText(wants: seq<Want>, column: string, op: Op, s: Option<string>): seq<Want> {
    if Given(s) then wants + [Tests([column], op, Text(s.value))] else wants
  }

  function IfContains(wants: seq<Want>, columns: seq<string>, s: Option<string>): seq<Want> {
    if Given(s) then wants + [Tests(columns, ILike, Containing(s.value))] else wants
  }

  function IfId(wants: seq<Want>, column: string, id: Option<nat>): seq<Want> {
    if id.Some? then wants + [Tests([column], Eq, Id(id.value))] else wants
  }

  function IfTime(wants: seq<Want>, column: string, op: Op, t: Option<int>): seq<Want> {
    if t.Some? then wants + [Tests([column], op, Time(t.value))] else wants
  }

  lemma PassesNothing(server: Server, row: Row)
    ensures PassesAll(server, [], row)
  {
  }

  lemma PassesSnoc(server: Server, wants: seq<Want>, want: Want, row: Row)
    ensures PassesAll(server, wants + [want], row) <==> PassesAll(server, wants, row) && Passes(server, want, row)
  {
    hide Passes;
    assert want in wants + [want];
    forall w | w in wants ensures w in wants + [want] {
    }
  }

  lemma PassesTests(server: Server, columns: seq<string>, op: Op, value: Value, row: Row)
    ensures Passes(server, Tests(columns, op, value), row) <==>
      exists c :: c in columns && Compare(server, op, Get(row, c), value)
  {
    hide Compare;
    if c :| c in columns && Compare(server, op, Get(row, c), value) {
      var i :| 0 <= i < |columns| && columns[i] == c;
      assert Tests(columns, op, value)[i] in Tests(columns, op, value);
    }
  }

  lemma PassesOne(server: Server, column: string, op: Op, value: Value, row: Row)
    ensures Passes(server, Tests([column], op, value), row) <==> Compare(server, op, Get(row, column), value)
  {
    hide Compare;
    PassesTests(server, [column], op, value, row);
    assert column in [column];
  }

  lemma PassesIfText(server: Server, wants: seq<Want>, column: string, op: Op, s: Option<string>, row: Row)
    ensures PassesAll(server, IfText(wants, column, op, s), row)
      <==> PassesAll(server, wants, row) && (Given(s) ==> Compare(server, op, Get(row, column), Text(s.value)))
  {
    hide Passes, PassesAll, Compare;
    if Given(s) {
      PassesSnoc(server, wants, Tests([column], op, Text(s.value)), row);
      PassesOne(server, column, op, Text(s.value), row);
    }
  }

  lemma PassesIfContains(server: Server, wants: seq<Want>, columns: seq<string>, s: Option<string>, row: Row)
    ensures PassesAll(server, IfContains(wants, columns, s), row)
      <==>
      && PassesAll(server, wants, row)
      && (Given(s) ==> exists c :: c in columns && Compare(server, ILike, Get(row, c), Containing(s.value)))
  {
    hide Passes, PassesAll, Compare;
    if Given(s) {
      PassesSnoc(server, wants, Tests(columns, ILike, Containing(s.value)), row);
      PassesTests(server, columns, ILike, Containing(s.value), row);
    }
  }

  lemma PassesIfId(server: Server, wants: seq<Want>, column: string, id: Option<nat>, row: Row)
    ensures PassesAll(server, IfId(wants, column, id), row)
      <==> PassesAll(server, wants, row) && (id.Some? ==> Get(row, column) == Id(id.value))
  {
    hide Passes, PassesAll;
    if id.Some? {
      PassesSnoc(server, wants, Tests([column], Eq, Id(id.value)), row);
      PassesOne(server, column, Eq, Id(id.value), row);
    }
  }

  lemma PassesIfTime(server: Server, wants: seq<Want>, column: string, op: Op, t: Option<int>, row: Row)
    ensures PassesAll(server, IfTime(wants, column, op, t), row)
      <==> PassesAll(server, wants, row) && (t.Some? ==> Compare(server, op, Get(row, column), Time(t.value)))
  {
    hide Passes, PassesAll, Compare;
    if t.Some? {
      PassesSnoc(server, wants, Tests([column], op, Time(t.value)), row);
      PassesOne(server, column, op, Time(t.value), row);
    }
  }

  lemma CastsSnoc(server: Server, wants: seq<Want>, columns: seq<string>, op: Op, value: Value)
    requires columns != []
    ensures AllCast(server, wants + [Tests(columns, op, value)]) <==>
      AllCast(server, wants) && CanCast(server, op, value)
  {
    hide CanCast;
    var want := Tests(columns, op, value);
    assert want[0] in want && want in wants + [want];
    forall w | w in wants ensures w in wants + [want] {
    }
  }

  lemma CastsIfText(server: Server, wants: seq<Want>, column: string, op: Op, s: Option<string>)
    ensures AllCast(server, IfText(wants, column, op, s)) <==>
      AllCast(server, wants) && (Given(s) ==> CanCast(server, op, Text(s.value)))
  {
    if Given(s) { CastsSnoc(server, wants, [column], op, Text(s.value)); }
    hide AllCast, CanCast;
  }

  /** Only texts are cast. */
  lemma CastsIfOther(server: Server, wants: seq<Want>, columns: seq<string>, s: Option<string>, id: Option<nat>,
          op: Op, t: Option<int>)
    requires columns != []
    ensures AllCast(server, IfContains(wants, columns, s)) <==> AllCast(server, wants)
    ensures AllCast(server, IfId(wants, columns[0], id)) <==> AllCast(server, wants)
    ensures AllCast(server, IfTime(wants, columns[0], op, t)) <==> AllCast(server, wants)
  {
    if Given(s) { CastsSnoc(server, wants, columns, ILike, Containing(s.value)); }
    if id.Some? { CastsSnoc(server, wants, [columns[0]], Eq, Id(id.value)); }
    if t.Some? { CastsSnoc(server, wants, [columns[0]], op, Time(t.value)); }
    hide AllCast;
  }

  /* ----- conditions that ask it ----- */

  /** The atom's placeholder stands for the test's value. */
  predicate Encodes(atom: Atom, test: Test, params: seq<Value>) {
    1 <= atom.index <= |params| && test == Test(atom.column, atom.op, params[atom.index - 1])
  }

  predicate ClauseEncodes(clause: Clause, want: Want, params: seq<Value>) {
    && clause.AnyOf? && |clause.atoms| == |want|
    && forall i :: 0 <= i < |want| ==> Encodes(clause.atoms[i], want[i], params)
  }

  /** After a leading 1=1, if there is one, the conditions encode the wants clause for clause. */
  predicate Compiled(conditions: seq<Clause>, params: seq<Value>, wants: seq<Want>) {
    var lead := |conditions| - |wants|;
    && 0 <= lead <= 1 && (lead == 1 ==> conditions[0] == Always)
    && forall i :: 0 <= i < |wants| ==> ClauseEncodes(conditions[i + lead], wants[i], params)
  }

  lemma EncodedClauseIsNumbered(clause: Clause, want: Want, params: seq<Value>)
    requires ClauseEncodes(clause, want, params)
    ensures Numbered(clause, |params|)
  {
    forall a | a in clause.atoms ensures 1 <= a.index <= |params| {
      var i :| 0 <= i < |want| && clause.atoms[i] == a;
      assert Encodes(clause.atoms[i], want[i], params);
    }
  }

  lemma EncodedClauseHolds(server: Server, clause: Clause, want: Want, params: seq<Value>, row: Row)
    requires ClauseEncodes(clause, want, params)
    ensures Numbered(clause, |params|)
    ensures Holds(server, clause, params, row) <==> Passes(server, want, row)
  {
    EncodedClauseIsNumbered(clause, want, params);
    hide Compare;
    if Holds(server, clause, params, row) {
      var a :| a in clause.atoms && Compare(server, a.op, Get(row, a.column), params[a.index - 1]);
      var i :| 0 <= i < |want| && clause.atoms[i] == a;
      assert Encodes(clause.atoms[i], want[i], params) && want[i] in want;
    }
    if Passes(server, want, row) {
      var i :| 0 <= i < |want| && Compare(server, want[i].op, Get(row, want[i].column), want[i].value);
      assert Encodes(clause.atoms[i], want[i], params) && clause.atoms[i] in clause.atoms;
    }
  }

  lemma WantHasClause(conditions: seq<Clause>, params: seq<Value>, wants: seq<Want>, w: Want) returns (c: Clause)
    requires Compiled(conditions, params, wants) && w in wants
    ensures c in conditions && ClauseEncodes(c, w, params)
  {
    var i :| 0 <= i < |wants| && wants[i] == w;
    c := conditions[i + (|conditions| - |wants|)];
  }

  lemma ClauseHasWant(conditions: seq<Clause>, params: seq<Value>, wants: seq<Want>, c: Clause) returns (w: Want)
    requires Compiled(conditions, params, wants) && c in conditions && c != Always
    ensures w in wants && ClauseEncodes(c, w, params)
  {
    var lead := |conditions| - |wants|;
    var i :| 0 <= i < |conditions| && conditions[i] == c;
    w := wants[i - lead];
    assert ClauseEncodes(conditions[(i - lead) + lead], w, params);
  }

  lemma CompiledIsNumbered(conditions: seq<Clause>, params: seq<Value>, wants: seq<Want>)
    requires Compiled(conditions, params, wants)
    ensures AllNumbered(conditions, |params|)
  {
    hide Compiled, ClauseEncodes;
    forall c | c in conditions ensures Numbered(c, |params|) {
      if c != Always {
        var w := ClauseHasWant(conditions, params, wants, c);
        EncodedClauseIsNumbered(c, w, params);
      }
    }
  }

  /** Compiled conditions select exactly the rows that pass. */
  lemma CompiledSelects(server: Server, conditions: seq<Clause>, params: seq<Value>, wants: seq<Want>, row: Row)
    requires Compiled(conditions, params, wants)
    ensures AllNumbered(conditions, |params|)
    ensures Selects(server, conditions, params, row) <==> PassesAll(server, wants, row)
  {
    CompiledIsNumbered(conditions, params, wants);
    AlwaysHolds(server, params, row);
    hide Compiled, ClauseEncodes, Holds, Passes, Numbered;
    if Selects(server, conditions, params, row) {
      forall w | w in wants ensures Passes(server, w, row) {
        var c := WantHasClause(conditions, params, wants, w);
        EncodedClauseHolds(server, c, w, params, row);
      }
    }
    if PassesAll(server, wants, row) {
      forall c | c in conditions ensures Holds(server, c, params, row) {
        if c != Always {
          var w := ClauseHasWant(conditions, params, wants, c);
          EncodedClauseHolds(server, c, w, params, row);
        }
      }
    }
  }

  lemma CompiledSelectsAll(server: Server, conditions: seq<Clause>, params: seq<Value>, wants: seq<Want>)
    requires Compiled(conditions, params, wants)
    ensures AllNumbered(conditions, |params|)
    ensures forall row :: Selects(server, conditions, params, row) <==> PassesAll(server, wants, row)
  {
    CompiledSelects(server, conditions, params, wants, map[]);
    forall row ensures Selects(server, conditions, params, row) <==> PassesAll(server, wants, row) {
      CompiledSelects(server, conditions, params, wants, row);
    }
  }

  lemma EncodedClauseCasts(server: Server, clause: Clause, want: Want, params: seq<Value>)
    requires ClauseEncodes(clause, want, params)
    ensures Numbered(clause, |params|) && (ClauseCasts(server, clause, params) <==> WantCasts(server, want))
  {
    hide CanCast;
    forall a | a in clause.atoms ensures 1 <= a.index <= |params| && Test(a.column, a.op, params[a.index - 1]) in want {
      var i :| 0 <= i < |want| && clause.atoms[i] == a;
      assert Encodes(clause.atoms[i], want[i], params);
    }
    forall t | t in want ensures
      exists a :: a in clause.atoms && 1 <= a.index <= |params| && t == Test(a.column, a.op, params[a.index - 1]) {
      var i :| 0 <= i < |want| && want[i] == t;
      assert Encodes(clause.atoms[i], want[i], params) && clause.atoms[i] in clause.atoms;
    }
  }

  /** And they can be cast exactly if what is asked can. */
  lemma CompiledCasts(server: Server, conditions: seq<Clause>, params: seq<Value>, wants: seq<Want>)
    requires Compiled(conditions, params, wants)
    ensures AllNumbered(conditions, |params|)
    ensures Casts(server, conditions, params) <==> AllCast(server, wants)
  {
    CompiledIsNumbered(conditions, params, wants);
    AlwaysCasts(server, params);
    hide Compiled, ClauseEncodes, ClauseCasts, WantCasts, Numbered;
    if Casts(server, conditions, params) {
      forall w | w in wants ensures WantCasts(server, w) {
        var c := WantHasClause(conditions, params, wants, w);
        EncodedClauseCasts(server, c, w, params);
      }
    }
    if AllCast(server, wants) {
      forall c | c in conditions ensures ClauseCasts(server, c, params) {
        if c != Always {
          var w := ClauseHasWant(conditions, params, wants, c);
          EncodedClauseCasts(server, c, w, params);
        }
      }
    }
  }

  lemma AlwaysCasts(server: Server, params: seq<Value>)
    ensures Numbered(Always, |params|) && ClauseCasts(server, Always, params)
  {
  }

  lemma AlwaysHolds(server: Server, params: seq<Value>, row: Row)
    ensures Numbered(Always, |params|) && Holds(server, Always, params, row)
  {
  }

  /** Parameters appended later disturb nothing. */
  lemma MoreParameters(conditions: seq<Clause>, params: seq<Value>, more: seq<Value>, wants: seq<Want>)
    requires Compiled(conditions, params, wants)
    ensures Compiled(conditions, params + more, wants)
  {
    var lead := |conditions| - |wants|;
    forall i | 0 <= i < |wants| ensures ClauseEncodes(conditions[i + lead], wants[i], params + more) {
      assert ClauseEncodes(conditions[i + lead], wants[i], params);
      forall j | 0 <= j < |wants[i]| ensures Encodes(conditions[i + lead].atoms[j], wants[i][j], params + more) {
        assert Encodes(conditions[i + lead].atoms[j], wants[i][j], params);
      }
    }
  }

  /** The conditions and parameters a query builder appends to. */
  class Builder {
    var conditions: seq<Clause>
    var params: seq<Value>
    ghost var wants: seq<Want>

    ghost predicate Valid()
      reads this
    {
      Compiled(conditions, params, wants)
    }

    constructor (lead: seq<Clause>)
      requires lead == [] || lead == [Always]
      ensures Valid() && wants == [] && params == []
    {
      conditions, params, wants := lead, [], [];
    }

    /** Append the value, then the columns compared with its placeholder. */
    method Add(columns: seq<string>, op: Op, value: Value)
      requires Valid()
      modifies this
      ensures Valid() && params == old(params) + [value] && wants == old(wants) + [Tests(columns, op, value)]
    {
      MoreParameters(conditions, params, [value], wants);
      params := params + [value];
      AddClause(AnyOf(Each(columns, op, |params|)), Tests(columns, op, value));
    }

    /** Append values no condition refers to. */
    method Extend(values: seq<Value>)
      requires Valid()
      modifies this`params
      ensures Valid() && params == old(params) + values
    {
      MoreParameters(conditions, params, values, wants);
      params := params + values;
    }

    /** Append a clause over parameters that are already there. */
    method AddClause(clause: Clause, ghost want: Want)
      requires Valid() && ClauseEncodes(clause, want, params)
      modifies this`conditions, this`wants
      ensures Valid() && wants == old(wants) + [want]
    {
      conditions := conditions + [clause];
      wants := wants + [want];
    }
  }

  /* ----- running a query ----- */

  /** SELECT ... WHERE ... in the query's order, with the placeholders of LIMIT and OFFSET. */
  datatype Query = Query(conditions: seq<Clause>, params: seq<Value>, limit: Option<nat>, offset: Option<nat>)

  /** Every placeholder has its parameter. */
  predicate WellFormed(q: Query) {
    && AllNumbered(q.conditions, |q.params|)
    && (q.limit.Some? ==> 1 <= q.limit.value <= |q.params| && q.params[q.limit.value - 1].Number?)
    && (q.offset.Some? ==> 1 <= q.offset.value <= |q.params| && q.params[q.offset.value - 1].Number?)
  }

  function LimitOf(q: Query): Option<int>
    requires WellFormed(q)
  {
    if q.limit.None? then None else Some(q.params[q.limit.value - 1].number)
  }

  function OffsetOf(q: Query): int
    requires WellFormed(q)
  {
    if q.offset.None? then 0 else q.params[q.offset.value - 1].number
  }

  function Filter(table: seq<Row>, keep: Row -> bool): seq<Row> {
    if table == [] then []
    else (if keep(table[0]) then [table[0]] else []) + Filter(table[1..], keep)
  }

  function Selected(server: Server, q: Query, table: seq<Row>): seq<Row>
    requires WellFormed(q)
  {
    Filter(table, row => AllNumbered(q.conditions, |q.params|) && Selects(server, q.conditions, q.params, row))
  }

  function Slice(rows: seq<Row>, offset: int, limit: Option<int>): seq<Row> {
    var rest := if offset <= 0 then rows else if offset >= |rows| then [] else rows[offset..];
    if limit.None? || limit.value >= |rest| then rest else if limit.value <= 0 then [] else rest[..limit.value]
  }

  /** The rows returned from a table listed in the query's order. */
  function Execute(server: Server, q: Query, table: seq<Row>): seq<Row>
    requires WellFormed(q)
  {
    Slice(Selected(server, q, table), OffsetOf(q), LimitOf(q))
  }

  /** What the caller gets: the rows, or the error of a text that cannot be cast. */
  function Answer(server: Server, q: Query, table: seq<Row>): Option<seq<Row>>
    requires WellFormed(q)
  {
    if Casts(server, q.conditions, q.params) then Some(Execute(server, q, table)) else None
  }

  lemma {:induction false} SameFilter(table: seq<Row>, p: Row -> bool, q: Row -> bool)
    requires forall row :: p(row) <==> q(row)
    ensures Filter(table, p) == Filter(table, q)
  {
    if table != [] {
      SameFilter(table[1..], p, q);
    }
  }
}
