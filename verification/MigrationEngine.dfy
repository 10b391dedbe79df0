/**
 Applying and rolling back migrations. Every write to the database is one atomic step
 (the script's transaction with its record, then the repeated record), and a run may be
 killed after any number of them.
 */
module MigrationEngine {
  import opened Wrappers
  import opened Text
  import opened MigrationFiles
  import opened SequenceRules

  /** The directory, the checksum function, and what a script does to a schema (None: it fails). */
  datatype Env<!S> = Env(
    listing: seq<string>,
    content: map<string, string>,
    hash: string -> string,
    execute: (string, S) -> Option<S>)

  datatype Db<S> = Db(records: map<string, Record>, schema: S)

  datatype MigrationError =
    | InvalidSequence(verdict: Verdict)
    | InvalidDirection
    | TargetNotFound
    | FileNotFound
    | NoRollbackSection
    | ScriptFailed

  datatype Outcome = Returned(processed: seq<string>) | Raised(error: MigrationError) | Killed

  /** One invocation; `survives` is the number of database writes it lives to see. */
  datatype Call = Call(
    direction: string, steps: Option<int>, dryRun: bool, target: Option<string>,
    clock: string -> nat, survives: nat)

  function Files<S>(env: Env<S>): seq<string> {
    SortedMigrationFiles(env.listing)
  }

  function Validate<S>(env: Env<S>, db: Db<S>): Verdict {
    Validation(Files(env), db.records, env.content, env.hash)
  }

  /* ----- selecting the files to run ----- */

  /** Python's s[:n], where a negative n drops from the end. */
  function SliceTo<T>(s: seq<T>, n: int): seq<T> {
    if n >= 0 then (if n <= |s| then s[..n] else s)
    else if |s| + n >= 0 then s[..|s| + n] else []
  }

  function IndexOf(s: seq<string>, x: string): (i: nat)
    requires x in s
    ensures i < |s| && s[i] == x
  {
    if s[0] == x then 0 else 1 + IndexOf(s[1..], x)
  }

  function Reverse<T>(s: seq<T>): (r: seq<T>)
    ensures |r| == |s| && forall i :: 0 <= i < |r| ==> r[i] == s[|s| - 1 - i]
  {
    if s == [] then [] else Reverse(s[1..]) + [s[0]]
  }

  function Keep(files: seq<string>, applied: set<string>, wanted: bool): seq<string> {
    if files == [] then []
    else (if (files[0] in applied) == wanted then [files[0]] else []) + Keep(files[1..], applied, wanted)
  }

  datatype Selection = Selected(files: seq<string>) | AlreadyApplied | Unknown

  predicate Given(target: Option<string>)
    ensures Given(target) ==> target.Some?
  {
    target.Some? && target.value != ""
  }

  function Take(fs: seq<string>, steps: Option<int>): seq<string> {
    if steps.Some? then SliceTo(fs, steps.value) else fs
  }

  /** Up to and including the target if there is one, then at most so many steps. */
  function Limit(fs: seq<string>, target: Option<string>, steps: Option<int>): seq<string>
    requires Given(target) ==> target.value in fs
  {
    Take(if Given(target) then fs[..IndexOf(fs, target.value) + 1] else fs, steps)
  }

  function SelectUp(files: seq<string>, applied: set<string>, target: Option<string>, steps: Option<int>): Selection {
    var pending := Keep(files, applied, false);
    if !Given(target) || target.value in pending then Selected(Limit(pending, target, steps))
    else if target.value in applied then AlreadyApplied
    else Unknown
  }

  function SelectDown(files: seq<string>, applied: set<string>, target: Option<string>, steps: Option<int>): Selection {
    var count := if steps.None? && target.None? then Some(1) else steps;
    var inOrder := Keep(Reverse(files), applied, true);
    if !Given(target) || target.value in inOrder then Selected(Limit(inOrder, target, count))
    else Unknown
  }

  /* ----- running one file ----- */

  function Script<S>(env: Env<S>, f: string, down: bool, schema: S): Result<S, MigrationError> {
    if f !in env.content then Err(FileNotFound)
    else
      var sql := Section(env.content[f], down);
      if sql == "" then (if down then Err(NoRollbackSection) else Ok(schema))
      else match env.execute(sql, schema)
        case Some(next) => Ok(next)
        case None => Err(ScriptFailed)
  }

  /** run_migration: the script and its record, in one transaction. */
  function RunMigration<S>(env: Env<S>, db: Db<S>, f: string, down: bool, elapsed: nat): Result<Db<S>, MigrationError> {
    match Script(env, f, down, db.schema)
    case Err(e) => Err(e)
    case Ok(schema) =>
      Ok(Db(if down then db.records - {f}
            else db.records[f := Record(Some(env.hash(env.content[f])), Some(elapsed))], schema))
  }

  /** record_migration or remove_migration_record, after the transaction has committed. */
  function RecordAgain<S>(env: Env<S>, db: Db<S>, f: string, down: bool): Db<S>
    requires f in env.content
  {
    db.(records := if down then db.records - {f}
                   else db.records[f := Record(Some(env.hash(env.content[f])), None)])
  }

  /** The loop over the selected files, with those already processed. */
  function Process<S>(env: Env<S>, db: Db<S>, done: seq<string>, todo: seq<string>, down: bool, clock: string -> nat,
          survives: nat): (Db<S>, Outcome)
    decreases |todo|
  {
    if todo == [] then (db, Returned(done))
    else if survives == 0 then (db, Killed)
    else
      match RunMigration(env, db, todo[0], down, clock(todo[0]))
      case Err(e) => (db, Raised(e))
      case Ok(ran) =>
        if survives == 1 then (ran, Killed)
        else Process(env, RecordAgain(env, ran, todo[0], down), done + [todo[0]], todo[1..], down, clock, survives - 2)
  }

  function Selects<S>(env: Env<S>, db: Db<S>, down: bool, target: Option<string>, steps: Option<int>): Selection {
    if down then SelectDown(Files(env), db.records.Keys, target, steps)
    else SelectUp(Files(env), db.records.Keys, target, steps)
  }

  /** What is done with the selection. */
  function Perform<S>(env: Env<S>, db: Db<S>, down: bool, call: Call, selection: Selection): (Db<S>, Outcome) {
    match selection
    case AlreadyApplied => (db, Returned([]))
    case Unknown => (db, Raised(TargetNotFound))
    case Selected(fs) =>
      if call.dryRun then (db, Returned(fs)) else Process(env, db, [], fs, down, call.clock, call.survives)
  }

  /** apply_migrations. */
  function Apply<S>(env: Env<S>, db: Db<S>, call: Call): (Db<S>, Outcome) {
    var verdict := Validate(env, db);
    if verdict != Valid then (db, Raised(InvalidSequence(verdict)))
    else if call.direction != "up" && call.direction != "down" then (db, Raised(MigrationError.InvalidDirection))
    else
      var down := call.direction == "down";
      Perform(env, db, down, call, Selects(env, db, down, call.target, call.steps))
  }

  function Runs<S>(env: Env<S>, db: Db<S>, calls: seq<Call>): Db<S>
    decreases |calls|
  {
    if calls == [] then db else Runs(env, Apply(env, db, calls[0]).0, calls[1..])
  }

  /** run_specific_migration: one named file, without the sequence rules. */
  function RunSpecific<S>(env: Env<S>, db: Db<S>, name: string, direction: string, dryRun: bool, clock: string -> nat,
          survives: nat): (Db<S>, Outcome) {
    if name !in env.content then (db, Raised(FileNotFound))
    else if direction != "up" && direction != "down" then (db, Returned([]))
    else if (name in db.records) == (direction == "up") || dryRun then (db, Returned([]))
    else Process(env, db, [], [name], direction == "down", clock, survives)
  }

  /** check_all_migrations_applied; an error of validation is a no. */
  predicate UpToDate<S>(env: Env<S>, db: Db<S>) {
    Files(env) == [] || (Validate(env, db) == Valid && db.records.Keys == Names(Files(env)))
  }

  /* ----- what a file's text does ----- */

  /** A text run on a schema; an empty one does nothing. */
  function Executed<S>(env: Env<S>, text: string, schema: S): Option<S> {
    if text == "" then Some(schema) else env.execute(text, schema)
  }

  /** The file is these two bodies, printed one after the other. */
  predicate PrintedAs<S>(env: Env<S>, f: string, up: string, down: string) {
    f in env.content && env.content[f] == Printed(up, down) && Printable(up, down)
  }

  /** What running a text, with its record, does and returns. */
  predicate Ran<S(==)>(env: Env<S>, before: Db<S>, f: string, text: string, down: bool, elapsed: nat,
          after: Db<S>, r: Result<(), MigrationError>)
    requires f in env.content
  {
    if text == "" && down then r == Err(NoRollbackSection) && after == before
    else match Executed(env, text, before.schema)
      case None => r == Err(ScriptFailed) && after == before
      case Some(next) =>
        && r == Ok(()) && after.schema == next
        && after.records ==
             if down then before.records - {f}
             else before.records[f := Record(Some(env.hash(env.content[f])), Some(elapsed))]
  }

  /** Up runs the up body of a printed file and down its down body, if there is one. */
  lemma RunsTheSectionAskedFor<S>(env: Env<S>, db: Db<S>, f: string, up: string, down: string, isDown: bool,
          elapsed: nat)
    requires PrintedAs(env, f, up, down)
    ensures
      var text := Strip(if isDown then down else up);
      match RunMigration(env, db, f, isDown, elapsed)
      case Ok(after) => Ran(env, db, f, text, isDown, elapsed, after, Ok(()))
      case Err(e) => Ran(env, db, f, text, isDown, elapsed, db, Err(e))
  {
    PrintedFileIsParsed(up, down);
    hide Section, Printed, Printable, Strip;
  }

  /* ----- the engine, statement by statement ----- */

  class Migrator<S> {
    const env: Env<S>
    var records: map<string, Record>
    var schema: S

    constructor (env: Env<S>, records: map<string, Record>, schema: S)
      ensures this.env == env && State() == Db(records, schema)
    {
      this.env, this.records, this.schema := env, records, schema;
    }

    function State(): Db<S>
      reads this
    {
      Db(records, schema)
    }

    method Transaction(f: string, down: bool, elapsed: nat) returns (r: Result<(), MigrationError>)
      modifies this
      ensures r.Ok? <==> RunMigration(env, old(State()), f, down, elapsed).Ok?
      ensures r.Ok? ==> State() == RunMigration(env, old(State()), f, down, elapsed).value
      ensures r.Err? ==> State() == old(State()) && r.error == RunMigration(env, old(State()), f, down, elapsed).error
      ensures forall u, d :: PrintedAs(env, f, u, d) ==>
        Ran(env, old(State()), f, Strip(if down then d else u), down, elapsed, State(), r)
    {
      forall u, d | PrintedAs(env, f, u, d) { PrintedFileIsParsed(u, d); }
      hide Section, Printed, Printable, Strip;
      if f !in env.content {
        return Err(FileNotFound);
      }
      var sql := Section(env.content[f], down);
      if down && sql == "" {
        return Err(NoRollbackSection);
      }
      if sql != "" {
        match env.execute(sql, schema)
        case None => return Err(ScriptFailed);
        case Some(next) => schema := next;
      }
      if down {
        records := records - {f};
      } else {
        records := records[f := Record(Some(env.hash(env.content[f])), Some(elapsed))];
      }
      r := Ok(());
    }

    /** One round of the loop; `stop` is how the run ends here, if it does. */
    method ProcessOne(f: string, down: bool, elapsed: nat, survives: nat) returns (stop: Option<Outcome>)
      requires survives > 0
      modifies this
      ensures match RunMigration(env, old(State()), f, down, elapsed)
        case Err(e) => State() == old(State()) && stop == Some(Raised(e))
        case Ok(ran) =>
          if survives == 1 then State() == ran && stop == Some(Killed)
          else State() == RecordAgain(env, ran, f, down) && stop == None
    {
      var r := Transaction(f, down, elapsed);
      if r.Err? {
        return Some(Raised(r.error));
      }
      if survives == 1 {
        return Some(Killed);
      }
      if down {
        records := records - {f};
      } else {
        records := records[f := Record(Some(env.hash(env.content[f])), None)];
      }
      return None;
    }

    /** The loop of apply_migrations over the selected files. */
    method ProcessAll(todo: seq<string>, down: bool, clock: string -> nat, survives: nat) returns (outcome: Outcome)
      modifies this
      ensures (State(), outcome) == Process(env, old(State()), [], todo, down, clock, survives)
    {
      hide RunMigration, RecordAgain;
      var processed: seq<string> := [];
      var left: nat := survives;
      assert todo[0..] == todo;
      for i := 0 to |todo|
        invariant Process(env, old(State()), [], todo, down, clock, survives)
          == Process(env, State(), processed, todo[i..], down, clock, left)
      {
        assert todo[i..][1..] == todo[i + 1..];
        if left == 0 {
          return Killed;
        }
        var stop := ProcessOne(todo[i], down, clock(todo[i]), left);
        if stop.Some? {
          return stop.value;
        }
        left := left - 2;
        processed := processed + [todo[i]];
      }
      return Returned(processed);
    }

    method ApplyMigrations(call: Call) returns (outcome: Outcome)
      modifies this
      ensures (State(), outcome) == Apply(env, old(State()), call)
    {
      var files := Files(env);
      var verdict := Validate(env, State());
      if verdict != Valid {
        return Raised(InvalidSequence(verdict));
      }
      var selection;
      if call.direction == "up" {
        selection := SelectUp(files, records.Keys, call.target, call.steps);
      } else if call.direction == "down" {
        selection := SelectDown(files, records.Keys, call.target, call.steps);
      } else {
        return Raised(MigrationError.InvalidDirection);
      }
      match selection
      case AlreadyApplied => return Returned([]);
      case Unknown => return Raised(TargetNotFound);
      case Selected(fs) =>
        if call.dryRun {
          return Returned(fs);
        }
        outcome := ProcessAll(fs, call.direction == "down", call.clock, call.survives);
    }

    /** check_all_migrations_applied. */
    method AllApplied() returns (ok: bool)
      ensures ok <==> UpToDate(env, State())
    {
      var files := Files(env);
      return files == [] || (Validate(env, State()) == Valid && records.Keys == Names(files));
    }
  }
}
