/**
 Migration runs in terms of what the files say: over a directory of files printed as an up and a down
 body, the schema is the up bodies run one after the other, in every history. And what a dry call, a
 named file and a changed file do.
 */
module MigrationTexts {
  import opened Wrappers
  import opened Text
  import opened MigrationFiles
  import opened SequenceRules
  import opened MigrationEngine
  import opened MigrationRuns

  /* ----- a directory of printed files ----- */

  /** The sorted files are these up and down bodies, file by file. */
  ghost predicate Written<S(!new)>(env: Env<S>, ups: seq<string>, downs: seq<string>) {
    && |ups| == |downs| == |Files(env)|
    && forall i :: 0 <= i < |ups| ==> PrintedAs(env, Files(env)[i], ups[i], downs[i])
  }

  /** The bodies, each stripped, run one after the other; an empty one does nothing. */
  function RunBodies<S>(execute: (string, S) -> Option<S>, base: S, bodies: seq<string>): Option<S> {
    if bodies == [] then Some(base)
    else
      var before := RunBodies(execute, base, bodies[..|bodies| - 1]);
      var body := Strip(bodies[|bodies| - 1]);
      if before.None? || body == "" then before else execute(body, before.value)
  }

  lemma {:induction false} BuiltIsTheUpBodies<S(!new)>(env: Env<S>, base: S, ups: seq<string>, downs: seq<string>,
          k: nat)
    requires Written(env, ups, downs) && k <= |ups|
    ensures Built(env, base, k) == RunBodies(env.execute, base, ups[..k])
  {
    hide Files, Printed, Printable, Section, Strip;
    if k > 0 {
      BuiltIsTheUpBodies(env, base, ups, downs, k - 1);
      assert ups[..k][..k - 1] == ups[..k - 1];
      PrintedFileIsParsed(ups[k - 1], downs[k - 1]);
    }
  }

  /** This down body, run on what the up bodies to its own have built, takes its own back, if it does not fail. */
  predicate BodyUndoes<S(==)>(execute: (string, S) -> Option<S>, base: S, ups: seq<string>, down: string, k: nat)
    requires k < |ups|
  {
    var built := RunBodies(execute, base, ups[..k + 1]);
    built.Some? && Strip(down) != "" ==>
      var undone := execute(Strip(down), built.value);
      undone.Some? ==> undone == RunBodies(execute, base, ups[..k])
  }

  ghost predicate BodiesUndo<S(!new)>(execute: (string, S) -> Option<S>, base: S, ups: seq<string>,
          downs: seq<string>)
    requires |ups| == |downs|
  {
    forall k: nat :: k < |ups| ==> BodyUndoes(execute, base, ups, downs[k], k)
  }

  lemma DownUndoesIffBodyDoes<S(!new)>(env: Env<S>, base: S, ups: seq<string>, downs: seq<string>, k: nat)
    requires Written(env, ups, downs) && k < |ups|
    ensures DownUndoes(env, base, k) <==> BodyUndoes(env.execute, base, ups, downs[k], k)
  {
    BuiltIsTheUpBodies(env, base, ups, downs, k);
    BuiltIsTheUpBodies(env, base, ups, downs, k + 1);
    PrintedFileIsParsed(ups[k], downs[k]);
    hide Files, Printed, Printable, Section, Strip, RunBodies, Built;
  }

  lemma DownsUndoIffBodiesDo<S(!new)>(env: Env<S>, base: S, ups: seq<string>, downs: seq<string>)
    requires Written(env, ups, downs)
    ensures DownsUndo(env, base) <==> BodiesUndo(env.execute, base, ups, downs)
  {
    hide Files, DownUndoes, BodyUndoes, PrintedAs;
    forall k: nat | k < |ups| ensures DownUndoes(env, base, k) <==> BodyUndoes(env.execute, base, ups, downs[k], k) {
      DownUndoesIffBodyDoes(env, base, ups, downs, k);
    }
  }

  /**
   Every history over printed files leaves the first files recorded and the schema that their up bodies
   build; histories that roll back need that the down bodies undo them.
   */
  lemma EveryHistoryBuildsTheBodies<S(!new)>(env: Env<S>, base: S, db: Db<S>, k: nat, calls: seq<Call>,
          ups: seq<string>, downs: seq<string>)
    returns (k': nat)
    requires Written(env, ups, downs) && AtPrefix(env, db, k)
    requires RunBodies(env.execute, base, ups[..k]) == Some(db.schema)
    requires (exists c :: c in calls && c.direction == "down") ==> BodiesUndo(env.execute, base, ups, downs)
    ensures k' <= |ups| && Runs(env, db, calls).records.Keys == Names(Files(env)[..k'])
    ensures RunBodies(env.execute, base, ups[..k']) == Some(Runs(env, db, calls).schema)
  {
    BuiltIsTheUpBodies(env, base, ups, downs, k);
    DownsUndoIffBodiesDo(env, base, ups, downs);
    k' := EveryHistoryKeepsAPrefix(env, base, db, k, calls);
    BuiltIsTheUpBodies(env, base, ups, downs, k');
    hide Files, Printed, Printable, Section, Strip, RunBodies, Built, Runs, Validate, DownsUndo, BodiesUndo;
  }

  /** From nothing applied, a plain `up` that returns has run every up body in order. */
  lemma PlainUpRunsEveryBody<S(!new)>(env: Env<S>, db: Db<S>, call: Call, ups: seq<string>, downs: seq<string>)
    requires Written(env, ups, downs) && AtPrefix(env, db, 0)
    requires call.direction == "up" && !call.dryRun && call.steps.None? && call.target.None?
    requires Apply(env, db, call).1.Returned?
    ensures Apply(env, db, call).1.processed == Files(env)
    ensures Apply(env, db, call).0.records.Keys == Names(Files(env))
    ensures RunBodies(env.execute, db.schema, ups) == Some(Apply(env, db, call).0.schema)
  {
    hide *;
    PlainUpIsTheLoop(env, db, call);
    LoopToTheEnd(env, db, call.clock, call.survives);
    WholeOrderIsBuilt(env, db.schema, Apply(env, db, call), ups, downs);
  }

  /** The loop over all files, if it returns, is at the end of the order. */
  ghost predicate AtTheEnd<S(!new)>(env: Env<S>, base: S, fs: seq<string>, r: (Db<S>, Outcome)) {
    r.1.Returned? ==>
      r.1.processed == fs && AtPrefix(env, r.0, |Files(env)|) && SchemaIs(env, base, r.0, |Files(env)|)
  }

  lemma LoopToTheEnd<S(!new)>(env: Env<S>, db: Db<S>, clock: string -> nat, survives: nat)
    requires AtPrefix(env, db, 0)
    ensures AtTheEnd(env, db.schema, Files(env), Process(env, db, [], Files(env), false, clock, survives))
  {
    StartOfTheOrder(env, db);
    hide *;
    LoopFrom(env, db, 0, |Files(env)|, clock, survives);
  }

  lemma StartOfTheOrder<S(!new)>(env: Env<S>, db: Db<S>)
    ensures Order(env, false)[0..0 + |Files(env)|] == Files(env)
    ensures AppliedAt(env, false, 0) == 0 && SchemaIs(env, db.schema, db, AppliedAt(env, false, 0))
  {
    hide Files;
  }

  lemma LoopFrom<S(!new)>(env: Env<S>, db: Db<S>, p: nat, m: nat, clock: string -> nat, survives: nat)
    requires p + m == |Files(env)|
    requires AtPrefix(env, db, AppliedAt(env, false, p)) && SchemaIs(env, db.schema, db, AppliedAt(env, false, p))
    ensures AtTheEnd(env, db.schema, Order(env, false)[p..p + m],
                     Process(env, db, [], Order(env, false)[p..p + m], false, clock, survives))
  {
    hide *;
    var q := LoopAdvances(env, db.schema, db, [], p, m, false, clock, survives);
    EndIsReached(env, db, p, m, Process(env, db, [], Order(env, false)[p..p + m], false, clock, survives), q);
  }

  lemma EndIsReached<S(!new)>(env: Env<S>, db: Db<S>, p: nat, m: nat, r: (Db<S>, Outcome), q: nat)
    requires p + m == |Files(env)| && SchemaIs(env, db.schema, db, AppliedAt(env, false, p))
    requires Reaches(env, db.schema, db, [], p, m, false, r, q)
    ensures AtTheEnd(env, db.schema, Order(env, false)[p..p + m], r)
  {
    hide AtPrefix, SchemaIs, Files, Order, DownsUndo;
  }

  lemma WholeOrderIsBuilt<S(!new)>(env: Env<S>, base: S, r: (Db<S>, Outcome), ups: seq<string>, downs: seq<string>)
    requires Written(env, ups, downs) && AtTheEnd(env, base, Files(env), r) && r.1.Returned?
    ensures r.1 == Returned(Files(env))
    ensures r.0.records.Keys == Names(Files(env)) && RunBodies(env.execute, base, ups) == Some(r.0.schema)
  {
    BuiltIsTheUpBodies(env, base, ups, downs, |ups|);
    assert ups[..|ups|] == ups && Files(env)[..|Files(env)|] == Files(env);
  }

  lemma PlainUpIsTheLoop<S(!new)>(env: Env<S>, db: Db<S>, call: Call)
    requires AtPrefix(env, db, 0)
    requires call.direction == "up" && !call.dryRun && call.steps.None? && call.target.None?
    ensures Apply(env, db, call) == Process(env, db, [], Files(env), false, call.clock, call.survives)
  {
    PrefixIsValidated(env, db, 0);
    PendingIsTheRest(env, db, 0, |Files(env)|);
    assert Order(env, false)[0..0 + |Files(env)|] == Files(env);
    hide Files, Apply, Process, Keep, Validate, AtPrefix, Order;
    PlainUp(env, db, call);
  }

  /* ----- calls that run nothing ----- */

  /** A dry call changes nothing, and returns what the same call would process, if that returns. */
  lemma DryCallsOnlyTell<S(!new)>(env: Env<S>, db: Db<S>, call: Call)
    requires call.dryRun
    ensures Apply(env, db, call).0 == db
    ensures Apply(env, db, call.(dryRun := false)).1.Returned? ==>
      Apply(env, db, call).1 == Apply(env, db, call.(dryRun := false)).1
  {
    hide Validate, Process, Selects;
    var down := call.direction == "down";
    match Selects(env, db, down, call.target, call.steps)
    case Selected(fs) =>
      ReturnsWhatItWasGiven(env, db, [], fs, down, call.clock, call.survives);
      assert [] + fs == fs;
    case _ =>
  }

  lemma {:induction false} ReturnsWhatItWasGiven<S(!new)>(env: Env<S>, db: Db<S>, done: seq<string>, todo: seq<string>,
          down: bool, clock: string -> nat, survives: nat)
    ensures var r := Process(env, db, done, todo, down, clock, survives).1; r.Returned? ==> r.processed == done + todo
    decreases |todo|
  {
    hide RunMigration, RecordAgain;
    if todo != [] && survives > 1 {
      var r := RunMigration(env, db, todo[0], down, clock(todo[0]));
      if r.Ok? {
        RanIsReadable(env, db, todo[0], down, clock(todo[0]));
        var next := RecordAgain(env, r.value, todo[0], down);
        ReturnsWhatItWasGiven(env, next, done + [todo[0]], todo[1..], down, clock, survives - 2);
        assert done + [todo[0]] + todo[1..] == done + todo;
      }
    }
  }

  /** A recorded file whose text no longer has the recorded checksum stops every call, which changes nothing. */
  lemma ChangedFileIsRefused<S(!new)>(env: Env<S>, db: Db<S>, call: Call, f: string, checksum: string)
    requires f in db.records && f in env.content && db.records[f].checksum == Some(checksum)
    requires checksum != "" && env.hash(env.content[f]) != checksum
    ensures Apply(env, db, call).0 == db && Apply(env, db, call).1.Raised?
  {
    assert !ChecksumMatches(db.records[f], env.content[f], env.hash);
    hide ChecksumMatches, NoDuplicates, Missing, InOrder, Files;
  }

  /** Without files the check passes, whatever is recorded, even where a changed file stops every call. */
  lemma NoFilesIsUpToDate<S(!new)>(env: Env<S>, db: Db<S>, call: Call, f: string, checksum: string)
    requires Files(env) == [] && f in db.records && f in env.content && db.records[f].checksum == Some(checksum)
    requires checksum != "" && env.hash(env.content[f]) != checksum
    ensures UpToDate(env, db) && Apply(env, db, call).1.Raised?
  {
    ChangedFileIsRefused(env, db, call, f, checksum);
    hide Apply, Files, Validate;
  }

  /* ----- one named file ----- */

  /** Up of a recorded file and down of one that is not do nothing, and so does a dry call. */
  lemma NothingToRunByName<S>(env: Env<S>, db: Db<S>, name: string, up: bool, dryRun: bool, clock: string -> nat,
          survives: nat)
    requires name in env.content && (dryRun || (name in db.records <==> up))
    ensures RunSpecific(env, db, name, if up then "up" else "down", dryRun, clock, survives) == (db, Returned([]))
  {
    assert |"up"| != |"down"|;
    hide Process;
  }

  /** Any other call runs its body: with time for both writes, record and schema are as it says. */
  lemma NamedFileIsRun<S>(env: Env<S>, db: Db<S>, name: string, up: string, down: string, isUp: bool,
          clock: string -> nat, survives: nat)
    requires PrintedAs(env, name, up, down) && (name in db.records <==> !isUp) && survives >= 2
    ensures
      var body := Strip(if isUp then up else down);
      var (after, outcome) := RunSpecific(env, db, name, if isUp then "up" else "down", false, clock, survives);
      if body == "" && !isUp then after == db && outcome == Raised(NoRollbackSection)
      else match Executed(env, body, db.schema)
        case None => after == db && outcome == Raised(ScriptFailed)
        case Some(next) =>
          && outcome == Returned([name]) && after.schema == next
          && after.records ==
               if isUp then db.records[name := Record(Some(env.hash(env.content[name])), None)] else db.records - {name}
  {
    RunsTheSectionAskedFor(env, db, name, up, down, !isUp, clock(name));
    NamedFileOutcome(env, db, name, !isUp, clock, survives);
    hide RunSpecific, RunMigration, Executed, Process, Printed, Printable, Strip;
  }

  lemma NamedFileOutcome<S>(env: Env<S>, db: Db<S>, name: string, down: bool, clock: string -> nat, survives: nat)
    requires name in env.content && (name in db.records <==> down) && survives >= 2
    ensures RunSpecific(env, db, name, if down then "down" else "up", false, clock, survives)
      == match RunMigration(env, db, name, down, clock(name))
        case Err(e) => (db, Raised(e))
        case Ok(ran) => (RecordAgain(env, ran, name, down), Returned([name]))
  {
    hide *;
    RunSpecificIsALoop(env, db, name, down, clock, survives);
    OneFileLoop(env, db, name, down, clock, survives);
  }

  lemma OneFileLoop<S>(env: Env<S>, db: Db<S>, name: string, down: bool, clock: string -> nat, survives: nat)
    requires name in env.content && survives >= 2
    ensures Process(env, db, [], [name], down, clock, survives)
      == match RunMigration(env, db, name, down, clock(name))
        case Err(e) => (db, Raised(e))
        case Ok(ran) => (RecordAgain(env, ran, name, down), Returned([name]))
  {
    hide RunMigration, RecordAgain;
    assert [name][1..] == [] && [] + [name] == [name];
  }
}
