/**
 What every sequence of migration runs keeps: the applied set is a prefix of the run
 order and the schema is what that prefix's up scripts build, wherever a run is killed.
 */
module MigrationRuns {
  import opened Wrappers
  import opened MigrationFiles
  import opened SequenceRules
  import opened MigrationEngine

  /** The first k files, and only they, are recorded, with checksums that still match. */
  ghost predicate AtPrefix<S(!new)>(env: Env<S>, db: Db<S>, k: nat) {
    Consecutive(Files(env)) && (forall f :: f in Files(env) ==> f in env.content)
    && k <= |Files(env)| && db.records.Keys == Prefix(Files(env), k)
    && ChecksumsMatch(db.records, env.content, env.hash)
  }

  /** The schema the up sections of the first k files build, run one after the other, if none of them fails. */
  function Built<S>(env: Env<S>, base: S, k: nat): Option<S>
    requires k <= |Files(env)|
  {
    if k == 0 then Some(base)
    else
      var f, before := Files(env)[k - 1], Built(env, base, k - 1);
      if before.None? || f !in env.content then None else Executed(env, Section(env.content[f], false), before.value)
  }

  ghost predicate SchemaIs<S(!new)>(env: Env<S>, base: S, db: Db<S>, k: nat) {
    k <= |Files(env)| && Built(env, base, k) == Some(db.schema)
  }

  /** The down section of this file, if it succeeds, takes back what its up section built. */
  predicate DownUndoes<S(==)>(env: Env<S>, base: S, k: nat)
    requires k < |Files(env)|
  {
    var f, built := Files(env)[k], Built(env, base, k + 1);
    built.Some? && f in env.content && Section(env.content[f], true) != "" ==>
      var undone := Executed(env, Section(env.content[f], true), built.value);
      undone.Some? ==> undone == Built(env, base, k)
  }

  ghost predicate DownsUndo<S(!new)>(env: Env<S>, base: S) {
    forall k: nat :: k < |Files(env)| ==> DownUndoes(env, base, k)
  }

  lemma PrefixFits<S(!new)>(env: Env<S>, db: Db<S>, k: nat)
    requires AtPrefix(env, db, k)
    ensures k <= |Files(env)|
  {
  }

  lemma SameRecordsSameDb<S(!new)>(env: Env<S>, base: S, a: Db<S>, b: Db<S>, k: nat)
    requires SchemaIs(env, base, a, k) && SchemaIs(env, base, b, k) && a.records == b.records
    ensures a == b
  {
  }

  /** From a validated state with fully numbered, readable files, the applied set is a prefix. */
  lemma ValidatedStateIsAPrefix<S(!new)>(env: Env<S>, db: Db<S>) returns (k: nat)
    requires FullyNumbered(Files(env)) && (forall f :: f in Files(env) ==> f in env.content)
    requires db.records.Keys <= Names(Files(env))
    requires Validate(env, db) == Valid
    ensures AtPrefix(env, db, k)
  {
    SortedMigrationFilesAre(env.listing);
    RulesMeanConsecutivePrefix(Files(env), db.records.Keys);
    k :| 0 <= k <= |Files(env)| && db.records.Keys == Prefix(Files(env), k);
  }

  /** And a prefix is always validated: the checks never raise a false alarm. */
  lemma PrefixIsValidated<S(!new)>(env: Env<S>, db: Db<S>, k: nat)
    requires AtPrefix(env, db, k)
    ensures Validate(env, db) == Valid
  {
    ConsecutiveIsValid(Files(env));
    PrefixIsInOrder(Files(env), k);
  }

  /* ----- what is selected ----- */

  function Order<S>(env: Env<S>, down: bool): (o: seq<string>)
    ensures |o| == |Files(env)|
  {
    if down then Reverse(Files(env)) else Files(env)
  }

  /** How many files are applied when the run order stands at position p. */
  function AppliedAt<S>(env: Env<S>, down: bool, p: nat): nat
    requires p <= |Files(env)|
  {
    if down then |Files(env)| - p else p
  }

  lemma {:induction false} KeepSuffix(files: seq<string>, applied: set<string>, wanted: bool, p: nat)
    requires p <= |files|
    requires forall i :: 0 <= i < |files| ==> ((files[i] in applied) == wanted <==> p <= i)
    ensures Keep(files, applied, wanted) == files[p..]
  {
    if files != [] {
      KeepSuffix(files[1..], applied, wanted, if p == 0 then 0 else p - 1);
      assert p > 0 ==> files[1..][p - 1..] == files[p..];
    }
  }

  lemma MemberOfPrefix(files: seq<string>, k: nat, i: nat)
    requires Consecutive(files) && k <= |files| && i < |files|
    ensures files[i] in Prefix(files, k) <==> i < k
  {
    if i < k { assert files[..k][i] == files[i]; }
    if files[i] in Prefix(files, k) {
      var j :| 0 <= j < k && files[..k][j] == files[i];
    }
  }

  lemma KeepIsTheRest<S(!new)>(env: Env<S>, db: Db<S>, p: nat, down: bool)
    requires p <= |Files(env)| && AtPrefix(env, db, AppliedAt(env, down, p))
    ensures Keep(Order(env, down), db.records.Keys, down) == Order(env, down)[p..]
  {
    hide Files, AtPrefix, Order;
    forall i | 0 <= i < |Order(env, down)| ensures (Order(env, down)[i] in db.records.Keys) == down <==> p <= i {
      RunOrderIsApplied(env, db, p, down, i);
    }
    KeepSuffix(Order(env, down), db.records.Keys, down, p);
  }

  /** So many of n files, or all there are; a negative count leaves out so many of them. */
  function Counted(steps: int, n: nat): nat {
    if steps >= n then n else if steps >= 0 then steps else if n + steps >= 0 then n + steps else 0
  }

  lemma LimitIsAPrefix(fs: seq<string>, target: Option<string>, steps: Option<int>) returns (m: nat)
    requires Given(target) ==> target.value in fs
    ensures m <= |fs| && Limit(fs, target, steps) == fs[..m]
    ensures !Given(target) && steps.Some? ==> m == Counted(steps.value, |fs|)
  {
    m := |Limit(fs, target, steps)|;
  }

  /** Whatever the target and the steps, negative ones included, what is selected comes next in the run order. */
  lemma SelectionComesNext<S(!new)>(env: Env<S>, db: Db<S>, p: nat, down: bool, target: Option<string>,
          steps: Option<int>)
    returns (m: nat)
    requires p <= |Files(env)| && AtPrefix(env, db, AppliedAt(env, down, p))
    ensures Selects(env, db, down, target, steps).Selected? ==>
      p + m <= |Files(env)| && Selects(env, db, down, target, steps).files == Order(env, down)[p..p + m]
    ensures !Given(target) && steps.Some? ==>
      Selects(env, db, down, target, steps).Selected? && m == Counted(steps.value, |Files(env)| - p)
  {
    hide Files, AtPrefix, Limit, Keep, Given, Reverse;
    KeepIsTheRest(env, db, p, down);
    var rest := Order(env, down)[p..];
    var count := if down && steps.None? && target.None? then Some(1) else steps;
    m := 0;
    if !Given(target) || target.value in rest {
      m := LimitIsAPrefix(rest, target, count);
      assert rest[..m] == Order(env, down)[p..p + m];
    }
  }

  /** With a target ahead, the files run are those up to it, or as many of these as the steps ask for. */
  lemma TargetAndStepsDecide<S(!new)>(env: Env<S>, db: Db<S>, p: nat, down: bool, target: string, steps: Option<int>)
    returns (t: nat, m: nat)
    requires p <= |Files(env)| && AtPrefix(env, db, AppliedAt(env, down, p))
    requires target != "" && target in Order(env, down)[p..]
    ensures p + t < |Files(env)| && Order(env, down)[p + t] == target
    ensures m == if steps.None? then t + 1 else Counted(steps.value, t + 1)
    ensures p + m <= |Files(env)|
    ensures Selects(env, db, down, Some(target), steps) == Selected(Order(env, down)[p..p + m])
  {
    hide Files, AtPrefix, Keep, Reverse;
    KeepIsTheRest(env, db, p, down);
    var rest := Order(env, down)[p..];
    t := IndexOf(rest, target);
    m := if steps.None? then t + 1 else Counted(steps.value, t + 1);
    assert Limit(rest, Some(target), steps) == rest[..t + 1][..m] == rest[..m];
    assert rest[..m] == Order(env, down)[p..p + m];
  }

  /**
   A target that is named is the last file run, when it lies ahead in the run order; a target
   already behind is reported when going up and refused when going down, like an unknown one.
   */
  lemma TargetDecides<S(!new)>(env: Env<S>, db: Db<S>, p: nat, down: bool, target: string)
    requires target != ""
    requires p <= |Files(env)| && AtPrefix(env, db, AppliedAt(env, down, p))
    ensures
      match Selects(env, db, down, Some(target), None)
      case Selected(fs) => fs != [] && fs[|fs| - 1] == target && target in Files(env)
        && (target in db.records <==> down)
      case AlreadyApplied => !down && target in db.records
      case Unknown => target !in (if down then db.records.Keys else Names(Files(env)))
  {
    hide Files, AtPrefix, Keep, Reverse;
    KeepIsTheRest(env, db, p, down);
    RestIsUnrun(env, db, p, down, target);
    SameMembers(Files(env));
    PrefixIsOfFiles(env, db, AppliedAt(env, down, p));
  }

  lemma RestIsUnrun<S(!new)>(env: Env<S>, db: Db<S>, p: nat, down: bool, f: string)
    requires p <= |Files(env)| && AtPrefix(env, db, AppliedAt(env, down, p))
    ensures f in Order(env, down)[p..] <==> f in Order(env, down) && (f in db.records <==> down)
  {
    hide Files, AtPrefix, Order;
    forall i | 0 <= i < |Order(env, down)| ensures Order(env, down)[i] in db.records <==> (p <= i) == down {
      RunOrderIsApplied(env, db, p, down, i);
    }
    InSuffix(Order(env, down), p, db.records.Keys, down, f);
  }

  lemma RunOrderIsApplied<S(!new)>(env: Env<S>, db: Db<S>, p: nat, down: bool, i: nat)
    requires p <= |Files(env)| && AtPrefix(env, db, AppliedAt(env, down, p)) && i < |Files(env)|
    ensures Order(env, down)[i] in db.records <==> (p <= i) == down
  {
    hide Files, Prefix, ChecksumsMatch;
    MemberOfPrefix(Files(env), AppliedAt(env, down, p), if down then |Files(env)| - 1 - i else i);
  }

  lemma InSuffix(order: seq<string>, p: nat, applied: set<string>, down: bool, f: string)
    requires p <= |order|
    requires forall i :: 0 <= i < |order| ==> (order[i] in applied <==> (p <= i) == down)
    ensures f in order[p..] <==> f in order && (f in applied <==> down)
  {
    if f in order && (f in applied <==> down) {
      var i :| 0 <= i < |order| && order[i] == f;
      assert order[p..][i - p] == f;
    }
  }

  lemma PrefixIsOfFiles<S(!new)>(env: Env<S>, db: Db<S>, k: nat)
    requires AtPrefix(env, db, k)
    ensures db.records.Keys <= Names(Files(env))
  {
  }

  /**
   With neither target nor steps, up runs every pending file and down rolls back one.
   An empty target turns the default of one off: down then rolls back everything.
   */
  lemma DefaultSelection<S(!new)>(env: Env<S>, db: Db<S>, p: nat, down: bool)
    requires p <= |Files(env)| && AtPrefix(env, db, AppliedAt(env, down, p))
    ensures
      var rest := Order(env, down)[p..];
      && Selects(env, db, down, None, None) == Selected(if down && |rest| > 1 then rest[..1] else rest)
      && Selects(env, db, down, Some(""), None) == Selected(rest)
  {
    hide Files, AtPrefix, Keep;
    KeepIsTheRest(env, db, p, down);
  }

  /* ----- one file, then a whole loop, then a whole history ----- */

  lemma PrefixGrows(files: seq<string>, k: nat)
    requires Consecutive(files) && k < |files|
    ensures files[k] !in Prefix(files, k) && Prefix(files, k + 1) == Prefix(files, k) + {files[k]}
  {
    MemberOfPrefix(files, k, k);
    assert files[..k + 1] == files[..k] + [files[k]];
  }

  lemma RecordingAdvances<S(!new)>(env: Env<S>, db: Db<S>, k: nat, elapsed: Option<nat>, schema: S)
    requires AtPrefix(env, db, k) && k < |Files(env)|
    ensures
      var f := Files(env)[k];
      AtPrefix(env, Db(db.records[f := Record(Some(env.hash(env.content[f])), elapsed)], schema), k + 1)
  {
    PrefixGrows(Files(env), k);
  }

  lemma RecordingTwice<S(!new)>(env: Env<S>, db: Db<S>, k: nat, elapsed: Option<nat>)
    requires AtPrefix(env, db, k + 1)
    ensures
      var f := Files(env)[k];
      AtPrefix(env, Db(db.records[f := Record(Some(env.hash(env.content[f])), elapsed)], db.schema), k + 1)
  {
    MemberOfPrefix(Files(env), k + 1, k);
    assert Files(env)[k] in db.records;
  }

  lemma RemovingRetreats<S(!new)>(env: Env<S>, db: Db<S>, k: nat, schema: S)
    requires AtPrefix(env, db, k + 1)
    ensures AtPrefix(env, Db(db.records - {Files(env)[k]}, schema), k)
    ensures db.records - {Files(env)[k]} - {Files(env)[k]} == db.records - {Files(env)[k]}
  {
    PrefixGrows(Files(env), k);
  }

  /** A file run, and recorded again, leaves k applied. */
  ghost predicate Leaves<S(!new)>(env: Env<S>, ran: Db<S>, f: string, down: bool, k: nat) {
    f in env.content && AtPrefix(env, ran, k) && AtPrefix(env, RecordAgain(env, ran, f, down), k)
  }

  lemma UpRecords<S(!new)>(env: Env<S>, db: Db<S>, k: nat, elapsed: nat)
    requires k < |Files(env)| && AtPrefix(env, db, k) && RunMigration(env, db, Files(env)[k], false, elapsed).Ok?
    ensures Leaves(env, RunMigration(env, db, Files(env)[k], false, elapsed).value, Files(env)[k], false, k + 1)
  {
    RanRecords(env, db, Files(env)[k], false, elapsed);
    var ran := RunMigration(env, db, Files(env)[k], false, elapsed).value;
    hide Files, AtPrefix, RunMigration;
    RecordingAdvances(env, db, k, Some(elapsed), ran.schema);
    RecordingTwice(env, ran, k, None);
  }

  lemma DownRecords<S(!new)>(env: Env<S>, db: Db<S>, k: nat, elapsed: nat)
    requires k < |Files(env)| && AtPrefix(env, db, k + 1) && RunMigration(env, db, Files(env)[k], true, elapsed).Ok?
    ensures Leaves(env, RunMigration(env, db, Files(env)[k], true, elapsed).value, Files(env)[k], true, k)
  {
    RanRecords(env, db, Files(env)[k], true, elapsed);
    var ran := RunMigration(env, db, Files(env)[k], true, elapsed).value;
    hide Files, AtPrefix, RunMigration;
    RemovingRetreats(env, db, k, ran.schema);
  }

  /** One round of the loop moves one place along the order. */
  ghost predicate Advances<S(!new)>(env: Env<S>, db: Db<S>, p: nat, down: bool, elapsed: nat)
    requires p < |Files(env)|
  {
    var f := Order(env, down)[p];
    RunMigration(env, db, f, down, elapsed).Ok? ==>
      Leaves(env, RunMigration(env, db, f, down, elapsed).value, f, down, AppliedAt(env, down, p + 1))
  }

  lemma OneFileRecords<S(!new)>(env: Env<S>, db: Db<S>, p: nat, down: bool, elapsed: nat)
    requires p < |Files(env)| && AtPrefix(env, db, AppliedAt(env, down, p))
    ensures Advances(env, db, p, down, elapsed)
  {
    hide Leaves, AtPrefix, RunMigration, Files;
    if down && RunMigration(env, db, Order(env, down)[p], down, elapsed).Ok? {
      DownRecords(env, db, |Files(env)| - p - 1, elapsed);
    }
    if !down && RunMigration(env, db, Order(env, down)[p], down, elapsed).Ok? {
      UpRecords(env, db, p, elapsed);
    }
  }

  lemma UpSchema<S(!new)>(env: Env<S>, base: S, db: Db<S>, k: nat, elapsed: nat)
    requires k < |Files(env)| && RunMigration(env, db, Files(env)[k], false, elapsed).Ok? && SchemaIs(env, base, db, k)
    ensures SchemaIs(env, base, RunMigration(env, db, Files(env)[k], false, elapsed).value, k + 1)
  {
    RanSchema(env, db, Files(env)[k], false, elapsed);
    hide Executed, Section, Files, RunMigration;
  }

  lemma DownSchema<S(!new)>(env: Env<S>, base: S, db: Db<S>, k: nat, elapsed: nat)
    requires k < |Files(env)| && RunMigration(env, db, Files(env)[k], true, elapsed).Ok?
    requires SchemaIs(env, base, db, k + 1) && DownsUndo(env, base)
    ensures SchemaIs(env, base, RunMigration(env, db, Files(env)[k], true, elapsed).value, k)
  {
    RanSchema(env, db, Files(env)[k], true, elapsed);
    hide Executed, Section, Files, RunMigration;
    assert DownUndoes(env, base, k);
  }

  /** And it takes the schema to that place. */
  ghost predicate Rebuilds<S(!new)>(env: Env<S>, base: S, db: Db<S>, p: nat, down: bool, elapsed: nat)
    requires p < |Files(env)|
  {
    var r := RunMigration(env, db, Order(env, down)[p], down, elapsed);
    r.Ok? ==> SchemaIs(env, base, r.value, AppliedAt(env, down, p + 1))
  }

  lemma OneFileSchema<S(!new)>(env: Env<S>, base: S, db: Db<S>, p: nat, down: bool, elapsed: nat)
    requires p < |Files(env)|
    requires SchemaIs(env, base, db, AppliedAt(env, down, p)) && (down ==> DownsUndo(env, base))
    ensures Rebuilds(env, base, db, p, down, elapsed)
  {
    hide SchemaIs, DownsUndo, RunMigration, Files;
    if down && RunMigration(env, db, Order(env, down)[p], down, elapsed).Ok? {
      DownSchema(env, base, db, |Files(env)| - p - 1, elapsed);
    }
    if !down && RunMigration(env, db, Order(env, down)[p], down, elapsed).Ok? {
      UpSchema(env, base, db, p, elapsed);
    }
  }

  lemma RanRecords<S(!new)>(env: Env<S>, db: Db<S>, f: string, down: bool, elapsed: nat)
    requires RunMigration(env, db, f, down, elapsed).Ok?
    ensures f in env.content
    ensures
      var recorded := db.records[f := Record(Some(env.hash(env.content[f])), Some(elapsed))];
      var ran := RunMigration(env, db, f, down, elapsed).value;
      ran == Db(if down then db.records - {f} else recorded, ran.schema)
  {
    hide Section;
  }

  lemma RanSchema<S(!new)>(env: Env<S>, db: Db<S>, f: string, down: bool, elapsed: nat)
    requires RunMigration(env, db, f, down, elapsed).Ok?
    ensures f in env.content && (down ==> Section(env.content[f], true) != "")
    ensures Executed(env, Section(env.content[f], down), db.schema)
      == Some(RunMigration(env, db, f, down, elapsed).value.schema)
  {
    hide Section;
  }

  /** A loop over m files from position p has stopped at position q, with the schema of that position. */
  ghost predicate Reaches<S(!new)>(env: Env<S>, base: S, db: Db<S>, done: seq<string>, p: nat, m: nat, down: bool,
          r: (Db<S>, Outcome), q: nat)
    requires p + m <= |Files(env)|
  {
    && p <= q <= p + m && AtPrefix(env, r.0, AppliedAt(env, down, q))
    && (SchemaIs(env, base, db, AppliedAt(env, down, p)) && (down ==> DownsUndo(env, base))
        ==> SchemaIs(env, base, r.0, AppliedAt(env, down, q)))
    && (r.1.Returned? ==> q == p + m && r.1.processed == done + Order(env, down)[p..p + m])
  }

  /** The loop over the selected files, killed or failing anywhere, stops at a later position of the run order. */
  lemma {:induction false} LoopAdvances<S(!new)>(env: Env<S>, base: S, db: Db<S>, done: seq<string>, p: nat, m: nat,
          down: bool, clock: string -> nat, survives: nat)
    returns (q: nat)
    requires p + m <= |Files(env)| && AtPrefix(env, db, AppliedAt(env, down, p))
    ensures Reaches(env, base, db, done, p, m, down,
                    Process(env, db, done, Order(env, down)[p..p + m], down, clock, survives), q)
    decreases m
  {
    hide Files, Order, AtPrefix, SchemaIs, DownsUndo, RunMigration, RecordAgain;
    var todo := Order(env, down)[p..p + m];
    q := p;
    if m == 0 {
      assert todo == [] && done + todo == done;
    } else if survives > 0 {
      var f, rest := todo[0], Order(env, down)[p + 1..p + m];
      assert f == Order(env, down)[p] && todo[1..] == rest;
      var r := RunMigration(env, db, f, down, clock(f));
      if r.Ok? {
        OneFileRecords(env, db, p, down, clock(f));
        if SchemaIs(env, base, db, AppliedAt(env, down, p)) && (down ==> DownsUndo(env, base)) {
          OneFileSchema(env, base, db, p, down, clock(f));
        }
        q := p + 1;
        if survives > 1 {
          var next := RecordAgain(env, r.value, f, down);
          SameSchema(env, base, r.value, f, down, AppliedAt(env, down, p + 1));
          q := LoopAdvances(env, base, next, done + [f], p + 1, m - 1, down, clock, survives - 2);
          assert done + [f] + rest == done + todo;
        }
      }
    }
  }

  lemma SameSchema<S(!new)>(env: Env<S>, base: S, db: Db<S>, f: string, down: bool, k: nat)
    requires f in env.content
    ensures SchemaIs(env, base, RecordAgain(env, db, f, down), k) == SchemaIs(env, base, db, k)
  {
  }

  lemma ReachesAPlace<S(!new)>(env: Env<S>, base: S, db: Db<S>, done: seq<string>, p: nat, m: nat, down: bool,
          r: (Db<S>, Outcome), q: nat)
    requires p + m <= |Files(env)| && Reaches(env, base, db, done, p, m, down, r, q)
    ensures p <= q <= p + m && AtPrefix(env, r.0, AppliedAt(env, down, q))
    ensures SchemaIs(env, base, db, AppliedAt(env, down, p)) && (down ==> DownsUndo(env, base))
      ==> SchemaIs(env, base, r.0, AppliedAt(env, down, q))
  {
    hide AtPrefix, SchemaIs, DownsUndo, Files, Order;
  }

  lemma ReturnsAll<S(!new)>(env: Env<S>, base: S, db: Db<S>, done: seq<string>, p: nat, m: nat, down: bool,
          r: (Db<S>, Outcome), q: nat)
    requires p + m <= |Files(env)| && Reaches(env, base, db, done, p, m, down, r, q) && r.1.Returned?
    ensures q == p + m && r.1.processed == done + Order(env, down)[p..p + m]
  {
    hide AtPrefix, SchemaIs, DownsUndo, Files, Order;
  }

  predicate Directed(call: Call, down: bool) {
    call.direction == if down then "down" else "up"
  }

  /** A call that runs the next m files of its direction, or is refused or dry and changes nothing. */
  ghost predicate IsALoop<S(!new)>(env: Env<S>, db: Db<S>, p: nat, m: nat, down: bool, call: Call)
    requires p + m <= |Files(env)|
  {
    var r := Apply(env, db, call);
    || (r.0 == db && m == 0 && (!call.dryRun && r.1.Returned? ==> r.1.processed == []))
    || r == Process(env, db, [], Order(env, down)[p..p + m], down, call.clock, call.survives)
  }

  lemma ApplyPerforms<S(!new)>(env: Env<S>, db: Db<S>, down: bool, call: Call)
    requires Directed(call, down) && Validate(env, db) == Valid
    ensures Apply(env, db, call) == Perform(env, db, down, call, Selects(env, db, down, call.target, call.steps))
  {
    assert |"up"| != |"down"|;
    hide Validate, Perform, Selects;
  }

  lemma ApplyIsALoop<S(!new)>(env: Env<S>, db: Db<S>, p: nat, down: bool, call: Call) returns (m: nat)
    requires Directed(call, down) && p <= |Files(env)| && AtPrefix(env, db, AppliedAt(env, down, p))
    ensures p + m <= |Files(env)| && IsALoop(env, db, p, m, down, call)
  {
    hide Files, Order, AtPrefix, AppliedAt, Selects, Apply, Process, Validate, Directed;
    PrefixIsValidated(env, db, AppliedAt(env, down, p));
    ApplyPerforms(env, db, down, call);
    m := SelectionComesNext(env, db, p, down, call.target, call.steps);
    if call.dryRun || !Selects(env, db, down, call.target, call.steps).Selected? {
      m := 0;
    }
  }

  /** With a count of steps that the order has left, and no target, it is that many files. */
  lemma StepsAreALoop<S(!new)>(env: Env<S>, db: Db<S>, p: nat, m: nat, down: bool, call: Call)
    requires Directed(call, down) && p + m <= |Files(env)| && AtPrefix(env, db, AppliedAt(env, down, p))
    requires !call.dryRun && call.target == None && call.steps == Some(m)
    ensures Apply(env, db, call) == Process(env, db, [], Order(env, down)[p..p + m], down, call.clock, call.survives)
  {
    hide Files, Order, AtPrefix, AppliedAt, Selects, Apply, Process, Validate, Directed;
    PrefixIsValidated(env, db, AppliedAt(env, down, p));
    ApplyPerforms(env, db, down, call);
    var _ := SelectionComesNext(env, db, p, down, call.target, call.steps);
  }

  /* ----- is everything applied? ----- */

  /** The check passes on a database if and only if every file is recorded, with the checksum of its text. */
  lemma UpToDateIsTheWholeOrder<S(!new)>(env: Env<S>, db: Db<S>)
    requires FullyNumbered(Files(env)) && (forall f :: f in Files(env) ==> f in env.content) && Files(env) != []
    ensures UpToDate(env, db) <==> AtPrefix(env, db, |Files(env)|)
  {
    assert Files(env)[..|Files(env)|] == Files(env);
    if UpToDate(env, db) {
      hide *;
      var k := ValidatedStateIsAPrefix(env, db);
      WholePrefix(Files(env), k, db.records.Keys);
    } else if AtPrefix(env, db, |Files(env)|) {
      PrefixIsValidated(env, db, |Files(env)|);
    }
  }

  /**
   And where calls leave a database, with k files applied, it passes exactly if none pends: if and only
   if a plain `up`, dry or not, returns having nothing to run.
   */
  lemma UpToDateIffNothingPends<S(!new)>(env: Env<S>, db: Db<S>, k: nat, call: Call)
    requires AtPrefix(env, db, k) && call.direction == "up" && call.steps.None? && call.target.None?
    ensures UpToDate(env, db) <==> k == |Files(env)|
    ensures UpToDate(env, db) <==> Apply(env, db, call).1 == Returned([])
  {
    UpToDateAt(env, db, k);
    PlainUpReturnsNothingIff(env, db, k, call);
    hide *;
  }

  lemma UpToDateAt<S(!new)>(env: Env<S>, db: Db<S>, k: nat)
    requires AtPrefix(env, db, k)
    ensures k <= |Files(env)| && (UpToDate(env, db) <==> k == |Files(env)|)
  {
    PrefixIsValidated(env, db, k);
    WholePrefix(Files(env), k, db.records.Keys);
    hide Files, Validate;
  }

  lemma PendingIsTheRest<S(!new)>(env: Env<S>, db: Db<S>, k: nat, m: nat)
    requires AtPrefix(env, db, k) && k + m == |Files(env)|
    ensures Keep(Files(env), db.records.Keys, false) == Order(env, false)[k..k + m]
    ensures |Keep(Files(env), db.records.Keys, false)| == m
  {
    KeepIsTheRest(env, db, k, false);
    hide Files, AtPrefix, Keep;
  }

  lemma PlainUpReturnsNothingIff<S(!new)>(env: Env<S>, db: Db<S>, k: nat, call: Call)
    requires AtPrefix(env, db, k) && call.direction == "up" && call.steps.None? && call.target.None?
    ensures k <= |Files(env)| && (Apply(env, db, call).1 == Returned([]) <==> k == |Files(env)|)
  {
    assert k <= |Files(env)| && k == AppliedAt(env, false, k);
    var m := |Files(env)| - k;
    hide *;
    PrefixIsValidated(env, db, k);
    PendingIsTheRest(env, db, k, m);
    PlainUp(env, db, call);
    var pending := Keep(Files(env), db.records.Keys, false);
    PerformedIs(env, db, call, pending);
    if m > 0 { SomethingRuns(env, db, k, m, call); } else { NothingToProcess(env, db, call); }
    assert pending == [] <==> m == 0;
  }

  lemma PlainUp<S(!new)>(env: Env<S>, db: Db<S>, call: Call)
    requires Validate(env, db) == Valid && call.direction == "up" && call.steps.None? && call.target.None?
    ensures Apply(env, db, call)
      == Perform(env, db, false, call, Selected(Keep(Files(env), db.records.Keys, false)))
  {
    PlainSelection(Files(env), db.records.Keys);
    hide Files, Validate, Keep, Perform, SelectUp, SelectDown, Apply;
    ApplyPerforms(env, db, false, call);
  }

  lemma PerformedIs<S>(env: Env<S>, db: Db<S>, call: Call, fs: seq<string>)
    ensures Perform(env, db, false, call, Selected(fs)).1
      == if call.dryRun then Returned(fs) else Process(env, db, [], fs, false, call.clock, call.survives).1
  {
    hide Process;
  }

  lemma SomethingRuns<S(!new)>(env: Env<S>, db: Db<S>, k: nat, m: nat, call: Call)
    requires m > 0 && k + m <= |Files(env)| && AtPrefix(env, db, AppliedAt(env, false, k))
    ensures Process(env, db, [], Order(env, false)[k..k + m], false, call.clock, call.survives).1 != Returned([])
  {
    hide *;
    var q := LoopAdvances(env, db.schema, db, [], k, m, false, call.clock, call.survives);
    var r := Process(env, db, [], Order(env, false)[k..k + m], false, call.clock, call.survives);
    if r.1.Returned? { ReturnsAll(env, db.schema, db, [], k, m, false, r, q); }
    assert |[] + Order(env, false)[k..k + m]| == m;
  }

  lemma NothingToProcess<S>(env: Env<S>, db: Db<S>, call: Call)
    ensures Process(env, db, [], [], false, call.clock, call.survives) == (db, Returned([]))
  {
  }

  lemma PlainSelection(files: seq<string>, applied: set<string>)
    ensures SelectUp(files, applied, None, None) == Selected(Keep(files, applied, false))
  {
  }

  lemma WholePrefix(files: seq<string>, k: nat, applied: set<string>)
    requires Consecutive(files) && k <= |files| && applied == Prefix(files, k)
    ensures applied == Names(files) <==> k == |files|
  {
    assert files[..|files|] == files;
    if k < |files| {
      MemberOfPrefix(files, k, k);
      assert files[k] in files;
    }
  }

  lemma OneCallKeepsAPrefix<S(!new)>(env: Env<S>, base: S, db: Db<S>, k: nat, call: Call) returns (k': nat)
    requires AtPrefix(env, db, k)
    ensures AtPrefix(env, Apply(env, db, call).0, k')
    ensures SchemaIs(env, base, db, k) && (call.direction == "down" ==> DownsUndo(env, base))
      ==> SchemaIs(env, base, Apply(env, db, call).0, k')
    ensures call.direction == "up" ==> k <= k'
    ensures call.direction != "up" ==> k' <= k
  {
    hide Files, Order, SchemaIs, DownsUndo, SelectUp, SelectDown, Process, Validate, Prefix,
      ChecksumsMatch, Consecutive;
    k' := k;
    var down := call.direction == "down";
    if down || call.direction == "up" {
      var p := if down then |Files(env)| - k else k;
      var m := ApplyIsALoop(env, db, p, down, call);
      if Apply(env, db, call).0 != db {
        var q := LoopAdvances(env, base, db, [], p, m, down, call.clock, call.survives);
        k' := AppliedAt(env, down, q);
      }
    }
  }

  /**
   Every history of runs, in any direction, with any steps and target, failing or killed
   anywhere, keeps the applied set a prefix of the run order and the schema equal to what
   that prefix builds. Rollbacks need that each down script undoes its up script.
   */
  lemma {:induction false} EveryHistoryKeepsAPrefix<S(!new)>(env: Env<S>, base: S, db: Db<S>, k: nat,
          calls: seq<Call>)
    returns (k': nat)
    requires AtPrefix(env, db, k)
    ensures AtPrefix(env, Runs(env, db, calls), k') && Validate(env, Runs(env, db, calls)) == Valid
    ensures SchemaIs(env, base, db, k) && ((exists c :: c in calls && c.direction == "down") ==> DownsUndo(env, base))
      ==> SchemaIs(env, base, Runs(env, db, calls), k')
    decreases |calls|
  {
    k' := k;
    if calls == [] {
      PrefixIsValidated(env, db, k);
    } else {
      var mid := OneCallKeepsAPrefix(env, base, db, k, calls[0]);
      k' := EveryHistoryKeepsAPrefix(env, base, Apply(env, db, calls[0]).0, mid, calls[1..]);
      assert calls[0] in calls && forall c :: c in calls[1..] ==> c in calls;
    }
  }

  /* ----- exact effect of a loop that returns ----- */

  function Recorded<S>(env: Env<S>, fs: seq<string>): map<string, Record> {
    map f | f in fs && f in env.content :: Record(Some(env.hash(env.content[f])), None)
  }

  lemma RanIsReadable<S(!new)>(env: Env<S>, db: Db<S>, f: string, down: bool, elapsed: nat)
    requires RunMigration(env, db, f, down, elapsed).Ok?
    ensures
      var ran := RunMigration(env, db, f, down, elapsed).value;
      && f in env.content
      && RecordAgain(env, ran, f, down).records
           == if down then db.records - {f} else db.records[f := Record(Some(env.hash(env.content[f])), None)]
  {
    hide Section;
  }

  /**
   A loop that returns has recorded, or removed, exactly the files it was given. The repeated
   record overwrites the one written with the script, so no execution time is ever kept.
   */
  lemma {:induction false} LoopRecordsExactly<S(!new)>(env: Env<S>, db: Db<S>, done: seq<string>, todo: seq<string>,
          down: bool, clock: string -> nat, survives: nat)
    requires Process(env, db, done, todo, down, clock, survives).1.Returned?
    requires forall i, j :: 0 <= i < j < |todo| ==> todo[i] != todo[j]
    ensures Process(env, db, done, todo, down, clock, survives).0.records
      == if down then db.records - Names(todo) else db.records + Recorded(env, todo)
    decreases |todo|
  {
    hide RunMigration, RecordAgain, Recorded;
    if todo == [] {
      RecordedNothing(env, db.records);
      assert db.records - Names(todo) == db.records;
    } else {
      var f, rest := todo[0], todo[1..];
      RanIsReadable(env, db, f, down, clock(f));
      var ran := RunMigration(env, db, f, down, clock(f)).value;
      LoopRecordsExactly(env, RecordAgain(env, ran, f, down), done + [f], rest, down, clock, survives - 2);
      assert todo == [f] + rest && f !in rest;
      if down {
        RemovedFirst(db.records, f, rest);
      } else {
        RecordedFirst(env, db.records, f, rest);
      }
    }
  }

  lemma RecordedNothing<S>(env: Env<S>, records: map<string, Record>)
    ensures records + Recorded(env, []) == records
  {
  }

  lemma RecordedFirst<S>(env: Env<S>, records: map<string, Record>, f: string, rest: seq<string>)
    requires f !in rest && f in env.content
    ensures records[f := Record(Some(env.hash(env.content[f])), None)] + Recorded(env, rest)
      == records + Recorded(env, [f] + rest)
  {
  }

  lemma RemovedFirst(records: map<string, Record>, f: string, rest: seq<string>)
    ensures records - {f} - Names(rest) == records - Names([f] + rest)
  {
  }

  lemma OrderIsDistinct<S(!new)>(env: Env<S>, db: Db<S>, k: nat, down: bool, p: nat, q: nat)
    requires AtPrefix(env, db, k) && p <= q <= |Files(env)|
    ensures forall i, j :: 0 <= i < j < q - p ==> Order(env, down)[p..q][i] != Order(env, down)[p..q][j]
  {
    hide Files, Prefix, ChecksumsMatch;
    ConsecutiveIsValid(Files(env));
  }

  /**
   Up by n steps and down by as many as were run restores the records and the schema:
   nothing else is recorded, removed or rewritten on the way.
   */
  lemma UpThenDownRestores<S(!new)>(env: Env<S>, base: S, db: Db<S>, k: nat, up: Call, down: Call)
    requires AtPrefix(env, db, k) && SchemaIs(env, base, db, k) && DownsUndo(env, base)
    requires up.direction == "up" && !up.dryRun && Apply(env, db, up).1.Returned?
    requires down.direction == "down" && !down.dryRun && down.target == None
    requires down.steps == Some(|Apply(env, db, up).1.processed|)
    requires Apply(env, Apply(env, db, up).0, down).1.Returned?
    ensures Apply(env, Apply(env, db, up).0, down).0 == db
    ensures Apply(env, Apply(env, db, up).0, down).1.processed == Reverse(Apply(env, db, up).1.processed)
  {
    hide Files, Order, AtPrefix, SchemaIs, DownsUndo, Apply, Process, Recorded, Reverse;
    assert |up.direction| == 2;
    PrefixFits(env, db, k);
    var mid, first := Apply(env, db, up).0, Apply(env, db, up).1;
    var m := ApplyIsALoop(env, db, k, false, up);
    if mid == db && m == 0 && first.processed == [] {
      RecordedNothing(env, db.records);
      assert Files(env)[k..k + m] == [];
    } else {
      var fs := UpOrder(env, k, m);
      var q := LoopAdvances(env, base, db, [], k, m, false, up.clock, up.survives);
      OrderIsDistinct(env, db, k, false, k, k + m);
      LoopRecordsExactly(env, db, [], fs, false, up.clock, up.survives);
      assert [] + fs == fs;
    }
    DownRestores(env, base, db, k, m, mid, down);
  }

  lemma UpOrder<S>(env: Env<S>, k: nat, m: nat) returns (fs: seq<string>)
    requires k + m <= |Files(env)|
    ensures fs == Order(env, false)[k..k + m] == Files(env)[k..k + m]
  {
    fs := Files(env)[k..k + m];
  }

  lemma DownOrder<S>(env: Env<S>, k: nat, m: nat) returns (fs: seq<string>)
    requires k + m <= |Files(env)|
    ensures fs == Order(env, true)[|Files(env)| - (k + m)..|Files(env)| - k] == Reverse(Files(env)[k..k + m])
    ensures Names(fs) == Names(Files(env)[k..k + m])
  {
    hide Files;
    fs := Reverse(Files(env)[k..k + m]);
    SameMembers(Files(env)[k..k + m]);
  }

  lemma LaterFilesAreNew<S(!new)>(env: Env<S>, db: Db<S>, k: nat, m: nat)
    requires AtPrefix(env, db, k) && k + m <= |Files(env)|
    ensures db.records + Recorded(env, Files(env)[k..k + m]) - Names(Files(env)[k..k + m]) == db.records
  {
    hide Files;
    var fs := Files(env)[k..k + m];
    forall f | f in fs ensures f !in db.records {
      var i :| k <= i < k + m && Files(env)[i] == f;
      MemberOfPrefix(Files(env), k, i);
    }
  }

  lemma DownRestores<S(!new)>(env: Env<S>, base: S, db: Db<S>, k: nat, m: nat, mid: Db<S>, down: Call)
    requires AtPrefix(env, db, k) && SchemaIs(env, base, db, k) && DownsUndo(env, base)
    requires k + m <= |Files(env)| && AtPrefix(env, mid, k + m) && SchemaIs(env, base, mid, k + m)
    requires mid.records == db.records + Recorded(env, Files(env)[k..k + m])
    requires down.direction == "down" && !down.dryRun && down.target == None && down.steps == Some(m)
    requires Apply(env, mid, down).1.Returned?
    ensures Apply(env, mid, down) == (db, Returned(Reverse(Files(env)[k..k + m])))
  {
    hide Files, Order, AtPrefix, SchemaIs, DownsUndo, Apply, Process, Recorded, Reverse, Names, Script, Validate;
    var p := |Files(env)| - (k + m);
    StepsAreALoop(env, mid, p, m, true, down);
    var fs := DownOrder(env, k, m);
    var q := LoopAdvances(env, base, mid, [], p, m, true, down.clock, down.survives);
    OrderIsDistinct(env, mid, k + m, true, p, p + m);
    LoopRecordsExactly(env, mid, [], fs, true, down.clock, down.survives);
    LaterFilesAreNew(env, db, k, m);
    assert [] + fs == fs;
    SameRecordsSameDb(env, base, Apply(env, mid, down).0, db, k);
  }

  lemma SameMembers(s: seq<string>)
    ensures forall f :: f in Reverse(s) <==> f in s
  {
    forall f ensures f in Reverse(s) <==> f in s {
      if f in s {
        var i :| 0 <= i < |s| && s[i] == f;
        assert Reverse(s)[|s| - 1 - i] == f;
      }
    }
  }

  /* ----- running one named file ----- */

  lemma SpecificChangesOneRecord<S(!new)>(env: Env<S>, db: Db<S>, name: string, down: bool, clock: string -> nat,
          survives: nat)
    requires name in db.records <==> down
    ensures
      var keys := RunSpecific(env, db, name, if down then "down" else "up", false, clock, survives).0.records.Keys;
      keys == db.records.Keys || keys == if down then db.records.Keys - {name} else db.records.Keys + {name}
  {
    hide Script;
    assert [name][1..] == [] && [name][0] == name;
    var r := RunMigration(env, db, name, down, clock(name));
    if r.Ok? && name in env.content {
      assert r.value.records.Keys == if down then db.records.Keys - {name} else db.records.Keys + {name};
      var again := RecordAgain(env, r.value, name, down);
      assert again.records.Keys == r.value.records.Keys;
      assert survives >= 2 ==>
        Process(env, db, [], [name], down, clock, survives)
          == Process(env, again, [] + [name], [], down, clock, survives - 2);
    }
    assert |"up"| != |"down"|;
    assert RunSpecific(env, db, name, if down then "down" else "up", false, clock, survives).0
      == if name in env.content then Process(env, db, [], [name], down, clock, survives).0 else db;
  }

  /** What one named run leaves, as the sequence rules see it. */
  lemma OneChangeInOrder(files: seq<string>, k: nat, i: nat, down: bool)
    requires Consecutive(files) && k <= |files| && i < |files| && (files[i] in Prefix(files, k) <==> down)
    ensures
      var applied := if down then Prefix(files, k) - {files[i]} else Prefix(files, k) + {files[i]};
      InOrder(files, applied) <==> if down then i + 1 == k else i == k
  {
    MemberOfPrefix(files, k, i);
    if down {
      if i + 1 == k {
        PrefixGrows(files, i);
        assert Prefix(files, k) - {files[i]} == Prefix(files, i);
        PrefixIsInOrder(files, i);
      } else {
        MemberOfPrefix(files, k, k - 1);
        SkippedPrecedes(files, Prefix(files, k) - {files[i]}, i, k - 1);
      }
    } else {
      if i == k {
        PrefixGrows(files, k);
        PrefixIsInOrder(files, k + 1);
      } else {
        MemberOfPrefix(files, k, k);
        SkippedPrecedes(files, Prefix(files, k) + {files[i]}, k, i);
      }
    }
  }

  lemma SkippedPrecedes(files: seq<string>, applied: set<string>, low: nat, high: nat)
    requires Consecutive(files) && low < high < |files| && files[low] !in applied && files[high] in applied
    ensures !InOrder(files, applied)
  {
    assert files[low] in files && Precedes(files[low], applied);
  }

  /**
   After one named migration has been run outside the order, the next run is refused, and
   changes nothing, exactly when the named file was not the next one of its direction.
   */
  lemma OutOfOrderRunIsDetected<S(!new)>(env: Env<S>, db: Db<S>, k: nat, i: nat, down: bool, clock: string -> nat,
          survives: nat, call: Call)
    requires AtPrefix(env, db, k) && i < |Files(env)|
    requires Files(env)[i] in db.records <==> down
    requires
      var name := Files(env)[i];
      var db' := RunSpecific(env, db, name, if down then "down" else "up", false, clock, survives).0;
      db'.records.Keys != db.records.Keys
    ensures
      var db' := RunSpecific(env, db, Files(env)[i], if down then "down" else "up", false, clock, survives).0;
      var inOrder := if down then i + 1 == k else i == k;
      && (InOrder(Files(env), db'.records.Keys) <==> inOrder)
      && (inOrder ==> Validate(env, db') == Valid)
      && (!inOrder ==> Apply(env, db', call) == (db', Raised(InvalidSequence(OutOfOrder))))
  {
    hide RunSpecific, Files, NoDuplicates, Missing, InOrder, FullyNumbered, Prefix, ChecksumsMatch;
    ConsecutiveIsValid(Files(env));
    SpecificChangesOneRecord(env, db, Files(env)[i], down, clock, survives);
    OneChangeInOrder(Files(env), k, i, down);
    if if down then i + 1 == k else i == k {
      NextOneIsValidated(env, db, k, i, down, clock, survives);
    }
  }

  /** The next file of its direction, run by its name, leaves a validated state. */
  lemma NextOneIsValidated<S(!new)>(env: Env<S>, db: Db<S>, k: nat, i: nat, down: bool, clock: string -> nat,
          survives: nat)
    requires AtPrefix(env, db, k) && i < |Files(env)| && if down then i + 1 == k else i == k
    requires Files(env)[i] in db.records <==> down
    ensures
      var direction := if down then "down" else "up";
      Validate(env, RunSpecific(env, db, Files(env)[i], direction, false, clock, survives).0) == Valid
  {
    var p := NextInOrder(env, k, i, down);
    assert Files(env)[i] in env.content;
    hide *;
    RunSpecificIsALoop(env, db, Files(env)[i], down, clock, survives);
    var q := LoopAdvances(env, db.schema, db, [], p, 1, down, clock, survives);
    var r := Process(env, db, [], [Files(env)[i]], down, clock, survives);
    ReachesAPlace(env, db.schema, db, [], p, 1, down, r, q);
    PrefixIsValidated(env, r.0, AppliedAt(env, down, q));
  }

  lemma NextInOrder<S>(env: Env<S>, k: nat, i: nat, down: bool) returns (p: nat)
    requires k <= |Files(env)| && i < |Files(env)| && if down then i + 1 == k else i == k
    ensures p + 1 <= |Files(env)| && AppliedAt(env, down, p) == k && Order(env, down)[p..p + 1] == [Files(env)[i]]
  {
    p := if down then |Files(env)| - k else k;
    hide Files;
  }

  lemma RunSpecificIsALoop<S>(env: Env<S>, db: Db<S>, name: string, down: bool, clock: string -> nat, survives: nat)
    requires name in env.content && (name in db.records <==> down)
    ensures RunSpecific(env, db, name, if down then "down" else "up", false, clock, survives)
      == Process(env, db, [], [name], down, clock, survives)
  {
    assert |"up"| != |"down"|;
    hide Process;
  }
}
