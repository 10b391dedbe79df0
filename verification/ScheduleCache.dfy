/**
 The versioned schedule cache: writers change periodic_tasks and then drop the cached rows and
 raise the version in one Redis transaction; the beat scheduler compares versions on every tick
 and reloads from the cache or the table.
 */
module ScheduleCache {
  import opened Wrappers

  const MAX_DAYS := 999_999_999

  /* ----- rows and schedules ----- */

  datatype Crontab = Crontab(minute: string, hour: string, dayOfWeek: string, dayOfMonth: string, monthOfYear: string)

  datatype Row = Row(
    task: string, scheduleType: string,
    minute: Option<string>, hour: Option<string>, dayOfWeek: Option<string>,
    dayOfMonth: Option<string>, monthOfYear: Option<string>,
    intervalEvery: Option<int>, intervalPeriod: Option<string>,
    args: string, kwargs: string, enabled: bool)

  datatype Schedule = Every(seconds: int) | At(crontab: Crontab)

  datatype Entry = Entry(task: string, schedule: Schedule, args: string, kwargs: string)

  /** periodic_tasks; its names are unique. */
  type Table = map<string, Row>

  function OrStar(field: Option<string>): string {
    if field.None? || field.value == "" then "*" else field.value
  }

  function SecondsIn(period: Option<string>): int {
    if period.None? then 60
    else if period.value == "seconds" then 1
    else if period.value == "minutes" then 60
    else if period.value == "hours" then 3600
    else if period.value == "days" then 86400
    else 60
  }

  function IntervalSeconds(row: Row): int {
    (if row.intervalEvery.None? || row.intervalEvery.value == 0 then 60
      else row.intervalEvery.value) * SecondsIn(row.intervalPeriod)
  }

  /** None where building the schedule object raises. */
  function ParseSchedule(row: Row, valid: Crontab -> bool): Option<Schedule> {
    if row.scheduleType == "interval" then
      var seconds := IntervalSeconds(row);
      if -MAX_DAYS <= seconds / 86400 <= MAX_DAYS then Some(Every(seconds)) else None
    else
      var crontab :=
        Crontab(OrStar(row.minute), OrStar(row.hour), OrStar(row.dayOfWeek), OrStar(row.dayOfMonth),
        OrStar(row.monthOfYear));
      if valid(crontab) then Some(At(crontab)) else None
  }

  /* ----- what a row means ----- */

  /** A column says this field of a crontab: by its text, or, for a star, also by being empty or missing. */
  predicate Says(column: Option<string>, field: string) {
    || (column == Some(field) && field != "")
    || (field == "*" && (column.None? || column.value == ""))
  }

  /** Every how many seconds an interval row is due. */
  predicate IntervalIs(row: Row, seconds: int) {
    var n := if row.intervalEvery.None? || row.intervalEvery.value == 0 then 60 else row.intervalEvery.value;
    && (row.intervalPeriod == Some("seconds") ==> seconds == n)
    && (row.intervalPeriod == Some("hours") ==> seconds == 3600 * n)
    && (row.intervalPeriod == Some("days") ==> seconds == 86_400 * n)
    && (row.intervalPeriod !in {Some("seconds"), Some("hours"), Some("days")} ==> seconds == 60 * n)
  }

  /** The schedule a row stands for: as many days as a timedelta holds, or a crontab celery accepts. */
  predicate Means(row: Row, schedule: Schedule, valid: Crontab -> bool) {
    match schedule
    case Every(seconds) =>
      && row.scheduleType == "interval" && IntervalIs(row, seconds)
      && -999_999_999 * 86_400 <= seconds < 1_000_000_000 * 86_400
    case At(c) =>
      && row.scheduleType != "interval" && valid(c)
      && Says(row.minute, c.minute) && Says(row.hour, c.hour) && Says(row.dayOfWeek, c.dayOfWeek)
      && Says(row.dayOfMonth, c.dayOfMonth) && Says(row.monthOfYear, c.monthOfYear)
  }

  /** A row parses to a schedule exactly if it stands for it; so it stands for one at most. */
  lemma ParsedIsMeant(row: Row, schedule: Schedule, valid: Crontab -> bool)
    ensures ParseSchedule(row, valid) == Some(schedule) <==> Means(row, schedule, valid)
  {
    if row.scheduleType == "interval" {
      TimedeltaRange(IntervalSeconds(row));
      UnitIsCounted(row, IntervalSeconds(row));
      if schedule.Every? { UnitIsCounted(row, schedule.seconds); }
    }
    hide IntervalIs, IntervalSeconds;
  }

  lemma UnitIsCounted(row: Row, seconds: int)
    ensures IntervalIs(row, seconds) <==> seconds == IntervalSeconds(row)
  {
    var n := if row.intervalEvery.None? || row.intervalEvery.value == 0 then 60 else row.intervalEvery.value;
    assert SecondsIn(row.intervalPeriod) ==
      if row.intervalPeriod == Some("seconds") then 1 else if row.intervalPeriod == Some("hours") then 3600
      else if row.intervalPeriod == Some("days") then 86_400 else 60;
    hide SecondsIn;
    assert IntervalSeconds(row) == n * SecondsIn(row.intervalPeriod);
  }

  lemma TimedeltaRange(seconds: int)
    ensures -MAX_DAYS <= seconds / 86400 <= MAX_DAYS
      <==> -999_999_999 * 86_400 <= seconds < 1_000_000_000 * 86_400
  {
  }

  /** Any crontab with five fields, written into a row, comes back as itself if celery accepts it. */
  lemma WrittenCrontabIsRead(c: Crontab, row: Row, valid: Crontab -> bool)
    requires c.minute != "" && c.hour != "" && c.dayOfWeek != "" && c.dayOfMonth != "" && c.monthOfYear != ""
    requires row.scheduleType != "interval"
    ensures
      var written := row.(
        minute := Some(c.minute), hour := Some(c.hour), dayOfWeek := Some(c.dayOfWeek),
        dayOfMonth := Some(c.dayOfMonth), monthOfYear := Some(c.monthOfYear));
      ParseSchedule(written, valid) == if valid(c) then Some(At(c)) else None
  {
  }

  /** An empty column and a missing one are read as a star would be, each in its own place. */
  lemma EmptyColumnIsAStar(row: Row, valid: Crontab -> bool)
    requires row.scheduleType != "interval"
    ensures forall blank | blank in {None, Some("")} ::
      && ParseSchedule(row.(minute := blank), valid) == ParseSchedule(row.(minute := Some("*")), valid)
      && ParseSchedule(row.(hour := blank), valid) == ParseSchedule(row.(hour := Some("*")), valid)
      && ParseSchedule(row.(dayOfWeek := blank), valid) == ParseSchedule(row.(dayOfWeek := Some("*")), valid)
      && ParseSchedule(row.(dayOfMonth := blank), valid) == ParseSchedule(row.(dayOfMonth := Some("*")), valid)
      && ParseSchedule(row.(monthOfYear := blank), valid) == ParseSchedule(row.(monthOfYear := Some("*")), valid)
  {
  }

  /**
   A row of n seconds, minutes, hours or days is due every n, 60 n, 3600 n or 86400 n seconds, one of another
   unit or none every 60 n; a count of zero or none stands for 60.
   */
  lemma WrittenIntervalIsRead(row: Row, n: int, valid: Crontab -> bool)
    requires row.scheduleType == "interval" && n != 0 && -999_999_999 <= n <= 999_999_999
    ensures
      var every := row.(intervalEvery := Some(n));
      && ParseSchedule(every.(intervalPeriod := Some("seconds")), valid) == Some(Every(n))
      && ParseSchedule(every.(intervalPeriod := Some("minutes")), valid) == Some(Every(60 * n))
      && ParseSchedule(every.(intervalPeriod := Some("hours")), valid) == Some(Every(3600 * n))
      && ParseSchedule(every.(intervalPeriod := Some("days")), valid) == Some(Every(86_400 * n))
      && ParseSchedule(every.(intervalPeriod := None), valid) == Some(Every(60 * n))
    ensures forall unit | unit !in {"seconds", "minutes", "hours", "days"} ::
      ParseSchedule(row.(intervalEvery := Some(n), intervalPeriod := Some(unit)), valid) == Some(Every(60 * n))
    ensures forall none | none in {None, Some(0)} ::
      ParseSchedule(row.(intervalEvery := none), valid) == ParseSchedule(row.(intervalEvery := Some(60)), valid)
  {
  }

  function Enabled(table: Table): Table {
    map name | name in table && table[name].enabled :: table[name]
  }

  /** The entries of the rows that parse. */
  function Entries(rows: Table, valid: Crontab -> bool): map<string, Entry> {
    map name | name in rows && ParseSchedule(rows[name], valid).Some?
      :: Entry(rows[name].task, ParseSchedule(rows[name], valid).value, rows[name].args, rows[name].kwargs)
  }

  /** What beat should be running. */
  function Wanted(s: World, valid: Crontab -> bool): map<string, Entry> {
    Entries(Enabled(s.table), valid)
  }

  /* ----- writers, Redis and the scheduler ----- */

  /** `unannounced`: the table has changed since the last transaction that dropped the cache and raised the version. */
  datatype World = World(
    table: Table, writers: set<nat>, unannounced: bool,
    cached: Option<Table>, version: Option<nat>,
    lastVersion: Option<nat>, schedule: map<string, Entry>)

  /** Which calls of one reload succeed. */
  datatype Calls = Calls(get: bool, fetch: bool, dumps: bool, store: Reply, getVersion: bool, refetch: bool)

  datatype Step =
    | Write(writer: nat, table: Table)
    | Notify(writer: nat, reply: Reply)
    | Expire
    | Tick(versionRead: bool, calls: Calls)

  function Bump(version: Option<nat>): Option<nat> {
    if version.None? then Some(1) else Some(version.value + 1)
  }

  function Announce(s: World): World {
    s.(cached := None, version := Bump(s.version), unannounced := false)
  }

  /** A fetch that fails yields no rows. */
  function Fetch(s: World, works: bool): Table {
    if works then Enabled(s.table) else map[]
  }

  function Reload(s: World, calls: Calls, valid: Crontab -> bool): World {
    var rows := if calls.get && s.cached.Some? then s.cached.value else Fetch(s, calls.fetch);
    var stores := calls.get && s.cached.None? && rows != map[];
    var cached := if stores && calls.dumps && !calls.store.FailsBefore? then Some(rows) else s.cached;
    if calls.get && (stores ==> calls.dumps && calls.store.Works?) && calls.getVersion then
      s.(cached := cached, lastVersion := s.version, schedule := Entries(rows, valid))
    else
      s.(cached := cached, schedule := Entries(Fetch(s, calls.refetch), valid))
  }

  function Next(s: World, step: Step, valid: Crontab -> bool): World {
    match step
    case Write(w, table) => s.(table := table, writers := s.writers + {w}, unannounced := true)
    case Notify(w, reply) =>
      if w !in s.writers then s
      else (if reply.FailsBefore? then s else Announce(s)).(writers := s.writers - {w})
    case Expire => s.(cached := None)
    case Tick(versionRead, calls) => if versionRead && s.version != s.lastVersion then Reload(s, calls, valid) else s
  }

  function Runs(s: World, steps: seq<Step>, valid: Crontab -> bool): World
    decreases |steps|
  {
    if steps == [] then s else Runs(Next(s, steps[0], valid), steps[1..], valid)
  }

  /** No database fetch fails. */
  predicate FetchesWork(steps: seq<Step>) {
    forall i :: 0 <= i < |steps| && steps[i].Tick? ==> steps[i].calls.fetch && steps[i].calls.refetch
  }

  predicate NotifiesWork(steps: seq<Step>) {
    forall i :: 0 <= i < |steps| && steps[i].Notify? ==> !steps[i].reply.FailsBefore?
  }

  /**
   What setup_schedule leaves: the first reload of a scheduler that has seen no version, over a cache no write
   has overtaken.
   */
  ghost predicate Started(s: World, valid: Crontab -> bool) {
    exists before: World, calls: Calls {:trigger Reload(before, calls, valid)} ::
      && before.lastVersion == None && (before.unannounced <==> before.writers != {})
      && (!before.unannounced && before.cached.Some? ==> before.cached.value == Enabled(before.table))
      && calls.fetch && calls.refetch && s == Reload(before, calls, valid)
  }

  predicate NotAhead(last: Option<nat>, version: Option<nat>) {
    last.Some? ==> version.Some? && last.value <= version.value
  }

  /** Once every change is announced the cache is the table, and equal versions mean an equal schedule. */
  predicate Inv(s: World, valid: Crontab -> bool) {
    && NotAhead(s.lastVersion, s.version)
    && (!s.unannounced && s.cached.Some? ==> s.cached.value == Enabled(s.table))
    && (!s.unannounced && s.lastVersion == s.version ==> s.schedule == Wanted(s, valid))
  }

  lemma StepKeepsInv(s: World, step: Step, valid: Crontab -> bool)
    requires Inv(s, valid) && FetchesWork([step])
    ensures Inv(Next(s, step, valid), valid)
  {
    hide Entries, Enabled;
    assert [step][0] == step;
  }

  /**
   In every run in which database fetches succeed, whatever Redis and the serialiser do: if no
   change is unannounced and the scheduler's version is Redis's, beat runs exactly the entries
   of the enabled rows that parse. If moreover no notify is lost, changes are unannounced only
   while some writer stands between its write and its notify.
   */
  lemma {:induction false} EveryRunKeepsInv(s: World, steps: seq<Step>, valid: Crontab -> bool)
    requires Inv(s, valid) && FetchesWork(steps)
    ensures Inv(Runs(s, steps, valid), valid)
    ensures NotifiesWork(steps) && (s.unannounced ==> s.writers != {}) ==>
      (Runs(s, steps, valid).unannounced ==> Runs(s, steps, valid).writers != {})
    decreases |steps|
  {
    hide Inv;
    if steps != [] {
      assert [steps[0]][0] == steps[0];
      StepKeepsInv(s, steps[0], valid);
      EveryRunKeepsInv(Next(s, steps[0], valid), steps[1..], valid);
    }
  }

  lemma StartedIsInv(s: World, valid: Crontab -> bool)
    requires Started(s, valid)
    ensures Inv(s, valid) && (s.unannounced <==> s.writers != {})
  {
    hide Entries, Enabled;
  }

  /** The same from start-up, with the table spelt out name by name. */
  lemma ScheduleIsTheTable(s: World, steps: seq<Step>, valid: Crontab -> bool)
    requires Started(s, valid) && FetchesWork(steps) && NotifiesWork(steps)
    ensures
      var t := Runs(s, steps, valid);
      t.writers == {} && t.lastVersion == t.version ==>
        InstalledAsMeant(t.schedule, Enabled(t.table), valid)
        && forall name :: name in Enabled(t.table) <==> name in t.table && t.table[name].enabled
  {
    hide Next, ParseSchedule;
    StartedIsInv(s, valid);
    EveryRunKeepsInv(s, steps, valid);
    EntriesAreAsMeant(Enabled(Runs(s, steps, valid).table), valid);
    hide Entries, Runs, InstalledAsMeant;
  }

  /**
   An entry for exactly the rows that stand for a schedule, under their names, with that schedule and with
   what the row says to run and its arguments.
   */
  ghost predicate InstalledAsMeant(schedule: map<string, Entry>, rows: Table, valid: Crontab -> bool) {
    && (forall name :: name in schedule <==> name in rows && exists meant :: Means(rows[name], meant, valid))
    && forall name :: name in schedule ==>
      && name in rows && Means(rows[name], schedule[name].schedule, valid)
      && schedule[name].task == rows[name].task
      && schedule[name].args == rows[name].args && schedule[name].kwargs == rows[name].kwargs
  }

  lemma EntriesAreAsMeant(rows: Table, valid: Crontab -> bool)
    ensures InstalledAsMeant(Entries(rows, valid), rows, valid)
  {
    var schedule := Entries(rows, valid);
    forall name ensures name in schedule <==> name in rows && exists meant :: Means(rows[name], meant, valid) {
      if name in rows {
        if meant :| Means(rows[name], meant, valid) { ParsedIsMeant(rows[name], meant, valid); }
        if name in schedule { ParsedIsMeant(rows[name], schedule[name].schedule, valid); }
      }
    }
    forall name | name in schedule ensures name in rows && Means(rows[name], schedule[name].schedule, valid) {
      ParsedIsMeant(rows[name], schedule[name].schedule, valid);
    }
    hide Means, ParseSchedule;
  }

  /**
   At quiescence one tick whose version read and database fetches succeed reaches the table, whatever else of it
   fails.
   */
  lemma QuietTickConverges(s: World, calls: Calls, valid: Crontab -> bool)
    requires Inv(s, valid) && !s.unannounced && calls.fetch && calls.refetch
    ensures Next(s, Tick(true, calls), valid).schedule == Wanted(s, valid)
  {
    hide Entries, Enabled;
  }

  /**
   A reload that nothing goes wrong in runs the rows of the cache, or, without one, the enabled rows, which it
   then keeps if there are any; and it takes the version, so the next tick reloads nothing until a notify.
   */
  lemma ReloadTakesTheVersion(s: World, calls: Calls, next: Calls, valid: Crontab -> bool)
    requires s.version != s.lastVersion
    requires calls.get && calls.fetch && calls.dumps && calls.store.Works? && calls.getVersion
    ensures
      var t := Next(s, Tick(true, calls), valid);
      && t.lastVersion == s.version == t.version && t.table == s.table
      && Next(t, Tick(true, next), valid) == t
      && (s.cached.Some? ==> t.cached == s.cached && InstalledAsMeant(t.schedule, s.cached.value, valid))
      && (s.cached.None? ==>
            && t.cached == (if Enabled(s.table) == map[] then None else Some(Enabled(s.table)))
            && InstalledAsMeant(t.schedule, Enabled(s.table), valid))
  {
    EntriesAreAsMeant(Enabled(s.table), valid);
    if s.cached.Some? { EntriesAreAsMeant(s.cached.value, valid); }
    hide Entries, Enabled, InstalledAsMeant;
  }

  /** A reload that cannot read the version, or fails before, runs the enabled rows and stays behind. */
  lemma FailedReloadStaysBehind(s: World, calls: Calls, valid: Crontab -> bool)
    requires s.version != s.lastVersion && calls.refetch && (!calls.get || !calls.getVersion)
    ensures
      var t := Next(s, Tick(true, calls), valid);
      t.lastVersion == s.lastVersion && InstalledAsMeant(t.schedule, Enabled(s.table), valid)
  {
    EntriesAreAsMeant(Enabled(s.table), valid);
    hide Entries, Enabled, InstalledAsMeant;
  }

  /** A notify drops the cached rows and raises the version by one, whether or not its reply arrives. */
  lemma NotifyRaisesTheVersion(s: World, w: nat, reply: Reply, valid: Crontab -> bool)
    requires w in s.writers
    ensures
      var t := Next(s, Notify(w, reply), valid);
      && t.writers == s.writers - {w} && t.table == s.table && t.schedule == s.schedule
      && if reply.FailsBefore? then t.cached == s.cached && t.version == s.version
         else t.cached == None && t.version == Some(if s.version.None? then 1 else s.version.value + 1)
  {
  }

  /* ----- where the promise stops ----- */

  predicate TicksOrExpires(steps: seq<Step>) {
    forall i :: 0 <= i < |steps| ==> steps[i].Tick? || steps[i].Expire?
  }

  /** Nothing but a notify ever makes the scheduler look again. */
  lemma {:induction false} EqualVersionsNeverReload(s: World, steps: seq<Step>, valid: Crontab -> bool)
    requires s.lastVersion == s.version && TicksOrExpires(steps)
    ensures var t := Runs(s, steps, valid);
      t.schedule == s.schedule && t.table == s.table && t.lastVersion == t.version
    decreases |steps|
  {
    if steps != [] {
      EqualVersionsNeverReload(Next(s, steps[0], valid), steps[1..], valid);
    }
  }

  /**
   A write whose notify is lost reaches beat if and only if it changes nothing beat should run:
   no number of ticks or cache expiries helps. The next working notify, of any writer, does.
   */
  lemma LostNotifyIsNeverSeen(s: World, w: nat, table: Table, steps: seq<Step>, valid: Crontab -> bool)
    requires Inv(s, valid) && !s.unannounced && s.lastVersion == s.version && TicksOrExpires(steps)
    ensures
      var lost := Runs(Next(Next(s, Write(w, table), valid), Notify(w, FailsBefore), valid), steps, valid);
      lost.writers == s.writers - {w}
        && (lost.schedule == Wanted(lost, valid) <==> Entries(Enabled(table), valid) == Wanted(s, valid))
    ensures
      forall v: nat, calls: Calls | calls.fetch && calls.refetch ::
        Next(Next(Next(s, Write(v, table), valid), Notify(v, Works), valid), Tick(true, calls), valid).schedule
          == Entries(Enabled(table), valid)
  {
    hide Entries, Enabled;
    var lost := Next(Next(s, Write(w, table), valid), Notify(w, FailsBefore), valid);
    EqualVersionsNeverReload(lost, steps, valid);
    TicksKeepWriters(lost, steps, valid);
  }

  lemma {:induction false} TicksKeepWriters(s: World, steps: seq<Step>, valid: Crontab -> bool)
    requires TicksOrExpires(steps)
    ensures Runs(s, steps, valid).writers == s.writers
    decreases |steps|
  {
    if steps != [] {
      TicksKeepWriters(Next(s, steps[0], valid), steps[1..], valid);
    }
  }

  /** The second half of a reload that missed the cache: store the rows read before, then read the version. */
  function FinishReload(s: World, rows: Table, valid: Crontab -> bool): World {
    s.(cached := Some(rows), lastVersion := s.version, schedule := Entries(rows, valid))
  }

  /**
   A reload is not one step: a writer that writes and notifies between its reading the rows and its
   reading the version leaves the old schedule under the new version, for good, and the old rows in the cache.
   */
  lemma SplitReloadStaysStale(s: World, w: nat, table: Table, steps: seq<Step>, valid: Crontab -> bool)
    requires Enabled(s.table) != map[] && TicksOrExpires(steps)
    ensures
      var between := Next(Next(s, Write(w, table), valid), Notify(w, Works), valid);
      var done := FinishReload(between, Enabled(s.table), valid);
      var t := Runs(done, steps, valid);
      && !done.unannounced && done.lastVersion == done.version && done.cached == Some(Enabled(s.table))
      && t.schedule == Wanted(s, valid)
      && (t.schedule == Wanted(t, valid) <==> Wanted(s, valid) == Entries(Enabled(table), valid))
  {
    hide Entries, Enabled;
    var between := Next(Next(s, Write(w, table), valid), Notify(w, Works), valid);
    EqualVersionsNeverReload(FinishReload(between, Enabled(s.table), valid), steps, valid);
  }

  predicate NothingSerialises(steps: seq<Step>) {
    && (forall i :: 0 <= i < |steps| && steps[i].Tick? ==> !steps[i].calls.dumps)
    && (forall i :: 0 <= i < |steps| && steps[i].Write? ==> Enabled(steps[i].table) != map[])
  }

  /**
   If the rows never serialise (they carry UUIDs and timestamps) and some row is always enabled,
   the cache stays empty and the scheduler never takes a version: after the first notify ever,
   every tick reloads from the table, so even an unannounced change is seen.
   */
  lemma {:induction false} UnserialisableRowsAreReadEveryTick(s: World, steps: seq<Step>, calls: Calls,
          valid: Crontab -> bool)
    requires s.cached == None && s.lastVersion == None && Enabled(s.table) != map[]
    requires NothingSerialises(steps) && FetchesWork(steps) && !calls.dumps && calls.refetch && calls.fetch
    ensures
      var t := Runs(s, steps, valid);
      && t.cached == None && t.lastVersion == None
      && (t.version.Some? ==> Next(t, Tick(true, calls), valid).schedule == Wanted(t, valid))
    decreases |steps|
  {
    hide Entries, Enabled;
    if steps != [] {
      UnserialisableRowsAreReadEveryTick(Next(s, steps[0], valid), steps[1..], calls, valid);
    }
  }

  /* ----- the scheduler, statement by statement ----- */

  ghost predicate Lists(rows: seq<(string, Row)>, table: Table) {
    && (forall i :: 0 <= i < |rows| ==> rows[i].0 in table && table[rows[i].0] == rows[i].1)
    && (forall name :: name in table ==> (name, table[name]) in rows)
  }

  class BeatScheduler {
    var table: Table
    var cached: Option<seq<(string, Row)>>
    var version: Option<nat>
    var lastVersion: Option<nat>
    var schedule: map<string, Entry>
    ghost var cachedTable: Option<Table>
    ghost var writers: set<nat>
    ghost var unannounced: bool

    ghost predicate Valid()
      reads this
    {
      && (cached.Some? <==> cachedTable.Some?)
      && (cached.Some? ==> cached.value != [] && Lists(cached.value, cachedTable.value))
    }

    ghost function State(): World
      reads this
    {
      World(table, writers, unannounced, cachedTable, version, lastVersion, schedule)
    }

    /** delete and incr in one transaction. */
    method NotifyScheduleChanged(ghost writer: nat, reply: Reply) returns (raised: bool)
      requires Valid() && writer in writers
      modifies this
      ensures Valid() && State() == Next(old(State()), Notify(writer, reply), _ => true)
      ensures raised <==> !reply.Works?
    {
      writers := writers - {writer};
      if !reply.FailsBefore? {
        cached, version := None, Bump(version);
        cachedTable, unannounced := None, false;
      }
      raised := !reply.Works?;
    }

    /** The enabled rows in whatever order the server returns them. */
    method FetchTasksFromDb(works: bool) returns (rows: seq<(string, Row)>)
      ensures Lists(rows, Fetch(State(), works))
      ensures rows == [] <==> Fetch(State(), works) == map[]
    {
      rows := [];
      if !works {
        return;
      }
      var left := table.Keys;
      while left != {}
        invariant left <= table.Keys
        invariant forall i :: 0 <= i < |rows| ==>
          rows[i].0 in table && table[rows[i].0] == rows[i].1 && rows[i].1.enabled
        invariant forall name :: name in table && name !in left && table[name].enabled ==> (name, table[name]) in rows
        decreases |left|
      {
        var name :| name in left;
        left := left - {name};
        if table[name].enabled {
          rows := rows + [(name, table[name])];
        }
      }
      EmptyListsEmpty(rows, Enabled(table));
    }

    /** Clear, then update: exactly the entries of the rows that parse. */
    method Install(rows: seq<(string, Row)>, ghost loaded: Table, valid: Crontab -> bool)
      requires Lists(rows, loaded)
      modifies this`schedule
      ensures schedule == Entries(loaded, valid) && InstalledAsMeant(schedule, loaded, valid)
    {
      hide InstalledAsMeant, ParseSchedule;
      var newSchedule: map<string, Entry> := map[];
      for i := 0 to |rows|
        invariant forall name :: name in newSchedule ==>
          name in Entries(loaded, valid) && newSchedule[name] == Entries(loaded, valid)[name]
        invariant forall k :: 0 <= k < i && ParseSchedule(rows[k].1, valid).Some? ==> rows[k].0 in newSchedule
      {
        var (name, row) := rows[i];
        var parsed := ParseSchedule(row, valid);
        if parsed.Some? {
          newSchedule := newSchedule[name := Entry(row.task, parsed.value, row.args, row.kwargs)];
        }
      }
      forall name | name in Entries(loaded, valid) ensures name in newSchedule {
        assert (name, loaded[name]) in rows;
      }
      schedule := map[];
      schedule := schedule + newSchedule;
      EntriesAreAsMeant(loaded, valid);
    }

    method ReloadSchedule(calls: Calls, valid: Crontab -> bool)
      requires Valid()
      modifies this`cached, this`cachedTable, this`lastVersion, this`schedule
      ensures Valid() && State() == Reload(old(State()), calls, valid)
    {
      hide Enabled, Entries, Lists;
      var rows: seq<(string, Row)> := [];
      ghost var loaded: Table := map[];
      var failed := !calls.get;
      if !failed {
        if cached.Some? {
          rows := cached.value;
          loaded := cachedTable.value;
        } else {
          rows := FetchTasksFromDb(calls.fetch);
          loaded := Fetch(State(), calls.fetch);
          if rows != [] {
            if calls.dumps && !calls.store.FailsBefore? {
              cached, cachedTable := Some(rows), Some(loaded);
            }
            failed := !calls.dumps || !calls.store.Works?;
          }
        }
      }
      if !failed && calls.getVersion {
        lastVersion := version;
      } else {
        rows := FetchTasksFromDb(calls.refetch);
        loaded := Fetch(State(), calls.refetch);
      }
      Install(rows, loaded, valid);
    }

    method DoTick(versionRead: bool, calls: Calls, valid: Crontab -> bool)
      requires Valid()
      modifies this`cached, this`cachedTable, this`lastVersion, this`schedule
      ensures Valid() && State() == Next(old(State()), Tick(versionRead, calls), valid)
    {
      hide Reload;
      if versionRead && version != lastVersion {
        ReloadSchedule(calls, valid);
      }
    }
  }

  lemma EmptyListsEmpty(rows: seq<(string, Row)>, table: Table)
    requires Lists(rows, table)
    ensures rows == [] <==> table == map[]
  {
    forall name | name in table ensures rows != [] {
      assert (name, table[name]) in rows;
    }
    if rows != [] {
      assert rows[0].0 in table;
    }
  }
}
