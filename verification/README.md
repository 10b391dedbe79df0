# Verified model of the FastAPI service template

Dafny models of the parts of the repository that hold protocol, state-machine or translation logic, with proofs of what
they keep. `dafny verify dfyconfig.toml` checks all of it.

Each component is modelled twice where the source changes state: as a specification (a datatype for the state, a function
for each atomic step, runs as sequences of steps) and as a class or method that goes through the source's statements and
is proved to reach the specified state. The lemmas are about every run of the specification. In the event bus, the
idempotent route, the schedule, the caches of roles and keys, and the revocation of sessions, failing servers are part of
the steps: a command works, fails before it took effect, or fails after. Elsewhere commands work, but for what the
contracts name: scripts and kills of a migration, sends and subscriptions, the count of a log.

| files | what they model |
|---|---|
| `MigrationFiles`, `SequenceRules`, `MigrationEngine`, `MigrationRuns`, `MigrationTexts` | the migration tool: order and sections of files, validation, selection, runs killed anywhere, and what the texts of the files become |
| `EventBus`, `EventBusListener`, `EventOrder` | a Redis stream, its consumer group, locks with expiry, any number of listeners; what is started for what was published, and in which order |
| `Idempotency` | interleaved requests with one Idempotency-Key, and the route served alone |
| `ScheduleCache` | two-step writers, the cached and versioned schedule, the beat scheduler |
| `CursorCodec`, `Pagination` | cursors as UTF-8 in base64; keyset pages over a changing table |
| `TokenScopes`, `RoleTables`, `RoleEffects` | token versions and scopes against roles; the role statements over their tables; what each operation leaves in them |
| `SessionRevocation`, `SessionFates`, `SessionEffects` | sessions, refresh tokens and two blacklists on real-valued time; what revocation does not reach; the life of every token |
| `TwoFactor`, `CodeChecks`, `TwoFactorRaces` | time-based codes and backup codes, one check at a time and interleaved |
| `RoleCache`, `ApiKeys` | caches that must agree with the tables they speed up |
| `SqlConditions`, `DeadLetterQueries`, `LogQueries`, `FilterMeanings` | filters compiled to conditions over numbered placeholders; what they mean for a stored record |
| `Connections`, `ReadRouting` | WebSocket bookkeeping; region choice and pool fallback |
| `Wrappers`, `Text` | options, results and replies; the few string operations shared |

Assumptions that hold throughout: PostgreSQL has no replica lag, one clock serves all processes, random ids, keys and
hashes never repeat, and the JSON of a value decodes to the value. Hash functions, the time-based code generator, ILIKE,
casts of text, date parsing, the concatenation of JSON objects and what an SQL script does to a schema are parameters.

## Where the code and its documentation differ

- `README.md:167` recommends timestamp-named migrations. Two such files in one directory are refused as soon as their
  numbers are not consecutive (`migrate.py:111-122`); the model follows the code.
- The event bus promises at-least-once durability (`api/core/events/bus.py:20`) and `README.md:537` exactly-once
  processing. Only new entries are read, so what a worker held when it stopped is never handed out again. And a lock
  command that fails, or a live lock, ends the processing without a raise (`api/core/events/bus.py:178-194`), after which
  the event is acknowledged (line 81). Delivery is at most once; `EventBus.LostExactlyWhen` lists what loses an event, and
  `EventBus.AtLeastOnceFails` loses one in each of the two ways.
- The idempotent route promises processing exactly once (`api/core/idempotency.py:79`). Two requests that both looked up
  before the first response was cached can both run the handler (`Idempotency.TwoRequestsRunTwice`). The release of the
  lock does not ask whose it is (`api/core/idempotency.py:30-35`): a request that outlives its lock deletes the one of its
  successor, and a third gets in beside that (`Idempotency.TimelyHolderLosesItsLock`). Its key joins method, path and
  header by colons, which two different requests can share (`Idempotency.KeysCollideIffColon`).
- Revoking a session puts its id on a blacklist of access tokens and on one of refresh tokens
  (`api/apps/user/v0/service/user.py:129-132`), but a refresh token has an id of its own (`api/core/auth.py:57-64`): it
  stays accepted, and refreshes the revoked session (`SessionFates.RevokedSessionsCanBeRefreshed`).
- Revoking all sessions reaches the tokens that have a row; a login from the same agent takes the row of the one before
  over, whose token stays accepted (`SessionFates.TakenOverRowIsMissed`). The row is deleted before the blacklist is
  written; if that fails the token stays accepted, and nothing finds it again (`SessionRevocation.LostEntryIsAccepted`).
- The replay key of a time-based code is the step, not the code (`api/apps/user/v0/service/auth.py:593-601`): one code is
  accepted in up to three steps (`TwoFactor.OneCodeThrice`).
- The repeated record of a migration is described as harmless compatibility (`migrate.py:392`). It is for the applied set
  and the checksums, and erases the execution time of every migration (`MigrationRuns.LoopRecordsExactly`).
- `--target ""` turns off the default of one step of a rollback, which then takes back everything
  (`MigrationRuns.DefaultSelection`).
- Schedule rows hold UUIDs and timestamps, which the serialiser of `api/core/celery_scheduler.py:134` refuses; the proved
  claims allow every outcome of serialising, and `ScheduleCache.UnserialisableRowsAreReadEveryTick` says what follows if
  it always fails.
- A cursor of the webhook log list is a creation time, which is not unique: rows of the time a page ends at are skipped
  (`Pagination.TiesAtAPageEndAreLost`, `Pagination.TiedRowIsLost`).
- `api/core/database.py:393` speaks of picking from healthy pools; the draw is from all pools of the region
  (`ReadRouting.UnhealthyDrawnIff`). The region returned with the pool is the chosen one, wherever the pool is
  (`ReadRouting.LabelIsRightIff`).

## Model

| member | source | states |
|---|---|---|
| MigrationFiles.PaddedNumberIsRead | migrate.py:14-28 | a number printed with any zero padding in front of a name is the sequence number read from that name |
| MigrationFiles.SortFilesSorts | migrate.py:47-53 | sorting by (number, name) orders the files and keeps each with its multiplicity |
| MigrationFiles.SortedMigrationFilesAre | migrate.py:44-53 | the files run are exactly the `.sql` names of the directory, in key order, unnumbered ones last |
| MigrationFiles.SortedIsUnique | migrate.py:47-53 | the order does not depend on how the directory lists its names: equal multisets sort to equal lists |
| MigrationFiles.ScanSplitsAtFirstDown | migrate.py:78-95 | the one-pass loop splits at the first down marker: up lines before it, down lines after it, in order, markers dropped |
| MigrationFiles.ParseMigrationSql | migrate.py:67-95 | the loop with its current section returns the stripped section asked for, and refuses any direction but up and down |
| MigrationFiles.PrintedFileIsParsed | migrate.py:67-95 | a file printed as an up and a down section parses to both bodies stripped, if no comment line of the up body mentions "up" or "down" and none of the down body "down" |
| SequenceRules.CheckDuplicates | migrate.py:98-108 | the dictionary built by the loop holds exactly the numbers carried by two files or more, each with those files |
| SequenceRules.CarryingCounts | migrate.py:98-108 | a number is duplicated exactly if two positions carry it |
| SequenceRules.CheckOutOfOrder | migrate.py:125-139 | the loop finds the first unapplied file below an applied number, if there is one |
| SequenceRules.RulesMeanConsecutivePrefix | migrate.py:98-139 | for fully numbered sorted files and applied versions among them, the three sequence rules pass if and only if the numbers are consecutive and distinct and the applied set is a prefix |
| MigrationRuns.ValidatedStateIsAPrefix | migrate.py:156-173 | validation passing means the applied set is a prefix of the sorted files with matching checksums |
| MigrationRuns.PrefixIsValidated | migrate.py:156-173 | and such a prefix always passes |
| MigrationRuns.SelectionComesNext | migrate.py:306-347 | for every target and every number of steps, negative ones included, the selected files are the next ones of the direction's order |
| MigrationRuns.TargetDecides | migrate.py:313-321 | a target ahead is the last file run; one behind is reported going up and refused going down, like an unknown one |
| MigrationRuns.TargetAndStepsDecide | migrate.py:313-347 | with a target ahead the files run are those up to it, or as many of these as the steps ask for |
| MigrationRuns.DefaultSelection | migrate.py:334-335 | up defaults to all pending files and down to one; an empty target turns that default off and down selects everything |
| MigrationRuns.LoopAdvances | migrate.py:382-400 | the loop, failing or killed between any two writes, leaves the applied set at a later position of the order and the schema at what that position builds |
| MigrationRuns.OneCallKeepsAPrefix | migrate.py:350-400 | one call, refused, dry, failing, killed or complete, keeps the applied set a prefix and the schema the fold of its up scripts |
| MigrationRuns.EveryHistoryKeepsAPrefix | migrate.py:350-400 | every sequence of calls keeps both; rollbacks need that each down script undoes its up script |
| MigrationTexts.BuiltIsTheUpBodies | migrate.py:67-95 | over a directory of printed files what a position builds is the stripped up bodies run one after the other |
| MigrationTexts.DownsUndoIffBodiesDo | migrate.py:67-95 | the down scripts undo the up scripts if and only if the down bodies undo the up bodies |
| MigrationTexts.EveryHistoryBuildsTheBodies | migrate.py:350-400 | every history over printed files leaves the first files recorded and the schema that their up bodies build |
| MigrationTexts.PlainUpRunsEveryBody | migrate.py:350-400 | from nothing applied a plain `up` that returns has run every up body, in order, and recorded every file |
| MigrationTexts.DryCallsOnlyTell | migrate.py:382-388 | a dry call changes nothing and returns what the same call would process |
| MigrationTexts.ChangedFileIsRefused | migrate.py:142-153 | a recorded file whose text no longer has its checksum stops every call, which changes nothing |
| MigrationTexts.NothingToRunByName | migrate.py:403-441 | up of a recorded file, down of one that is not, and a dry call by name do nothing |
| MigrationTexts.NamedFileIsRun | migrate.py:403-441 | any other call by name runs the body asked for and leaves record and schema as that says |
| MigrationRuns.LoopRecordsExactly | migrate.py:391-396 | a loop that returns has recorded or removed exactly its files with their checksums; the repeated record is harmless to both but always overwrites the execution time with none |
| MigrationRuns.UpThenDownRestores | migrate.py:350-400 | up n steps and down as many as were run restores records and schema |
| MigrationRuns.OutOfOrderRunIsDetected | migrate.py:403-441 | after a named migration run by itself, the next call is refused and changes nothing if the file was not the next of its direction; if it was, the next validation passes |
| MigrationEngine.Migrator.Transaction | migrate.py:258-303 | script and record take effect together or not at all; of a file printed as an up and a down body up runs the up body and down the down body, an empty down body is refused, and the record holds the checksum of the text |
| MigrationEngine.RunsTheSectionAskedFor | migrate.py:258-303 | the same of the specification: the schema afterwards is that of the stripped body asked for, an empty up body leaves it, an empty down body and a failing script change nothing |
| MigrationEngine.Migrator.ProcessOne | migrate.py:390-398 | one round of the loop, with the repeated record, stops where it is killed or fails |
| MigrationEngine.Migrator.ProcessAll | migrate.py:382-400 | the loop over fields is the specification's fold over the files |
| MigrationEngine.Migrator.ApplyMigrations | migrate.py:350-400 | the method reaches the specified state and outcome |
| MigrationRuns.UpToDateIsTheWholeOrder | migrate.py:444-470 | for numbered files the check passes on a database if and only if every file is recorded, in a consecutive order and with the checksum of its text |
| MigrationRuns.UpToDateIffNothingPends | migrate.py:444-470 | and wherever calls leave a database exactly if the whole order is applied, that is if a plain `up`, dry or not, returns having nothing to run |
| MigrationTexts.NoFilesIsUpToDate | migrate.py:444-470 | without files the check passes, even where a changed file stops every call |
| EventBus.EveryRunKeepsInv | api/core/events/bus.py:62-89 | every interleaving of publishers, any number of listeners and failing commands keeps the invariant of stream, group, locks and held batches |
| EventBus.EveryEntryIsAccountedFor | api/core/events/bus.py:62-89 | each entry published since the group exists is waiting, trimmed unread behind at least 50000 newer ones, or given to exactly one worker, and then acknowledged after its processing returned, in flight, or abandoned in the pending list |
| EventBus.HandlerRunsAreSpaced | api/core/events/bus.py:170-195 | two handler runs of one event id start at least 60 seconds apart, and those of one entry start at most once |
| EventBus.AbandonedExactlyWhen | api/core/events/bus.py:75-89 | an entry is abandoned exactly when its worker stops, an acknowledgement fails with it in the batch, or the reply carrying it is lost |
| EventBus.AbandonedForever | api/core/events/bus.py:66-72 | only new entries are read, so an abandoned one is never given out again, never acknowledged and never starts its handlers later |
| EventBus.StopLosesWhatIsHeld | api/core/events/bus.py:51-60 | whatever a stopping worker holds unstarted is lost, whatever happens later |
| EventBus.LostExactlyWhen | api/core/events/bus.py:62-89 | in every run an entry is acknowledged, abandoned or trimmed without a run, or about to be, if and only if some step lost it: a refused processing, an abandonment before its run, or trimming unread; then no continuation runs its handlers |
| EventBus.RefusedEventsAreAcknowledged | api/core/events/bus.py:178-194 | an event whose lock command fails or meets a live lock is acknowledged like any other, is in no pending list, and never runs |
| EventBus.AtLeastOnceFails | api/core/events/bus.py:19-22 | any event can be published, read and lost, pending for ever or acknowledged after a failing lock command: the documented at-least-once durability does not hold |
| EventOrder.LogIsWhatWasPublished | api/core/events/bus.py:152-168 | in every run the stream is what it was, then the payloads published, in their order |
| EventOrder.EveryStartIsOfItsEvent | api/core/events/bus.py:170-192 | in every run every start is of the event published at its entry, with all the handlers, in their order, that the one worker the entry was given to had been started with for its name |
| EventOrder.EachWorkerStartsInOrder | api/core/events/bus.py:62-81 | in every run, whatever fails, the entries given to one worker start in the order they were published |
| EventOrder.AloneServesInOrder | api/core/events/bus.py:62-81 | a worker with the stream to itself and working commands starts events of different ids one after the other in the order published, each at its own entry, acknowledges each before the next, and once idle has served all |
| EventOrder.WorkCanBeFinished | api/core/events/bus.py:62-81 | and from wherever such a worker is some steps of its own leave nothing unread, unstarted or unacknowledged |
| EventOrder.TwoWorkersStartOutOfOrder | api/core/events/bus.py:62-81 | two workers may start two events in the other order |
| EventOrder.SecondEntryStartsIff | api/core/events/bus.py:178-183 | of two entries of one event the second is started too exactly if 60 000 ms lie between |
| EventOrder.LocksAreTaken | api/core/events/bus.py:178-183 | a lock is taken for 60 000 ms by the processing of an entry with handlers, unless one is alive or the command fails before; nothing else touches one |
| EventBusListener.Stream.XAdd | api/core/events/bus.py:162-167 | the payload is appended after all others; nothing is trimmed below 50 000 entries |
| EventBusListener.Stream.XReadGroup | api/core/events/bus.py:66-72 | the next entries never handed out, ten or as many as there are, all pending for the reader from then on |
| EventBusListener.Stream.SetNxEx | api/core/events/bus.py:178-183 | the lock is taken exactly if no live one is there, for 60 seconds |
| EventBusListener.Stream.XAck | api/core/events/bus.py:81 | the entry leaves the pending list |
| EventBusListener.Listener.Subscribe | api/core/events/bus.py:107-118 | a handler subscribed twice is kept once and the order of the others stays |
| EventBusListener.Listener.ReadBatch | api/core/events/bus.py:65-74 | the read step of the state machine |
| EventBusListener.Listener.Process | api/core/events/bus.py:170-183 | processing up to the handlers is the begin step, for every payload and lock reply |
| EventBusListener.Listener.FinishHandlers | api/core/events/bus.py:185-192 | every handler of the event is called once, in the order subscribed, whichever raises; then the finish step |
| EventBusListener.Listener.AckHead | api/core/events/bus.py:81-89 | the acknowledgement step; an error drops the rest of the batch |
| EventBusListener.Listener.HandleOne | api/core/events/bus.py:76-81 | one message through processing and acknowledgement |
| EventBusListener.Listener.HandleBatch | api/core/events/bus.py:75-81 | the loop over a batch is the fold of its messages; every start stands for one call of each of its handlers |
| EventBusListener.WholeBatchIsARun | api/core/events/bus.py:75-89 | a batch handled without interference is one of the interleavings |
| EventBusListener.WholeBatchIsAcked | api/core/events/bus.py:75-81 | if no acknowledgement fails the whole batch ends acknowledged |
| Idempotency.HandlersExcludeEachOther | api/core/idempotency.py:99-121 | in every interleaving in which no handler outlives its lock at most one request is under the lock, and every release deletes the releaser's own lock |
| Idempotency.GetsInBesideIff | api/core/idempotency.py:20-35 | in every run: a request that missed the cache gets in beside another if and only if the last lock set has expired or some release has followed it; the other is then late or had a release by another since it took its lock, and if the last lock is its own, exactly then |
| Idempotency.TwoAtOnceIffEnteredBesideLate | api/core/idempotency.py:20-35 | in a run two requests are under the lock at once if and only if some acquire gets in while a request is still at work past its time |
| Idempotency.ForeignReleaseIffLateRelease | api/core/idempotency.py:30-35 | a release deletes by key: in a run one deletes the live lock of another request if and only if some request releases late while a lock is alive |
| Idempotency.TimelyHolderLosesItsLock | api/core/idempotency.py:112-121 | a run in which a request on time loses its lock to a late one and shares it with a third |
| Idempotency.LateRunsLookedUpEarly | api/core/idempotency.py:95-111 | while a cached response lives, a step starts a handler exactly if it is the acquire, with the lock free, of a request that had missed the cache, and every such lookup preceded the first caching |
| Idempotency.TwoEarlyLookupsRunTwice | api/core/idempotency.py:95-111 | the cache is not read again under the lock: of two requests that both missed it, the second runs the handler again |
| Idempotency.TwoRequestsRunTwice | api/core/idempotency.py:95-111 | the same from the start: two requests that arrive and look up before either takes the lock both run the handler |
| Idempotency.CachedResponseIsReplayed | api/core/idempotency.py:95-97 | while the response lives every sequential request gets it and none runs the handler |
| Idempotency.SequentialRequestsRunOnce | api/core/idempotency.py:85-121 | sequentially a response from 200 to 499 runs the handler once and is replayed to every request of the next 86 400 000 ms; one after that runs it again |
| Idempotency.OtherResponsesAreForgotten | api/core/idempotency.py:99-121 | any other response, and an exception, leaves neither lock nor response, and the next request, whenever it comes, runs the handler |
| Idempotency.LockLivesAMinute | api/core/idempotency.py:20-28 | while one request is at work another that missed the cache is turned away for 60 000 ms, and then let in |
| Idempotency.AnswersComeFromHandlers | api/core/idempotency.py:85-121 | in every interleaving a request answered by its handler gets what that returned, and a replayed response is one from 200 to 499 that some handler of the key returned |
| Idempotency.RepliesDecide | api/core/idempotency.py:20-35 | a command whose reply is lost has done its work, one that fails before has done nothing; a release takes the lock away |
| Idempotency.ServedAloneIsARun | api/core/idempotency.py:85-121 | a request served alone is the interleaving that steps it through |
| Idempotency.KeysAreDistinct | api/core/idempotency.py:92 | requests to paths without a colon share a key only if method, path and header agree |
| Idempotency.ColonsCollide | api/core/idempotency.py:92 | a colon moved from the path to the header gives a different request of the same key |
| Idempotency.ColonsCanCollide | api/core/idempotency.py:92 | such a pair: path /a:b with header c, and path /a with header b:c |
| Idempotency.KeysCollideIffColon | api/core/idempotency.py:92 | some other request has the key of this one if and only if there is a colon in its path or header |
| Idempotency.KeyedRequestsCollideIff | api/core/idempotency.py:85-92 | among requests with a path from the root and a header that is not empty: if and only if the path has a colon or the header one before its end |
| Idempotency.IdempotentRoute.TryLock | api/core/idempotency.py:20-28 | taken exactly if no live lock is there; no other key changes |
| Idempotency.IdempotentRoute.Unlock | api/core/idempotency.py:30-35 | deletes this key's lock only |
| Idempotency.IdempotentRoute.Remember | api/core/idempotency.py:53-74 | stores this key's response only |
| Idempotency.IdempotentRoute.HandleRequest | api/core/idempotency.py:85-121 | replay of a live response, 409 at a live lock, else one handler run whose response is kept for 86 400 000 ms exactly if its status is from 200 to 499, with the release on every path; other keys are left alone; without a key it only runs the handler |
| ScheduleCache.EveryRunKeepsInv | api/core/celery_scheduler.py:120-184 | whatever Redis and the serialiser do: with every change announced and versions equal the schedule is the parseable enabled rows; if no notify is lost, changes are unannounced only between a write and its notify |
| ScheduleCache.ScheduleIsTheTable | api/core/celery_scheduler.py:120-184 | the same from start-up, name by name, when no writer is between its two steps: an entry for exactly the enabled rows that stand for a schedule, with that schedule, task and arguments |
| ScheduleCache.ParsedIsMeant | api/core/celery_scheduler.py:15-52 | a row parses to a schedule exactly if it stands for it: a crontab whose five columns each say its field in its own place and which celery accepts, or an interval of its unit within the range of a timedelta |
| ScheduleCache.WrittenCrontabIsRead | api/core/celery_scheduler.py:44-52 | any crontab with five fields, written into a row, comes back as itself if celery accepts it |
| ScheduleCache.EmptyColumnIsAStar | api/core/celery_scheduler.py:44-52 | an empty and a missing column are read as a star would be, each in its own place |
| ScheduleCache.WrittenIntervalIsRead | api/core/celery_scheduler.py:27-42 | n seconds, minutes, hours or days are n, 60 n, 3600 n or 86 400 n seconds; another unit or none counts 60; a count of zero or none is 60 |
| ScheduleCache.ReloadTakesTheVersion | api/core/celery_scheduler.py:120-140 | a reload in which nothing fails runs the cached rows, or the enabled ones, which it keeps, and takes the version: no tick reloads until a notify |
| ScheduleCache.FailedReloadStaysBehind | api/core/celery_scheduler.py:137-140 | a reload that cannot read cache or version runs the enabled rows and does not take the version |
| ScheduleCache.NotifyRaisesTheVersion | api/apps/common/v0/service/periodic_task.py:52-58 | a notify drops the cached rows and raises the version by one, or does neither |
| ScheduleCache.QuietTickConverges | api/core/celery_scheduler.py:164-184 | with every change announced one tick whose version read and fetches succeed reaches the table |
| ScheduleCache.EqualVersionsNeverReload | api/core/celery_scheduler.py:172-180 | with equal versions no number of ticks and expiries changes the schedule |
| ScheduleCache.LostNotifyIsNeverSeen | api/apps/common/v0/service/periodic_task.py:119-121 | a write whose notify is lost reaches the schedule exactly if it changes nothing there; the next working notify of any writer brings it |
| ScheduleCache.SplitReloadStaysStale | api/core/celery_scheduler.py:126-137 | a writer between the reading of the rows and of the version leaves the old schedule under the new version for good |
| ScheduleCache.UnserialisableRowsAreReadEveryTick | api/core/celery_scheduler.py:132-140 | if the rows never serialise the cache stays empty, no version is ever taken, and every tick after the first notify reads the table |
| ScheduleCache.BeatScheduler.NotifyScheduleChanged | api/apps/common/v0/service/periodic_task.py:52-58 | one transaction drops the cached rows and raises the version, or does neither |
| ScheduleCache.BeatScheduler.FetchTasksFromDb | api/core/celery_scheduler.py:85-118 | exactly the enabled rows, or none if the fetch fails |
| ScheduleCache.BeatScheduler.Install | api/core/celery_scheduler.py:142-161 | the build loop, clear and update leave an entry for exactly the rows that stand for a schedule, with that schedule, task and arguments |
| ScheduleCache.BeatScheduler.ReloadSchedule | api/core/celery_scheduler.py:120-161 | the reload, its exception branch included, is the atomic reload |
| ScheduleCache.BeatScheduler.DoTick | api/core/celery_scheduler.py:164-184 | a tick is the atomic tick |
| CursorCodec.Utf8RoundTrip | api/utils/pagination.py:18 | decoding the UTF-8 of a string gives it back (section 3 of RFC 3629) |
| CursorCodec.Utf8DecodesOnlyEncodings | api/utils/pagination.py:29 | the strict decoder accepts nothing but what the encoder writes |
| CursorCodec.B64RoundTrip | api/utils/pagination.py:18-29 | decoding the base64 of any bytes gives them back (section 4 of RFC 4648) |
| CursorCodec.Utf8Spells | api/utils/pagination.py:18 | the bytes of a character are those of the table of section 3 of RFC 3629 |
| CursorCodec.B64Spells | api/utils/pagination.py:18 | three bytes are the four digits to base 64 of one number of 24 bits |
| CursorCodec.B64Pads | api/utils/pagination.py:18 | one or two last bytes are padded with zeros and `=` |
| CursorCodec.AlphabetIs | api/utils/pagination.py:18 | the digits are those of table 1 of RFC 4648 |
| CursorCodec.JunkIsSkipped | api/utils/pagination.py:29 | a character outside the alphabet changes nothing wherever it stands |
| CursorCodec.CursorRoundTrip | api/utils/pagination.py:10-29 | decode_cursor undoes encode_cursor on every string |
| CursorCodec.CursorsAreInjective | api/utils/pagination.py:10-18 | different values have different cursors |
| Pagination.PageIsTheNextRows | api/utils/pagination.py:95-119 | a page is the largest ids below the cursor, at most `first`, and its end cursor is that of its last row |
| Pagination.TakenFromTheTop | api/apps/common/v0/dao/dead_letter_task.py:71-92 | `id < cursor ORDER BY id DESC LIMIT n` skips no row between the cursor and the last it returns |
| Pagination.TopIs | api/apps/common/v0/dao/dead_letter_task.py:71-92 | the rows are ids of the table below the cursor in descending order; one that is left out is below all of them, and there are then n |
| Pagination.UnreadableCursorStartsOver | api/utils/pagination.py:95-101 | a cursor that does not decode, and an empty one, start from the beginning |
| Pagination.CursorsCarryIds | api/utils/pagination.py:105-113 | following end cursors is walking by id |
| Pagination.WalkDescends | api/utils/pagination.py:95-119 | over a table changing between requests a walk is strictly descending, repeats nothing and returns only rows present when read |
| Pagination.StayedRowsComeExactlyOnce | api/utils/pagination.py:95-119 | a finished walk has returned every row that stayed exactly once |
| Pagination.LateRowsAreNotSeen | api/apps/common/v0/dao/api_key.py:93-97 | no row at or above the place a walk has reached is in the rest of it |
| Pagination.TiesAtAPageEndAreLost | api/apps/common/v0/dao/webhook_log.py:141-152 | paging the log by its creation time loses rows exactly if a page ends between two rows of one time |
| Pagination.TiedRowIsLost | api/apps/common/v0/dao/webhook_log.py:141-152 | such a loss: of two rows of one time, pages of one row show one |
| Pagination.FixedTableWalk | api/utils/pagination.py:103-113 | over N unchanging rows: ceil(N / first) non-empty pages, full but for the last, then an empty one |
| TokenScopes.EveryRunKeepsInv | api/apps/user/v0/service/auth.py:177-195 | in every run without a silent change of roles no token is ahead of its user and one of the current version is what would be issued now |
| TokenScopes.AcceptedTokensAreCurrent | api/core/dependencies.py:43-67 | a token get_current_user accepts carries exactly the permission names of the user's current roles, has what the endpoint requires, and, if of an impersonation, is not for a holder of an administrator role |
| TokenScopes.OutdatedTokensStayOut | api/core/dependencies.py:56-67 | a token below its user's version is never accepted again in any run, silent changes included |
| TokenScopes.BumpEndsOldTokens | api/apps/user/v0/dao/role.py:279-289 | password change, non-empty assignment, deletion of a role and a returning update end their users' tokens for good; nothing else raises a version |
| TokenScopes.UnbumpedUserIsUnchanged | api/apps/user/v0/dao/role.py:242-307 | a user whose version an operation leaves keeps its permission names and its rank |
| TokenScopes.BulkDeleteLeavesScopes | api/apps/user/v0/dao/role.py:117-132 | after a bulk delete a current token stays accepted with its old scopes, which are right exactly if the remaining roles give every name of the deleted ones |
| TokenScopes.FailedUpdateLeavesScopes | api/apps/user/v0/dao/role.py:265-277 | an update that raises on its permissions has emptied the role without a new version; tokens are right exactly if the other roles give the same names |
| TokenScopes.AcceptedTokensAreNeverShort | api/core/dependencies.py:43-67 | in every run, silent steps included, an accepted token carries at least the names its user now has, and no more if and only if no silent step since its issue took one away |
| RoleEffects.AssignmentAssigns | api/apps/user/v0/dao/user.py:427-452 | with roles to give, all of which exist, the user holds what it held and exactly these besides; its version goes up, even if one is unknown and none is given; nothing else changes |
| RoleEffects.AssignedNamesAreCarried | api/apps/user/v0/service/auth.py:177-195 | a token issued then carries the names it carried before and those of the roles assigned |
| RoleEffects.CreationCreates | api/apps/user/v0/dao/role.py:207-240 | a new role of the name with exactly the permissions given, or with none where their insert is refused; nothing else changes, and nothing at all if the name is taken |
| RoleEffects.UpdateUpdates | api/apps/user/v0/dao/role.py:242-292 | the role has the name given and exactly the permissions given, or none where their insert is refused; its holders' versions go up if the update returns; no other role or user changes |
| RoleEffects.DeletionDeletes | api/apps/user/v0/dao/role.py:117-132 | the roles are gone, from the users too; only a deletion alone raises the versions of its holders |
| RoleEffects.TokensAreIssuedBy | api/apps/user/v0/service/auth.py:264-317 | tokens come from a verified login, from a refresh token of the current version of its user, and from an impersonation of an active user without an administrator role; each carries its user's names and version |
| RoleEffects.ScopesAreTheNames | api/apps/user/v0/service/auth.py:166-175 | a name is among the scopes exactly if some role of the user gives a permission of that name |
| RoleEffects.UsersComeAndGo | api/apps/user/v0/service/auth.py:386-410 | a new user has version 1 and no roles; a new password raises the version of its user only |
| RoleTables.RowsSay | api/apps/user/v0/dao/role.py:117-132 | the store of the specification is what the rows of the five tables say |
| RoleTables.Tables.BumpHolders | api/apps/user/v0/dao/role.py:279-289 | the version of exactly the holders rises by one |
| RoleTables.Tables.InsertPermissions | api/apps/user/v0/dao/role.py:271-277 | the insert fails as a whole on a repeated pair or an unknown id |
| RoleTables.Tables.Rename | api/apps/user/v0/dao/role.py:252-263 | fails exactly if another role has the name |
| RoleTables.Tables.UpdateRole | api/apps/user/v0/dao/role.py:242-292 | the statements over five tables are the atomic update, also where one of them fails |
| RoleTables.Tables.DeleteRole | api/apps/user/v0/dao/role.py:294-307 | versions first, then the role with its rows elsewhere, in one transaction |
| RoleTables.Tables.DropRows | api/apps/user/v0/dao/role.py:117-132 | the bulk statement takes the roles and their rows elsewhere and no version |
| RoleTables.Tables.CreateRole | api/apps/user/v0/dao/role.py:207-240 | the role without permissions stays if their insert fails |
| RoleTables.Tables.AssignRoles | api/apps/user/v0/dao/user.py:427-452 | both statements run: the pairs of the user and the given roles are added, or none if one is unknown, and the version goes up either way; an empty list does nothing |
| RoleTables.GetUserScopes | api/apps/user/v0/service/auth.py:166-175 | the nested loops collect exactly the permission names of the roles |
| RoleTables.FetchedScopes | api/apps/user/v0/service/auth.py:166-175 | which for a fetched user are the union over its roles |
| RoleTables.GetCurrentUser | api/core/dependencies.py:43-67 | accepts exactly an unrevoked access token with every scope required, of the current version of a user that is there; checks in the order token, scopes, user, version |
| SessionRevocation.EveryRunKeepsInv | api/apps/user/v0/service/user.py:111-163 | sessions, access blacklist and revocations stay consistent in every run |
| SessionFates.EveryRunKeepsFates | api/apps/user/v0/dao/user.py:298-303 | in every run each access token of a login has its row, or was revoked, or lost its row to a later login, and only one of these |
| SessionFates.RevokeAllMissesTakenOverRows | api/apps/user/v0/dao/user.py:298-303 | after all sessions of a user are revoked, in whatever follows, a token issued before is accepted until it expires if a later login from the same agent had taken its row over or its blacklist entry was lost, and else in the last half second of one revoked only |
| SessionFates.TakenOverRowIsMissed | api/apps/user/v0/dao/user.py:298-303 | such a run: a second login from the agent, then revoking all; the first token is accepted and the second refused |
| SessionFates.RefreshTokensAreNotRevoked | api/core/auth.py:57-64 | in every run a refresh token is accepted until it expires: revocation writes the refresh blacklist under the id of the access token |
| SessionFates.RevokedSessionsCanBeRefreshed | api/apps/user/v0/service/auth.py:264-317 | a revoked session is refreshed into a new accepted access token exactly while its refresh token is unexpired, if user, version and policy allow |
| SessionFates.RefreshedAfterRevocation | api/apps/user/v0/service/auth.py:264-317 | such a run: log in, revoke the session a second later, refresh; the old access token is refused, the new one accepted |
| SessionEffects.LoginLogsIn | api/apps/user/v0/service/auth.py:177-209 | a login adds one row, in place of the user's rows of the same, given agent, one access and one refresh token, and changes nothing else |
| SessionEffects.RefreshLogsIn | api/apps/user/v0/service/auth.py:264-323 | a refresh does that for the token's own user, exactly if it is allowed and the token is neither expired nor blacklisted |
| SessionEffects.RowsThatGo | api/apps/user/v0/dao/user.py:365-396 | revoking one session takes that row of that user only, revoking all the user's rows and no other's |
| SessionEffects.OtherTokensAreUntouched | api/apps/user/v0/service/user.py:111-163 | and no other token is accepted any less or any more |
| SessionEffects.StoppingStops | api/apps/user/v0/service/auth.py:777-819 | an impersonation token is accepted as long as it lives, and no longer once it is stopped |
| SessionEffects.EveryTokensLife | api/core/auth.py:120-160 | in every run every access token is accepted until it expires while it has its row, lost it to a later login, is an unstopped impersonation or lost its entry; after 3600 seconds if it was stopped; in the last half second if it was revoked |
| SessionRevocation.RevokedTokensInEveryRun | api/apps/user/v0/dao/user.py:370-378 | the token of a revoked session is accepted until it expires if the command for its blacklist entry failed, and else exactly from the end of its entry to its floored expiry, at most half a second, and never on whole-second clocks |
| SessionRevocation.LostEntriesStayLost | api/apps/user/v0/service/user.py:122-132 | the row is gone before the entry is written: no later revocation makes up for a lost one |
| SessionRevocation.LostEntryIsAccepted | api/apps/user/v0/service/user.py:122-132 | such a run: a revocation loses the entry, revoking all finds no row, the token is accepted |
| SessionRevocation.RevokedTokenCanBeBack | api/apps/user/v0/dao/user.py:370-378 | a run in the half second: a token of 3 seconds revoked after 1.6 is accepted after 2.7 |
| SessionRevocation.StoppedTokensInEveryRun | api/apps/user/v0/service/auth.py:785-787 | a stopped impersonation token is accepted again exactly if it outlives the 3600 seconds of its entry |
| SessionRevocation.StoppedNeverAcceptedAgain | api/core/auth.py:81-91 | with lives of an hour at most, thirty minutes in the source, it never is |
| SessionRevocation.SessionService.RevokeUserSession | api/apps/user/v0/service/user.py:111-133 | row, rounded ttl and both entries, either of which may fail; a ttl of zero reads as no session and a negative one fails; the row is gone in every case |
| SessionRevocation.SessionService.RevokeAllUserSessions | api/apps/user/v0/service/user.py:135-163 | each of the user's sessions with a positive ttl is put on both blacklists, but for the commands that fail, and it raises exactly if one does |
| SessionRevocation.SessionService.BlacklistAll | api/apps/user/v0/service/user.py:149-163 | the loop over the returned rows sends both commands for each with a positive ttl, whichever fails |
| SessionRevocation.SessionService.DeleteRows | api/apps/user/v0/dao/user.py:390-396 | exactly the user's rows go, each returned with its ttl |
| TwoFactor.OneAcceptancePerStep | api/apps/user/v0/service/auth.py:592-601 | in every run a user has at most one time-based acceptance per 30-second step (sections 4.2 and 5.2 of RFC 6238) |
| TwoFactor.AcceptedIffStepIsFree | api/apps/user/v0/service/auth.py:592-601 | a valid code is accepted exactly if the step has no acceptance yet |
| TwoFactor.SameCodeInTheNextStep | api/apps/user/v0/service/auth.py:593-600 | so one code can be accepted in two steps, which section 5.2 of RFC 6238 forbids |
| TwoFactor.OneCodeAtMostThrice | api/utils/totp.py:105-121 | in every run a code is accepted at most three times for each step in which the generator gives it, the window being one step to each side |
| TwoFactor.OneCodeThrice | api/utils/totp.py:105-121 | a run that reaches three, for any code of six digits: in the step before its own, in its own, and in the one after |
| TwoFactor.SuccessesNeverExceedIssued | api/apps/user/v0/service/auth.py:603-609 | backup successes since a list was issued are its used records, at most as many as it has |
| TwoFactor.ConsumeUsesOne | api/utils/totp.py:182-191 | a success uses up exactly one record, of the candidate's hash |
| TwoFactor.VerifyAndConsume | api/utils/totp.py:168-191 | the loop succeeds exactly if an unused record has the hash, and flips the first |
| TwoFactor.GenerateBackupCodes | api/utils/totp.py:138-165 | as many unused records as codes, each the hash of its code |
| TwoFactor.TypingDoesNotMatter | api/utils/totp.py:124-135 | a code hashes the same with its dash or without, in either case |
| CodeChecks.VerdictIs | api/apps/user/v0/service/auth.py:587-609 | a code passes as a time-based one if it is six digits given in this half minute or a neighbour and no replay key lives, else as a backup code if a record of its hash is unused; never without a factor that is on |
| CodeChecks.CheckChanges | api/apps/user/v0/service/auth.py:587-609 | a check sets the replay key of its half minute for 60 000 ms, or uses a record, or changes nothing |
| CodeChecks.EachBackupCodeWorksOnce | api/utils/totp.py:168-191 | of a list issued each code passes the first time it is tried and never again, in whatever order and however often they are tried |
| CodeChecks.GeneratedIsNoTotp | api/utils/totp.py:138-165 | a generated backup code is never taken for a time-based one |
| CodeChecks.FactorsComeAndGo | api/apps/user/v0/service/auth.py:456-585 | a confirmed factor is on with an unused record for each hash; a reissue replaces the list of one that is on; a disabled one passes nothing; other users keep theirs |
| TwoFactor.TwoFactorService.VerifyCodeOrBackup | api/apps/user/v0/service/auth.py:587-609 | time-based code with its replay key, else a backup code, exactly as specified |
| TwoFactor.TwoFactorService.VerifyChallenge | api/apps/user/v0/service/auth.py:611-643 | an expired challenge is refused; one is used up by a success and by nothing else; a success whose user is gone uses up challenge and code |
| TwoFactorRaces.LetInIffNoneSetBefore | api/apps/user/v0/service/auth.py:592-601 | in every interleaving a check passes the replay key exactly if every key set for its step before it looked had expired; looking in time, exactly if none had been set |
| TwoFactorRaces.SharedStepsOverlapped | api/apps/user/v0/service/auth.py:592-601 | two acceptances in one step overlapped: each looked before the other set the key |
| TwoFactorRaces.OneStepTwice | api/apps/user/v0/service/auth.py:592-601 | two checks that both look before either sets are both accepted |
| TwoFactorRaces.FewerUsedIffOverlapped | api/apps/user/v0/service/auth.py:603-609 | in every interleaving without a list written back from before its issue the used records are at most the successes, and fewer exactly if a success wrote back a list another had replaced since it was read |
| TwoFactorRaces.DecidedAtItsRead | api/apps/user/v0/service/auth.py:603-609 | whether a backup code passes is decided when its check reads the list; its success puts that list back and undoes every use and reissue in between |
| TwoFactorRaces.OneCodeTwice | api/apps/user/v0/service/auth.py:603-609 | two checks that both read before either writes both pass with one code and use one record |
| TwoFactorRaces.AloneIsAtomic | api/apps/user/v0/service/auth.py:587-609 | a check whose steps follow each other is the atomic check of the sequential model |
| RoleCache.FieldsCollideOnlyOnNone | api/shared/redis_keys.py:8-11 | two reads share a hash field only if they are the same, or both list with one limit, one without cursor and one with the text None; ids never meet lists |
| RoleCache.EveryRunAgrees | api/core/cache.py:137-218 | every cached field is what its read returns |
| RoleCache.CachedReadsAreTheReads | api/core/cache.py:137-160 | in every run of reads, mutators, expiry and failing cache reads and writes the cached reads return what the uncached ones do, but for the cursor text None while the first page is cached |
| RoleCache.OneRoleIsRead | api/apps/user/v0/dao/role.py:134-159 | a role is read as its row, and none where there is none |
| RoleCache.RolesAreListed | api/apps/user/v0/dao/role.py:19-54 | a list read gives the roles from the start, or below the id of its cursor, from the highest id down, a full page or all there are; another cursor is an error |
| RoleCache.SkippedInvalidationServesTheOldRole | api/core/cache.py:184-212 | with the delete failing, or the mutator raising after a write, the old role is served; right exactly if it was left alone |
| RoleCache.RoleHash.GetFromCache | api/core/cache.py:46-74 | a failing read is a miss |
| RoleCache.RoleHash.SaveToCache | api/core/cache.py:77-115 | None is not saved and a failing write is swallowed |
| RoleCache.RoleHash.CachedRead | api/core/cache.py:137-160 | cached value first, else the read, then the save |
| RoleCache.RoleHash.Invalidating | api/core/cache.py:181-214 | the operation first, then the whole hash unless it raised |
| ApiKeys.EveryRunKeepsInv | api/apps/common/v0/service/api_key.py:124-189 | in every run with working evictions every cached copy is its row on all it holds |
| ApiKeys.VerifyIsTheRow | api/apps/common/v0/service/api_key.py:57-91 | verification answers from the row, cached or not: the key if active and unexpired, else nothing |
| ApiKeys.NewKeyVerifies | api/apps/common/v0/dao/api_key.py:19-46 | a new key is active and verifies at once unless it has expired |
| ApiKeys.UpdateChangesWhatIsGiven | api/apps/common/v0/service/api_key.py:130-149 | an update changes the fields that are given, these only, of this row only, and never the hash |
| ApiKeys.OtherKeysStay | api/apps/common/v0/service/api_key.py:130-189 | no operation touches another key's row |
| ApiKeys.RotationReplacesTheKey | api/apps/common/v0/service/api_key.py:151-170 | after a rotation the old key never verifies and the new one exactly when active and unexpired |
| ApiKeys.DeletedKeysNeverVerify | api/apps/common/v0/dao/api_key.py:171-213 | a deleted key never verifies again, alone or in bulk |
| ApiKeys.InactiveUntilReactivated | api/apps/common/v0/service/api_key.py:130-149 | a deactivated key verifies under none of its hashes until an update reactivates it |
| ApiKeys.LostEvictionKeepsTheOldKey | api/apps/common/v0/service/api_key.py:124-128 | with the eviction lost the old key verifies through the cache exactly if a usable copy was there |
| ApiKeys.ApiKeyService.SelectByHash | api/apps/common/v0/dao/api_key.py:49-63 | the row of the hash, if there is one |
| ApiKeys.ApiKeyService.GetApiKeyByHash | api/apps/common/v0/dao/api_key.py:43-63 | the copy, or the row, which is then kept |
| ApiKeys.ApiKeyService.VerifyApiKey | api/apps/common/v0/service/api_key.py:57-91 | copy or row, then activity and expiry, then the throttled stamp of the use, whose failure reaches the caller; an empty key is none |
| ApiKeys.ApiKeyService.StampUse | api/apps/common/v0/service/api_key.py:85-89 | the use is stamped exactly if no lock of the last 300 seconds lives |
| ApiKeys.ApiKeyService.EvictCache | api/apps/common/v0/service/api_key.py:124-128 | deletes the copy under the hash, or fails |
| ApiKeys.ApiKeyService.UpdateApiKey | api/apps/common/v0/service/api_key.py:130-149 | only what is given changes, then the eviction |
| ApiKeys.ApiKeyService.RotateApiKey | api/apps/common/v0/service/api_key.py:151-170 | new hash, then the eviction of the old one |
| ApiKeys.ApiKeyService.DeleteApiKey | api/apps/common/v0/service/api_key.py:172-189 | row, then the eviction |
| ApiKeys.ApiKeyService.DeleteApiKeys | api/apps/common/v0/dao/api_key.py:187-213 | hashes, rows, copies; a failing delete of the copies is swallowed |
| SqlConditions.CompiledSelects | api/apps/common/v0/dao/dead_letter_task.py:47-73 | conditions whose placeholders stand for the appended values select exactly the rows that pass what was asked |
| SqlConditions.CompiledCasts | api/apps/common/v0/dao/dead_letter_task.py:71-73 | and the server casts their texts exactly if it can cast what was asked |
| SqlConditions.MoreParameters | api/apps/common/v0/dao/dead_letter_task.py:75-82 | parameters appended later disturb no earlier placeholder |
| SqlConditions.Builder.Add | api/apps/common/v0/dao/dead_letter_task.py:50-61 | a value appended and the columns compared with its placeholder ask one thing more |
| SqlConditions.Builder.Extend | api/apps/common/v0/dao/dead_letter_task.py:75-82 | values no condition refers to change nothing that is asked |
| SqlConditions.Builder.AddClause | api/apps/common/admin_views/webhook_log.py:116-118 | a clause over parameters already there asks what they stand for |
| DeadLetterQueries.ListTasks | api/apps/common/v0/dao/dead_letter_task.py:28-92 | the list query selects exactly the rows the filter means below the cursor, with limit and offset where positive, and raises exactly on a cursor that is no UUID |
| DeadLetterQueries.Paged | api/apps/common/v0/dao/dead_letter_task.py:75-82 | limit and offset each refer to their own parameter |
| DeadLetterQueries.CountQuery | api/apps/common/v0/dao/dead_letter_task.py:94-134 | the count query, built separately, selects exactly the rows the filter means |
| DeadLetterQueries.ListingsAgreeWithCounts | api/apps/common/v0/dao/dead_letter_task.py:28-134 | two queries that mean one filter: the listing without cursor is the counted rows from its offset up to its limit |
| DeadLetterQueries.ListAndCount | api/apps/common/v0/dao/dead_letter_task.py:28-134 | for the two queries actually built: the listing raises exactly on a cursor that is no UUID, and without cursor, limit and offset has as many rows as counted |
| DeadLetterQueries.UpdateTaskPayload | api/apps/common/v0/dao/dead_letter_task.py:141-197 | the update stamps and revises exactly the chosen rows as the payload says, merging only in bulk; with neither ids nor name it chooses every row |
| DeadLetterQueries.AddAssignments | api/apps/common/v0/dao/dead_letter_task.py:156-175 | one assignment for each part of the payload that is given |
| DeadLetterQueries.AddTarget | api/apps/common/v0/dao/dead_letter_task.py:177-187 | the ids if there are any, else the name if there is one |
| FilterMeanings.TaskFilterMeans | api/apps/common/v0/dao/dead_letter_task.py:47-69 | of a stored task the filter means: this name, this type of exception, the text in name, message or traceback, failed between the two times, both included |
| FilterMeanings.TaskCursorMeans | api/apps/common/v0/dao/dead_letter_task.py:71-73 | and the cursor an id above that of the row |
| FilterMeanings.ChosenMeans | api/apps/common/v0/dao/dead_letter_task.py:177-187 | an update is for the row of the id, else of the ids, else of the name, else for all |
| FilterMeanings.RevisionMeans | api/apps/common/v0/dao/dead_letter_task.py:156-175 | arguments, keyword arguments and queue given take the place of the row's own, keyword arguments of a merging bulk update are added to them, and no other column changes |
| LogQueries.ListLogs | api/apps/common/v0/dao/webhook_log.py:89-154 | the query selects exactly what the filter means before the cursor, its limit is the last parameter, and it raises exactly on a cursor that is no time |
| LogQueries.ExtractDateRange | api/utils/admin_filters.py:28-44 | the branches give the bounds a rule means, and raise exactly on one that is no date |
| LogQueries.LastGiven | api/apps/common/admin_views/webhook_log.py:85-90 | a bound is what the last rule giving one gives |
| LogQueries.ExtractDateBounds | api/apps/common/admin_views/webhook_log.py:80-94 | the last bounds given, else the thirty days up to the end; raises exactly if some rule on the column gives what is no date |
| LogQueries.BuildWebhookQuery | api/apps/common/admin_views/webhook_log.py:96-139 | list and count both select exactly the rows meeting every rule, the period and the search, unless a date raises |
| LogQueries.ExtractQueryFilters | api/apps/common/admin_views/audit_log.py:165-207 | each filter is what the last rule on its field gives; the first rule with no date or no UUID where one is needed raises |
| LogQueries.BuildSearchClause | api/apps/common/admin_views/audit_log.py:26-50 | seven columns against the text and two against the id it may be, over parameters appended to the caller's list |
| LogQueries.BuildAuditQuery | api/apps/common/admin_views/audit_log.py:209-272 | list and count both select exactly the rows in the period that meet each filter and the search |
| LogQueries.PagedSelects | api/apps/common/admin_views/audit_log.py:243-272 | dropping the last two parameters loses none a condition refers to |
| LogQueries.CountIsTheListedRows | api/apps/common/admin_views/webhook_log.py:164-172 | a count of the same conditions is the number of rows before limit and offset |
| FilterMeanings.LogFilterMeans | api/apps/common/v0/dao/webhook_log.py:109-142 | of a stored delivery the filter means equal texts and endpoint, created between the two times, and before the cursor |
| FilterMeanings.WebhookFilterMeans | api/apps/common/admin_views/webhook_log.py:103-126 | every rule on a filtered column met, created in the period, and the stripped text in one of four columns |
| FilterMeanings.BoundsMean | api/utils/admin_filters.py:28-44 | a rule says from its value on, up to the end of it, both, or between two values |
| FilterMeanings.PeriodMeans | api/apps/common/admin_views/webhook_log.py:80-94 | the last start and the last end given, without an end now, and without a start 2 592 000 seconds before the end |
| FilterMeanings.AuditFilterMeans | api/apps/common/admin_views/audit_log.py:209-241 | of a stored entry the filter means: in the period, by the actor, with name, resource and action found, and the search text in one of seven columns or one of two ids |
| FilterMeanings.FieldMeans | api/apps/common/admin_views/audit_log.py:165-207 | a filter of the audit view is the last text given for its field |
| FilterMeanings.SliceMeans | api/apps/common/v0/dao/dead_letter_task.py:75-82 | a slice starts offset rows in and ends after limit rows or with the last |
| LogQueries.PeriodOfTwoClocks | api/apps/common/admin_views/webhook_log.py:80-94 | the periods of two clocks agree exactly if an end is given or the clocks do |
| LogQueries.ClocksDifferOn | api/apps/common/admin_views/webhook_log.py:164-172 | a list and a later count differ on a row exactly if no end is given and the row, meeting all else, was created after the list's clock or left the thirty days in between |
| LogQueries.ListAndCountWebhookLogs | api/apps/common/admin_views/webhook_log.py:141-176 | list and count as built, each with its own clock: without rules and search, or where it fails, the count is an estimate of the table; else, with an end given or no time between, the list is a slice of the counted rows |
| Connections.ConnectionManager.constructor | api/apps/notification/v0/channels/websocket.py:20-24 | no connections and no subscriptions at the start |
| Connections.ConnectionManager.Connect | api/apps/notification/v0/channels/websocket.py:68-84 | appends the socket; only the first of a user subscribes, and a user whose subscription fails is unheard whatever sockets follow, until the last is gone |
| Connections.ConnectionManager.Disconnect | api/apps/notification/v0/channels/websocket.py:86-96 | drops one occurrence and, with the last socket, the user with its subscription or the loss of it |
| Connections.ConnectionManager.SendOne | api/apps/notification/v0/channels/websocket.py:116-120 | a failing send drops its socket |
| Connections.ConnectionManager.LocalSend | api/apps/notification/v0/channels/websocket.py:112-120 | tries the sockets of the start in order, each once, and with distinct sockets keeps exactly the successful ones |
| Connections.ConnectionManager.LocalBroadcast | api/apps/notification/v0/channels/websocket.py:122-125 | the same over all users of the start |
| Connections.AttemptAt | api/apps/notification/v0/channels/websocket.py:112-120 | the attempts are on the sockets in the order of the list |
| Connections.EachSocketIsTriedOnce | api/apps/notification/v0/channels/websocket.py:122-125 | every socket present at the start is tried exactly once and no other |
| Connections.KeptIffItsAttemptSucceeded | api/apps/notification/v0/channels/websocket.py:112-125 | a socket is kept if and only if its attempt succeeded |
| ReadRouting.FastestIsFirstLeast | api/core/database.py:302-312 | the region kept by the loop is the first of least average, the average health_check reports |
| ReadRouting.AverageIs | api/core/database.py:303-312 | the average is that of the healthy pools with a latency, each counted once, and there is none without |
| ReadRouting.ChoiceIffAnyPool | api/core/database.py:288-322 | a region is chosen if and only if some region has a pool |
| ReadRouting.ChoiceIs | api/core/database.py:264-322 | the region of the client if it has a healthy pool, else the first listed that has, else the fastest, else the first with any pool |
| ReadRouting.CandidatesAreConfigured | api/core/database.py:380-394 | the list drawn from is never empty and holds configured read pools only |
| ReadRouting.DownRegionGivesWay | api/core/database.py:382-388 | a chosen region without a healthy pool gives way to exactly the healthy pools elsewhere |
| ReadRouting.UnhealthyDrawnIff | api/core/database.py:380-395 | an unhealthy pool can be drawn exactly if the chosen region has both kinds or no pool anywhere is healthy |
| ReadRouting.DeadPoolCanBeDrawn | api/core/database.py:380-395 | a mixed region from which a dead pool can be drawn |
| ReadRouting.LabelIsRightIff | api/core/database.py:380-395 | the region returned hosts the pool returned if and only if it has a healthy pool, or none anywhere is healthy and the draw falls on it |
| ReadRouting.LabelCanBeWrong | api/core/database.py:380-395 | a pool of another region under the name of a region that is down |
| ReadRouting.DataBase.ChooseRegion | api/core/database.py:264-322 | client, priority list, latency, then any region with a pool |
| ReadRouting.DataBase.FirstListed | api/core/database.py:296-300 | the first listed region with a healthy pool |
| ReadRouting.DataBase.LowestLatency | api/core/database.py:303-312 | the loop keeps the first region of least average |
| ReadRouting.DataBase.FirstWithPool | api/core/database.py:318-321 | the first region with a pool |
| ReadRouting.DataBase.GetRegionForPool | api/core/database.py:324-345 | a region with the pool, exactly if there is one |
| ReadRouting.DataBase.SelectReadPool | api/core/database.py:347-395 | a configured read pool if there is one, else the write pool, whose label can then only be primary_fallback, else an error |
| ReadRouting.DataBase.GetPool | api/core/database.py:397-427 | the write pool or an error for the primary, otherwise the routed read pool |

## Left out

- MigrationFiles.ParseMigrationSql: lines end at a newline only, white space is blank, tab, newline and carriage return, and digits and letter case are ASCII's; the source also knows the rest of Unicode.
- MigrationRuns.EveryHistoryKeepsAPrefix: one operator at a time, over a directory that does not change during the history and files that are all numbered; two runs at once are not modelled.
- MigrationRuns.OutOfOrderRunIsDetected: the named file is one of the sorted files; a file without the `.sql` suffix can be run by name and is not modelled.
- MigrationEngine.Migrator.Transaction: a failure of the record statement has no outcome of its own; it leaves what a kill before the transaction leaves.
- EventBusListener.Listener.HandleBatch: the loop over a batch is without interference; interleavings with other workers are those of module EventBus, step by step.
- EventOrder.AloneServesInOrder: one worker; several may start two events in the other order (EventOrder.TwoWorkersStartOutOfOrder), and an event published twice is started by the rule of EventOrder.SecondEntryStartsIff.
- EventBus.HandlerRunsAreSpaced: the spacing is between starts; how long a handler runs is not limited, so two runs can still overlap after 60 seconds.
- EventBus.LostExactlyWhen: a run is the start of an event's handlers; handlers cut off half-way by a stop, or raising, count as run, and an event without handlers on the worker that reads it counts as lost.
- Idempotency.LateRunsLookedUpEarly: a request that dies under its lock leaves it to expire; streaming responses are not modelled.
- Idempotency.IdempotentRoute.Remember: the response is one value; its headers, and a body that does not decode and so raises, are not modelled.
- ScheduleCache.EveryRunKeepsInv: reload is one atomic step and database fetches succeed; what happens otherwise is in SplitReloadStaysStale, and a failing fetch empties the schedule.
- CursorCodec.CursorRoundTrip: strings of Unicode scalar values; a lone surrogate, which cannot be encoded, is not a value of the model.
- Pagination.StayedRowsComeExactlyOnce: the ids that match the request's filters stand for the rows.
- TokenScopes.AcceptedTokensAreCurrent: signature and expiry are taken as checked, and every service operation is one atomic step; the second statement of an assignment is never lost.
- RoleTables.GetCurrentUser: the context variables set after the checks are not modelled.
- SessionRevocation.StoppedTokensInEveryRun: the session record kept beside the impersonation token is not modelled.
- SessionRevocation.RevokedTokensInEveryRun: Redis, PostgreSQL and the service read one clock.
- SessionFates.RevokedSessionsCanBeRefreshed: the checks of user, version and second-factor policy are one parameter of the refresh; that outdated versions are refused is in module TokenScopes.
- TwoFactor.OneAcceptancePerStep: login checks one after the other, and commands that work; how far it holds of overlapping ones is in module TwoFactorRaces.
- TwoFactor.SuccessesNeverExceedIssued: the same; TwoFactorRaces.FewerUsedIffOverlapped says when it fails.
- TwoFactor.TwoFactorService.VerifyChallenge: the tokens issued after a success are those of module SessionRevocation and are not issued here.
- TwoFactorRaces.FewerUsedIffOverlapped: one user, whose second factor is not disabled meanwhile; a list from before a reissue can come back and then says nothing about the successes since (TwoFactorRaces.DecidedAtItsRead).
- RoleCache.CachedReadsAreTheReads: sequential reads; a read that saves after a mutator has dropped the hash is not modelled. Descriptions and timestamps of roles are left out.
- ApiKeys.VerifyIsTheRow: prefix and creator of a key are left out, and the copy's last use, which can lag behind the row.
- ApiKeys.ApiKeyService.RotateApiKey: requires a hash never used before, which a random 256-bit key provides.
- DeadLetterQueries.ListTasks: the table is listed in the query's order.
- LogQueries.BuildAuditQuery: the count's cutting of the WHERE text out of the query text is modelled on the list of conditions; values never enter that text.
- LogQueries.ExtractDateBounds: which texts are dates, and which times they are, is a parameter.
- Connections.ConnectionManager.Connect: accepting the socket and starting the listener task are left out; interleavings inside the method are not modelled.
- Connections.ConnectionManager.Disconnect: giving up the subscription works; a failure would leave a channel nobody reads.
- ReadRouting.DataBase.LowestLatency: latencies are real numbers, so rounding of the average is not modelled.
- Admin writes of periodic tasks, which skip the notify step (`api/apps/common/admin_views/periodic_task.py:196`).
- Sudo tokens, which carry neither version nor scopes, and the check that refuses impersonated callers, decided in one branch.
- The cache of application versions, a smaller copy of the role cache.
- Webhook delivery, notification fan-out, retriggering of dead letters, routes, schemas and admin rendering: thin, or decided in one branch.
- Telemetry, logging, metrics and the servers themselves; the Redis commands and SQL statements used are small specifications.
