/**
 The event bus: a Redis stream read by one consumer group. Any number of workers read
 batches, take a lock per event, run the handlers and acknowledge; every Redis command is
 one atomic step and may fail with or without having taken effect.
 */
module EventBus {
  import opened Wrappers

  const MAX_STREAM_LEN: nat := 50000
  const BATCH_SIZE: nat := 10
  const LOCK_MS: nat := 60000

  /** What an entry carries: no data, data that does not parse, or an event. */
  datatype Payload = NoData | Garbage | Event(id: string, name: string)

  /** How the processing of an entry returned. */
  datatype Outcome = NothingToDo | NoHandlers | LockHeld | LockFailed | Handled

  /** A start of the handlers of an event: which entry brought it, when, and the handlers in the order called. */
  datatype Run = Run(event: string, entry: nat, start: nat, handlers: seq<nat>)

  /**
   The stream (entries are numbered in the order added; those below `trimmed` are gone), the
   group (entries from `cursor` on have not been handed out, `start` is where the group was
   created), the lock keys with their expiry, the clock; and what has happened so far:
   to whom each entry was given, which were acknowledged, how their processing returned,
   and every start of an event's handlers.
   */
  datatype Redis = Redis(
    log: seq<Payload>, trimmed: nat,
    start: nat, cursor: nat, pending: map<nat, string>,
    locks: map<string, nat>, now: nat,
    given: map<nat, seq<string>>, acked: set<nat>, returned: map<nat, Outcome>, runs: seq<Run>)

  datatype Phase = AtHead | Running | Done

  /** A listener: its handlers, the entries it still holds, and where it is with the first of them. */
  datatype Worker = Worker(subscribers: map<string, seq<nat>>, batch: seq<nat>, phase: Phase)

  datatype Bus = Bus(redis: Redis, workers: map<string, Worker>)

  /* ----- the commands ----- */

  function Range(from: nat, upTo: nat): (r: seq<nat>)
    requires from <= upTo
    ensures |r| == upTo - from && forall k :: 0 <= k < |r| ==> r[k] == from + k
  {
    seq(upTo - from, k requires 0 <= k => from + k)
  }

  /** XADD with approximate trimming: the server may trim further, down to the maximum length. */
  function Add(r: Redis, p: Payload, trimTo: nat): Redis {
    r.(log := r.log + [p],
       trimmed := if r.trimmed < trimTo && trimTo + MAX_STREAM_LEN <= |r.log| + 1 then trimTo else r.trimmed)
  }

  function NextUnread(r: Redis): nat {
    if r.cursor < r.trimmed then r.trimmed else r.cursor
  }

  function ReadUpTo(r: Redis): nat {
    if NextUnread(r) + BATCH_SIZE <= |r.log| then NextUnread(r) + BATCH_SIZE else |r.log|
  }

  /** XREADGROUP ">": the next entries never handed out, all pending for this consumer from now on. */
  function Deliver(r: Redis, name: string): Redis
    requires NextUnread(r) < |r.log|
  {
    var from, upTo := NextUnread(r), ReadUpTo(r);
    r.(cursor := upTo,
       pending := r.pending + PendingFor(Range(from, upTo), name),
       given := r.given + GivenTo(r.given, Range(from, upTo), name))
  }

  function PendingFor(entries: seq<nat>, name: string): map<nat, string> {
    map i | i in entries :: name
  }

  function GivenTo(given: map<nat, seq<string>>, entries: seq<nat>, name: string): map<nat, seq<string>> {
    map i | i in entries :: (if i in given then given[i] else []) + [name]
  }

  /** SET key NX EX 60, when it takes effect. */
  predicate Locked(r: Redis, event: string) {
    event in r.locks && r.now < r.locks[event]
  }

  function Lock(r: Redis, event: string): Redis {
    if Locked(r, event) then r else r.(locks := r.locks[event := r.now + LOCK_MS])
  }

  function Acknowledge(r: Redis, i: nat): Redis {
    r.(pending := r.pending - {i}, acked := r.acked + {i})
  }

  /* ----- one worker ----- */

  predicate Holds(r: Redis, w: Worker, phase: Phase) {
    w.batch != [] && w.phase == phase && w.batch[0] < |r.log|
  }

  function Read(r: Redis, w: Worker, name: string, lost: bool): (Redis, Worker) {
    if w.batch != [] || NextUnread(r) >= |r.log| then (r, w)
    else (Deliver(r, name), if lost then w else w.(batch := Range(NextUnread(r), ReadUpTo(r)), phase := AtHead))
  }

  function Return(r: Redis, w: Worker, outcome: Outcome): (Redis, Worker)
    requires w.batch != []
  {
    (r.(returned := r.returned[w.batch[0] := outcome]), w.(phase := Done))
  }

  /** _process_remote_event up to the first handler. */
  function Begin(r: Redis, w: Worker, reply: Reply): (Redis, Worker)
    requires Holds(r, w, AtHead)
  {
    var i := w.batch[0];
    match r.log[i]
    case NoData => Return(r, w, NothingToDo)
    case Garbage => Return(r, w, NothingToDo)
    case Event(id, name) =>
      if name !in w.subscribers || w.subscribers[name] == [] then Return(r, w, NoHandlers)
      else if reply.FailsBefore? then Return(r, w, LockFailed)
      else if reply.FailsAfter? then Return(Lock(r, id), w, LockFailed)
      else if Locked(r, id) then Return(r, w, LockHeld)
      else (Lock(r, id).(runs := r.runs + [Run(id, i, r.now, w.subscribers[name])]), w.(phase := Running))
  }

  function Finish(r: Redis, w: Worker): (Redis, Worker)
    requires Holds(r, w, Running)
  {
    Return(r, w, Handled)
  }

  /** XACK; an error abandons the rest of the batch. */
  function Ack(r: Redis, w: Worker, reply: Reply): (Redis, Worker)
    requires Holds(r, w, Done)
  {
    (if reply.FailsBefore? then r else Acknowledge(r, w.batch[0]),
     w.(batch := if reply.Works? then w.batch[1..] else [], phase := AtHead))
  }

  /* ----- all of them ----- */

  datatype Step =
    | Publish(payload: Payload, trimTo: nat)
    | Tick(ms: nat)
    | Start(worker: string, subscribers: map<string, seq<nat>>)
    | Stop(worker: string)
    | ReadBatch(worker: string, lost: bool)
    | BeginHead(worker: string, reply: Reply)
    | FinishHead(worker: string)
    | AckHead(worker: string, reply: Reply)

  function Update(b: Bus, name: string, next: (Redis, Worker)): Bus {
    Bus(next.0, b.workers[name := next.1])
  }

  /** A step that is not enabled changes nothing. */
  function Next(b: Bus, s: Step): Bus {
    match s
    case Publish(p, trimTo) => b.(redis := Add(b.redis, p, trimTo))
    case Tick(ms) => b.(redis := b.redis.(now := b.redis.now + ms))
    case Start(n, subscribers) =>
      if n in b.workers then b else b.(workers := b.workers[n := Worker(subscribers, [], AtHead)])
    case Stop(n) => b.(workers := b.workers - {n})
    case ReadBatch(n, lost) =>
      if n in b.workers then Update(b, n, Read(b.redis, b.workers[n], n, lost)) else b
    case BeginHead(n, reply) =>
      if n in b.workers && Holds(b.redis, b.workers[n], AtHead)
        then Update(b, n, Begin(b.redis, b.workers[n], reply)) else b
    case FinishHead(n) =>
      if n in b.workers && Holds(b.redis, b.workers[n], Running) then Update(b, n, Finish(b.redis, b.workers[n])) else b
    case AckHead(n, reply) =>
      if n in b.workers && Holds(b.redis, b.workers[n], Done)
        then Update(b, n, Ack(b.redis, b.workers[n], reply)) else b
  }

  function Runs(b: Bus, steps: seq<Step>): Bus
    decreases |steps|
  {
    if steps == [] then b else Runs(Next(b, steps[0]), steps[1..])
  }

  /** The group is created at the end of whatever the stream already holds. */
  ghost predicate Initial(b: Bus) {
    var r := b.redis;
    && r.trimmed <= r.start == r.cursor == |r.log| && (r.trimmed == 0 || r.trimmed + MAX_STREAM_LEN <= |r.log|)
    && r.pending == map[] && r.locks == map[] && r.given == map[] && r.acked == {}
       && r.returned == map[] && r.runs == []
    && b.workers == map[]
  }

  /* ----- what every interleaving keeps ----- */

  ghost predicate StreamOk(r: Redis) {
    && r.trimmed <= |r.log| && r.start <= r.cursor <= |r.log|
    && (r.trimmed == 0 || r.trimmed + MAX_STREAM_LEN <= |r.log|)
    && (forall i :: i in r.given ==> r.start <= i < r.cursor && |r.given[i]| == 1)
    && (forall i :: r.start <= i < r.cursor && i !in r.given ==> i < r.trimmed)
  }

  ghost predicate GroupOk(r: Redis) {
    && r.acked <= r.returned.Keys <= r.given.Keys
    && r.pending.Keys == r.given.Keys - r.acked
    && (forall i :: i in r.pending && i in r.given ==> r.given[i] == [r.pending[i]])
  }

  ghost predicate HasRun(r: Redis, i: nat) {
    exists k :: 0 <= k < |r.runs| && r.runs[k].entry == i
  }

  ghost predicate RunsOk(r: Redis) {
    && (forall k :: 0 <= k < |r.runs| ==>
          r.runs[k].event in r.locks && r.runs[k].start + LOCK_MS <= r.locks[r.runs[k].event]
          && r.runs[k].start <= r.now && r.runs[k].entry in r.given)
    && (forall j, k :: 0 <= j < k < |r.runs| ==> r.runs[j].entry != r.runs[k].entry)
    && (forall j, k :: 0 <= j < k < |r.runs| && r.runs[j].event == r.runs[k].event
          ==> r.runs[j].start + LOCK_MS <= r.runs[k].start)
    && (forall i :: i in r.returned ==> (r.returned[i] == Handled <==> HasRun(r, i)))
  }

  ghost predicate WorkerOk(r: Redis, name: string, w: Worker) {
    && (forall k :: 0 <= k < |w.batch| ==>
          w.batch[k] in r.pending && r.pending[w.batch[k]] == name && w.batch[k] < |r.log|)
    && (forall j, k :: 0 <= j < k < |w.batch| ==> w.batch[j] < w.batch[k])
    && (forall k :: 0 <= k < |w.batch| && (k > 0 || w.phase != Done) ==> w.batch[k] !in r.returned)
    && (forall k :: 0 <= k < |w.batch| && (k > 0 || w.phase == AtHead) ==> !HasRun(r, w.batch[k]))
    && (w.batch != [] && w.phase == Running ==> HasRun(r, w.batch[0]))
    && (w.batch != [] && w.phase == Done ==> w.batch[0] in r.returned)
  }

  ghost predicate Inv(b: Bus) {
    && StreamOk(b.redis) && GroupOk(b.redis) && RunsOk(b.redis)
    && forall n :: n in b.workers ==> WorkerOk(b.redis, n, b.workers[n])
  }

  ghost predicate RedisOk(r: Redis) {
    StreamOk(r) && GroupOk(r) && RunsOk(r)
  }

  /** What a step of one worker must show: its own state, and that of every other worker. */
  ghost predicate KeptBy(r: Redis, name: string, next: (Redis, Worker)) {
    && RedisOk(next.0) && WorkerOk(next.0, name, next.1)
    && forall o, v :: o != name && WorkerOk(r, o, v) ==> WorkerOk(next.0, o, v)
  }

  lemma InRange(from: nat, upTo: nat, i: nat)
    requires from <= upTo
    ensures i in Range(from, upTo) <==> from <= i < upTo
  {
    if from <= i < upTo { assert Range(from, upTo)[i - from] == i; }
  }

  /** The entries read are new to this consumer; nothing else changes but the cursor. */
  lemma DeliverFacts(r: Redis, name: string)
    requires NextUnread(r) < |r.log|
    ensures
      var r' := Deliver(r, name);
      var from, upTo := NextUnread(r), ReadUpTo(r);
      && r' == r.(cursor := upTo, pending := r'.pending, given := r'.given)
      && (forall i: nat :: i in r'.pending <==> i in r.pending || from <= i < upTo)
      && (forall i :: i in r'.pending ==> r'.pending[i] == if from <= i < upTo then name else r.pending[i])
  {
    var from, upTo := NextUnread(r), ReadUpTo(r);
    forall i: nat ensures i in Range(from, upTo) <==> from <= i < upTo { InRange(from, upTo, i); }
    hide Range;
  }

  lemma DeliverKeeps(r: Redis, name: string)
    requires RedisOk(r) && NextUnread(r) < |r.log|
    ensures RedisOk(Deliver(r, name))
  {
    DeliverKeepsStream(r, name);
    DeliverKeepsGroup(r, name);
    hide StreamOk, GroupOk;
    var r' := Deliver(r, name);
    forall i ensures HasRun(r', i) == HasRun(r, i) {}
    assert RunsOk(r');
    hide Deliver, RunsOk;
  }

  lemma GivenNow(given: map<nat, seq<string>>, entries: seq<nat>, name: string)
    ensures (given + GivenTo(given, entries, name)).Keys == given.Keys + set i | i in entries
    ensures forall i :: i in given && i !in entries ==> (given + GivenTo(given, entries, name))[i] == given[i]
    ensures forall i :: i in entries && i !in given ==> (given + GivenTo(given, entries, name))[i] == [name]
  {
  }

  lemma DeliverKeepsStream(r: Redis, name: string)
    requires RedisOk(r) && NextUnread(r) < |r.log|
    ensures StreamOk(Deliver(r, name))
  {
    hide RunsOk, GroupOk;
    var from, upTo := NextUnread(r), ReadUpTo(r);
    forall i: nat ensures i in Range(from, upTo) <==> from <= i < upTo { InRange(from, upTo, i); }
    GivenNow(r.given, Range(from, upTo), name);
    hide Range, GivenTo, PendingFor;
  }

  lemma DeliverKeepsGroup(r: Redis, name: string)
    requires RedisOk(r) && NextUnread(r) < |r.log|
    ensures GroupOk(Deliver(r, name))
  {
    hide RunsOk;
    var from, upTo := NextUnread(r), ReadUpTo(r);
    forall i: nat ensures i in Range(from, upTo) <==> from <= i < upTo { InRange(from, upTo, i); }
  }

  lemma DeliverKeepsOthers(r: Redis, name: string, o: string, v: Worker)
    requires RedisOk(r) && NextUnread(r) < |r.log| && WorkerOk(r, o, v)
    ensures WorkerOk(Deliver(r, name), o, v)
  {
    var r' := Deliver(r, name);
    var from, upTo := NextUnread(r), ReadUpTo(r);
    forall i: nat ensures i in Range(from, upTo) <==> from <= i < upTo { InRange(from, upTo, i); }
    forall i ensures HasRun(r', i) == HasRun(r, i) {}
  }

  lemma UnreadIsFresh(r: Redis, i: nat)
    requires RedisOk(r) && r.cursor <= i
    ensures !HasRun(r, i) && i !in r.returned && i !in r.given
  {
  }

  lemma FreshBatchIsOk(r: Redis, w: Worker, name: string, from: nat, upTo: nat)
    requires from <= upTo <= |r.log|
    requires forall i :: from <= i < upTo ==>
      i in r.pending && r.pending[i] == name && !HasRun(r, i) && i !in r.returned
    ensures WorkerOk(r, name, w.(batch := Range(from, upTo), phase := AtHead))
  {
    hide HasRun;
  }

  lemma NewBatchIsOk(r: Redis, w: Worker, name: string)
    requires RedisOk(r) && NextUnread(r) < |r.log|
    ensures WorkerOk(Deliver(r, name), name, w.(batch := Range(NextUnread(r), ReadUpTo(r)), phase := AtHead))
  {
    var r' := Deliver(r, name);
    DeliverFacts(r, name);
    forall i | NextUnread(r) <= i < ReadUpTo(r)
      ensures i in r'.pending && r'.pending[i] == name && !HasRun(r', i) && i !in r'.returned
    {
      UnreadIsFresh(r, i);
    }
    hide RedisOk, HasRun, Deliver, Range, WorkerOk;
    FreshBatchIsOk(r', w, name, NextUnread(r), ReadUpTo(r));
  }

  lemma ReadKeeps(r: Redis, w: Worker, name: string, lost: bool)
    requires RedisOk(r) && WorkerOk(r, name, w)
    ensures KeptBy(r, name, Read(r, w, name, lost))
  {
    hide Deliver, WorkerOk, RedisOk;
    if w.batch == [] && NextUnread(r) < |r.log| {
      DeliverKeeps(r, name);
      DeliverKeepsOthers(r, name, name, w);
      NewBatchIsOk(r, w, name);
      forall o, v | o != name && WorkerOk(r, o, v) ensures WorkerOk(Deliver(r, name), o, v) {
        DeliverKeepsOthers(r, name, o, v);
      }
    }
  }

  lemma ReturnKeeps(r: Redis, w: Worker, name: string, outcome: Outcome)
    requires RedisOk(r) && WorkerOk(r, name, w) && w.batch != [] && w.phase != Done
    requires outcome == Handled <==> HasRun(r, w.batch[0])
    ensures KeptBy(r, name, Return(r, w, outcome))
  {
    var r' := Return(r, w, outcome).0;
    forall i ensures HasRun(r', i) == HasRun(r, i) {}
    forall o, v | o != name && WorkerOk(r, o, v) ensures WorkerOk(r', o, v) {}
  }

  lemma LockKeeps(r: Redis, w: Worker, name: string, event: string)
    requires RedisOk(r) && WorkerOk(r, name, w)
    ensures KeptBy(r, name, (Lock(r, event), w))
  {
    hide StreamOk, GroupOk;
    var r' := Lock(r, event);
    LockKeepsRuns(r, event);
    assert StreamOk(r') && GroupOk(r') by { LockKeepsGroup(r, event); }
    forall o, v | WorkerOk(r, o, v) ensures WorkerOk(r', o, v) {}
  }

  lemma LockKeepsGroup(r: Redis, event: string)
    requires StreamOk(r) && GroupOk(r)
    ensures StreamOk(Lock(r, event)) && GroupOk(Lock(r, event))
  {
  }

  lemma LockKeepsRuns(r: Redis, event: string)
    requires RunsOk(r)
    ensures RunsOk(Lock(r, event)) && forall i :: HasRun(Lock(r, event), i) == HasRun(r, i)
  {
    forall i ensures HasRun(Lock(r, event), i) == HasRun(r, i) {}
  }

  lemma StartedRun(r: Redis, event: string, i: nat, handlers: seq<nat>)
    ensures
      var r' := Lock(r, event).(runs := r.runs + [Run(event, i, r.now, handlers)]);
      forall j :: HasRun(r', j) <==> HasRun(r, j) || j == i
  {
    var r' := Lock(r, event).(runs := r.runs + [Run(event, i, r.now, handlers)]);
    forall j ensures HasRun(r', j) <==> HasRun(r, j) || j == i {
      assert r'.runs[|r.runs|].entry == i;
      if HasRun(r, j) {
        var k :| 0 <= k < |r.runs| && r.runs[k].entry == j;
        assert r'.runs[k].entry == j;
      }
    }
  }

  lemma StartRunKeeps(r: Redis, w: Worker, name: string, event: string, handlers: seq<nat>)
    requires RedisOk(r) && WorkerOk(r, name, w) && Holds(r, w, AtHead) && !Locked(r, event)
    ensures
      var runs := r.runs + [Run(event, w.batch[0], r.now, handlers)];
      KeptBy(r, name, (Lock(r, event).(runs := runs), w.(phase := Running)))
  {
    var i := w.batch[0];
    var r' := Lock(r, event).(runs := r.runs + [Run(event, i, r.now, handlers)]);
    StartedRun(r, event, i, handlers);
    hide HasRun;
    forall o, v | o != name && WorkerOk(r, o, v) ensures WorkerOk(r', o, v) {}
  }

  lemma BeginKeeps(r: Redis, w: Worker, name: string, reply: Reply)
    requires RedisOk(r) && WorkerOk(r, name, w) && Holds(r, w, AtHead)
    ensures KeptBy(r, name, Begin(r, w, reply))
  {
    match r.log[w.batch[0]]
    case NoData => ReturnKeeps(r, w, name, NothingToDo);
    case Garbage => ReturnKeeps(r, w, name, NothingToDo);
    case Event(id, event) =>
      if event !in w.subscribers || w.subscribers[event] == [] {
        ReturnKeeps(r, w, name, NoHandlers);
      } else if reply.FailsBefore? {
        ReturnKeeps(r, w, name, LockFailed);
      } else if reply.FailsAfter? {
        LockKeeps(r, w, name, id);
        ReturnKeeps(Lock(r, id), w, name, LockFailed);
      } else if Locked(r, id) {
        ReturnKeeps(r, w, name, LockHeld);
      } else {
        StartRunKeeps(r, w, name, id, w.subscribers[event]);
      }
  }

  lemma AcknowledgeKeeps(r: Redis, i: nat)
    requires RedisOk(r) && i in r.returned
    ensures RedisOk(Acknowledge(r, i))
  {
    forall j ensures HasRun(Acknowledge(r, i), j) == HasRun(r, j) {}
    hide HasRun;
  }

  lemma AcknowledgeKeepsOthers(r: Redis, i: nat, o: string, v: Worker)
    requires WorkerOk(r, o, v) && i in r.pending && r.pending[i] != o
    ensures WorkerOk(Acknowledge(r, i), o, v)
  {
    forall j ensures HasRun(Acknowledge(r, i), j) == HasRun(r, j) {}
    hide HasRun;
  }

  lemma AckKeepsOwn(r: Redis, w: Worker, name: string, reply: Reply)
    requires WorkerOk(r, name, w) && Holds(r, w, Done)
    ensures WorkerOk(Ack(r, w, reply).0, name, Ack(r, w, reply).1)
  {
    forall j ensures HasRun(Ack(r, w, reply).0, j) == HasRun(r, j) {}
    hide HasRun;
  }

  lemma AckKeeps(r: Redis, w: Worker, name: string, reply: Reply)
    requires RedisOk(r) && WorkerOk(r, name, w) && Holds(r, w, Done)
    ensures KeptBy(r, name, Ack(r, w, reply))
  {
    var i := w.batch[0];
    AckKeepsOwn(r, w, name, reply);
    AcknowledgeKeeps(r, i);
    forall o, v | o != name && WorkerOk(r, o, v) ensures WorkerOk(Acknowledge(r, i), o, v) {
      AcknowledgeKeepsOthers(r, i, o, v);
    }
    hide RedisOk, WorkerOk, Acknowledge;
  }

  lemma AddKeeps(r: Redis, p: Payload, trimTo: nat, name: string, w: Worker)
    requires RedisOk(r) && WorkerOk(r, name, w)
    ensures RedisOk(Add(r, p, trimTo)) && WorkerOk(Add(r, p, trimTo), name, w)
  {
    var r' := Add(r, p, trimTo);
    forall i ensures HasRun(r', i) == HasRun(r, i) {}
  }

  lemma StepKeepsInv(b: Bus, s: Step)
    requires Inv(b)
    ensures Inv(Next(b, s))
  {
    hide StreamOk, GroupOk, RunsOk, WorkerOk, Add, Read, Begin, Finish, Ack, Holds;
    var r := b.redis;
    match s
    case Publish(p, trimTo) =>
      AddKeeps(r, p, trimTo, "", Worker(map[], [], AtHead)) by { NewWorkerIsOk(r, "", map[]); }
      forall n | n in b.workers
        ensures WorkerOk(Add(r, p, trimTo), n, b.workers[n]) { AddKeeps(r, p, trimTo, n, b.workers[n]); }
    case Tick(ms) =>
      TickKeeps(r, ms);
    case Start(n, subscribers) =>
      NewWorkerIsOk(r, n, subscribers);
    case Stop(n) =>
    case ReadBatch(n, lost) =>
      if n in b.workers { ReadKeeps(r, b.workers[n], n, lost); }
    case BeginHead(n, reply) =>
      if n in b.workers && Holds(r, b.workers[n], AtHead) { BeginKeeps(r, b.workers[n], n, reply); }
    case FinishHead(n) =>
      if n in b.workers && Holds(r, b.workers[n], Running) { FinishKeeps(r, b.workers[n], n); }
    case AckHead(n, reply) =>
      if n in b.workers && Holds(r, b.workers[n], Done) { AckKeeps(r, b.workers[n], n, reply); }
  }

  lemma NewWorkerIsOk(r: Redis, n: string, subscribers: map<string, seq<nat>>)
    ensures WorkerOk(r, n, Worker(subscribers, [], AtHead))
  {
  }

  lemma FinishKeeps(r: Redis, w: Worker, name: string)
    requires RedisOk(r) && WorkerOk(r, name, w) && Holds(r, w, Running)
    ensures KeptBy(r, name, Finish(r, w))
  {
    ReturnKeeps(r, w, name, Handled);
  }

  lemma TickKeeps(r: Redis, ms: nat)
    requires RedisOk(r)
    ensures RedisOk(r.(now := r.now + ms))
    ensures forall n, w :: WorkerOk(r, n, w) ==> WorkerOk(r.(now := r.now + ms), n, w)
  {
    var r' := r.(now := r.now + ms);
    forall i ensures HasRun(r', i) == HasRun(r, i) {}
  }

  lemma {:induction false} EveryRunKeepsInv(b: Bus, steps: seq<Step>)
    requires Inv(b)
    ensures Inv(Runs(b, steps))
    decreases |steps|
  {
    if steps != [] {
      StepKeepsInv(b, steps[0]);
      EveryRunKeepsInv(Next(b, steps[0]), steps[1..]);
    }
  }

  lemma InitialIsOk(b: Bus)
    requires Initial(b)
    ensures Inv(b)
  {
  }

  /* ----- where each entry is ----- */

  ghost predicate InFlight(b: Bus, i: nat) {
    exists n :: n in b.workers && i in b.workers[n].batch
  }

  /** Given to a worker that no longer holds it, and not acknowledged. */
  ghost predicate Abandoned(b: Bus, i: nat) {
    i in b.redis.pending && !InFlight(b, i)
  }

  predicate Waiting(b: Bus, i: nat) {
    i !in b.redis.given && b.redis.trimmed <= i
  }

  predicate TrimmedUnread(b: Bus, i: nat) {
    i !in b.redis.given && i < b.redis.trimmed
  }

  /**
   In every reachable state each entry published since the group exists is in exactly one place:
   still to be read, trimmed unread with 50000 newer entries behind it, or given to one worker only;
   and then acknowledged (after its processing returned), held by that worker, or abandoned.
   */
  lemma EveryEntryIsAccountedFor(b: Bus, steps: seq<Step>, i: nat)
    requires Initial(b)
    requires var r := Runs(b, steps).redis; r.start <= i < |r.log|
    ensures
      var c := Runs(b, steps); var r := c.redis;
      && (i in r.given <==> i in r.acked || InFlight(c, i) || Abandoned(c, i))
      && !(i in r.acked && InFlight(c, i)) && !(i in r.acked && Abandoned(c, i))
      && (i in r.given ==> |r.given[i]| == 1)
      && (i in r.acked ==> i in r.returned)
      && (forall n :: n in c.workers && i in c.workers[n].batch ==> r.given[i] == [n])
      && (i !in r.given <==> Waiting(c, i) || TrimmedUnread(c, i))
      && (Waiting(c, i) ==> NextUnread(r) <= i)
      && (TrimmedUnread(c, i) ==> |r.log| - 1 - i >= 50_000)
  {
    InitialIsOk(b);
    EveryRunKeepsInv(b, steps);
    var c := Runs(b, steps);
    forall n | n in c.workers && i in c.workers[n].batch
      ensures i in c.redis.pending && c.redis.pending[i] == n
    {
      assert WorkerOk(c.redis, n, c.workers[n]);
    }
  }

  /**
   The handlers of one event start at least 60 seconds apart in every interleaving, whatever lock
   commands fail, and those of one entry start at most once; a processing returned as handled
   exactly when they did start.
   */
  lemma HandlerRunsAreSpaced(b: Bus, steps: seq<Step>)
    requires Initial(b)
    ensures
      var r := Runs(b, steps).redis;
      && (forall j, k :: 0 <= j < k < |r.runs| && r.runs[j].event == r.runs[k].event
            ==> r.runs[j].start + 60_000 <= r.runs[k].start)
      && (forall j, k :: 0 <= j < k < |r.runs| ==> r.runs[j].entry != r.runs[k].entry)
      && (forall i :: i in r.returned ==> (r.returned[i] == Handled <==> HasRun(r, i)))
  {
    InitialIsOk(b);
    EveryRunKeepsInv(b, steps);
  }

  /* ----- delivery is at most once ----- */

  /** The steps at which an entry is abandoned. */
  predicate Abandons(b: Bus, s: Step, i: nat) {
    match s
    case Stop(n) => n in b.workers && i in b.workers[n].batch
    case ReadBatch(n, lost) =>
      lost && n in b.workers && b.workers[n].batch == [] && NextUnread(b.redis) <= i < ReadUpTo(b.redis)
    case AckHead(n, reply) =>
      n in b.workers && Holds(b.redis, b.workers[n], Done) && !reply.Works?
      && i in (if reply.FailsBefore? then b.workers[n].batch else b.workers[n].batch[1..])
    case _ => false
  }

  lemma HeldByOne(b: Bus, n: string, m: string, i: nat)
    requires Inv(b) && n in b.workers && m in b.workers && i in b.workers[n].batch && i in b.workers[m].batch
    ensures n == m && i in b.redis.pending && i in b.redis.given && i < b.redis.cursor
  {
    assert WorkerOk(b.redis, n, b.workers[n]) && WorkerOk(b.redis, m, b.workers[m]);
  }

  ghost predicate HeldElsewhere(b: Bus, n: string, i: nat) {
    exists m :: m in b.workers && m != n && i in b.workers[m].batch
  }

  lemma FateAfterUpdate(b: Bus, n: string, next: (Redis, Worker), i: nat)
    requires n in b.workers
    ensures Abandoned(Update(b, n, next), i)
      <==> i in next.0.pending && i !in next.1.batch && !HeldElsewhere(b, n, i)
  {
    var c := Update(b, n, next);
    if m :| m in b.workers && m != n && i in b.workers[m].batch {
      assert i in c.workers[m].batch;
    }
    if i in next.1.batch { assert i in c.workers[n].batch; }
  }

  lemma FateNow(b: Bus, n: string, i: nat)
    requires n in b.workers
    ensures Abandoned(b, i) <==> i in b.redis.pending && i !in b.workers[n].batch && !HeldElsewhere(b, n, i)
  {
    FateAfterUpdate(b, n, (b.redis, b.workers[n]), i);
    assert b.workers[n := b.workers[n]] == b.workers;
  }

  lemma NotInFlightWaiting(b: Bus, i: nat)
    requires Inv(b) && b.redis.cursor <= i
    ensures !InFlight(b, i) && i !in b.redis.pending && i !in b.redis.given
  {
    if n :| n in b.workers && i in b.workers[n].batch { HeldByOne(b, n, n, i); }
  }

  lemma ReadAbandons(b: Bus, n: string, lost: bool, i: nat)
    requires Inv(b) && n in b.workers
    ensures Abandoned(Next(b, ReadBatch(n, lost)), i) <==> Abandoned(b, i) || Abandons(b, ReadBatch(n, lost), i)
  {
    hide RunsOk, WorkerOk, Abandoned;
    var r, w := b.redis, b.workers[n];
    FateNow(b, n, i);
    FateAfterUpdate(b, n, Read(r, w, n, lost), i);
    if NextUnread(r) < |r.log| {
      InRange(NextUnread(r), ReadUpTo(r), i);
    }
    if NextUnread(r) <= i {
      NotInFlightWaiting(b, i);
      assert HeldElsewhere(b, n, i) ==> InFlight(b, i);
    }
  }

  lemma AckAbandons(b: Bus, n: string, reply: Reply, i: nat)
    requires Inv(b) && n in b.workers && Holds(b.redis, b.workers[n], Done)
    ensures Abandoned(Next(b, AckHead(n, reply)), i) <==> Abandoned(b, i) || Abandons(b, AckHead(n, reply), i)
  {
    hide StreamOk, RunsOk, Abandoned, HeldElsewhere;
    var w := b.workers[n];
    FateNow(b, n, i);
    FateAfterUpdate(b, n, Ack(b.redis, w, reply), i);
    assert WorkerOk(b.redis, n, w);
    HeadIsNotInTail(w.batch, i);
    if i in w.batch { HeldHere(b, n, i); }
  }

  lemma HeldHere(b: Bus, n: string, i: nat)
    requires Inv(b) && n in b.workers && i in b.workers[n].batch
    ensures i in b.redis.pending && !HeldElsewhere(b, n, i)
  {
    HeldByOne(b, n, n, i);
    forall m | m in b.workers && i in b.workers[m].batch ensures m == n { HeldByOne(b, n, m, i); }
  }

  lemma HeadIsNotInTail(batch: seq<nat>, i: nat)
    requires batch != [] && forall j, k :: 0 <= j < k < |batch| ==> batch[j] < batch[k]
    ensures i in batch <==> i == batch[0] || i in batch[1..]
    ensures i in batch[1..] ==> i != batch[0]
  {
    assert batch == [batch[0]] + batch[1..];
  }

  /** A step that leaves a worker's batch and the pending list alone abandons nothing. */
  lemma SameBatchesSameFate(b: Bus, c: Bus, i: nat)
    requires b.redis.pending == c.redis.pending
    requires b.workers.Keys == c.workers.Keys && forall n :: n in b.workers ==> b.workers[n].batch == c.workers[n].batch
    ensures Abandoned(c, i) == Abandoned(b, i)
  {
  }

  lemma StopAbandons(b: Bus, n: string, i: nat)
    requires Inv(b)
    ensures Abandoned(Next(b, Stop(n)), i) <==> Abandoned(b, i) || Abandons(b, Stop(n), i)
  {
    hide StreamOk, GroupOk, RunsOk, WorkerOk;
    var c := Next(b, Stop(n));
    if n in b.workers && i in b.workers[n].batch {
      HeldByOne(b, n, n, i);
      forall m | m in c.workers && i in c.workers[m].batch ensures false { HeldByOne(b, n, m, i); }
    } else if InFlight(b, i) {
      var m :| m in b.workers && i in b.workers[m].batch;
      assert m in c.workers && i in c.workers[m].batch;
    }
  }

  /**
   Exactly when an entry is abandoned: its worker stops, an acknowledgement fails while it is in
   the batch, or the reply that carried it is lost. Once abandoned it stays abandoned.
   */
  lemma AbandonedExactlyWhen(b: Bus, s: Step, i: nat)
    requires Inv(b)
    ensures Abandoned(Next(b, s), i) <==> Abandoned(b, i) || Abandons(b, s, i)
  {
    hide Inv, Read, Ack, InFlight, Abandoned;
    match s
    case Start(n, subscribers) =>
      if n !in b.workers { StartAbandons(b, n, subscribers, i); }
    case Stop(n) => StopAbandons(b, n, i);
    case ReadBatch(n, lost) => if n in b.workers { ReadAbandons(b, n, lost, i); }
    case AckHead(n, reply) =>
      if n in b.workers && Holds(b.redis, b.workers[n], Done) { AckAbandons(b, n, reply, i); }
    case _ => SameBatchesSameFate(b, Next(b, s), i);
  }

  lemma StartAbandons(b: Bus, n: string, subscribers: map<string, seq<nat>>, i: nat)
    requires n !in b.workers
    ensures Abandoned(Next(b, Start(n, subscribers)), i) == Abandoned(b, i)
  {
    var c := Next(b, Start(n, subscribers));
    if m :| m in b.workers && i in b.workers[m].batch { assert m in c.workers && i in c.workers[m].batch; }
    if m :| m in c.workers && i in c.workers[m].batch { assert m in b.workers && i in b.workers[m].batch; }
  }

  /** Only the entry a worker holds first can have its handlers started. */
  lemma RunsStartAtHeldHead(b: Bus, s: Step, i: nat)
    requires Inv(b) && HasRun(Next(b, s).redis, i)
    ensures HasRun(b.redis, i) || InFlight(b, i)
  {
    hide StreamOk, GroupOk, RunsOk, WorkerOk, Deliver;
    var r, r' := b.redis, Next(b, s).redis;
    if !(s.BeginHead? && s.worker in b.workers && Holds(r, b.workers[s.worker], AtHead)) {
      assert r'.runs == r.runs by { SameRuns(b, s); }
    } else {
      var w := b.workers[s.worker];
      assert r'.runs == r.runs
        || (r'.runs[..|r.runs|] == r.runs && |r'.runs| == |r.runs| + 1 && r'.runs[|r.runs|].entry == w.batch[0]);
      var k :| 0 <= k < |r'.runs| && r'.runs[k].entry == i;
      if k < |r.runs| {
        assert r.runs[k] == r'.runs[k];
      } else {
        assert i in w.batch;
      }
    }
  }

  lemma SameRuns(b: Bus, s: Step)
    requires !(s.BeginHead? && s.worker in b.workers && Holds(b.redis, b.workers[s.worker], AtHead))
    ensures Next(b, s).redis.runs == b.redis.runs
  {
  }

  /**
   Delivery is at most once, not at least once: an abandoned entry stays pending for ever, is never
   given to a worker again, and its handlers never start if they had not.
   */
  lemma {:induction false} AbandonedForever(b: Bus, steps: seq<Step>, i: nat)
    requires Inv(b) && Abandoned(b, i)
    ensures Abandoned(Runs(b, steps), i) && i !in Runs(b, steps).redis.acked
    ensures HasRun(Runs(b, steps).redis, i) ==> HasRun(b.redis, i)
    decreases |steps|
  {
    hide StreamOk, RunsOk, WorkerOk, Next;
    if steps != [] {
      var c := Next(b, steps[0]);
      StepKeepsInv(b, steps[0]);
      AbandonedExactlyWhen(b, steps[0], i);
      AbandonedForever(c, steps[1..], i);
      if HasRun(c.redis, i) { RunsStartAtHeldHead(b, steps[0], i); }
    }
  }

  /** What a worker holds without having started its handlers is lost when the worker stops. */
  lemma StopLosesWhatIsHeld(b: Bus, n: string, i: nat, later: seq<Step>)
    requires Inv(b) && n in b.workers && i in b.workers[n].batch && !HasRun(b.redis, i)
    ensures
      var c := Runs(Next(b, Stop(n)), later);
      Abandoned(c, i) && i in c.redis.given && i !in c.redis.acked && !HasRun(c.redis, i)
  {
    hide StreamOk, RunsOk, WorkerOk, InFlight, Runs;
    var c := Next(b, Stop(n));
    AbandonedExactlyWhen(b, Stop(n), i);
    StepKeepsInv(b, Stop(n));
    AbandonedForever(c, later, i);
    EveryRunKeepsInv(c, later);
  }

  /* ----- entries whose handlers never start ----- */

  /** The branches in which processing returns without starting handlers. */
  predicate Refuses(r: Redis, w: Worker, reply: Reply)
    requires Holds(r, w, AtHead)
  {
    var p := r.log[w.batch[0]];
    || !p.Event?
    || p.name !in w.subscribers || w.subscribers[p.name] == []
    || !reply.Works?
    || Locked(r, p.id)
  }

  /**
   The steps at which an entry is lost: it is trimmed unread; its processing finds no event, no
   handlers, a failing lock command or a live lock; or it is abandoned before its handlers started.
   */
  ghost predicate Loses(b: Bus, s: Step, i: nat) {
    match s
    case Publish(p, trimTo) =>
      i !in b.redis.given && b.redis.start <= i && b.redis.trimmed <= i < Add(b.redis, p, trimTo).trimmed
    case BeginHead(n, reply) =>
      n in b.workers && Holds(b.redis, b.workers[n], AtHead) && b.workers[n].batch[0] == i
        && Refuses(b.redis, b.workers[n], reply)
    case _ => Abandons(b, s, i) && !HasRun(b.redis, i)
  }

  /** Without a run, and with its processing returned, abandoned or trimmed unread. */
  ghost predicate Lost(b: Bus, i: nat) {
    && !HasRun(b.redis, i)
    && (i in b.redis.returned || Abandoned(b, i) || (b.redis.start <= i && TrimmedUnread(b, i)))
  }

  /** Out of every worker's hands without a run: acknowledged, abandoned or trimmed unread. */
  ghost predicate GoneUnrun(b: Bus, i: nat) {
    && !HasRun(b.redis, i)
    && (i in b.redis.acked || Abandoned(b, i) || (b.redis.start <= i && TrimmedUnread(b, i)))
  }

  ghost predicate LostDuring(b: Bus, steps: seq<Step>, i: nat)
    decreases |steps|
  {
    steps != [] && (Loses(b, steps[0], i) || LostDuring(Next(b, steps[0]), steps[1..], i))
  }

  lemma HeadIsNotLost(b: Bus, n: string)
    requires Inv(b) && n in b.workers && b.workers[n].batch != [] && b.workers[n].phase == AtHead
    ensures !Lost(b, b.workers[n].batch[0])
  {
    hide StreamOk, RunsOk;
    assert WorkerOk(b.redis, n, b.workers[n]);
    HeldIsInFlight(b, n, b.workers[n].batch[0]);
  }

  lemma BeginLoses(b: Bus, n: string, reply: Reply, i: nat)
    requires Inv(b) && n in b.workers && Holds(b.redis, b.workers[n], AtHead)
    ensures Lost(Next(b, BeginHead(n, reply)), i) <==> Lost(b, i) || Loses(b, BeginHead(n, reply), i)
  {
    var c := Next(b, BeginHead(n, reply));
    var w := b.workers[n];
    AbandonedExactlyWhen(b, BeginHead(n, reply), i);
    HeadIsNotLost(b, n);
    BeginReturnsOrRuns(b.redis, w, reply, i);
    HeadHasNotRun(b, n);
    hide Inv, Abandoned, HasRun, Begin;
  }

  lemma HeadHasNotRun(b: Bus, n: string)
    requires Inv(b) && n in b.workers && b.workers[n].batch != [] && b.workers[n].phase == AtHead
    ensures !HasRun(b.redis, b.workers[n].batch[0])
  {
    assert WorkerOk(b.redis, n, b.workers[n]);
    hide StreamOk, GroupOk, RunsOk;
  }

  /** Beginning returns exactly where it refuses, and starts the handlers of its entry otherwise. */
  lemma BeginReturnsOrRuns(r: Redis, w: Worker, reply: Reply, i: nat)
    requires Holds(r, w, AtHead)
    ensures
      var r' := Begin(r, w, reply).0;
      var head := w.batch[0];
      && r'.given == r.given && r'.trimmed == r.trimmed && r'.start == r.start
      && (i in r'.returned <==> i in r.returned || (i == head && Refuses(r, w, reply)))
      && (HasRun(r', i) <==> HasRun(r, i) || (i == head && !Refuses(r, w, reply)))
  {
    var r' := Begin(r, w, reply).0;
    if Refuses(r, w, reply) {
      assert r'.runs == r.runs;
    } else {
      assert r'.runs[|r.runs|].entry == w.batch[0];
      if HasRun(r, i) {
        var k :| 0 <= k < |r.runs| && r.runs[k].entry == i;
        assert r'.runs[k].entry == i;
      }
    }
  }

  lemma FinishLoses(b: Bus, n: string, i: nat)
    requires Inv(b) && n in b.workers && Holds(b.redis, b.workers[n], Running)
    ensures Lost(Next(b, FinishHead(n)), i) <==> Lost(b, i)
  {
    AbandonedExactlyWhen(b, FinishHead(n), i);
    assert WorkerOk(b.redis, n, b.workers[n]);
    hide StreamOk, GroupOk, RunsOk, Abandoned;
  }

  lemma ReadLoses(b: Bus, n: string, lost: bool, i: nat)
    requires Inv(b) && n in b.workers
    ensures Lost(Next(b, ReadBatch(n, lost)), i) <==> Lost(b, i) || Loses(b, ReadBatch(n, lost), i)
  {
    var r, w := b.redis, b.workers[n];
    AbandonedExactlyWhen(b, ReadBatch(n, lost), i);
    if w.batch == [] && NextUnread(r) < |r.log| {
      InRange(NextUnread(r), ReadUpTo(r), i);
    }
    hide Inv, Abandoned, Abandons;
  }

  lemma PublishLoses(b: Bus, p: Payload, trimTo: nat, i: nat)
    requires Inv(b)
    ensures Lost(Next(b, Publish(p, trimTo)), i) <==> Lost(b, i) || Loses(b, Publish(p, trimTo), i)
  {
    AbandonedExactlyWhen(b, Publish(p, trimTo), i);
    NotYetGiven(b, i);
    hide Inv, Abandoned;
  }

  lemma NotYetGiven(b: Bus, i: nat)
    requires Inv(b)
    ensures i !in b.redis.given ==> !HasRun(b.redis, i)
  {
    hide StreamOk, GroupOk, WorkerOk;
  }

  lemma StepLoses(b: Bus, s: Step, i: nat)
    requires Inv(b)
    ensures Lost(Next(b, s), i) <==> Lost(b, i) || Loses(b, s, i)
  {
    match s
    case Publish(p, trimTo) => PublishLoses(b, p, trimTo, i);
    case ReadBatch(n, lost) => if n in b.workers { ReadLoses(b, n, lost, i); }
    case BeginHead(n, reply) =>
      if n in b.workers && Holds(b.redis, b.workers[n], AtHead) { BeginLoses(b, n, reply, i); }
    case FinishHead(n) =>
      if n in b.workers && Holds(b.redis, b.workers[n], Running) { FinishLoses(b, n, i); }
    case _ =>
      AbandonedExactlyWhen(b, s, i);
      hide Inv, Abandoned, Abandons, InFlight;
  }

  lemma {:induction false} RunLoses(b: Bus, steps: seq<Step>, i: nat)
    requires Inv(b)
    ensures Lost(Runs(b, steps), i) <==> Lost(b, i) || LostDuring(b, steps, i)
    decreases |steps|
  {
    hide Inv, Next, Lost, Loses;
    if steps != [] {
      StepKeepsInv(b, steps[0]);
      StepLoses(b, steps[0], i);
      RunLoses(Next(b, steps[0]), steps[1..], i);
    }
  }

  /**
   In every run and for every entry published since the group exists: it is acknowledged, abandoned
   or trimmed unread without a run, or awaits the acknowledgement of such a processing, if and only
   if some step of the run lost it. Then its handlers start in no continuation.
   */
  lemma LostExactlyWhen(b: Bus, steps: seq<Step>, later: seq<Step>, i: nat)
    requires Initial(b) && b.redis.start <= i
    ensures
      var c := Runs(b, steps);
      && (Lost(c, i) <==> LostDuring(b, steps, i))
      && (GoneUnrun(c, i) <==> Lost(c, i) && !InFlight(c, i))
      && (Lost(c, i) ==> Lost(Runs(c, later), i) && !HasRun(Runs(c, later).redis, i))
  {
    InitialIsOk(b);
    RunLoses(b, steps, i);
    EveryRunKeepsInv(b, steps);
    var c := Runs(b, steps);
    assert c.redis.start == b.redis.start by { StartStays(b, steps); }
    RunLoses(c, later, i);
    HeldIsPending(c, i);
    hide Runs, WorkerOk, RunsOk, StreamOk;
  }

  lemma HeldIsPending(b: Bus, i: nat)
    requires Inv(b)
    ensures InFlight(b, i) ==> i in b.redis.pending
  {
    hide StreamOk, GroupOk, RunsOk;
  }

  lemma {:induction false} StartStays(b: Bus, steps: seq<Step>)
    ensures Runs(b, steps).redis.start == b.redis.start
    decreases |steps|
  {
    if steps != [] {
      StepKeepsStart(b, steps[0]);
      hide Next;
      StartStays(Next(b, steps[0]), steps[1..]);
    }
  }

  lemma StepKeepsStart(b: Bus, s: Step)
    ensures Next(b, s).redis.start == b.redis.start
  {
    hide Locked, PendingFor, GivenTo;
  }

  /**
   Not only what a worker held is lost: an event with handlers whose lock command fails, or meets a
   live lock, is acknowledged like any other, is in no pending list, and never runs.
   */
  lemma RefusedEventsAreAcknowledged(b: Bus, n: string, reply: Reply, later: seq<Step>)
    requires Inv(b) && n in b.workers && Holds(b.redis, b.workers[n], AtHead) && Refuses(b.redis, b.workers[n], reply)
    ensures
      var i := b.workers[n].batch[0];
      var c := Next(Next(b, BeginHead(n, reply)), AckHead(n, Works));
      && i in c.redis.acked && i !in c.redis.pending && !Abandoned(c, i)
      && !HasRun(Runs(c, later).redis, i)
  {
    var i := b.workers[n].batch[0];
    var c1 := Next(b, BeginHead(n, reply));
    var c := Next(c1, AckHead(n, Works));
    RefusedThenAcked(b, n, reply);
    hide Inv, Next, Lost, Refuses, Holds;
    StepKeepsInv(b, BeginHead(n, reply));
    StepLoses(b, BeginHead(n, reply), i);
    StepKeepsInv(c1, AckHead(n, Works));
    StepLoses(c1, AckHead(n, Works), i);
    RunLoses(c, later, i);
    LostHasNoRun(Runs(c, later), i);
  }

  lemma RefusedThenAcked(b: Bus, n: string, reply: Reply)
    requires Inv(b) && n in b.workers && Holds(b.redis, b.workers[n], AtHead) && Refuses(b.redis, b.workers[n], reply)
    ensures
      var i := b.workers[n].batch[0];
      var c := Next(Next(b, BeginHead(n, reply)), AckHead(n, Works));
      && Loses(b, BeginHead(n, reply), i)
      && i in c.redis.acked && i !in c.redis.pending
  {
    hide Inv, Locked, Lock;
    LockKeepsLog(b.redis);
  }

  lemma LockKeepsLog(r: Redis)
    ensures forall event :: Lock(r, event).log == r.log && Lock(r, event).pending == r.pending
  {
  }

  lemma LostHasNoRun(b: Bus, i: nat)
    requires Lost(b, i)
    ensures !HasRun(b.redis, i)
  {
  }

  /** An entry at the head of a worker's batch is lost by a stop, and by a failing lock command. */
  lemma HeldIsLostEitherWay(c: Bus, n: string, later: seq<Step>)
    requires Inv(c) && n in c.workers && Holds(c.redis, c.workers[n], AtHead)
    ensures
      var i := c.workers[n].batch[0];
      && InFlight(c, i)
      && (var d := Runs(Next(c, Stop(n)), later); i in d.redis.given && i !in d.redis.acked && !HasRun(d.redis, i))
      && (var d := Next(Next(c, BeginHead(n, FailsBefore)), AckHead(n, Works));
          i in d.redis.acked && i !in d.redis.pending && !Abandoned(d, i) && !HasRun(Runs(d, later).redis, i))
  {
    var i := c.workers[n].batch[0];
    HeldIsInFlight(c, n, i);
    HeadHasNotRun(c, n);
    hide Next, Inv, Runs, InFlight, HasRun, Abandoned;
    StopLosesWhatIsHeld(c, n, i, later);
    RefusedEventsAreAcknowledged(c, n, FailsBefore, later);
  }

  lemma HeldIsInFlight(b: Bus, n: string, i: nat)
    requires n in b.workers && i in b.workers[n].batch
    ensures InFlight(b, i)
  {
  }

  function EmptyBus(): Bus {
    Bus(Redis([], 0, 0, 0, map[], map[], 0, map[], {}, map[], []), map[])
  }

  /** A worker with a handler, one event for it, and the read. */
  function OneEvent(id: string, name: string): seq<Step> {
    [Start("w", map[name := [0]]), Publish(Event(id, name), 0), ReadBatch("w", false)]
  }

  /**
   So at-least-once fails for every event in two ways: it can be published, read and lost with its
   worker, pending for ever; or read, refused by a failing lock command and acknowledged.
   */
  lemma AtLeastOnceFails(id: string, name: string, later: seq<Step>)
    ensures
      var c := Runs(EmptyBus(), OneEvent(id, name));
      && Initial(EmptyBus()) && c.redis.log == [Event(id, name)] && InFlight(c, 0)
      && (var d := Runs(Next(c, Stop("w")), later); 0 in d.redis.given && 0 !in d.redis.acked && !HasRun(d.redis, 0))
      && (var d := Next(Next(c, BeginHead("w", FailsBefore)), AckHead("w", Works));
          0 in d.redis.acked && 0 !in d.redis.pending && !Abandoned(d, 0) && !HasRun(Runs(d, later).redis, 0))
  {
    var c := Runs(EmptyBus(), OneEvent(id, name));
    InitialIsOk(EmptyBus());
    EveryRunKeepsInv(EmptyBus(), OneEvent(id, name));
    OneEventRead(id, name);
    hide Next, Inv, Runs, InFlight, HasRun, Abandoned, OneEvent;
    HeldIsLostEitherWay(c, "w", later);
  }

  lemma OneEventRead(id: string, name: string)
    ensures
      var c := Runs(EmptyBus(), OneEvent(id, name));
      && "w" in c.workers && c.workers["w"] == Worker(map[name := [0]], [0], AtHead)
      && c.redis.log == [Event(id, name)]
  {
    var s1, s2, s3 := Start("w", map[name := [0]]), Publish(Event(id, name), 0), ReadBatch("w", false);
    var b1 := Next(EmptyBus(), s1);
    var b2 := Next(b1, s2);
    assert b2.redis.log == [Event(id, name)] && b2.workers["w"].batch == [];
    InRange(0, 1, 0);
    ThreeSteps(EmptyBus(), s1, s2, s3);
  }

  lemma ThreeSteps(b: Bus, s1: Step, s2: Step, s3: Step)
    ensures Runs(b, [s1, s2, s3]) == Next(Next(Next(b, s1), s2), s3)
  {
    hide Next;
    assert [s1, s2, s3][1..] == [s2, s3] && [s2, s3][1..] == [s3] && [s3][1..] == [];
    assert Runs(Next(Next(b, s1), s2), [s3]) == Next(Next(Next(b, s1), s2), s3);
  }
}
