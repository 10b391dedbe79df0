/**
 What is published and what is started for it: the stream holds the published payloads in their
 order, every start is of the event at its entry, and a worker starts its entries in order.
 */
module EventOrder {
  import opened Wrappers
  import opened EventBus

  /** The payloads published in a run, in order. */
  function Published(steps: seq<Step>): seq<Payload>
    decreases |steps|
  {
    if steps == [] then []
    else (if steps[0].Publish? then [steps[0].payload] else []) + Published(steps[1..])
  }

  lemma StepLog(b: Bus, s: Step)
    ensures Next(b, s).redis.log == b.redis.log + if s.Publish? then [s.payload] else []
  {
    if s.BeginHead? && s.worker in b.workers && Holds(b.redis, b.workers[s.worker], AtHead) {
      BeginKeepsLog(b.redis, b.workers[s.worker], s.reply);
    }
    hide Begin, PendingFor, GivenTo, Range;
  }

  lemma BeginKeepsLog(r: Redis, w: Worker, reply: Reply)
    requires Holds(r, w, AtHead)
    ensures Begin(r, w, reply).0.log == r.log && Begin(r, w, reply).0.given == r.given
  {
    hide Locked;
  }

  /** In every run the stream is what it was, then the payloads published, in their order. */
  lemma {:induction false} LogIsWhatWasPublished(b: Bus, steps: seq<Step>)
    ensures Runs(b, steps).redis.log == b.redis.log + Published(steps)
    decreases |steps|
  {
    hide Next;
    if steps != [] {
      StepLog(b, steps[0]);
      LogIsWhatWasPublished(Next(b, steps[0]), steps[1..]);
    }
  }

  /* ----- every start is of the event at its entry ----- */

  /** Worker n was started with these handlers for events of this name. */
  ghost predicate Subscribed(past: seq<Step>, n: string, name: string, handlers: seq<nat>) {
    exists j :: 0 <= j < |past| && past[j].Start? && past[j].worker == n
      && name in past[j].subscribers && past[j].subscribers[name] == handlers
  }

  ghost predicate StartOfItsEvent(r: Redis, past: seq<Step>, run: Run) {
    && run.entry < |r.log| && r.log[run.entry].Event? && r.log[run.entry].id == run.event
    && run.entry in r.given && |r.given[run.entry]| == 1 && run.handlers != []
    && Subscribed(past, r.given[run.entry][0], r.log[run.entry].name, run.handlers)
  }

  ghost predicate StartsAreOfTheirEvents(r: Redis, past: seq<Step>) {
    forall k :: 0 <= k < |r.runs| ==> StartOfItsEvent(r, past, r.runs[k])
  }

  ghost predicate WorkersAreStarted(b: Bus, past: seq<Step>) {
    forall n, name :: n in b.workers && name in b.workers[n].subscribers ==>
      Subscribed(past, n, name, b.workers[n].subscribers[name])
  }

  /** Nothing that a start depends on is changed by a later step. */
  ghost predicate Extends(r: Redis, r': Redis) {
    && |r.log| <= |r'.log| && r'.log[..|r.log|] == r.log
    && forall i :: i in r.given && i < r.cursor ==> i in r'.given && r'.given[i] == r.given[i]
  }

  lemma DeliverExtends(r: Redis, name: string)
    requires NextUnread(r) < |r.log|
    ensures Extends(r, Deliver(r, name))
  {
    forall i: nat ensures i in Range(NextUnread(r), ReadUpTo(r)) <==> NextUnread(r) <= i < ReadUpTo(r) {
      InRange(NextUnread(r), ReadUpTo(r), i);
    }
  }

  lemma StepExtends(b: Bus, s: Step)
    ensures Extends(b.redis, Next(b, s).redis)
  {
    if s.ReadBatch? && NextUnread(b.redis) < |b.redis.log| { DeliverExtends(b.redis, s.worker); }
    if s.BeginHead? && s.worker in b.workers && Holds(b.redis, b.workers[s.worker], AtHead) {
      BeginKeepsLog(b.redis, b.workers[s.worker], s.reply);
    }
    hide Begin, Deliver;
  }

  lemma StartedLater(past: seq<Step>, s: Step, n: string, name: string, handlers: seq<nat>)
    requires Subscribed(past, n, name, handlers)
    ensures Subscribed(past + [s], n, name, handlers)
  {
    var j :| 0 <= j < |past| && past[j].Start? && past[j].worker == n
      && name in past[j].subscribers && past[j].subscribers[name] == handlers;
    assert (past + [s])[j] == past[j];
  }

  lemma StartStays(r: Redis, r': Redis, past: seq<Step>, s: Step, run: Run)
    requires StartOfItsEvent(r, past, run) && Extends(r, r') && run.entry < r.cursor
    ensures StartOfItsEvent(r', past + [s], run)
  {
    assert r'.log[run.entry] == r.log[run.entry];
    StartedLater(past, s, r.given[run.entry][0], r.log[run.entry].name, run.handlers);
  }

  /** The handlers are started by one step only, and are those its worker has for the event there. */
  lemma StepStarts(b: Bus, s: Step)
    ensures
      var r, r' := b.redis, Next(b, s).redis;
      || r'.runs == r.runs
      || (&& s.BeginHead? && s.worker in b.workers && Holds(r, b.workers[s.worker], AtHead)
          && var w := b.workers[s.worker];
             var p := r.log[w.batch[0]];
             && p.Event? && p.name in w.subscribers && w.subscribers[p.name] != []
             && r'.runs == r.runs + [Run(p.id, w.batch[0], r.now, w.subscribers[p.name])])
  {
    if !(s.BeginHead? && s.worker in b.workers && Holds(b.redis, b.workers[s.worker], AtHead)) { SameRuns(b, s); }
    hide Read, Add, Ack, Locked;
  }

  lemma StepKeepsSubscribers(b: Bus, s: Step, n: string)
    requires n in Next(b, s).workers
    ensures
      || (n in b.workers && Next(b, s).workers[n].subscribers == b.workers[n].subscribers)
      || (s.Start? && s.worker == n && Next(b, s).workers[n].subscribers == s.subscribers)
  {
    hide Deliver, Locked, Lock;
  }

  lemma StepKeepsWorkersStarted(b: Bus, past: seq<Step>, s: Step)
    requires WorkersAreStarted(b, past)
    ensures WorkersAreStarted(Next(b, s), past + [s])
  {
    hide Next, Subscribed;
    var c := Next(b, s);
    forall n, name | n in c.workers && name in c.workers[n].subscribers
      ensures Subscribed(past + [s], n, name, c.workers[n].subscribers[name])
    {
      StepKeepsSubscribers(b, s, n);
      if n in b.workers && c.workers[n].subscribers == b.workers[n].subscribers {
        StartedLater(past, s, n, name, c.workers[n].subscribers[name]);
      } else {
        StartedNow(past, s, n, name);
      }
    }
  }

  lemma StartedNow(past: seq<Step>, s: Step, n: string, name: string)
    requires s.Start? && s.worker == n && name in s.subscribers
    ensures Subscribed(past + [s], n, name, s.subscribers[name])
  {
    assert (past + [s])[|past|] == s;
  }

  lemma StepKeepsStarts(b: Bus, past: seq<Step>, s: Step)
    requires Inv(b) && WorkersAreStarted(b, past) && StartsAreOfTheirEvents(b.redis, past)
    ensures StartsAreOfTheirEvents(Next(b, s).redis, past + [s])
  {
    var r, r' := b.redis, Next(b, s).redis;
    StepExtends(b, s);
    StepStarts(b, s);
    forall k | 0 <= k < |r'.runs| ensures StartOfItsEvent(r', past + [s], r'.runs[k]) {
      if k < |r.runs| {
        assert r'.runs[k] == r.runs[k];
        RunWasGiven(b, k);
        StartStays(r, r', past, s, r.runs[k]);
      } else {
        HeldWasGiven(b, s.worker);
        var n, p := s.worker, r.log[b.workers[s.worker].batch[0]];
        StartedLater(past, s, n, p.name, b.workers[n].subscribers[p.name]);
        assert r'.log[..|r.log|][b.workers[n].batch[0]] == p;
      }
      hide Next, Inv, Subscribed, WorkersAreStarted;
    }
  }

  lemma RunWasGiven(b: Bus, k: nat)
    requires Inv(b) && k < |b.redis.runs|
    ensures b.redis.runs[k].entry < b.redis.cursor
  {
    hide GroupOk, WorkerOk;
  }

  lemma HeldWasGiven(b: Bus, n: string)
    requires Inv(b) && n in b.workers && b.workers[n].batch != []
    ensures
      var i := b.workers[n].batch[0];
      i < |b.redis.log| && i < b.redis.cursor && i in b.redis.given && b.redis.given[i] == [n]
  {
    hide RunsOk;
    assert WorkerOk(b.redis, n, b.workers[n]);
  }

  lemma {:induction false} RunsKeepStarts(b: Bus, past: seq<Step>, steps: seq<Step>)
    requires Inv(b) && WorkersAreStarted(b, past) && StartsAreOfTheirEvents(b.redis, past)
    ensures StartsAreOfTheirEvents(Runs(b, steps).redis, past + steps)
    decreases |steps|
  {
    hide Inv, Next, WorkersAreStarted, StartsAreOfTheirEvents;
    if steps == [] {
      assert past + steps == past;
    } else {
      StepKeepsInv(b, steps[0]);
      StepKeepsWorkersStarted(b, past, steps[0]);
      StepKeepsStarts(b, past, steps[0]);
      RunsKeepStarts(Next(b, steps[0]), past + [steps[0]], steps[1..]);
      assert past + [steps[0]] + steps[1..] == past + steps;
    }
  }

  /**
   In every run, every start is of the event published at its entry, with all the handlers, in their
   order, that the one worker the entry was given to had been started with for that name.
   */
  lemma EveryStartIsOfItsEvent(b: Bus, steps: seq<Step>, k: nat)
    requires Initial(b) && k < |Runs(b, steps).redis.runs|
    ensures
      var r := Runs(b, steps).redis;
      var run := r.runs[k];
      && |b.redis.log| <= run.entry < |b.redis.log| + |Published(steps)|
      && var p := Published(steps)[run.entry - |b.redis.log|];
         && p.Event? && p.id == run.event && run.handlers != []
         && run.entry in r.given && |r.given[run.entry]| == 1
         && Subscribed(steps, r.given[run.entry][0], p.name, run.handlers)
  {
    hide Inv, Subscribed, StartOfItsEvent;
    var r := Runs(b, steps).redis;
    var run := r.runs[k];
    AfterARun(b, steps);
    hide Runs;
    assert StartOfItsEvent(r, steps, run);
    StartWasPublished(b.redis, Published(steps), r, steps, run);
  }

  lemma AfterARun(b: Bus, steps: seq<Step>)
    requires Initial(b)
    ensures Inv(Runs(b, steps)) && StartsAreOfTheirEvents(Runs(b, steps).redis, steps)
    ensures Runs(b, steps).redis.start == |b.redis.log|
    ensures Runs(b, steps).redis.log == b.redis.log + Published(steps)
    ensures StreamOk(Runs(b, steps).redis)
  {
    hide Inv, Next, Published;
    InitialIsOk(b);
    RunsKeepStarts(b, [], steps);
    assert [] + steps == steps;
    EveryRunKeepsInv(b, steps);
    EventBus.StartStays(b, steps);
    LogIsWhatWasPublished(b, steps);
    InvHasStream(Runs(b, steps));
    hide Runs;
  }

  lemma InvHasStream(b: Bus)
    requires Inv(b)
    ensures StreamOk(b.redis)
  {
    hide StreamOk;
  }

  lemma StartWasPublished(before: Redis, published: seq<Payload>, r: Redis, steps: seq<Step>, run: Run)
    requires StreamOk(r) && r.start == |before.log| && r.log == before.log + published
    requires StartOfItsEvent(r, steps, run)
    ensures
      && |before.log| <= run.entry < |before.log| + |published|
      && var p := published[run.entry - |before.log|];
         && p.Event? && p.id == run.event && run.handlers != []
         && run.entry in r.given && |r.given[run.entry]| == 1
         && Subscribed(steps, r.given[run.entry][0], p.name, run.handlers)
  {
    hide Subscribed;
  }

  /* ----- a worker starts its entries in order ----- */

  ghost predicate GivenToWorker(r: Redis, n: string, i: nat) {
    i in r.given && r.given[i] == [n]
  }

  /** What a worker holds lies behind all it has started. */
  ghost predicate Ahead(r: Redis, n: string, w: Worker) {
    forall j :: 0 <= j < |r.runs| && GivenToWorker(r, n, r.runs[j].entry) && w.batch != [] ==>
      r.runs[j].entry < w.batch[0] || (r.runs[j].entry == w.batch[0] && w.phase != AtHead)
  }

  ghost predicate InOrder(r: Redis) {
    forall n, j, k :: 0 <= j < k < |r.runs|
      && GivenToWorker(r, n, r.runs[j].entry) && GivenToWorker(r, n, r.runs[k].entry)
      ==> r.runs[j].entry < r.runs[k].entry
  }

  ghost predicate AllAhead(b: Bus) {
    forall n :: n in b.workers ==> Ahead(b.redis, n, b.workers[n])
  }

  lemma SameGiven(b: Bus, s: Step, n: string, k: nat)
    requires Inv(b) && k < |b.redis.runs| && |b.redis.runs| <= |Next(b, s).redis.runs|
    requires Next(b, s).redis.runs[k] == b.redis.runs[k]
    ensures
      GivenToWorker(Next(b, s).redis, n, b.redis.runs[k].entry) <==> GivenToWorker(b.redis, n, b.redis.runs[k].entry)
  {
    StepExtends(b, s);
    RunWasGiven(b, k);
    RunIsGiven(b, k);
    hide Inv, Next;
  }

  lemma RunIsGiven(b: Bus, k: nat)
    requires Inv(b) && k < |b.redis.runs|
    ensures b.redis.runs[k].entry in b.redis.given
  {
    hide StreamOk, GroupOk, WorkerOk;
  }

  lemma StepKeepsInOrder(b: Bus, s: Step)
    requires Inv(b) && AllAhead(b) && InOrder(b.redis)
    ensures InOrder(Next(b, s).redis)
  {
    var r, r' := b.redis, Next(b, s).redis;
    StepStarts(b, s);
    forall n, j, k | 0 <= j < k < |r'.runs|
      && GivenToWorker(r', n, r'.runs[j].entry) && GivenToWorker(r', n, r'.runs[k].entry)
      ensures r'.runs[j].entry < r'.runs[k].entry
    {
      assert r'.runs[j] == r.runs[j];
      SameGiven(b, s, n, j);
      if k < |r.runs| {
        assert r'.runs[k] == r.runs[k];
        SameGiven(b, s, n, k);
      } else {
        HeldWasGiven(b, s.worker);
        StepExtends(b, s);
        assert n == s.worker;
      }
      hide Next, Inv;
    }
  }

  /** A worker that a step leaves alone, that goes on with its entry, that drops entries or reads new ones. */
  lemma StepBatch(b: Bus, s: Step, n: string)
    requires Inv(b) && n in Next(b, s).workers && Next(b, s).workers[n].batch != []
    ensures
      var w' := Next(b, s).workers[n];
      || b.redis.cursor <= w'.batch[0]
      || (n in b.workers && b.workers[n].batch != []
          && var w := b.workers[n];
             || (w'.batch[0] > w.batch[0] && (s.AckHead? && s.worker == n))
             || (w'.batch == w.batch && (w'.phase == AtHead ==> w.phase == AtHead)
                 && (s.BeginHead? && s.worker == n && Holds(b.redis, w, AtHead) ==> w'.phase != AtHead)))
  {
    hide Inv, Begin, Deliver, Add;
    if s.AckHead? && n in b.workers { TailIsAhead(b, n); }
    if s.BeginHead? && s.worker in b.workers && Holds(b.redis, b.workers[s.worker], AtHead) {
      BeginGoesOn(b.redis, b.workers[s.worker], s.reply);
    }
  }

  lemma BeginGoesOn(r: Redis, w: Worker, reply: Reply)
    requires Holds(r, w, AtHead)
    ensures Begin(r, w, reply).1.batch == w.batch && Begin(r, w, reply).1.phase != AtHead
  {
    hide Locked, Lock;
  }

  lemma TailIsAhead(b: Bus, n: string)
    requires Inv(b) && n in b.workers
    ensures forall k :: 0 < k < |b.workers[n].batch| ==> b.workers[n].batch[0] < b.workers[n].batch[k]
  {
    assert WorkerOk(b.redis, n, b.workers[n]);
    hide StreamOk, GroupOk, RunsOk;
  }

  lemma StepKeepsAhead(b: Bus, s: Step, n: string)
    requires Inv(b) && AllAhead(b) && n in Next(b, s).workers
    ensures Ahead(Next(b, s).redis, n, Next(b, s).workers[n])
  {
    var r, r', w' := b.redis, Next(b, s).redis, Next(b, s).workers[n];
    StepStarts(b, s);
    forall j | 0 <= j < |r'.runs| && GivenToWorker(r', n, r'.runs[j].entry) && w'.batch != []
      ensures r'.runs[j].entry < w'.batch[0] || (r'.runs[j].entry == w'.batch[0] && w'.phase != AtHead)
    {
      StepBatch(b, s, n);
      if j < |r.runs| {
        assert r'.runs[j] == r.runs[j];
        RunWasGiven(b, j);
        SameGiven(b, s, n, j);
      } else {
        HeldWasGiven(b, s.worker);
        StepExtends(b, s);
      }
      hide Next, Inv;
    }
  }

  lemma {:induction false} RunsKeepOrder(b: Bus, steps: seq<Step>)
    requires Inv(b) && AllAhead(b) && InOrder(b.redis)
    ensures InOrder(Runs(b, steps).redis)
    decreases |steps|
  {
    hide Inv, Next, InOrder, Ahead;
    if steps != [] {
      StepKeepsInv(b, steps[0]);
      StepKeepsInOrder(b, steps[0]);
      var c := Next(b, steps[0]);
      forall n | n in c.workers ensures Ahead(c.redis, n, c.workers[n]) { StepKeepsAhead(b, steps[0], n); }
      RunsKeepOrder(c, steps[1..]);
    }
  }

  /** In every run, whatever fails, the entries given to one worker start in the order they were published. */
  lemma EachWorkerStartsInOrder(b: Bus, steps: seq<Step>, n: string, j: nat, k: nat)
    requires Initial(b) && j < k < |Runs(b, steps).redis.runs|
    requires
      var r := Runs(b, steps).redis;
      && r.runs[j].entry in r.given && r.given[r.runs[j].entry] == [n]
      && r.runs[k].entry in r.given && r.given[r.runs[k].entry] == [n]
    ensures Runs(b, steps).redis.runs[j].entry < Runs(b, steps).redis.runs[k].entry
  {
    InitialIsOk(b);
    RunsKeepOrder(b, steps);
    var r := Runs(b, steps).redis;
    assert GivenToWorker(r, n, r.runs[j].entry) && GivenToWorker(r, n, r.runs[k].entry);
    hide Runs, Inv;
  }

  /* ----- a worker alone, whose commands work, serves everything in order ----- */

  /** No other worker comes, nobody stops, and every command works. */
  predicate Smooth(s: Step) {
    match s
    case Start(_, _) => false
    case Stop(_) => false
    case ReadBatch(_, lost) => !lost
    case BeginHead(_, reply) => reply.Works?
    case AckHead(_, reply) => reply.Works?
    case _ => true
  }

  /** Events of different ids, each with handlers. */
  predicate Servable(published: seq<Payload>, subscribers: map<string, seq<nat>>) {
    && (forall i :: 0 <= i < |published| ==>
          published[i].Event? && published[i].name in subscribers && subscribers[published[i].name] != [])
    && (forall i, j :: 0 <= i < j < |published| ==> published[i].id != published[j].id)
  }

  /** A start of the event at this entry, with the handlers for it. */
  predicate InItsTurn(log: seq<Payload>, i: nat, run: Run, subscribers: map<string, seq<nat>>) {
    && i < |log| && log[i].Event? && log[i].name in subscribers
    && run.entry == i && run.event == log[i].id && run.handlers == subscribers[log[i].name]
  }

  /** The first events published have been started, one after the other, each at its own entry. */
  ghost predicate StartedSoFar(r: Redis, subscribers: map<string, seq<nat>>) {
    forall k :: 0 <= k < |r.runs| ==> InItsTurn(r.log, r.start + k, r.runs[k], subscribers)
  }

  /** How many entries are finished with: all that were started, but the one the worker is at. */
  function Finished(r: Redis, w: Worker): int {
    |r.runs| - (if w.phase == AtHead then 0 else 1)
  }

  ghost predicate Serving(r: Redis, w: Worker, subscribers: map<string, seq<nat>>) {
    && w.subscribers == subscribers && (w.batch == [] ==> w.phase == AtHead)
    && r.trimmed <= r.start && 0 <= Finished(r, w)
    && r.start + Finished(r, w) <= r.cursor <= |r.log|
    && w.batch == Range(r.start + Finished(r, w), r.cursor)
    && Servable(r.log[r.start..], subscribers)
    && StartedSoFar(r, subscribers)
    && (forall id :: id in r.locks ==> exists k :: 0 <= k < |r.runs| && r.runs[k].event == id)
    && (forall i :: i in r.acked <==> r.start <= i < r.start + Finished(r, w))
  }

  lemma FreshIdIsFree(r: Redis, w: Worker, subscribers: map<string, seq<nat>>)
    requires Serving(r, w, subscribers) && Holds(r, w, AtHead)
    ensures
      var i := w.batch[0];
      && i == r.start + |r.runs| && r.log[i].Event? && r.log[i].name in subscribers && subscribers[r.log[i].name] != []
      && r.log[i].id !in r.locks
  {
    var i := w.batch[0];
    assert r.log[r.start..][i - r.start] == r.log[i];
    forall k | 0 <= k < |r.runs| ensures r.runs[k].event != r.log[i].id {
      assert r.log[r.start..][k] == r.log[r.start + k];
    }
  }

  lemma BeginServes(r: Redis, w: Worker, subscribers: map<string, seq<nat>>)
    requires Serving(r, w, subscribers) && Holds(r, w, AtHead)
    ensures var next := Begin(r, w, Works); Serving(next.0, next.1, subscribers) && next.1.phase == Running
    ensures Begin(r, w, Works).0.log == r.log
    ensures |Begin(r, w, Works).0.runs| == |r.runs| + 1
  {
    FreshIdIsFree(r, w, subscribers);
    var (r', w') := Begin(r, w, Works);
    var p := r.log[w.batch[0]];
    assert r'.runs == r.runs + [Run(p.id, w.batch[0], r.now, subscribers[p.name])];
    forall id | id in r'.locks ensures exists k :: 0 <= k < |r'.runs| && r'.runs[k].event == id {
      if id == p.id {
        assert r'.runs[|r.runs|].event == id;
      } else {
        var k :| 0 <= k < |r.runs| && r.runs[k].event == id;
        assert r'.runs[k].event == id;
      }
    }
    hide Servable;
  }

  lemma ReadServes(r: Redis, w: Worker, name: string, subscribers: map<string, seq<nat>>)
    requires Serving(r, w, subscribers)
    ensures var next := Read(r, w, name, false); Serving(next.0, next.1, subscribers) && next.0.log == r.log
    ensures w.batch == [] && r.cursor < |r.log| ==> Read(r, w, name, false).1.batch != []
    ensures Read(r, w, name, false).0.runs == r.runs
  {
    if w.batch == [] && r.cursor < |r.log| {
      var (r', w') := Read(r, w, name, false);
      assert r.start + Finished(r, w) == r.cursor == NextUnread(r);
      assert r' == r.(cursor := r'.cursor, pending := r'.pending, given := r'.given);
      hide Read, Deliver;
      assert w'.batch == Range(r.start + Finished(r', w'), r'.cursor);
      NewBatchServes(r, r', w, w', subscribers);
    }
  }

  lemma NewBatchServes(r: Redis, r': Redis, w: Worker, w': Worker, subscribers: map<string, seq<nat>>)
    requires Serving(r, w, subscribers) && w.batch == []
    requires r' == r.(cursor := r'.cursor, pending := r'.pending, given := r'.given)
    requires r.cursor <= r'.cursor <= |r.log| && w' == w.(batch := Range(r.cursor, r'.cursor), phase := AtHead)
    requires r.start + Finished(r, w) == r.cursor
    ensures Serving(r', w', subscribers)
  {
    hide Servable, Range;
    SameStarts(r, r', subscribers);
    hide StartedSoFar;
  }

  lemma SameStarts(r: Redis, r': Redis, subscribers: map<string, seq<nat>>)
    requires StartedSoFar(r, subscribers) && r'.log == r.log && r'.runs == r.runs && r'.start == r.start
    ensures StartedSoFar(r', subscribers)
  {
    hide InItsTurn;
  }

  lemma AckServes(r: Redis, w: Worker, subscribers: map<string, seq<nat>>)
    requires Serving(r, w, subscribers) && Holds(r, w, Done)
    ensures var next := Ack(r, w, Works); Serving(next.0, next.1, subscribers) && next.0.log == r.log
    ensures Ack(r, w, Works).1.phase == AtHead && Ack(r, w, Works).0.runs == r.runs
  {
    var (r', w') := Ack(r, w, Works);
    assert w'.batch == Range(r.start + |r.runs|, r.cursor);
    hide Servable;
  }

  lemma PublishServes(r: Redis, w: Worker, p: Payload, trimTo: nat, subscribers: map<string, seq<nat>>)
    requires Serving(r, w, subscribers) && Servable(r.log[r.start..] + [p], subscribers) && |r.log| < 50_000
    ensures Serving(Add(r, p, trimTo), w, subscribers)
  {
    assert Add(r, p, trimTo).log[r.start..] == r.log[r.start..] + [p];
    hide Servable;
  }

  ghost predicate ServingAlone(b: Bus, n: string, subscribers: map<string, seq<nat>>) {
    b.workers.Keys == {n} && Serving(b.redis, b.workers[n], subscribers)
  }

  lemma StepServes(b: Bus, s: Step, n: string, subscribers: map<string, seq<nat>>)
    requires ServingAlone(b, n, subscribers) && Smooth(s)
    requires s.Publish? ==> Servable(b.redis.log[b.redis.start..] + [s.payload], subscribers) && |b.redis.log| < 50_000
    ensures ServingAlone(Next(b, s), n, subscribers)
  {
    hide Serving, Add, Begin, Read, Ack, Servable;
    var r, w := b.redis, b.workers[n];
    match s
    case Publish(p, trimTo) => PublishServes(r, w, p, trimTo, subscribers);
    case Tick(ms) => TickServes(r, w, ms, subscribers);
    case ReadBatch(m, lost) => if m == n { ReadServes(r, w, n, subscribers); }
    case BeginHead(m, reply) => if m == n && Holds(r, w, AtHead) { BeginServes(r, w, subscribers); }
    case FinishHead(m) => if m == n && Holds(r, w, Running) { FinishServes(r, w, subscribers); }
    case AckHead(m, reply) => if m == n && Holds(r, w, Done) { AckServes(r, w, subscribers); }
  }

  lemma TickServes(r: Redis, w: Worker, ms: nat, subscribers: map<string, seq<nat>>)
    requires Serving(r, w, subscribers)
    ensures Serving(r.(now := r.now + ms), w, subscribers)
  {
  }

  lemma FinishServes(r: Redis, w: Worker, subscribers: map<string, seq<nat>>)
    requires Serving(r, w, subscribers) && Holds(r, w, Running)
    ensures var next := Finish(r, w); Serving(next.0, next.1, subscribers) && next.1.phase == Done
    ensures Finish(r, w).0.log == r.log && Finish(r, w).0.runs == r.runs && Finish(r, w).1.batch == w.batch
  {
  }

  lemma {:induction false} RunServes(b: Bus, steps: seq<Step>, n: string, subscribers: map<string, seq<nat>>)
    requires ServingAlone(b, n, subscribers) && b.redis.start <= |b.redis.log|
    requires forall s :: s in steps ==> Smooth(s)
    requires Servable(b.redis.log[b.redis.start..] + Published(steps), subscribers)
    requires |b.redis.log| + |Published(steps)| <= 50_000
    ensures ServingAlone(Runs(b, steps), n, subscribers)
    decreases |steps|
  {
    hide Next, ServingAlone, Smooth, Servable;
    if steps != [] {
      var s, c := steps[0], Next(b, steps[0]);
      ServablePart(b, steps, subscribers);
      StepServes(b, s, n, subscribers);
      StepLog(b, s);
      StepKeepsStart(b, s);
      assert c.redis.log[c.redis.start..] + Published(steps[1..]) == b.redis.log[b.redis.start..] + Published(steps);
      RunServes(c, steps[1..], n, subscribers);
    }
  }

  lemma ServablePart(b: Bus, steps: seq<Step>, subscribers: map<string, seq<nat>>)
    requires steps != [] && b.redis.start <= |b.redis.log|
    requires Servable(b.redis.log[b.redis.start..] + Published(steps), subscribers)
    ensures steps[0].Publish? ==> Servable(b.redis.log[b.redis.start..] + [steps[0].payload], subscribers)
  {
    var waiting := b.redis.log[b.redis.start..];
    if steps[0].Publish? {
      assert (waiting + Published(steps))[..|waiting| + 1] == waiting + [steps[0].payload];
    }
  }

  /** The first of the events published are started, and of these all are acknowledged but the one in work. */
  ghost predicate ServedInOrder(c: Bus, base: nat, published: seq<Payload>, n: string,
          subscribers: map<string, seq<nat>>)
    requires Servable(published, subscribers)
  {
    var r := c.redis;
    && |r.runs| <= |published|
    && (forall k :: 0 <= k < |r.runs| ==>
          && r.runs[k].event == published[k].id && r.runs[k].entry == base + k
          && r.runs[k].handlers == subscribers[published[k].name])
    && c.workers.Keys == {n}
    && (forall i :: i in r.acked <==>
          base <= i < base + |r.runs| - if c.workers[n].phase == AtHead then 0 else 1)
    && (c.workers[n].batch == [] && r.cursor == |r.log| ==>
          |r.runs| == |published| && forall i :: i in r.acked <==> base <= i < base + |published|)
  }

  /**
   A worker that has the stream to itself starts the events published, of different ids and with
   handlers, one after the other in the order published, each at its own entry and with all its
   handlers; it acknowledges each before it starts the next; and once it is idle with nothing left to
   read, every event published has been started and acknowledged.
   */
  lemma AloneServesInOrder(b: Bus, n: string, subscribers: map<string, seq<nat>>, steps: seq<Step>)
    requires Initial(b) && (forall s :: s in steps ==> Smooth(s))
    requires Servable(Published(steps), subscribers) && |b.redis.log| + |Published(steps)| <= 50_000
    ensures ServedInOrder(Runs(b, [Start(n, subscribers)] + steps), |b.redis.log|, Published(steps), n, subscribers)
  {
    var first := Start(n, subscribers);
    var c := Next(b, first);
    assert ([first] + steps)[1..] == steps;
    assert ServingAlone(c, n, subscribers);
    assert c.redis == b.redis && b.redis.log[b.redis.start..] + Published(steps) == Published(steps);
    hide Next, Servable, Smooth, Initial, Serving;
    assert b.redis.start == |b.redis.log| by { StartOfInitial(b); }
    RunServes(c, steps, n, subscribers);
    LogIsWhatWasPublished(c, steps);
    EventBus.StartStays(c, steps);
    assert Runs(b, [first] + steps) == Runs(c, steps);
    hide Runs;
    ServedFacts(Runs(c, steps), b.redis.log, Published(steps), n, subscribers);
  }

  lemma StartOfInitial(b: Bus)
    requires Initial(b)
    ensures b.redis.start == |b.redis.log|
  {
  }

  lemma ServedFacts(c: Bus, before: seq<Payload>, published: seq<Payload>, n: string,
          subscribers: map<string, seq<nat>>)
    requires ServingAlone(c, n, subscribers)
    requires c.redis.start == |before| && c.redis.log == before + published && Servable(published, subscribers)
    ensures ServedInOrder(c, |before|, published, n, subscribers)
  {
    hide Servable, Range;
    var r := c.redis;
    BatchIsTheRest(r, c.workers[n], subscribers);
    forall k | 0 <= k < |r.runs|
      ensures
        && r.runs[k].event == published[k].id && r.runs[k].entry == |before| + k
        && r.runs[k].handlers == subscribers[published[k].name]
    {
      StartedIsPublished(r, before, published, k, subscribers);
    }
    hide StartedSoFar;
  }

  lemma StartedIsPublished(r: Redis, before: seq<Payload>, published: seq<Payload>, k: nat,
          subscribers: map<string, seq<nat>>)
    requires StartedSoFar(r, subscribers) && r.start == |before| && r.log == before + published && k < |r.runs|
    requires k < |published|
    ensures InItsTurn(published, k, r.runs[k].(entry := k), subscribers) && r.runs[k].entry == |before| + k
  {
    assert InItsTurn(r.log, r.start + k, r.runs[k], subscribers);
    assert r.log[r.start + k] == published[k];
  }

  lemma BatchIsTheRest(r: Redis, w: Worker, subscribers: map<string, seq<nat>>)
    requires Serving(r, w, subscribers)
    ensures |w.batch| == r.cursor - r.start - Finished(r, w) && |r.runs| <= |r.log| - r.start
  {
    hide StartedSoFar, Servable;
    if |r.runs| > 0 { assert w.phase == AtHead || w.batch != []; }
  }

  /** And it gets there: from wherever such a worker is, some steps of its own leave nothing to do. */
  lemma {:induction false} WorkCanBeFinished(b: Bus, n: string, subscribers: map<string, seq<nat>>)
    returns (steps: seq<Step>)
    requires ServingAlone(b, n, subscribers)
    ensures (forall s :: s in steps ==> Smooth(s)) && Published(steps) == []
    ensures
      var c := Runs(b, steps);
      && ServingAlone(c, n, subscribers)
      && c.workers[n].batch == [] && c.redis.cursor == |c.redis.log| && c.redis.log == b.redis.log
    decreases |b.redis.log| - |b.redis.runs|, Remaining(b.redis, b.workers[n])
  {
    var r, w := b.redis, b.workers[n];
    if w.batch == [] && r.cursor == |r.log| { return []; }
    var s := NextStep(r, w, n);
    OneStepOn(b, n, subscribers);
    var rest := WorkCanBeFinished(Next(b, s), n, subscribers);
    steps := [s] + rest;
    assert steps[1..] == rest;
    hide Next, Serving;
  }

  function NextStep(r: Redis, w: Worker, n: string): Step {
    if w.batch == [] then ReadBatch(n, false)
    else if w.phase == AtHead then BeginHead(n, Works)
    else if w.phase == Running then FinishHead(n)
    else AckHead(n, Works)
  }

  function Remaining(r: Redis, w: Worker): nat {
    if w.phase == Running then 3 else if w.phase == Done then 2 else if w.batch == [] then 1 else 0
  }

  lemma OneStepOn(b: Bus, n: string, subscribers: map<string, seq<nat>>)
    requires ServingAlone(b, n, subscribers) && !(b.workers[n].batch == [] && b.redis.cursor == |b.redis.log|)
    ensures
      var s := NextStep(b.redis, b.workers[n], n);
      var c := Next(b, s);
      && Smooth(s) && !s.Publish? && ServingAlone(c, n, subscribers) && c.redis.log == b.redis.log
      && |b.redis.runs| <= |c.redis.runs|
      && (|c.redis.runs| == |b.redis.runs| ==>
            Remaining(c.redis, c.workers[n]) < Remaining(b.redis, b.workers[n]))
  {
    var r, w := b.redis, b.workers[n];
    StepServes(b, NextStep(r, w, n), n, subscribers);
    StepLog(b, NextStep(r, w, n));
    if w.batch == [] {
      ReadServes(r, w, n, subscribers);
    } else if w.phase == AtHead {
      BeginServes(r, w, subscribers);
    } else if w.phase == Running {
      FinishServes(r, w, subscribers);
    } else {
      AckServes(r, w, subscribers);
    }
    hide Read, Begin, Finish, Ack, Servable;
  }

  /* ----- two workers ----- */

  /**
   Two workers may start in the other order: one reads the first event, the other reads and starts the
   second before the first is started.
   */
  lemma TwoWorkersStartOutOfOrder(first: string, second: string, name: string)
    requires first != second
    ensures exists steps ::
      && Published(steps) == [Event(first, name), Event(second, name)]
      && Runs(EmptyBus(), steps).redis.runs == [Run(second, 1, 0, [0]), Run(first, 0, 0, [0])]
  {
    var steps, c := TwoHoldOneEach(first, second, name);
    EitherMayStartFirst(c, "w", "v", second, first, name);
    var s7, s8 := BeginHead("w", Works), BeginHead("v", Works);
    PublishedAppends(steps, [s7, s8]);
    RunsAppends(EmptyBus(), steps, [s7, s8]);
    assert [s7, s8][1..] == [s8];
    assert Published([s7, s8]) == [] && Runs(c, [s7, s8]) == Next(Next(c, s7), s8) by {
      hide Next;
      assert Published([s8]) == [] && Runs(Next(c, s7), [s8]) == Next(Next(c, s7), s8);
    }
    hide *;
    assert Published(steps + [s7, s8]) == [Event(first, name), Event(second, name)];
  }

  lemma {:induction false} PublishedAppends(s: seq<Step>, t: seq<Step>)
    ensures Published(s + t) == Published(s) + Published(t)
    decreases |s|
  {
    if s == [] {
      assert s + t == t;
    } else {
      assert (s + t)[1..] == s[1..] + t;
      PublishedAppends(s[1..], t);
    }
  }

  lemma {:induction false} RunsAppends(b: Bus, s: seq<Step>, t: seq<Step>)
    ensures Runs(b, s + t) == Runs(Runs(b, s), t)
    decreases |s|
  {
    hide Next;
    if s == [] {
      assert s + t == t;
    } else {
      assert (s + t)[1..] == s[1..] + t;
      RunsAppends(Next(b, s[0]), s[1..], t);
    }
  }

  lemma TwoHoldOneEach(first: string, second: string, name: string) returns (steps: seq<Step>, c: Bus)
    ensures c == Runs(EmptyBus(), steps) && Published(steps) == [Event(first, name), Event(second, name)]
    ensures c.redis.log == [Event(first, name), Event(second, name)]
    ensures c.redis.runs == [] && c.redis.locks == map[] && c.redis.now == 0
    ensures "v" in c.workers && c.workers["v"] == Worker(map[name := [0]], [0], AtHead)
    ensures "w" in c.workers && c.workers["w"] == Worker(map[name := [0]], [1], AtHead)
  {
    var handlers := map[name := [0]];
    var s1, s2, s3 := Start("v", handlers), Start("w", handlers), Publish(Event(first, name), 0);
    var s4, s5, s6 := ReadBatch("v", false), Publish(Event(second, name), 0), ReadBatch("w", false);
    var b3 := FirstPublished(s1, s2, s3);
    c := BothRead(b3, s4, s5, s6);
    steps := [s1, s2, s3] + [s4, s5, s6];
    RunsAppends(EmptyBus(), [s1, s2, s3], [s4, s5, s6]);
    PublishedAppends([s1, s2, s3], [s4, s5, s6]);
    hide Runs;
    PublishedOfThree(s1, s2, s3);
    PublishedOfThree(s4, s5, s6);
  }

  lemma PublishedOfThree(s1: Step, s2: Step, s3: Step)
    ensures Published([s1, s2, s3]) == Published([s1]) + Published([s2]) + Published([s3])
  {
    PublishedAppends([s1], [s2, s3]);
    PublishedAppends([s2], [s3]);
    assert [s1, s2, s3] == [s1] + [s2, s3] && [s2, s3] == [s2] + [s3];
  }

  lemma FirstPublished(s1: Step, s2: Step, s3: Step) returns (b: Bus)
    requires s1.Start? && s2.Start? && s1.worker != s2.worker && s3.Publish?
    ensures b == Runs(EmptyBus(), [s1, s2, s3])
    ensures b.redis == EmptyBus().redis.(log := [s3.payload])
    ensures b.workers == map[s1.worker := Worker(s1.subscribers, [], AtHead),
                             s2.worker := Worker(s2.subscribers, [], AtHead)]
  {
    ThreeSteps(EmptyBus(), s1, s2, s3);
    b := Next(Next(Next(EmptyBus(), s1), s2), s3);
    hide Runs;
  }

  lemma BothRead(b: Bus, s4: Step, s5: Step, s6: Step) returns (c: Bus)
    requires |b.redis.log| == 1 && b.redis.cursor == 0 && b.redis.trimmed == 0
    requires s4.ReadBatch? && s5.Publish? && s6.ReadBatch? && s4.worker != s6.worker && !s4.lost && !s6.lost
    requires s4.worker in b.workers && b.workers[s4.worker].batch == []
    requires s6.worker in b.workers && b.workers[s6.worker].batch == []
    ensures c == Runs(b, [s4, s5, s6])
    ensures c.redis.log == b.redis.log + [s5.payload]
    ensures c.redis.runs == b.redis.runs && c.redis.locks == b.redis.locks && c.redis.now == b.redis.now
    ensures s4.worker in c.workers && c.workers[s4.worker] == Worker(b.workers[s4.worker].subscribers, [0], AtHead)
    ensures s6.worker in c.workers && c.workers[s6.worker] == Worker(b.workers[s6.worker].subscribers, [1], AtHead)
  {
    ThreeSteps(b, s4, s5, s6);
    hide Runs, GivenTo, PendingFor;
    var b4 := Next(b, s4);
    assert b4.workers[s4.worker].batch == [0] && b4.redis.cursor == 1;
    var b5 := Next(b4, s5);
    c := Next(b5, s6);
    assert c.workers[s6.worker].batch == [1];
  }

  lemma EitherMayStartFirst(b: Bus, n: string, m: string, id: string, other: string, name: string)
    requires n in b.workers && m in b.workers && n != m && id != other
    requires Holds(b.redis, b.workers[n], AtHead) && Holds(b.redis, b.workers[m], AtHead)
    requires b.redis.log[b.workers[n].batch[0]] == Event(id, name)
    requires b.redis.log[b.workers[m].batch[0]] == Event(other, name)
    requires name in b.workers[n].subscribers && b.workers[n].subscribers[name] != []
    requires name in b.workers[m].subscribers && b.workers[m].subscribers[name] != []
    requires id !in b.redis.locks && other !in b.redis.locks
    ensures
      Next(Next(b, BeginHead(n, Works)), BeginHead(m, Works)).redis.runs == b.redis.runs
        + [Run(id, b.workers[n].batch[0], b.redis.now, b.workers[n].subscribers[name]),
           Run(other, b.workers[m].batch[0], b.redis.now, b.workers[m].subscribers[name])]
  {
    var c := Next(b, BeginHead(n, Works));
    assert c.redis.log == b.redis.log && c.workers[m] == b.workers[m] && !Locked(c.redis, other);
  }

  /* ----- one event twice ----- */

  /**
   The lock of an event is taken for a minute by the processing of an entry that has handlers, unless one is
   alive or the command fails before it has taken effect; nothing else touches a lock.
   */
  lemma LocksAreTaken(b: Bus, s: Step)
    ensures
      var r, r' := b.redis, Next(b, s).redis;
      if s.BeginHead? && s.worker in b.workers && Holds(r, b.workers[s.worker], AtHead) && !s.reply.FailsBefore?
        && r.log[b.workers[s.worker].batch[0]].Event? && HasHandlers(b.workers[s.worker], r)
        && !Locked(r, r.log[b.workers[s.worker].batch[0]].id)
      then r'.locks == r.locks[r.log[b.workers[s.worker].batch[0]].id := r.now + 60_000]
      else r'.locks == r.locks
  {
    if !(s.BeginHead? && s.worker in b.workers && Holds(b.redis, b.workers[s.worker], AtHead)) { SameLocks(b, s); }
    hide Read, Add, Ack, Locked;
  }

  lemma SameLocks(b: Bus, s: Step)
    requires !(s.BeginHead? && s.worker in b.workers && Holds(b.redis, b.workers[s.worker], AtHead))
    ensures Next(b, s).redis.locks == b.redis.locks
  {
  }

  /** Its handlers for the event of the entry it holds first. */
  predicate HasHandlers(w: Worker, r: Redis)
    requires w.batch != [] && w.batch[0] < |r.log| && r.log[w.batch[0]].Event?
  {
    r.log[w.batch[0]].name in w.subscribers && w.subscribers[r.log[w.batch[0]].name] != []
  }

  /** Of two entries of one event, the second is started too exactly if a minute lies between. */
  lemma SecondEntryStartsIff(b: Bus, n: string, m: string, ms: nat, id: string, x: string, y: string)
    requires n in b.workers && m in b.workers && n != m && Holds(b.redis, b.workers[n], AtHead)
    requires Holds(b.redis, b.workers[m], AtHead)
    requires b.redis.log[b.workers[n].batch[0]] == Event(id, x) && b.redis.log[b.workers[m].batch[0]] == Event(id, y)
    requires x in b.workers[n].subscribers && b.workers[n].subscribers[x] != []
    requires y in b.workers[m].subscribers && b.workers[m].subscribers[y] != []
    requires id !in b.redis.locks
    ensures
      var c := Next(Next(Next(b, BeginHead(n, Works)), Tick(ms)), BeginHead(m, Works));
      c.redis.runs == b.redis.runs
        + [Run(id, b.workers[n].batch[0], b.redis.now, b.workers[n].subscribers[x])]
        + if ms >= 60_000 then [Run(id, b.workers[m].batch[0], b.redis.now + ms, b.workers[m].subscribers[y])] else []
  {
    var b1 := Next(b, BeginHead(n, Works));
    assert b1.redis.locks[id] == b.redis.now + 60_000 && b1.redis.log == b.redis.log && b1.workers[m] == b.workers[m];
    var b2 := Next(b1, Tick(ms));
    assert Locked(b2.redis, id) <==> ms < 60_000;
  }
}
