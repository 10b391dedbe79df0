/**
 The listener of the event bus as it runs: the Redis stream and the worker as objects
 updated in place, each command proved to be the atomic step of module EventBus.
 */
module EventBusListener {
  import opened Wrappers
  import opened EventBus

  /** The server side. The ghost fields record what has happened so far. */
  class Stream {
    var log: seq<Payload>
    var trimmed: nat
    var cursor: nat
    var pending: map<nat, string>
    var locks: map<string, nat>
    var now: nat
    ghost var start: nat
    ghost var given: map<nat, seq<string>>
    ghost var acked: set<nat>
    ghost var returned: map<nat, Outcome>
    ghost var runs: seq<Run>

    ghost function State(): Redis
      reads this
    {
      Redis(log, trimmed, start, cursor, pending, locks, now, given, acked, returned, runs)
    }

    method XAdd(p: Payload, trimTo: nat)
      modifies this
      ensures State() == Add(old(State()), p, trimTo)
      ensures log == old(log) + [p] && (|log| <= 50_000 ==> trimmed == old(trimmed))
    {
      log := log + [p];
      if trimmed < trimTo && trimTo + MAX_STREAM_LEN <= |log| {
        trimmed := trimTo;
      }
    }

    method XReadGroup(consumer: string) returns (entries: seq<nat>)
      modifies this
      ensures NextUnread(old(State())) >= |old(log)| ==> entries == [] && State() == old(State())
      ensures NextUnread(old(State())) < |old(log)| ==>
        entries == Range(NextUnread(old(State())), ReadUpTo(old(State()))) && State() == Deliver(old(State()), consumer)
      ensures
        var from := if old(cursor) < old(trimmed) then old(trimmed) else old(cursor);
        var unread := |log| - from;
        && log == old(log)
        && |entries| == (if unread <= 0 then 0 else if unread < 10 then unread else 10)
        && forall k :: 0 <= k < |entries| ==> entries[k] == from + k
    {
      var from := if cursor < trimmed then trimmed else cursor;
      if from >= |log| {
        return [];
      }
      var upTo := if from + BATCH_SIZE <= |log| then from + BATCH_SIZE else |log|;
      entries := Range(from, upTo);
      cursor := upTo;
      pending := pending + PendingFor(entries, consumer);
      given := given + GivenTo(given, entries, consumer);
    }

    method SetNxEx(event: string) returns (acquired: bool)
      modifies this
      ensures acquired <==> !Locked(old(State()), event)
      ensures State() == Lock(old(State()), event)
      ensures locks == if acquired then old(locks)[event := now + 60_000] else old(locks)
    {
      acquired := !(event in locks && now < locks[event]);
      if acquired {
        locks := locks[event := now + LOCK_MS];
      }
    }

    method XAck(i: nat)
      modifies this
      ensures State() == Acknowledge(old(State()), i)
    {
      pending := pending - {i};
      acked := acked + {i};
    }
  }

  /** A handler called with an event. */
  datatype Call = Call(handler: nat, event: string)

  /** The calls the starts stand for: every handler of each, in order. */
  function CallsOf(runs: seq<Run>): seq<Call>
    decreases |runs|
  {
    if runs == [] then [] else HandlerCalls(runs[0].handlers, runs[0].event) + CallsOf(runs[1..])
  }

  function HandlerCalls(handlers: seq<nat>, event: string): seq<Call> {
    seq(|handlers|, k requires 0 <= k < |handlers| => Call(handlers[k], event))
  }

  lemma {:induction false} CallsOfAppends(s: seq<Run>, t: seq<Run>)
    ensures CallsOf(s + t) == CallsOf(s) + CallsOf(t)
    decreases |s|
  {
    if s == [] {
      assert s + t == t;
    } else {
      assert (s + t)[1..] == s[1..] + t;
      CallsOfAppends(s[1..], t);
    }
  }

  class Listener {
    const redis: Stream
    const consumerName: string
    var subscribers: map<string, seq<nat>>
    var batch: seq<nat>
    var phase: Phase
    ghost var calls: seq<Call>

    function State(): Worker
      reads this
    {
      Worker(subscribers, batch, phase)
    }

    constructor (redis: Stream, consumerName: string)
      ensures this.redis == redis && this.consumerName == consumerName && State() == Worker(map[], [], AtHead)
    {
      this.redis, this.consumerName := redis, consumerName;
      subscribers, batch, phase, calls := map[], [], AtHead, [];
    }

    /** A handler subscribed twice runs once; the others keep their order. */
    method Subscribe(eventName: string, handler: nat)
      modifies this`subscribers
      ensures eventName in subscribers && handler in subscribers[eventName]
      ensures subscribers.Keys == old(subscribers.Keys) + {eventName}
      ensures forall e :: e in old(subscribers) && e != eventName ==> subscribers[e] == old(subscribers[e])
      ensures
        var before := if eventName in old(subscribers) then old(subscribers)[eventName] else [];
        subscribers[eventName] == if handler in before then before else before + [handler]
    {
      if eventName !in subscribers {
        subscribers := subscribers[eventName := []];
      }
      if handler !in subscribers[eventName] {
        subscribers := subscribers[eventName := subscribers[eventName] + [handler]];
      }
    }

    method ReadBatch(lost: bool)
      requires batch == []
      modifies this`batch, this`phase, redis
      ensures (redis.State(), State()) == Read(old(redis.State()), old(State()), consumerName, lost)
    {
      var entries := redis.XReadGroup(consumerName);
      if entries != [] && !lost {
        batch, phase := entries, AtHead;
      }
    }

    /** _process_remote_event up to the handlers. */
    method Process(reply: Reply)
      requires Holds(redis.State(), State(), AtHead)
      modifies this`phase, redis
      ensures (redis.State(), State()) == Begin(old(redis.State()), old(State()), reply)
    {
      var i := batch[0];
      match redis.log[i]
      case NoData =>
        redis.returned, phase := redis.returned[i := NothingToDo], Done;
      case Garbage =>
        redis.returned, phase := redis.returned[i := NothingToDo], Done;
      case Event(id, name) =>
        if name !in subscribers || subscribers[name] == [] {
          redis.returned, phase := redis.returned[i := NoHandlers], Done;
          return;
        }
        var acquired := false;
        if reply != FailsBefore {
          acquired := redis.SetNxEx(id);
        }
        if reply != Works {
          redis.returned, phase := redis.returned[i := LockFailed], Done;
        } else if !acquired {
          redis.returned, phase := redis.returned[i := LockHeld], Done;
        } else {
          redis.runs := redis.runs + [Run(id, i, redis.now, subscribers[name])];
          phase := Running;
        }
    }

    /** Every handler is called, in the order subscribed; one that raises is logged and the next is called. */
    method FinishHandlers()
      requires Holds(redis.State(), State(), Running)
      requires redis.log[batch[0]].Event? && redis.log[batch[0]].name in subscribers
      modifies this`phase, this`calls, redis
      ensures (redis.State(), State()) == Finish(old(redis.State()), old(State()))
      ensures
        var p := redis.log[batch[0]];
        calls == old(calls) + HandlerCalls(subscribers[p.name], p.id)
    {
      var event := redis.log[batch[0]];
      var handlers := subscribers[event.name];
      for k := 0 to |handlers|
        invariant calls == old(calls) + HandlerCalls(handlers, event.id)[..k]
        invariant redis.State() == old(redis.State()) && phase == old(phase)
      {
        calls := calls + [Call(handlers[k], event.id)];
      }
      redis.returned := redis.returned[batch[0] := Handled];
      phase := Done;
    }

    method AckHead(reply: Reply)
      requires Holds(redis.State(), State(), Done)
      modifies this`batch, this`phase, redis
      ensures (redis.State(), State()) == Ack(old(redis.State()), old(State()), reply)
    {
      if reply != FailsBefore {
        redis.XAck(batch[0]);
      }
      batch := if reply == Works then batch[1..] else [];
      phase := AtHead;
    }

    method HandleOne(lockReply: Reply, ackReply: Reply)
      requires Holds(redis.State(), State(), AtHead)
      modifies this`batch, this`phase, this`calls, redis
      ensures (redis.State(), State()) == OneMessage(old(redis.State()), old(State()), lockReply, ackReply)
      ensures OneCallEach(old(redis.runs), redis.runs, old(calls), calls)
    {
      Process(lockReply);
      if phase == Running {
        FinishHandlers();
      }
      AckHead(ackReply);
    }

    /** The loop over the messages of one batch, when no other worker steps in between. */
    method HandleBatch(lockReply: nat -> Reply, ackReply: nat -> Reply)
      requires ReadyForBatch(redis.State(), State())
      modifies this`batch, this`phase, this`calls, redis
      ensures batch == [] && phase == AtHead
      ensures (redis.State(), State()) == WholeBatch(old(redis.State()), old(State()), lockReply, ackReply)
      ensures OneCallEach(old(redis.runs), redis.runs, old(calls), calls)
    {
      hide OneMessage, OneCallEach;
      assert OneCallEach(redis.runs, redis.runs, calls, calls) by { NoneYet(redis.runs, calls); }
      while batch != []
        invariant ReadyForBatch(redis.State(), State())
        invariant WholeBatch(redis.State(), State(), lockReply, ackReply)
          == WholeBatch(old(redis.State()), old(State()), lockReply, ackReply)
        invariant OneCallEach(old(redis.runs), redis.runs, old(calls), calls)
        decreases |batch|
      {
        OneMessageShrinks(redis.State(), State(), lockReply(batch[0]), ackReply(batch[0]));
        ghost var runs, before := redis.runs, calls;
        HandleOne(lockReply(batch[0]), ackReply(batch[0]));
        OneCallEachGoesOn(old(redis.runs), runs, redis.runs, old(calls), before, calls);
      }
    }
  }

  /** Every start that was added stands for one call of each of its handlers, and for no other. */
  ghost predicate OneCallEach(runs: seq<Run>, runs': seq<Run>, calls: seq<Call>, calls': seq<Call>) {
    && |runs| <= |runs'| && runs'[..|runs|] == runs
    && calls' == calls + CallsOf(runs'[|runs|..])
  }

  lemma NoneYet(runs: seq<Run>, calls: seq<Call>)
    ensures OneCallEach(runs, runs, calls, calls)
  {
  }

  lemma OneCallEachGoesOn(r0: seq<Run>, r1: seq<Run>, r2: seq<Run>, c0: seq<Call>, c1: seq<Call>, c2: seq<Call>)
    requires OneCallEach(r0, r1, c0, c1) && OneCallEach(r1, r2, c1, c2)
    ensures OneCallEach(r0, r2, c0, c2)
  {
    hide CallsOf;
    CallsOfAppends(r1[|r0|..], r2[|r1|..]);
    assert r2[..|r0|] == r2[..|r1|][..|r0|];
    assert r2[|r0|..] == r1[|r0|..] + r2[|r1|..];
  }

  predicate ReadyForBatch(r: Redis, w: Worker) {
    w.phase == AtHead && forall k :: 0 <= k < |w.batch| ==> w.batch[k] < |r.log|
  }

  function OneMessage(r: Redis, w: Worker, lockReply: Reply, ackReply: Reply): (Redis, Worker)
    requires Holds(r, w, AtHead)
  {
    var (r1, w1) := Begin(r, w, lockReply);
    var (r2, w2) := if w1.phase == Running then Finish(r1, w1) else (r1, w1);
    Ack(r2, w2, ackReply)
  }

  lemma OneMessageShrinks(r: Redis, w: Worker, lockReply: Reply, ackReply: Reply)
    requires ReadyForBatch(r, w) && w.batch != []
    ensures
      var (r', w') := OneMessage(r, w, lockReply, ackReply);
      && ReadyForBatch(r', w') && |w'.batch| < |w.batch|
      && (w'.batch == [] || w'.batch == w.batch[1..]) && r.acked <= r'.acked
      && (ackReply == Works ==> w'.batch == w.batch[1..] && w.batch[0] in r'.acked)
  {
  }

  function WholeBatch(r: Redis, w: Worker, lockReply: nat -> Reply, ackReply: nat -> Reply): (Redis, Worker)
    requires ReadyForBatch(r, w)
    decreases |w.batch|
  {
    if w.batch == [] then (r, w)
    else
      OneMessageShrinks(r, w, lockReply(w.batch[0]), ackReply(w.batch[0]));
      var next := OneMessage(r, w, lockReply(w.batch[0]), ackReply(w.batch[0]));
      WholeBatch(next.0, next.1, lockReply, ackReply)
  }

  lemma OneMessageIsARun(b: Bus, n: string, lockReply: Reply, ackReply: Reply) returns (steps: seq<Step>)
    requires n in b.workers && Holds(b.redis, b.workers[n], AtHead)
    ensures |steps| <= 3
    ensures Runs(b, steps) == Update(b, n, OneMessage(b.redis, b.workers[n], lockReply, ackReply))
  {
    var begin, finish, ack := BeginHead(n, lockReply), FinishHead(n), AckHead(n, ackReply);
    var (r1, w1) := Begin(b.redis, b.workers[n], lockReply);
    var b1 := Next(b, begin);
    assert b1 == Update(b, n, (r1, w1)) && b1.workers[n] == w1;
    if w1.phase == Running {
      var b2 := Next(b1, finish);
      assert b2 == Update(b, n, Finish(r1, w1));
      steps := [begin, finish, ack];
      ThreeSteps(b, begin, finish, ack);
      assert Next(b2, ack) == Update(b, n, Ack(b2.redis, b2.workers[n], ackReply));
    } else {
      steps := [begin, ack];
      assert [begin, ack][1..] == [ack];
      assert Next(b1, ack) == Update(b, n, Ack(r1, w1, ackReply));
      hide Next;
      assert Runs(b1, [ack]) == Next(b1, ack);
    }
  }

  lemma {:induction false} RunsAppend(b: Bus, s: seq<Step>, t: seq<Step>)
    ensures Runs(b, s + t) == Runs(Runs(b, s), t)
    decreases |s|
  {
    hide Next;
    if s == [] {
      assert s + t == t;
    } else {
      assert (s + t)[1..] == s[1..] + t;
      RunsAppend(Next(b, s[0]), s[1..], t);
    }
  }

  /** A batch handled without interference is one of the interleavings. */
  lemma {:induction false} WholeBatchIsARun(b: Bus, n: string, lockReply: nat -> Reply, ackReply: nat -> Reply)
    returns (steps: seq<Step>)
    requires n in b.workers && ReadyForBatch(b.redis, b.workers[n])
    ensures Runs(b, steps) == Update(b, n, WholeBatch(b.redis, b.workers[n], lockReply, ackReply))
    decreases |b.workers[n].batch|
  {
    hide OneMessage, Next;
    var r, w := b.redis, b.workers[n];
    steps := [];
    if w.batch == [] {
      assert b.workers[n := w] == b.workers;
    } else {
      var i := w.batch[0];
      OneMessageShrinks(r, w, lockReply(i), ackReply(i));
      var first := OneMessageIsARun(b, n, lockReply(i), ackReply(i));
      var c := Runs(b, first);
      var rest := WholeBatchIsARun(c, n, lockReply, ackReply);
      steps := first + rest;
      RunsAppend(b, first, rest);
      assert c.workers[n := Runs(c, rest).workers[n]] == b.workers[n := Runs(c, rest).workers[n]];
    }
  }

  /** If no acknowledgement fails, the whole batch ends up acknowledged. */
  lemma {:induction false} WholeBatchIsAcked(r: Redis, w: Worker, lockReply: nat -> Reply, ackReply: nat -> Reply)
    requires ReadyForBatch(r, w) && forall i :: i in w.batch ==> ackReply(i) == Works
    ensures r.acked <= WholeBatch(r, w, lockReply, ackReply).0.acked
    ensures forall i :: i in w.batch ==> i in WholeBatch(r, w, lockReply, ackReply).0.acked
    decreases |w.batch|
  {
    hide OneMessage;
    if w.batch != [] {
      var i := w.batch[0];
      OneMessageShrinks(r, w, lockReply(i), ackReply(i));
      var next := OneMessage(r, w, lockReply(i), ackReply(i));
      WholeBatchIsAcked(next.0, next.1, lockReply, ackReply);
      assert w.batch == [i] + w.batch[1..];
    }
  }
}
