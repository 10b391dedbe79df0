/**
 The idempotent route: look up a cached response, take the in-progress lock, run the
 handler, cache its response, release the lock. Any number of requests that share one
 Idempotency-Key interleave at these steps.
 */
module Idempotency {
  import opened Text
  import opened Wrappers

  const LOCK_TTL: nat := 60_000
  const RESPONSE_TTL: nat := 86_400_000

  datatype Response = Response(status: int, content: string)

  datatype HandlerResult = Responds(response: Response) | Raises

  datatype Answer = Answered(response: Response) | Replayed(response: Response) | Conflict | Failed

  /* ----- the keys of one Idempotency-Key in Redis ----- */

  datatype Entry = Entry(response: Response, expires: nat)

  datatype Keys = Keys(lock: Option<nat>, cached: Option<Entry>, now: nat)

  predicate LockHeld(k: Keys) {
    k.lock.Some? && k.now < k.lock.value
  }

  predicate CacheLive(k: Keys) {
    k.cached.Some? && k.now < k.cached.value.expires
  }

  function AcquireLock(k: Keys): Keys {
    if LockHeld(k) then k else k.(lock := Some(k.now + LOCK_TTL))
  }

  function ReleaseLock(k: Keys): Keys {
    k.(lock := None)
  }

  function CacheResponse(k: Keys, response: Response): Keys {
    k.(cached := Some(Entry(response, k.now + RESPONSE_TTL)))
  }

  predicate Cacheable(response: Response) {
    200 <= response.status < 500
  }

  /* ----- interleaved requests ----- */

  /** Where a request stands. From Inside to ToRelease it runs under the lock it took. */
  datatype Place =
    | Arrived
    | Missed
    | Inside
    | ToCache(response: Response)
    | ToRelease(answer: Answer)
    | Finished(answer: Answer)

  /** A request, with the step of its lookup, and the time and the count of releases when it took the lock. */
  datatype Request = Request(place: Place, lookup: nat, took: nat, mark: nat)

  /** The last lock set: by whom, when, and after how many releases. */
  datatype Hold = Hold(request: nat, at: nat, mark: nat)

  /** A handler run: whose, which step, the step of that request's lookup, and since when a response was cached. */
  datatype HandlerRun = HandlerRun(request: nat, step: nat, lookup: nat, cachedSince: Option<nat>)

  /**
   The keys and the requests; and, read by no step, the count of steps, the step at which the
   live response was first cached, the last lock set, the handler runs, and each release with
   the request whose live lock it deleted.
   */
  datatype State = State(
    keys: Keys, requests: map<nat, Request>,
    step: nat, since: nat, hold: Option<Hold>, runs: seq<HandlerRun>, releases: seq<(nat, Option<nat>)>)

  datatype Step =
    | Tick(ms: nat)
    | Arrive(r: nat)
    | LookUp(r: nat)
    | Acquire(r: nat, reply: Reply)
    | Handle(r: nat, result: HandlerResult)
    | Cache(r: nat, reply: Reply)
    | Release(r: nat, reply: Reply)
    | Die(r: nat)

  function Move(s: State, r: nat, place: Place): State
    requires r in s.requests
  {
    s.(requests := s.requests[r := s.requests[r].(place := place)])
  }

  function Owner(s: State): Option<nat> {
    if s.hold.Some? then Some(s.hold.value.request) else None
  }

  function DoLookUp(s: State, r: nat): State
    requires r in s.requests
  {
    if CacheLive(s.keys) then Move(s, r, Finished(Replayed(s.keys.cached.value.response)))
    else s.(requests := s.requests[r := s.requests[r].(place := Missed, lookup := s.step)])
  }

  function DoAcquire(s: State, r: nat, reply: Reply): State
    requires r in s.requests
  {
    if reply.FailsBefore? then Move(s, r, Finished(Failed))
    else if LockHeld(s.keys) then Move(s, r, Finished(if reply.Works? then Conflict else Failed))
    else
      var locked := s.(keys := AcquireLock(s.keys), hold := Some(Hold(r, s.keys.now, |s.releases|)));
      if reply.FailsAfter? then Move(locked, r, Finished(Failed))
      else locked.(
        requests := s.requests[r := s.requests[r].(place := Inside, took := s.keys.now, mark := |s.releases|)],
        runs := s.runs
          + [HandlerRun(r, s.step, s.requests[r].lookup, if CacheLive(s.keys) then Some(s.since) else None)])
  }

  function DoCache(s: State, r: nat, response: Response, reply: Reply): State
    requires r in s.requests
  {
    if !Cacheable(response) then Move(s, r, ToRelease(Answered(response)))
    else if reply.FailsBefore? then Move(s, r, ToRelease(Failed))
    else
      Move(s.(keys := CacheResponse(s.keys, response), since := if CacheLive(s.keys) then s.since else s.step),
           r, ToRelease(if reply.Works? then Answered(response) else Failed))
  }

  function DoRelease(s: State, r: nat, answer: Answer, reply: Reply): State
    requires r in s.requests
  {
    if reply.FailsBefore? then Move(s, r, Finished(Failed))
    else
      Move(s.(keys := ReleaseLock(s.keys), releases := s.releases + [(r, if LockHeld(s.keys) then Owner(s) else None)]),
           r, Finished(if reply.Works? then answer else Failed))
  }

  function Act(s: State, step: Step): State {
    match step
    case Tick(ms) => s.(keys := s.keys.(now := s.keys.now + ms))
    case Arrive(r) => if r in s.requests then s else s.(requests := s.requests[r := Request(Arrived, 0, 0, 0)])
    case LookUp(r) => if r in s.requests && s.requests[r].place.Arrived? then DoLookUp(s, r) else s
    case Acquire(r, reply) => if r in s.requests && s.requests[r].place.Missed? then DoAcquire(s, r, reply) else s
    case Handle(r, result) =>
      if r in s.requests && s.requests[r].place.Inside?
      then Move(s, r, if result.Responds? then ToCache(result.response) else ToRelease(Failed)) else s
    case Cache(r, reply) =>
      if r in s.requests && s.requests[r].place.ToCache? then DoCache(s, r, s.requests[r].place.response, reply) else s
    case Release(r, reply) =>
      if r in s.requests && s.requests[r].place.ToRelease?
        then DoRelease(s, r, s.requests[r].place.answer, reply) else s
    case Die(r) => if r in s.requests then Move(s, r, Finished(Failed)) else s
  }

  /** One step; a step that is not enabled only counts. */
  function Next(s: State, step: Step): State {
    Act(s, step).(step := s.step + 1)
  }

  function Runs(s: State, steps: seq<Step>): State
    decreases |steps|
  {
    if steps == [] then s else Runs(Next(s, steps[0]), steps[1..])
  }

  predicate Initial(s: State) {
    && s.requests == map[] && s.keys.lock == None && s.keys.cached == None
    && s.hold == None && s.runs == [] && s.releases == []
  }

  predicate UnderLock(s: State, r: nat) {
    r in s.requests && (var p := s.requests[r].place; p.Inside? || p.ToCache? || p.ToRelease?)
  }

  /** No request is still at work when the lock it took has expired. */
  ghost predicate OnTime(s: State) {
    forall r :: UnderLock(s, r) ==> s.keys.now < s.requests[r].took + LOCK_TTL
  }

  ghost predicate AlwaysOnTime(s: State, steps: seq<Step>)
    decreases |steps|
  {
    OnTime(s) && (steps != [] ==> AlwaysOnTime(Next(s, steps[0]), steps[1..]))
  }

  /* ----- mutual exclusion ----- */

  /** The lock in Redis is the one the request took. */
  predicate OwnLock(s: State, r: nat) {
    && r in s.requests && s.hold.Some? && s.hold.value.request == r
    && s.keys.lock.Some? && s.keys.lock.value == s.requests[r].took + LOCK_TTL
  }

  ghost predicate LockIsTheirs(s: State) {
    && (forall r :: UnderLock(s, r) ==> OwnLock(s, r))
    && (forall k :: 0 <= k < |s.releases| ==> s.releases[k].1 == Some(s.releases[k].0))
  }

  lemma StepKeepsExclusion(s: State, step: Step)
    requires LockIsTheirs(s) && OnTime(s)
    ensures LockIsTheirs(Next(s, step))
  {
    hide CacheLive, Cacheable;
    var t := Next(s, step);
    ReleaserIsUnderLock(s, step);
    forall r | UnderLock(t, r) ensures OwnLock(t, r) {
      assert UnderLock(s, r) || (step.Acquire? && step.r == r);
    }
  }

  lemma ReleaserIsUnderLock(s: State, step: Step)
    ensures step.Release? && step.r in s.requests && s.requests[step.r].place.ToRelease? ==> UnderLock(s, step.r)
  {
  }

  /**
   In every interleaving in which no handler outlives its lock, at most one request is under
   the lock, and every release deletes the lock of the request that releases.
   */
  lemma {:induction false} HandlersExcludeEachOther(s: State, steps: seq<Step>)
    requires LockIsTheirs(s) && AlwaysOnTime(s, steps)
    ensures LockIsTheirs(Runs(s, steps))
    ensures forall q, r :: UnderLock(Runs(s, steps), q) && UnderLock(Runs(s, steps), r) ==> q == r
    decreases |steps|
  {
    hide Next;
    if steps != [] {
      StepKeepsExclusion(s, steps[0]);
      HandlersExcludeEachOther(Next(s, steps[0]), steps[1..]);
    }
  }

  /* ----- what happens without the timing ----- */

  /** At work past the life of the lock it took. */
  predicate Late(s: State, r: nat) {
    r in s.requests && s.keys.now >= s.requests[r].took + LOCK_TTL
  }

  /** A release by another since the request took its lock. */
  predicate ReleasedSince(s: State, r: nat) {
    r in s.requests && exists k :: s.requests[r].mark <= k < |s.releases| && s.releases[k].0 != r
  }

  /** The last lock set has expired, or a release, whoever's, has followed it. */
  predicate Lapsed(s: State) {
    s.hold.Some? ==> s.keys.now >= s.hold.value.at + LOCK_TTL || |s.releases| > s.hold.value.mark
  }

  /** The lock in Redis is the last one set, until a release. */
  predicate LockIsLast(s: State) {
    && (s.hold.Some? ==> s.hold.value.mark <= |s.releases| && s.hold.value.at <= s.keys.now)
    && s.keys.lock == if s.hold.None? || |s.releases| > s.hold.value.mark then None
       else Some(s.hold.value.at + LOCK_TTL)
  }

  /** A request under the lock it took: the last one set is its own, or it is late or was released by another. */
  predicate HolderIsRight(s: State, r: nat) {
    UnderLock(s, r) ==>
      var q := s.requests[r];
      && s.hold.Some? && q.mark <= s.hold.value.mark && q.took <= s.hold.value.at
      && (s.hold.value.request == r ==> q.took == s.hold.value.at && q.mark == s.hold.value.mark)
      && (s.hold.value.request != r ==> Late(s, r) || |s.releases| > q.mark)
      && (forall k :: q.mark <= k < |s.releases| ==> s.releases[k].0 != r)
  }

  ghost predicate HoldersAreRight(s: State) {
    LockIsLast(s) && forall r: nat :: HolderIsRight(s, r)
  }

  lemma StepKeepsLockLast(s: State, step: Step)
    requires LockIsLast(s)
    ensures LockIsLast(Next(s, step))
  {
    hide CacheLive, Cacheable, Owner;
  }

  lemma StepKeepsHolder(s: State, step: Step, r: nat)
    requires LockIsLast(s) && HolderIsRight(s, r)
    ensures HolderIsRight(Next(s, step), r)
  {
    hide CacheLive, Cacheable, Owner;
  }

  lemma StepKeepsHolders(s: State, step: Step)
    requires HoldersAreRight(s)
    ensures HoldersAreRight(Next(s, step))
  {
    hide Next, LockIsLast, HolderIsRight;
    StepKeepsLockLast(s, step);
    forall r: nat ensures HolderIsRight(Next(s, step), r) { StepKeepsHolder(s, step, r); }
  }

  lemma {:induction false} EveryRunKeepsHolders(s: State, steps: seq<Step>)
    requires HoldersAreRight(s)
    ensures HoldersAreRight(Runs(s, steps))
    decreases |steps|
  {
    hide Next, HoldersAreRight;
    if steps != [] {
      StepKeepsHolders(s, steps[0]);
      EveryRunKeepsHolders(Next(s, steps[0]), steps[1..]);
    }
  }

  /**
   In every run: a request that missed the cache gets in beside another under the lock if and only if the
   last lock set has expired or a release has followed it. Then the other is late or another has released
   since it took its lock, and if the last lock set is its own, exactly then.
   */
  lemma GetsInBesideIff(s: State, steps: seq<Step>, a: nat, b: nat)
    requires Initial(s)
    requires UnderLock(Runs(s, steps), a) && b in Runs(s, steps).requests && Runs(s, steps).requests[b].place.Missed?
    ensures
      var t := Runs(s, steps);
      var getsIn := UnderLock(Next(t, Acquire(b, Works)), b);
      && (getsIn <==> Lapsed(t))
      && (getsIn ==> Late(t, a) || ReleasedSince(t, a))
      && (Owner(t) == Some(a) ==> (getsIn <==> Late(t, a) || ReleasedSince(t, a)))
  {
    EveryRunKeepsHolders(s, steps);
    var t := Runs(s, steps);
    assert HolderIsRight(t, a);
    hide Runs, CacheLive;
    if |t.releases| > t.requests[a].mark {
      assert t.releases[t.requests[a].mark].0 != a;
    }
  }

  /** Every request under the lock that is not late has its own lock there, alive. */
  ghost predicate TimelyHold(s: State) {
    forall r :: UnderLock(s, r) && !Late(s, r) ==> OwnLock(s, r)
  }

  ghost predicate Shared(s: State) {
    exists q, r :: q != r && UnderLock(s, q) && UnderLock(s, r)
  }

  ghost predicate SharedDuring(s: State, steps: seq<Step>)
    decreases |steps|
  {
    Shared(s) || (steps != [] && SharedDuring(Next(s, steps[0]), steps[1..]))
  }

  /** An acquire that gets in while another is still at work past its time. */
  ghost predicate EntersBesideLate(s: State, step: Step) {
    && step.Acquire? && step.reply.Works? && step.r in s.requests && s.requests[step.r].place.Missed?
       && !LockHeld(s.keys)
    && exists a :: UnderLock(s, a) && Late(s, a)
  }

  ghost predicate EntersBesideLateDuring(s: State, steps: seq<Step>)
    decreases |steps|
  {
    steps != [] && (EntersBesideLate(s, steps[0]) || EntersBesideLateDuring(Next(s, steps[0]), steps[1..]))
  }

  lemma StepKeepsTimelyHold(s: State, step: Step, r: nat)
    requires TimelyHold(s)
    requires UnderLock(Next(s, step), r) && !Late(Next(s, step), r)
    requires step.Release? && UnderLock(s, step.r) && step.r != r ==> !UnderLock(s, r)
    ensures OwnLock(Next(s, step), r)
  {
    hide CacheLive, Cacheable;
    ReleaserIsUnderLock(s, step);
    assert UnderLock(s, r) ==> !Late(s, r);
  }

  lemma UnsharedStepKeepsTimelyHold(s: State, step: Step)
    requires TimelyHold(s) && !Shared(s)
    ensures TimelyHold(Next(s, step))
    ensures Shared(Next(s, step)) ==> EntersBesideLate(s, step)
  {
    var t := Next(s, step);
    forall r | UnderLock(t, r) && !Late(t, r) ensures OwnLock(t, r) {
      StepKeepsTimelyHold(s, step, r);
    }
    if Shared(t) {
      var q, r :| q != r && UnderLock(t, q) && UnderLock(t, r);
      EnteredNow(s, step, q, r);
    }
  }

  /** Of two that share the lock after a step but not before, one has just got in. */
  lemma EnteredNow(s: State, step: Step, q: nat, r: nat)
    requires TimelyHold(s) && !Shared(s)
    requires q != r && UnderLock(Next(s, step), q) && UnderLock(Next(s, step), r)
    ensures EntersBesideLate(s, step)
  {
    hide CacheLive, Cacheable;
    var a := if step.Acquire? && step.r == q then r else q;
    assert UnderLock(s, q) || (step.Acquire? && step.r == q);
    assert UnderLock(s, r) || (step.Acquire? && step.r == r);
    assert UnderLock(s, a);
    assert Late(s, a) || OwnLock(s, a);
  }

  lemma EntererShares(s: State, step: Step)
    requires EntersBesideLate(s, step)
    ensures Shared(Next(s, step))
  {
    var a :| UnderLock(s, a) && Late(s, a);
    assert UnderLock(Next(s, step), step.r) && UnderLock(Next(s, step), a) && a != step.r;
  }

  lemma {:induction false} SharedIffEntered(s: State, steps: seq<Step>)
    requires TimelyHold(s) && !Shared(s)
    ensures SharedDuring(s, steps) <==> EntersBesideLateDuring(s, steps)
    decreases |steps|
  {
    if steps != [] {
      var t := Next(s, steps[0]);
      UnsharedStepKeepsTimelyHold(s, steps[0]);
      if EntersBesideLate(s, steps[0]) { EntererShares(s, steps[0]); }
      hide Next, TimelyHold, Shared, EntersBesideLate;
      if !Shared(t) { SharedIffEntered(t, steps[1..]); }
    }
  }

  /** In a run two requests are under the lock at once if and only if some acquire gets in while a request is late. */
  lemma TwoAtOnceIffEnteredBesideLate(s: State, steps: seq<Step>)
    requires Initial(s)
    ensures SharedDuring(s, steps) <==> EntersBesideLateDuring(s, steps)
  {
    SharedIffEntered(s, steps);
  }

  /** Some release so far has deleted the live lock of another request. */
  predicate Foreign(releases: seq<(nat, Option<nat>)>) {
    exists k :: 0 <= k < |releases| && releases[k].1.Some? && releases[k].1.value != releases[k].0
  }

  /** A release, answered or not, of a request whose lock has expired, while one is alive. */
  predicate LateRelease(s: State, step: Step) {
    && step.Release? && !step.reply.FailsBefore? && step.r in s.requests && s.requests[step.r].place.ToRelease?
    && Late(s, step.r) && LockHeld(s.keys)
  }

  predicate LateReleaseDuring(s: State, steps: seq<Step>)
    decreases |steps|
  {
    steps != [] && (LateRelease(s, steps[0]) || LateReleaseDuring(Next(s, steps[0]), steps[1..]))
  }

  /** What a step does to the releases. */
  lemma ReleasesOf(s: State, step: Step)
    ensures
      var releases := step.Release? && !step.reply.FailsBefore? && step.r in s.requests
        && s.requests[step.r].place.ToRelease?;
      Next(s, step).releases
        == if releases then s.releases + [(step.r, if LockHeld(s.keys) then Owner(s) else None)] else s.releases
  {
    hide CacheLive, Cacheable;
  }

  lemma ForeignSnoc(releases: seq<(nat, Option<nat>)>, last: (nat, Option<nat>))
    ensures Foreign(releases + [last]) <==> Foreign(releases) || (last.1.Some? && last.1.value != last.0)
  {
    var all := releases + [last];
    assert all[|releases|] == last;
    if Foreign(releases) {
      var k :| 0 <= k < |releases| && releases[k].1.Some? && releases[k].1.value != releases[k].0;
      assert all[k] == releases[k];
    }
  }

  lemma LateReleaseIsForeign(s: State, step: Step)
    requires HoldersAreRight(s) && (Foreign(s.releases) || TimelyHold(s))
    ensures Foreign(Next(s, step).releases) <==> Foreign(s.releases) || LateRelease(s, step)
  {
    ReleasesOf(s, step);
    ReleaserIsUnderLock(s, step);
    ForeignSnoc(s.releases, (if step.Release? then step.r else 0, if LockHeld(s.keys) then Owner(s) else None));
    if step.Release? { assert HolderIsRight(s, step.r); }
    hide Next, Foreign;
    assert step.Release? && UnderLock(s, step.r) ==> Late(s, step.r) || OwnLock(s, step.r) || Foreign(s.releases);
  }

  lemma NativeStepKeepsTimelyHold(s: State, step: Step)
    requires TimelyHold(s) && !Foreign(Next(s, step).releases)
    ensures TimelyHold(Next(s, step))
  {
    var t := Next(s, step);
    ReleasesOf(s, step);
    ForeignSnoc(s.releases, (if step.Release? then step.r else 0, if LockHeld(s.keys) then Owner(s) else None));
    hide Foreign, CacheLive, Cacheable;
    forall r | UnderLock(t, r) && !Late(t, r) ensures OwnLock(t, r) {
      if UnderLock(s, r) {
        assert !Late(s, r) && OwnLock(s, r);
        OthersReleaseIsForeign(s, step, r);
      } else {
        StepKeepsTimelyHold(s, step, r);
      }
    }
  }

  lemma OthersReleaseIsForeign(s: State, step: Step, r: nat)
    requires TimelyHold(s) && UnderLock(s, r) && OwnLock(s, r) && !Late(s, r) && UnderLock(Next(s, step), r)
    requires !Foreign(Next(s, step).releases)
    ensures OwnLock(Next(s, step), r)
  {
    ReleasesOf(s, step);
    ForeignSnoc(s.releases, (if step.Release? then step.r else 0, if LockHeld(s.keys) then Owner(s) else None));
    hide Foreign, CacheLive, Cacheable;
  }

  lemma {:induction false} ForeignIffLate(s: State, steps: seq<Step>)
    requires HoldersAreRight(s) && (Foreign(s.releases) || TimelyHold(s))
    ensures Foreign(Runs(s, steps).releases) <==> Foreign(s.releases) || LateReleaseDuring(s, steps)
    decreases |steps|
  {
    if steps != [] {
      var t := Next(s, steps[0]);
      LateReleaseIsForeign(s, steps[0]);
      if !Foreign(t.releases) { NativeStepKeepsTimelyHold(s, steps[0]); }
      StepKeepsHolders(s, steps[0]);
      hide Next, TimelyHold, HoldersAreRight, Foreign, LateRelease;
      ForeignIffLate(t, steps[1..]);
    }
  }

  /**
   The release does not ask whose lock it deletes: in a run one deletes the live lock of another request
   if and only if some request releases late while a lock is alive.
   */
  lemma ForeignReleaseIffLateRelease(s: State, steps: seq<Step>)
    requires Initial(s)
    ensures Foreign(Runs(s, steps).releases) <==> LateReleaseDuring(s, steps)
  {
    ForeignIffLate(s, steps);
  }

  /** Three requests arrive and look up; the first takes the lock, outlives it, and the second gets in. */
  function SecondGetsIn(): seq<Step> {
    [Arrive(1), LookUp(1), Acquire(1, Works), Arrive(2), LookUp(2)]
      + [Arrive(3), LookUp(3), Tick(LOCK_TTL), Acquire(2, Works)]
  }

  /** The first raises and lets go, and the third gets in. */
  function FirstLetsGo(): seq<Step> {
    [Handle(1, Raises), Release(1, Works), Acquire(3, Works)]
  }

  /** So the second, on time, shares the lock with a third, and has lost its own to the first. */
  lemma TimelyHolderLosesItsLock(s: State)
    requires Initial(s)
    ensures
      var t := Runs(s, SecondGetsIn() + FirstLetsGo());
      && UnderLock(t, 2) && UnderLock(t, 3) && !Late(t, 2) && !Late(t, 3)
      && t.releases == [(1, Some(2))]
  {
    FirstIsIn(s);
    var s5 := Next(Next(Next(Next(Next(s, Arrive(1)), LookUp(1)), Acquire(1, Works)), Arrive(2)), LookUp(2));
    SecondIsIn(s5);
    var s9 := Next(Next(Next(Next(s5, Arrive(3)), LookUp(3)), Tick(LOCK_TTL)), Acquire(2, Works));
    ThirdIsIn(s9);
    hide *;
    FiveSteps(s, Arrive(1), LookUp(1), Acquire(1, Works), Arrive(2), LookUp(2));
    FourSteps(s5, Arrive(3), LookUp(3), Tick(LOCK_TTL), Acquire(2, Works));
    var second := [Arrive(3), LookUp(3), Tick(LOCK_TTL), Acquire(2, Works)];
    RunsAppend(s, [Arrive(1), LookUp(1), Acquire(1, Works), Arrive(2), LookUp(2)], second);
    RunsAppend(s, SecondGetsIn(), FirstLetsGo());
    ThreeSteps(s9, Handle(1, Raises), Release(1, Works), Acquire(3, Works));
  }

  lemma ThreeSteps(s: State, p: Step, q: Step, r: Step)
    ensures Runs(s, [p, q, r]) == Next(Next(Next(s, p), q), r)
  {
    hide Next;
    RunsCons(s, p, [q, r]);
    RunsCons(Next(s, p), q, [r]);
    RunsCons(Next(Next(s, p), q), r, []);
  }

  lemma FirstIsIn(s: State)
    requires Initial(s)
    ensures
      var t := Next(Next(Next(Next(Next(s, Arrive(1)), LookUp(1)), Acquire(1, Works)), Arrive(2)), LookUp(2));
      && t.requests.Keys == {1, 2} && t.requests[1].place.Inside? && t.requests[2].place.Missed?
      && t.keys == Keys(Some(s.keys.now + LOCK_TTL), None, s.keys.now) && t.releases == []
  {
    var t2 := Next(Next(s, Arrive(1)), LookUp(1));
    assert t2.requests.Keys == {1} && t2.requests[1].place.Missed? && t2.keys == s.keys;
  }

  lemma SecondIsIn(s: State)
    requires s.requests.Keys == {1, 2} && s.requests[1].place.Inside? && s.requests[2].place.Missed?
    requires s.keys == Keys(Some(s.keys.now + LOCK_TTL), None, s.keys.now) && s.releases == []
    ensures
      var t := Next(Next(Next(Next(s, Arrive(3)), LookUp(3)), Tick(LOCK_TTL)), Acquire(2, Works));
      && t.requests.Keys == {1, 2, 3} && t.requests[1].place.Inside? && t.requests[3].place.Missed?
      && UnderLock(t, 2) && !Late(t, 2) && LockHeld(t.keys) && Owner(t) == Some(2) && t.releases == []
  {
    var t2 := Next(Next(s, Arrive(3)), LookUp(3));
    assert t2.requests.Keys == {1, 2, 3} && t2.requests[3].place.Missed? && t2.keys == s.keys;
  }

  lemma ThirdIsIn(s: State)
    requires s.requests.Keys == {1, 2, 3} && s.requests[1].place.Inside? && s.requests[3].place.Missed?
    requires UnderLock(s, 2) && !Late(s, 2) && LockHeld(s.keys) && Owner(s) == Some(2) && s.releases == []
    ensures
      var t := Next(Next(Next(s, Handle(1, Raises)), Release(1, Works)), Acquire(3, Works));
      && UnderLock(t, 2) && UnderLock(t, 3) && !Late(t, 2) && !Late(t, 3) && t.releases == [(1, Some(2))]
  {
    var t2 := Next(Next(s, Handle(1, Raises)), Release(1, Works));
    assert t2.requests.Keys == {1, 2, 3} && t2.requests[2] == s.requests[2] && t2.requests[3] == s.requests[3];
    assert t2.releases == [(1, Some(2))] && t2.keys.lock == None;
  }

  /* ----- handler runs after a response is cached ----- */

  /** A request that has missed the cache and may still run, or is running. */
  predicate Pending(s: State, r: nat) {
    r in s.requests && (s.requests[r].place.Missed? || UnderLock(s, r))
  }

  ghost predicate LookupsPrecede(s: State) {
    && (forall r :: Pending(s, r) ==> s.requests[r].lookup < s.step)
    && (CacheLive(s.keys) ==> s.since < s.step)
    && (forall r :: CacheLive(s.keys) && Pending(s, r) ==> s.requests[r].lookup < s.since)
  }

  ghost predicate RunsFollow(s: State) {
    forall k :: 0 <= k < |s.runs| && s.runs[k].cachedSince.Some?
      ==> s.runs[k].lookup < s.runs[k].cachedSince.value < s.runs[k].step < s.step
  }

  lemma StepKeepsLookups(s: State, step: Step)
    requires LookupsPrecede(s)
    ensures LookupsPrecede(Next(s, step))
  {
    var t := Next(s, step);
    forall r | Pending(t, r)
      ensures t.requests[r].lookup < t.step && (CacheLive(t.keys) ==> t.requests[r].lookup < t.since)
    {
      if step.LookUp? && step.r == r && s.requests[r].place.Arrived? {
        assert t.requests[r].lookup == s.step && !CacheLive(t.keys);
      } else {
        assert Pending(s, r) && t.requests[r].lookup == s.requests[r].lookup;
      }
    }
  }

  lemma StepKeepsRuns(s: State, step: Step)
    requires LookupsPrecede(s) && RunsFollow(s)
    ensures RunsFollow(Next(s, step))
  {
    if step.Acquire? { assert step.r in s.requests && s.requests[step.r].place.Missed? ==> Pending(s, step.r); }
  }

  lemma {:induction false} EveryRunKeepsLookups(s: State, steps: seq<Step>)
    requires LookupsPrecede(s) && RunsFollow(s)
    ensures LookupsPrecede(Runs(s, steps)) && RunsFollow(Runs(s, steps))
    decreases |steps|
  {
    hide Next;
    if steps != [] {
      StepKeepsLookups(s, steps[0]);
      StepKeepsRuns(s, steps[0]);
      EveryRunKeepsLookups(Next(s, steps[0]), steps[1..]);
    }
  }

  predicate StartsHandler(s: State, step: Step, r: nat) {
    var lookup := if r in s.requests then s.requests[r].lookup else 0;
    Next(s, step).runs == s.runs + [HandlerRun(r, s.step, lookup, if CacheLive(s.keys) then Some(s.since) else None)]
  }

  /**
   While a cached response lives, a step starts a handler exactly when it is the acquire of a
   request that had missed the cache and finds the lock free; and every such request had looked
   up before the response was first cached. No timing is assumed.
   */
  lemma LateRunsLookedUpEarly(s: State, steps: seq<Step>, step: Step, r: nat)
    requires Initial(s)
    requires CacheLive(Runs(s, steps).keys)
    ensures
      var t := Runs(s, steps);
      && (StartsHandler(t, step, r)
          <==> step == Acquire(r, Works) && r in t.requests && t.requests[r].place.Missed? && !LockHeld(t.keys))
      && (StartsHandler(t, step, r) ==> t.requests[r].lookup < t.since)
  {
    EveryRunKeepsLookups(s, steps);
    var t := Runs(s, steps);
    assert StartsHandler(t, step, r) ==> |Next(t, step).runs| == |t.runs| + 1;
    if StartsHandler(t, step, r) {
      assert step.Acquire? && Next(t, step).runs[|t.runs|].request == step.r;
      assert Pending(t, r);
    }
  }

  /**
   So a handler can run twice for one key, even on time: of two requests that have both missed
   the cache, the second runs as soon as the first has cached its response and let go.
   */
  lemma TwoEarlyLookupsRunTwice(s: State, a: nat, b: nat, response: Response)
    requires a != b && a in s.requests && b in s.requests
    requires s.requests[a].place.Missed? && s.requests[b].place.Missed?
    requires !LockHeld(s.keys) && 200 <= response.status < 500 && forall r :: !UnderLock(s, r)
    ensures
      var steps :=
        [Acquire(a, Works), Handle(a, Responds(response)), Cache(a, Works), Release(a, Works), Acquire(b, Works)];
      var t := Runs(s, steps);
      && |t.runs| == |s.runs| + 2 && t.runs[|s.runs|].request == a && t.runs[|s.runs| + 1].request == b
      && t.runs[|s.runs| + 1].cachedSince.Some? && CacheLive(t.keys) && t.keys.cached.value.response == response
  {
    var s1 := Next(s, Acquire(a, Works));
    var s2 := Next(s1, Handle(a, Responds(response)));
    var s3 := Next(s2, Cache(a, Works));
    var s4 := Next(s3, Release(a, Works));
    var s5 := Next(s4, Acquire(b, Works));
    assert s4.requests[b] == s.requests[b] && !LockHeld(s4.keys) && CacheLive(s4.keys);
    assert s5.runs == s.runs + [s1.runs[|s.runs|], HandlerRun(b, s4.step, s.requests[b].lookup, Some(s4.since))];
    FiveSteps(s, Acquire(a, Works), Handle(a, Responds(response)), Cache(a, Works), Release(a, Works),
      Acquire(b, Works));
  }

  /** Two requests reach such a state from the start: both arrive and look up before either takes the lock. */
  lemma TwoRequestsRunTwice(s: State, a: nat, b: nat, response: Response)
    requires Initial(s) && a != b && 200 <= response.status < 500
    ensures
      var lookups := [Arrive(a), LookUp(a), Arrive(b), LookUp(b)];
      var serves :=
        [Acquire(a, Works), Handle(a, Responds(response)), Cache(a, Works), Release(a, Works), Acquire(b, Works)];
      var t := Runs(s, lookups + serves);
      && |t.runs| == 2 && t.runs[0].request == a && t.runs[1].request == b
      && t.runs[1].cachedSince.Some? && CacheLive(t.keys) && t.keys.cached.value.response == response
  {
    var lookups := [Arrive(a), LookUp(a), Arrive(b), LookUp(b)];
    var serves :=
      [Acquire(a, Works), Handle(a, Responds(response)), Cache(a, Works), Release(a, Works), Acquire(b, Works)];
    var missed := Next(Next(Next(Next(s, Arrive(a)), LookUp(a)), Arrive(b)), LookUp(b));
    assert missed.requests.Keys == {a, b} && missed.keys == s.keys && missed.runs == [];
    assert missed.requests[a].place.Missed? && missed.requests[b].place.Missed?;
    TwoEarlyLookupsRunTwice(missed, a, b, response);
    hide Next;
    FourSteps(s, Arrive(a), LookUp(a), Arrive(b), LookUp(b));
    RunsAppend(s, lookups, serves);
  }

  lemma FourSteps(s: State, p: Step, q: Step, r: Step, u: Step)
    ensures Runs(s, [p, q, r, u]) == Next(Next(Next(Next(s, p), q), r), u)
  {
    hide Next;
    RunsCons(s, p, [q, r, u]);
    RunsCons(Next(s, p), q, [r, u]);
    RunsCons(Next(Next(s, p), q), r, [u]);
    RunsCons(Next(Next(Next(s, p), q), r), u, []);
  }

  lemma FiveSteps(s: State, p: Step, q: Step, r: Step, u: Step, v: Step)
    ensures Runs(s, [p, q, r, u, v]) == Next(Next(Next(Next(Next(s, p), q), r), u), v)
  {
    hide Next;
    RunsCons(s, p, [q, r, u, v]);
    RunsCons(Next(s, p), q, [r, u, v]);
    RunsCons(Next(Next(s, p), q), r, [u, v]);
    RunsCons(Next(Next(Next(s, p), q), r), u, [v]);
    RunsCons(Next(Next(Next(Next(s, p), q), r), u), v, []);
  }

  lemma RunsCons(s: State, p: Step, rest: seq<Step>)
    ensures Runs(s, [p] + rest) == Runs(Next(s, p), rest)
    ensures rest == [] ==> Runs(s, [p]) == Next(s, p)
  {
    hide Next;
    assert ([p] + rest)[1..] == rest;
    assert rest == [] ==> [p] + rest == [p];
  }

  /* ----- one request at a time ----- */

  /**
   What happens to one request that no other interleaves with; a failing lookup or acquire ends it before the
   handler.
   */
  datatype Script = Script(handler: HandlerResult, elapsed: nat, cacheReply: Reply, releaseReply: Reply)

  /** custom_route_handler: the keys afterwards, the answer, and whether the handler ran. */
  function Serve(k: Keys, script: Script): (Keys, Answer, bool) {
    if CacheLive(k) then (k, Replayed(k.cached.value.response), false)
    else if LockHeld(k) then (k, Conflict, false)
    else
      var locked := AcquireLock(k);
      var ran := locked.(now := locked.now + script.elapsed);
      var (cached, answer) := match script.handler
        case Raises => (ran, Failed)
        case Responds(response) =>
          if !Cacheable(response) then (ran, Answered(response))
          else if script.cacheReply.FailsBefore? then (ran, Failed)
          else (CacheResponse(ran, response), if script.cacheReply.Works? then Answered(response) else Failed);
      if script.releaseReply.FailsBefore? then (cached, Failed, true)
      else (ReleaseLock(cached), if script.releaseReply.Works? then answer else Failed, true)
  }

  /** Served alone, a request is the interleaving that steps it through. */
  lemma ServedAloneIsARun(s: State, r: nat, script: Script)
    requires r !in s.requests
    ensures
      var (k, answer, ran) := Serve(s.keys, script);
      var steps :=
        [Arrive(r), LookUp(r), Acquire(r, Works), Handle(r, script.handler), Tick(if ran then script.elapsed else 0)]
        + [Cache(r, script.cacheReply), Release(r, script.releaseReply)];
      var t := Runs(s, steps);
      && t.keys == k && r in t.requests && t.requests[r].place == Finished(answer)
      && |t.runs| == |s.runs| + if ran then 1 else 0
  {
    var ms := if Serve(s.keys, script).2 then script.elapsed else 0;
    SevenActions(s, r, script);
    hide Next, Serve;
    var first := [Arrive(r), LookUp(r), Acquire(r, Works), Handle(r, script.handler), Tick(ms)];
    var s5 := Next(Next(Next(Next(Next(s, Arrive(r)), LookUp(r)), Acquire(r, Works)), Handle(r, script.handler)),
      Tick(ms));
    FiveSteps(s, Arrive(r), LookUp(r), Acquire(r, Works), Handle(r, script.handler), Tick(ms));
    RunsCons(s5, Cache(r, script.cacheReply), [Release(r, script.releaseReply)]);
    RunsCons(Next(s5, Cache(r, script.cacheReply)), Release(r, script.releaseReply), []);
    RunsAppend(s, first, [Cache(r, script.cacheReply), Release(r, script.releaseReply)]);
  }

  lemma SevenActions(s: State, r: nat, script: Script)
    requires r !in s.requests
    ensures
      var (k, answer, ran) := Serve(s.keys, script);
      var s4 := Next(Next(Next(Next(s, Arrive(r)), LookUp(r)), Acquire(r, Works)), Handle(r, script.handler));
      var t := Next(Next(Next(s4, Tick(if ran then script.elapsed else 0)), Cache(r, script.cacheReply)),
        Release(r, script.releaseReply));
      && t.keys == k && r in t.requests && t.requests[r].place == Finished(answer)
      && |t.runs| == |s.runs| + if ran then 1 else 0
  {
    FirstFourActions(s, r, script.handler);
    var s4 := Next(Next(Next(Next(s, Arrive(r)), LookUp(r)), Acquire(r, Works)), Handle(r, script.handler));
    hide Next;
    LastThreeActions(s4, r, script, if Serve(s.keys, script).2 then script.elapsed else 0);
  }

  lemma FirstFourActions(s: State, r: nat, handler: HandlerResult)
    requires r !in s.requests
    ensures
      var t := Next(Next(Next(Next(s, Arrive(r)), LookUp(r)), Acquire(r, Works)), Handle(r, handler));
      var runs := !CacheLive(s.keys) && !LockHeld(s.keys);
      && r in t.requests
      && t.requests[r].place == (
        if CacheLive(s.keys) then Finished(Replayed(s.keys.cached.value.response))
        else if LockHeld(s.keys) then Finished(Conflict)
        else if handler.Responds? then ToCache(handler.response) else ToRelease(Failed))
      && t.keys == (if runs then AcquireLock(s.keys) else s.keys)
      && |t.runs| == |s.runs| + if runs then 1 else 0
  {
  }

  lemma LastThreeActions(s: State, r: nat, script: Script, ms: nat)
    requires r in s.requests
    requires
      || s.requests[r].place.Finished?
      || s.requests[r].place == (if script.handler.Responds? then ToCache(script.handler.response)
         else ToRelease(Failed))
    ensures
      var t := Next(Next(Next(s, Tick(ms)), Cache(r, script.cacheReply)), Release(r, script.releaseReply));
      var place := s.requests[r].place;
      var waited := s.keys.(now := s.keys.now + ms);
      && r in t.requests && t.runs == s.runs
      && if place.Finished? then t.keys == waited && t.requests[r].place == place
         else
           && t.keys == Settled(waited, script)
           && t.requests[r].place == Finished(Outcome(script))
  {
  }

  /** The keys once the handler has returned, its response is cached and the lock let go. */
  function Settled(k: Keys, script: Script): Keys {
    var cached :=
      if script.handler.Responds? && Cacheable(script.handler.response) && !script.cacheReply.FailsBefore?
      then CacheResponse(k, script.handler.response) else k;
    if script.releaseReply.FailsBefore? then cached else ReleaseLock(cached)
  }

  /** What the request whose handler ran is answered. */
  function Outcome(script: Script): Answer {
    if !script.releaseReply.Works? || script.handler.Raises? then Failed
    else if Cacheable(script.handler.response) && !script.cacheReply.Works? then Failed
    else Answered(script.handler.response)
  }

  lemma {:induction false} RunsAppend(s: State, p: seq<Step>, q: seq<Step>)
    ensures Runs(s, p + q) == Runs(Runs(s, p), q)
    decreases |p|
  {
    hide Next;
    if p == [] {
      assert p + q == q;
    } else {
      assert (p + q)[1..] == p[1..] + q;
      RunsAppend(Next(s, p[0]), p[1..], q);
    }
  }

  /** A request that comes some time after the one before it. */
  datatype Later = Later(pause: nat, script: Script)

  function ServeAll(k: Keys, requests: seq<Later>): (Keys, seq<Answer>, nat)
    decreases |requests|
  {
    if requests == [] then (k, [], 0)
    else
      var (k1, answer, ran) := Serve(k.(now := k.now + requests[0].pause), requests[0].script);
      var (k2, answers, runs) := ServeAll(k1, requests[1..]);
      (k2, [answer] + answers, runs + if ran then 1 else 0)
  }

  function TotalPause(requests: seq<Later>): nat {
    if requests == [] then 0 else requests[0].pause + TotalPause(requests[1..])
  }

  /** While it lives, the cached response answers every request and no handler runs. */
  lemma {:induction false} CachedResponseIsReplayed(k: Keys, requests: seq<Later>)
    requires CacheLive(k) && k.now + TotalPause(requests) < k.cached.value.expires
    ensures
      var (k', answers, runs) := ServeAll(k, requests);
      && runs == 0 && |answers| == |requests| && k'.cached == k.cached
      && forall i :: 0 <= i < |answers| ==> answers[i] == Replayed(k.cached.value.response)
    decreases |requests|
  {
    if requests != [] {
      CachedResponseIsReplayed(k.(now := k.now + requests[0].pause), requests[1..]);
    }
  }

  /** No lock is alive and no cached response is. */
  predicate Free(k: Keys) {
    && (k.lock.None? || k.lock.value <= k.now)
    && (k.cached.None? || k.cached.value.expires <= k.now)
  }

  /**
   In a sequential history the handler runs once for a response from 200 to 499, which every request of
   the next 24 hours is answered with; a request after that runs it again.
   */
  lemma SequentialRequestsRunOnce(k: Keys, script: Script, later: seq<Later>, pause: nat, next: Script)
    requires Free(k) && script.cacheReply.Works? && script.releaseReply.Works?
    requires script.handler.Responds? && 200 <= script.handler.response.status < 500
    ensures
      var (k', answer, ran) := Serve(k, script);
      var (_, answers, runs) := ServeAll(k', later);
      && ran && answer == Answered(script.handler.response)
      && (TotalPause(later) < 86_400_000 ==>
            runs == 0 && |answers| == |later|
            && forall i :: 0 <= i < |later| ==> answers[i] == Replayed(script.handler.response))
      && (Serve(k'.(now := k'.now + pause), next).2 <==> pause >= 86_400_000)
  {
    var k' := Serve(k, script).0;
    if TotalPause(later) < 86_400_000 {
      CachedResponseIsReplayed(k', later);
    }
  }

  /**
   Any other response, and an exception, leaves nothing behind: no lock, no response, and the next request,
   whenever it comes, runs the handler again.
   */
  lemma OtherResponsesAreForgotten(k: Keys, script: Script, pause: nat, next: Script)
    requires Free(k) && script.releaseReply.Works?
    requires script.handler.Raises? || script.handler.response.status < 200 || 500 <= script.handler.response.status
    ensures
      var (k', answer, ran) := Serve(k, script);
      && ran && k' == Keys(None, k.cached, k.now + script.elapsed)
      && answer == (if script.handler.Raises? then Failed else Answered(script.handler.response))
      && Serve(k'.(now := k'.now + pause), next).2
  {
    hide Settled;
  }

  /** While one request is at work, another that missed the cache is turned away for a minute, and then let in. */
  lemma LockLivesAMinute(s: State, a: nat, b: nat, ms: nat)
    requires a != b && a in s.requests && b in s.requests
    requires s.requests[a].place.Missed? && s.requests[b].place.Missed?
    requires s.keys.lock.None? || s.keys.lock.value <= s.keys.now
    ensures
      var t := Next(Next(Next(s, Acquire(a, Works)), Tick(ms)), Acquire(b, Works));
      && t.requests[a].place == Inside
      && t.requests[b].place == if ms < 60_000 then Finished(Conflict) else Inside
  {
    var s1 := Next(s, Acquire(a, Works));
    assert s1.keys.lock == Some(s.keys.now + 60_000) && s1.requests[b] == s.requests[b];
    var s2 := Next(s1, Tick(ms));
    assert s2.keys.lock == s1.keys.lock && s2.keys.now == s.keys.now + ms && s2.requests == s1.requests;
  }

  /** A command whose reply is lost has done its work all the same; one that fails before has done nothing. */
  lemma RepliesDecide(s: State, r: nat, reply: Reply)
    requires r in s.requests && !reply.Works?
    ensures
      var place := s.requests[r].place;
      && (place.Missed? ==>
            Next(s, Acquire(r, reply)).keys == (if reply.FailsAfter? then Next(s, Acquire(r, Works)).keys else s.keys))
      && (place.ToCache? ==>
            Next(s, Cache(r, reply)).keys == (if reply.FailsAfter? then Next(s, Cache(r, Works)).keys else s.keys))
      && (place.ToRelease? ==>
            Next(s, Release(r, reply)).keys == (if reply.FailsAfter? then Next(s, Release(r, Works)).keys else s.keys))
    ensures s.requests[r].place.ToRelease? ==> Next(s, Release(r, Works)).keys == s.keys.(lock := None)
  {
  }

  /* ----- where the answers come from ----- */

  /** At this step of the run the handler of this request, which holds the lock, returns this response. */
  predicate Returns(s: State, steps: seq<Step>, j: nat, r: nat, response: Response)
    requires j < |steps|
  {
    var t := Runs(s, steps[..j]);
    steps[j] == Handle(r, Responds(response)) && r in t.requests && t.requests[r].place.Inside?
  }

  /** The handler of this request has returned this response. */
  predicate WasReturned(s: State, past: seq<Step>, r: nat, response: Response) {
    exists j :: 0 <= j < |past| && Returns(s, past, j, r, response)
  }

  /** Some handler has returned this response, one of those that are remembered. */
  ghost predicate WasRemembered(s: State, past: seq<Step>, response: Response) {
    200 <= response.status < 500 && exists r :: WasReturned(s, past, r, response)
  }

  ghost predicate AnswerIsRight(s: State, past: seq<Step>, r: nat, answer: Answer) {
    && (answer.Answered? ==> WasReturned(s, past, r, answer.response))
    && (answer.Replayed? ==> WasRemembered(s, past, answer.response))
  }

  ghost predicate PlaceIsRight(s: State, past: seq<Step>, r: nat, place: Place) {
    && (place.ToCache? ==> WasReturned(s, past, r, place.response))
    && (place.ToRelease? || place.Finished? ==> AnswerIsRight(s, past, r, place.answer))
  }

  /** Of the state t reached from s by these steps. */
  ghost predicate AnswersAreRight(s: State, past: seq<Step>, t: State) {
    && (t.keys.cached.Some? ==> WasRemembered(s, past, t.keys.cached.value.response))
    && forall r :: r in t.requests ==> PlaceIsRight(s, past, r, t.requests[r].place)
  }

  lemma LongerPast(s: State, past: seq<Step>, step: Step, r: nat, response: Response)
    ensures WasReturned(s, past, r, response) ==> WasReturned(s, past + [step], r, response)
  {
    if j :| 0 <= j < |past| && Returns(s, past, j, r, response) {
      assert (past + [step])[j] == past[j] && (past + [step])[..j] == past[..j];
      assert Returns(s, past + [step], j, r, response);
    }
  }

  lemma LongerMemory(s: State, past: seq<Step>, step: Step, response: Response)
    ensures WasRemembered(s, past, response) ==> WasRemembered(s, past + [step], response)
  {
    if WasRemembered(s, past, response) {
      var r :| WasReturned(s, past, r, response);
      LongerPast(s, past, step, r, response);
    }
    hide WasReturned;
  }

  lemma ReturnsNow(s: State, past: seq<Step>, t: State, step: Step)
    requires t == Runs(s, past) && step.Handle? && step.result.Responds?
    requires step.r in t.requests && t.requests[step.r].place.Inside?
    ensures WasReturned(s, past + [step], step.r, step.result.response)
  {
    assert (past + [step])[..|past|] == past && (past + [step])[|past|] == step;
    assert step == Handle(step.r, Responds(step.result.response));
    hide Runs;
    assert Returns(s, past + [step], |past|, step.r, step.result.response);
  }

  lemma LongerPastPlace(s: State, past: seq<Step>, step: Step, r: nat, place: Place)
    requires PlaceIsRight(s, past, r, place)
    ensures PlaceIsRight(s, past + [step], r, place)
  {
    hide WasRemembered, WasReturned;
    match place
    case ToCache(response) => LongerPast(s, past, step, r, response);
    case ToRelease(Answered(response)) => LongerPast(s, past, step, r, response);
    case ToRelease(Replayed(response)) => LongerMemory(s, past, step, response);
    case Finished(Answered(response)) => LongerPast(s, past, step, r, response);
    case Finished(Replayed(response)) => LongerMemory(s, past, step, response);
    case _ =>
  }

  lemma StepKeepsCached(s: State, past: seq<Step>, t: State, step: Step)
    requires AnswersAreRight(s, past, t)
    ensures
      var cached := Next(t, step).keys.cached;
      cached.Some? ==> WasRemembered(s, past + [step], cached.value.response)
  {
    var cached := Next(t, step).keys.cached;
    if cached.Some? {
      if cached != t.keys.cached {
        assert step.Cache? && step.r in t.requests && t.requests[step.r].place == ToCache(cached.value.response);
        assert PlaceIsRight(s, past, step.r, t.requests[step.r].place);
      }
      LongerMemory(s, past, step, cached.value.response);
    }
    hide WasReturned, LockHeld;
  }

  lemma StepKeepsPlaces(s: State, past: seq<Step>, t: State, step: Step, r: nat)
    requires t == Runs(s, past) && AnswersAreRight(s, past, t) && r in Next(t, step).requests
    ensures PlaceIsRight(s, past + [step], r, Next(t, step).requests[r].place)
  {
    hide Runs, WasRemembered, WasReturned, LockHeld, Cacheable;
    if r in t.requests { LongerPastPlace(s, past, step, r, t.requests[r].place); }
    if t.keys.cached.Some? { LongerMemory(s, past, step, t.keys.cached.value.response); }
    if step.Handle? && step.result.Responds? && step.r in t.requests && t.requests[step.r].place.Inside? {
      ReturnsNow(s, past, t, step);
    }
  }

  lemma StepKeepsAnswers(s: State, past: seq<Step>, t: State, step: Step)
    requires t == Runs(s, past) && AnswersAreRight(s, past, t)
    ensures Next(t, step) == Runs(s, past + [step]) && AnswersAreRight(s, past + [step], Next(t, step))
  {
    var u := Next(t, step);
    StepKeepsCached(s, past, t, step);
    forall r | r in u.requests ensures PlaceIsRight(s, past + [step], r, u.requests[r].place) {
      StepKeepsPlaces(s, past, t, step, r);
    }
    RunsAppend(s, past, [step]);
    RunsCons(t, step, []);
    hide Next, PlaceIsRight, WasRemembered, Runs;
  }

  lemma {:induction false} RunKeepsAnswers(s: State, past: seq<Step>, t: State, steps: seq<Step>)
    requires t == Runs(s, past) && AnswersAreRight(s, past, t)
    ensures AnswersAreRight(s, past + steps, Runs(t, steps))
    decreases |steps|
  {
    hide Next, AnswersAreRight;
    if steps == [] {
      assert past + steps == past;
    } else {
      StepKeepsAnswers(s, past, t, steps[0]);
      RunKeepsAnswers(s, past + [steps[0]], Next(t, steps[0]), steps[1..]);
      assert past + [steps[0]] + steps[1..] == past + steps;
    }
  }

  /**
   In every interleaving, whatever fails: a request that is answered from its handler gets what its handler
   returned, and one answered from the cache a response from 200 to 499 that some handler of the key returned.
   */
  lemma AnswersComeFromHandlers(s: State, steps: seq<Step>, r: nat)
    requires Initial(s) && r in Runs(s, steps).requests && Runs(s, steps).requests[r].place.Finished?
    ensures
      var answer := Runs(s, steps).requests[r].place.answer;
      && (answer.Answered? ==> exists j :: 0 <= j < |steps| && Returns(s, steps, j, r, answer.response))
      && (answer.Replayed? ==>
            && 200 <= answer.response.status < 500
            && exists q, j :: 0 <= j < |steps| && Returns(s, steps, j, q, answer.response))
  {
    RunKeepsAnswers(s, [], s, steps);
    assert [] + steps == steps;
    hide Runs, Returns;
    assert PlaceIsRight(s, steps, r, Runs(s, steps).requests[r].place);
  }

  /* ----- the key ----- */

  /** method, path and the header, joined by colons. */
  function KeyOf(httpMethod: string, path: string, rawKey: string): string {
    httpMethod + ":" + path + ":" + rawKey
  }

  /** Requests to paths without a colon share a key only if method, path and header agree. */
  lemma KeysAreDistinct(m: string, p: string, k: string, m': string, p': string, k': string)
    requires ':' !in m && ':' !in m' && ':' !in p && ':' !in p'
    requires KeyOf(m, p, k) == KeyOf(m', p', k')
    ensures m == m' && p == p' && k == k'
  {
    assert KeyOf(m, p, k) == m + ":" + (p + ":" + k) && KeyOf(m', p', k') == m' + ":" + (p' + ":" + k');
    ColonSplits(m, p + ":" + k, m', p' + ":" + k');
    ColonSplits(p, k, p', k');
  }

  /** A colon can be moved from the path to the header and back: wherever one stands, two requests meet on one key. */
  lemma ColonsCollide(m: string, a: string, b: string, c: string)
    ensures KeyOf(m, a + ":" + b, c) == KeyOf(m, a, b + ":" + c)
    ensures (a + ":" + b, c) != (a, b + ":" + c)
  {
    assert (a + ":" + b) + ":" + c == a + ":" + (b + ":" + c);
    assert |a + ":" + b| != |a|;
  }

  lemma SameSplit(p: string, k: string, p': string, k': string)
    requires p + ":" + k == p' + ":" + k'
    ensures |p| == |p'| ==> p == p' && k == k'
  {
    var s := p + ":" + k;
    assert p == s[..|p|] && k == s[|p| + 1..] && p' == s[..|p'|] && k' == s[|p'| + 1..];
  }

  /** Equal keys of one method differ in where the separating colon is. */
  lemma SameKeyOtherSplit(m: string, p: string, k: string, m': string, p': string, k': string)
    requires ':' !in m && ':' !in m' && KeyOf(m, p, k) == KeyOf(m', p', k') && (m, p, k) != (m', p', k')
    ensures m == m' && |p| != |p'|
    ensures |p'| < |p| ==> p[|p'|] == ':'
    ensures |p'| > |p| ==> |p'| - |p| - 1 < |k| && k[|p'| - |p| - 1] == ':'
  {
    var s, t := p + ":" + k, p' + ":" + k';
    assert KeyOf(m, p, k) == m + ":" + s && KeyOf(m', p', k') == m' + ":" + t;
    ColonSplits(m, s, m', t);
    SameSplit(p, k, p', k');
    assert t[|p'|] == ':' && |p'| < |s|;
  }

  /** Some other request has the key of this one if and only if there is a colon in its path or header. */
  lemma KeysCollideIffColon(m: string, p: string, k: string)
    requires ':' !in m
    ensures (exists m', p', k' :: ':' !in m' && (m', p', k') != (m, p, k) && KeyOf(m', p', k') == KeyOf(m, p, k))
      <==> ':' in p || ':' in k
  {
    if m', p', k' :| ':' !in m' && (m', p', k') != (m, p, k) && KeyOf(m', p', k') == KeyOf(m, p, k) {
      SameKeyOtherSplit(m, p, k, m', p', k');
    }
    if ':' in p {
      var i :| 0 <= i < |p| && p[i] == ':';
      ColonsCollide(m, p[..i], p[i + 1..], k);
      assert p == p[..i] + ":" + p[i + 1..];
    } else if ':' in k {
      var i :| 0 <= i < |k| && k[i] == ':';
      ColonsCollide(m, p, k[..i], k[i + 1..]);
      assert k == k[..i] + ":" + k[i + 1..];
    }
  }

  /** What the route makes a key of: a path from the root and a header that is not empty. */
  predicate Keyed(p: string, k: string) {
    p != "" && p[0] == '/' && k != ""
  }

  /**
   Of requests the route serves under a key, one shares it exactly if the path has a colon or the header one
   before its end.
   */
  lemma KeyedRequestsCollideIff(m: string, p: string, k: string)
    requires ':' !in m && Keyed(p, k)
    ensures
      (exists m', p', k' ::
         ':' !in m' && Keyed(p', k') && (m', p', k') != (m, p, k) && KeyOf(m', p', k') == KeyOf(m, p, k))
      <==> ':' in p || ':' in k[..|k| - 1]
  {
    if m', p', k' :| ':' !in m' && Keyed(p', k') && (m', p', k') != (m, p, k) && KeyOf(m', p', k') == KeyOf(m, p, k) {
      SameKeyOtherSplit(m, p, k, m', p', k');
      assert |KeyOf(m', p', k')| == |m'| + |p'| + |k'| + 2 && |KeyOf(m, p, k)| == |m| + |p| + |k| + 2;
      if |p'| > |p| { assert k[..|k| - 1][|p'| - |p| - 1] == ':'; }
    }
    if ':' in p {
      var i :| 0 <= i < |p| && p[i] == ':';
      ColonsCollide(m, p[..i], p[i + 1..], k);
      assert p == p[..i] + ":" + p[i + 1..] && Keyed(p[..i], p[i + 1..] + ":" + k);
    } else if ':' in k[..|k| - 1] {
      var i :| 0 <= i < |k| - 1 && k[..|k| - 1][i] == ':';
      ColonsCollide(m, p, k[..i], k[i + 1..]);
      assert k == k[..i] + ":" + k[i + 1..] && Keyed(p + ":" + k[..i], k[i + 1..]);
    }
  }

  /** An instance: a path with a colon meets the path before it. */
  lemma ColonsCanCollide()
    ensures KeyOf("POST", "/a:b", "c") == KeyOf("POST", "/a", "b:c") == "POST:/a:b:c"
  {
    ColonsCollide("POST", "/a", "b", "c");
  }

  /* ----- the route, statement by statement ----- */

  /**
   What one request does to its key: a live response is replayed and a lock of the last 60 seconds turns it
   away, which changes nothing; otherwise the handler runs, a response from 200 to 499 is kept for 24 hours from
   then on, and the lock is gone, or, if its deletion fails, lives for 60 seconds from its taking.
   */
  predicate AnsweredAlone(k: Keys, script: Script, k': Keys, answer: Answer, ran: bool) {
    if k.cached.Some? && k.now < k.cached.value.expires then
      k' == k && answer == Replayed(k.cached.value.response) && !ran
    else if k.lock.Some? && k.now < k.lock.value then
      k' == k && answer == Conflict && !ran
    else
      var h := script.handler;
      var keeps := h.Responds? && 200 <= h.response.status < 500;
      && ran && k'.now == k.now + script.elapsed
      && k'.lock == (if script.releaseReply.FailsBefore? then Some(k.now + 60_000) else None)
      && k'.cached == (if keeps && !script.cacheReply.FailsBefore?
           then Some(Entry(h.response, k.now + script.elapsed + 86_400_000)) else k.cached)
      && answer == (if h.Responds? && script.releaseReply.Works? && (keeps ==> script.cacheReply.Works?)
           then Answered(h.response) else Failed)
  }

  /** The lock and response keys of every Idempotency-Key. */
  class IdempotentRoute {
    var locks: map<string, nat>
    var responses: map<string, Entry>
    var now: nat

    /** What the route sees of one key. */
    function View(key: string): Keys
      reads this
    {
      Keys(if key in locks then Some(locks[key]) else None,
           if key in responses then Some(responses[key]) else None, now)
    }

    method TryLock(key: string) returns (acquired: bool)
      modifies this`locks
      ensures acquired <==> !LockHeld(old(View(key)))
      ensures View(key) == AcquireLock(old(View(key)))
      ensures forall other :: other != key ==> View(other) == old(View(other))
    {
      acquired := !(key in locks && now < locks[key]);
      if acquired {
        locks := locks[key := now + LOCK_TTL];
      }
    }

    method Unlock(key: string)
      modifies this`locks
      ensures View(key) == ReleaseLock(old(View(key)))
      ensures forall other :: other != key ==> View(other) == old(View(other))
    {
      locks := locks - {key};
    }

    method Remember(key: string, response: Response)
      modifies this`responses
      ensures View(key) == CacheResponse(old(View(key)), response)
      ensures forall other :: other != key ==> View(other) == old(View(other))
    {
      responses := responses[key := Entry(response, now + RESPONSE_TTL)];
    }

    /** custom_route_handler for a request no other interleaves with; without a key it only runs the handler. */
    method HandleRequest(httpMethod: string, path: string, rawKey: Option<string>, script: Script)
      returns (answer: Answer, ran: bool)
      modifies this
      ensures (rawKey.None? || rawKey.value == "") ==>
        ran && locks == old(locks) && responses == old(responses)
        && answer == if script.handler.Responds? then Answered(script.handler.response) else Failed
      ensures rawKey.Some? && rawKey.value != "" ==>
        var key := KeyOf(httpMethod, path, rawKey.value);
        && (View(key), answer, ran) == Serve(old(View(key)), script)
        && AnsweredAlone(old(View(key)), script, View(key), answer, ran)
        && forall other :: other != key ==> View(other) == old(View(other)).(now := now)
    {
      if rawKey.None? || rawKey.value == "" {
        now := now + script.elapsed;
        return if script.handler.Responds? then Answered(script.handler.response) else Failed, true;
      }
      var key := KeyOf(httpMethod, path, rawKey.value);
      if key in responses && now < responses[key].expires {
        return Replayed(responses[key].response), false;
      }
      var acquired := TryLock(key);
      if !acquired {
        return Conflict, false;
      }
      ran, answer := true, Failed;
      now := now + script.elapsed;
      if script.handler.Responds? {
        var response := script.handler.response;
        answer := Answered(response);
        if 200 <= response.status < 500 {
          if script.cacheReply != FailsBefore {
            Remember(key, response);
          }
          if script.cacheReply != Works {
            answer := Failed;
          }
        }
      }
      if script.releaseReply != FailsBefore {
        Unlock(key);
      }
      if script.releaseReply != Works {
        answer := Failed;
      }
    }
  }
}
