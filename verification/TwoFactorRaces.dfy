/**
 Checks of second factors that overlap. The record with its backup codes is read once, at the start of
 a check, and the list is written back as a whole; the replay key is read by one command and set by
 another. One user's checks, in every interleaving of their reads and writes.
 */
module TwoFactorRaces {
  import opened Text
  import opened TwoFactor

  /**
   How far a check has come: the record read, with the list's version; the code taken by the generator
   in a step; no replay key found; the key set; or a backup code used.
   */
  datatype Place =
    | Absent
    | Arrived(copy: seq<CodeRecord>, version: nat)
    | Taken(slice: nat)
    | Cleared(slice: nat)
    | Accepted(slice: nat)
    | Used
    | Refused

  /** A command for the key of a step: its place in the run, and its time. */
  datatype Mark = Mark(slice: nat, order: nat, at: nat)

  /**
   The list, the replay keys with their ends, the clock and the checks; and, read by no step, the order of
   the steps, the commands sent, how often the list was written, at which version it was issued, and since
   then the successes, whether one wrote back a list that was no longer the current one, and whether one
   wrote back a list read before the issue.
   */
  datatype State = State(
    codes: seq<CodeRecord>, replays: map<nat, nat>, now: nat, checks: map<nat, Place>,
    order: nat, looks: map<nat, Mark>, sets: map<nat, Mark>,
    version: nat, issued: nat, successes: nat, overlapped: bool, undone: bool)

  datatype Step =
    | Wait(ms: nat)
    | Arrive(id: nat)
    | Take(id: nat)
    | Look(id: nat)
    | SetKey(id: nat)
    | Spend(id: nat, hash: string)
    | Reissue(hashes: seq<string>)

  function PlaceOf(s: State, id: nat): Place {
    if id in s.checks then s.checks[id] else Absent
  }

  function At(s: State, id: nat, place: Place): State {
    s.(checks := s.checks[id := place])
  }

  predicate KeyLive(s: State, slice: nat) {
    slice in s.replays && s.now < s.replays[slice]
  }

  function AfterLook(s: State, id: nat, slice: nat): State {
    At(s, id, if KeyLive(s, slice) then Refused
      else Cleared(slice)).(looks := s.looks[id := Mark(slice, s.order, s.now)])
  }

  function AfterSet(s: State, id: nat, slice: nat): State {
    At(s, id, Accepted(slice)).(replays := s.replays[slice := s.now + REPLAY_MS],
      sets := s.sets[id := Mark(slice, s.order, s.now)])
  }

  function AfterSpend(s: State, id: nat, copy: seq<CodeRecord>, version: nat, hash: string): State {
    if CodeRecord(hash, false) !in copy then At(s, id, Refused)
    else
      s.(checks := s.checks[id := Used], codes := Consume(copy, hash), version := s.version + 1,
        successes := s.successes + 1,
         overlapped := s.overlapped || version != s.version, undone := s.undone || version < s.issued)
  }

  function Act(s: State, step: Step): State {
    match step
    case Wait(ms) => s.(now := s.now + ms)
    case Arrive(id) => if PlaceOf(s, id).Absent? then At(s, id, Arrived(s.codes, s.version)) else s
    case Take(id) => if PlaceOf(s, id).Arrived? then At(s, id, Taken(SliceOf(s.now))) else s
    case Look(id) =>
      if PlaceOf(s, id).Taken? then AfterLook(s, id, PlaceOf(s, id).slice) else s
    case SetKey(id) =>
      if PlaceOf(s, id).Cleared? then AfterSet(s, id, PlaceOf(s, id).slice) else s
    case Spend(id, hash) =>
      if PlaceOf(s, id).Arrived? then AfterSpend(s, id, PlaceOf(s, id).copy, PlaceOf(s, id).version, hash) else s
    case Reissue(hashes) =>
      s.(codes := Fresh(hashes), version := s.version + 1, issued := s.version + 1, successes := 0,
        overlapped := false, undone := false)
  }

  function Next(s: State, step: Step): State {
    Act(s, step).(order := s.order + 1)
  }

  function Runs(s: State, steps: seq<Step>): State
    decreases |steps|
  {
    if steps == [] then s else Runs(Next(s, steps[0]), steps[1..])
  }

  /** A list just issued, and nobody checking. */
  predicate Initial(s: State) {
    && CountUsed(s.codes) == 0 && s.replays == map[] && s.checks == map[] && s.looks == map[] && s.sets == map[]
    && s.issued == s.version && s.successes == 0 && !s.overlapped && !s.undone
  }

  /* ----- the replay key ----- */

  /** No key set before the look was alive at it. */
  predicate NoneAliveAt(s: State, look: Mark) {
    forall c :: c in s.sets && s.sets[c].slice == look.slice && s.sets[c].order < look.order ==>
      s.sets[c].at + REPLAY_MS <= look.at
  }

  predicate LetIn(s: State, id: nat) {
    PlaceOf(s, id).Cleared? || PlaceOf(s, id).Accepted?
  }

  predicate LookIsRight(s: State, b: nat) {
    && b in s.looks && s.looks[b].order < s.order
    && (LetIn(s, b) || PlaceOf(s, b).Refused?) && (LetIn(s, b) ==> PlaceOf(s, b).slice == s.looks[b].slice)
    && (LetIn(s, b) <==> NoneAliveAt(s, s.looks[b]))
  }

  predicate KeyIsKept(s: State, c: nat) {
    && c in s.sets && s.sets[c].order < s.order && PlaceOf(s, c) == Accepted(s.sets[c].slice)
    && s.sets[c].slice * STEP_MS <= s.sets[c].at <= s.now
    && s.sets[c].slice in s.replays && s.sets[c].at + REPLAY_MS <= s.replays[s.sets[c].slice]
  }

  predicate SetBySome(s: State, slice: nat) {
    slice in s.replays &&
      exists c :: c in s.sets && s.sets[c].slice == slice && s.sets[c].at + REPLAY_MS == s.replays[slice]
  }

  predicate PlaceIsRight(s: State, id: nat) {
    var p := PlaceOf(s, id);
    && (p.Taken? || p.Cleared? ==> p.slice * STEP_MS <= s.now)
    && (p.Cleared? || p.Accepted? ==> id in s.looks) && (p.Accepted? ==> id in s.sets)
  }

  ghost predicate KeysInv(s: State) {
    && (forall b :: b in s.looks ==> LookIsRight(s, b))
    && (forall c :: c in s.sets ==> KeyIsKept(s, c))
    && (forall slice :: slice in s.replays ==> SetBySome(s, slice))
    && (forall id: nat :: PlaceIsRight(s, id))
  }

  /** The key is alive exactly while one of the keys set for the step is. */
  lemma AliveIffOneIs(s: State, slice: nat)
    requires KeysInv(s)
    ensures !KeyLive(s, slice) <==> NoneAliveAt(s, Mark(slice, s.order, s.now))
  {
    if KeyLive(s, slice) {
      assert SetBySome(s, slice);
      var c :| c in s.sets && s.sets[c].slice == slice && s.sets[c].at + REPLAY_MS == s.replays[slice];
      assert KeyIsKept(s, c);
    } else {
      forall c | c in s.sets && s.sets[c].slice == slice ensures s.sets[c].at + REPLAY_MS <= s.now {
        assert KeyIsKept(s, c);
      }
    }
  }

  lemma LookOfOne(s: State, id: nat, b: nat)
    requires PlaceOf(s, id).Taken?
      && (KeyLive(s, PlaceOf(s, id).slice) <==> !NoneAliveAt(s, Mark(PlaceOf(s, id).slice, s.order, s.now)))
    requires b != id ==> LookIsRight(s, b)
    ensures LookIsRight(Next(s, Look(id)), b)
  {
    SameKeys(s, Next(s, Look(id)));
    hide KeyLive, NoneAliveAt;
  }

  lemma LookKeepsPlaces(s: State, id: nat, j: nat)
    requires PlaceOf(s, id).Taken? && PlaceIsRight(s, id) && PlaceIsRight(s, j)
    ensures PlaceIsRight(Next(s, Look(id)), j) && (KeyIsKept(s, j) ==> KeyIsKept(Next(s, Look(id)), j))
  {
    hide KeyLive;
  }

  /** A look answered: all else stays. */
  lemma LookKeepsKeys(s: State, id: nat)
    requires KeysInv(s) && PlaceOf(s, id).Taken?
    ensures KeysInv(Next(s, Look(id)))
  {
    var t := Next(s, Look(id));
    AliveIffOneIs(s, PlaceOf(s, id).slice);
    SameKeys(s, t);
    hide NoneAliveAt, KeyLive, LookIsRight, PlaceIsRight, KeyIsKept, SetBySome;
    forall b | b in t.looks ensures LookIsRight(t, b) { LookOfOne(s, id, b); }
    forall c | c in t.sets ensures KeyIsKept(t, c) { LookKeepsPlaces(s, id, c); }
    forall j: nat ensures PlaceIsRight(t, j) { LookKeepsPlaces(s, id, j); }
  }

  lemma SameKeys(s: State, t: State)
    requires t.sets == s.sets && t.replays == s.replays
    ensures forall look :: NoneAliveAt(t, look) <==> NoneAliveAt(s, look)
    ensures forall k :: SetBySome(s, k) ==> SetBySome(t, k)
  {
  }

  lemma SetKeepsLook(s: State, id: nat, b: nat)
    requires PlaceOf(s, id).Cleared? && id !in s.sets && LookIsRight(s, b)
    ensures LookIsRight(Next(s, SetKey(id)), b)
  {
    LaterKeyIsNotBefore(s, Next(s, SetKey(id)), s.looks[b], id, Mark(PlaceOf(s, id).slice, s.order, s.now));
    hide NoneAliveAt;
  }

  lemma SetKeepsPlaces(s: State, id: nat, j: nat)
    requires PlaceOf(s, id).Cleared? && PlaceIsRight(s, id) && PlaceIsRight(s, j)
    ensures PlaceIsRight(Next(s, SetKey(id)), j) && (j == id || KeyIsKept(s, j) ==> KeyIsKept(Next(s, SetKey(id)), j))
  {
  }

  /** A key set: none before it and none of another step is changed. */
  lemma SetKeepsKeys(s: State, id: nat)
    requires KeysInv(s) && PlaceOf(s, id).Cleared?
    ensures KeysInv(Next(s, SetKey(id)))
  {
    var t := Next(s, SetKey(id));
    assert id in s.sets ==> KeyIsKept(s, id);
    hide NoneAliveAt, SetBySome, LookIsRight, PlaceIsRight;
    forall k | k in t.replays
      ensures SetBySome(t, k) { StillSet(s, t, k, id, Mark(PlaceOf(s, id).slice, s.order, s.now)); }
    hide KeyIsKept;
    forall b | b in t.looks ensures LookIsRight(t, b) { SetKeepsLook(s, id, b); }
    forall c | c in t.sets ensures KeyIsKept(t, c) { SetKeepsPlaces(s, id, c); }
    forall j: nat ensures PlaceIsRight(t, j) { SetKeepsPlaces(s, id, j); }
  }

  lemma LaterKeyIsNotBefore(s: State, t: State, look: Mark, id: nat, mark: Mark)
    requires id !in s.sets && t.sets == s.sets[id := mark] && look.order <= mark.order
    ensures NoneAliveAt(t, look) <==> NoneAliveAt(s, look)
  {
    if NoneAliveAt(t, look) {
      forall c | c in s.sets && s.sets[c].slice == look.slice && s.sets[c].order < look.order
        ensures s.sets[c].at + REPLAY_MS <= look.at {
        assert c in t.sets && t.sets[c] == s.sets[c];
      }
    }
  }

  lemma StillSet(s: State, t: State, slice: nat, id: nat, mark: Mark)
    requires slice in s.replays && slice != mark.slice ==> SetBySome(s, slice)
    requires id !in s.sets && t.sets == s.sets[id := mark] && t.replays == s.replays[mark.slice := mark.at + REPLAY_MS]
    ensures slice in t.replays ==> SetBySome(t, slice)
  {
    if slice == mark.slice {
      assert id in t.sets && t.sets[id].slice == slice;
    } else if slice in s.replays {
      var c :| c in s.sets && s.sets[c].slice == slice && s.sets[c].at + REPLAY_MS == s.replays[slice];
      assert c in t.sets && t.sets[c].slice == slice;
    }
  }

  /** Between steps that send no command, a check stays or goes on before its look. */
  predicate NoCommand(s: State, t: State, id: nat) {
    var (p, q) := (PlaceOf(s, id), PlaceOf(t, id));
    p == q || ((p.Absent? || p.Arrived?) && (q.Arrived? || q == Taken(SliceOf(s.now)) || q.Used? || q.Refused?))
  }

  predicate Quiet(s: State, t: State) {
    t.looks == s.looks && t.sets == s.sets && t.replays == s.replays && t.order == s.order + 1 && t.now >= s.now
  }

  lemma SpendIsQuiet(s: State, id: nat, copy: seq<CodeRecord>, version: nat, hash: string)
    ensures
      var t := AfterSpend(s, id, copy, version, hash);
      && t.looks == s.looks && t.sets == s.sets && t.replays == s.replays && t.order == s.order && t.now == s.now
      && (t.checks == s.checks[id := Used] || t.checks == s.checks[id := Refused])
  {
    hide Consume;
  }

  lemma OthersSendNoCommand(s: State, step: Step, id: nat)
    requires (step.Look? ==> !PlaceOf(s, step.id).Taken?) && (step.SetKey? ==> !PlaceOf(s, step.id).Cleared?)
    ensures Quiet(s, Next(s, step)) && NoCommand(s, Next(s, step), id)
  {
    if step.Spend? && PlaceOf(s, step.id).Arrived? {
      SpendIsQuiet(s, step.id, PlaceOf(s, step.id).copy, PlaceOf(s, step.id).version, step.hash);
    }
    hide AfterSpend, AfterLook, AfterSet, Fresh, SliceOf;
  }

  lemma LookStaysRight(s: State, t: State, b: nat)
    requires Quiet(s, t) && LookIsRight(s, b) && NoCommand(s, t, b)
    ensures LookIsRight(t, b)
  {
  }

  lemma PlacesStayRight(s: State, t: State, j: nat)
    requires Quiet(s, t) && NoCommand(s, t, j) && PlaceIsRight(s, j)
    ensures PlaceIsRight(t, j) && (KeyIsKept(s, j) ==> KeyIsKept(t, j))
  {
  }

  lemma OthersKeepKeys(s: State, step: Step)
    requires KeysInv(s) && (step.Look? ==> !PlaceOf(s, step.id).Taken?)
      && (step.SetKey? ==> !PlaceOf(s, step.id).Cleared?)
    ensures KeysInv(Next(s, step))
  {
    var t := Next(s, step);
    OthersSendNoCommand(s, step, 0);
    SameKeys(s, t);
    hide Next, NoneAliveAt, SetBySome, LookIsRight, KeyIsKept, PlaceIsRight, NoCommand;
    forall b | b in t.looks ensures LookIsRight(t, b) {
      OthersSendNoCommand(s, step, b);
      LookStaysRight(s, t, b);
    }
    forall c: nat ensures PlaceIsRight(t, c) && (c in t.sets ==> KeyIsKept(t, c)) {
      OthersSendNoCommand(s, step, c);
      PlacesStayRight(s, t, c);
    }
  }

  lemma StepKeepsKeys(s: State, step: Step)
    requires KeysInv(s)
    ensures KeysInv(Next(s, step))
  {
    hide KeysInv, Next;
    if step.Look? && PlaceOf(s, step.id).Taken? {
      LookKeepsKeys(s, step.id);
    } else if step.SetKey? && PlaceOf(s, step.id).Cleared? {
      SetKeepsKeys(s, step.id);
    } else {
      OthersKeepKeys(s, step);
    }
  }

  lemma {:induction false} EveryRunKeepsKeys(s: State, steps: seq<Step>)
    requires KeysInv(s)
    ensures KeysInv(Runs(s, steps))
    decreases |steps|
  {
    hide Next, KeysInv;
    if steps != [] {
      StepKeepsKeys(s, steps[0]);
      EveryRunKeepsKeys(Next(s, steps[0]), steps[1..]);
    }
  }

  lemma StartsWithKeys(s: State)
    requires Initial(s)
    ensures KeysInv(s)
  {
  }

  /**
   In every interleaving: a check is let in exactly if every key set for its step before it looked had
   expired. Looking before the step after next is over, exactly if none had been set.
   */
  lemma LetInIffNoneSetBefore(s: State, steps: seq<Step>, b: nat)
    requires Initial(s) && b in Runs(s, steps).looks
    ensures
      var t := Runs(s, steps);
      var look := t.looks[b];
      && (LetIn(t, b) <==> NoneAliveAt(t, look))
      && (look.at < (look.slice + 2) * STEP_MS ==>
            (LetIn(t, b) <==> forall c :: c in t.sets && t.sets[c].slice == look.slice ==>
              look.order <= t.sets[c].order))
  {
    StartsWithKeys(s);
    EveryRunKeepsKeys(s, steps);
    hide Runs;
    var t := Runs(s, steps);
    assert LookIsRight(t, b);
    forall c | c in t.sets && t.sets[c].slice == t.looks[b].slice
      ensures t.sets[c].slice * STEP_MS + REPLAY_MS <= t.sets[c].at + REPLAY_MS {
      assert KeyIsKept(t, c);
    }
  }

  /**
   So two acceptances in one step, both of which looked in time, overlapped: each looked before the other set the
   key.
   */
  lemma SharedStepsOverlapped(s: State, steps: seq<Step>, a: nat, b: nat)
    requires Initial(s)
    requires PlaceOf(Runs(s, steps), a).Accepted? && PlaceOf(Runs(s, steps), b) == PlaceOf(Runs(s, steps), a)
    ensures
      var t := Runs(s, steps);
      && a in t.looks && a in t.sets && b in t.looks && b in t.sets
      && (t.looks[a].at < (t.looks[a].slice + 2) * STEP_MS && t.looks[b].at < (t.looks[b].slice + 2) * STEP_MS ==>
            t.looks[a].order <= t.sets[b].order && t.looks[b].order <= t.sets[a].order)
  {
    StartsWithKeys(s);
    EveryRunKeepsKeys(s, steps);
    var t := Runs(s, steps);
    hide Runs;
    assert PlaceIsRight(t, a) && PlaceIsRight(t, b);
    assert KeyIsKept(t, a) && KeyIsKept(t, b);
    assert LookIsRight(t, a) && LookIsRight(t, b);
    LetInIffNoneSetBefore(s, steps, a);
    LetInIffNoneSetBefore(s, steps, b);
  }

  /** Which can happen: two checks that both look before either sets are both accepted. */
  lemma OneStepTwice(s: State, a: nat, b: nat, slice: nat)
    requires a != b && PlaceOf(s, a) == Taken(slice) && PlaceOf(s, b) == Taken(slice) && !KeyLive(s, slice)
    ensures
      var t := Runs(s, [Look(a), Look(b), SetKey(a), SetKey(b)]);
      PlaceOf(t, a) == Accepted(slice) && PlaceOf(t, b) == Accepted(slice)
  {
    FourSteps(s, Look(a), Look(b), SetKey(a), SetKey(b));
    var s1 := Next(s, Look(a));
    assert PlaceOf(s1, a) == Cleared(slice) && PlaceOf(s1, b) == Taken(slice) && !KeyLive(s1, slice);
    var s2 := Next(s1, Look(b));
    assert PlaceOf(s2, a) == Cleared(slice) && PlaceOf(s2, b) == Cleared(slice);
    var s3 := Next(s2, SetKey(a));
    assert PlaceOf(s3, a) == Accepted(slice) && PlaceOf(s3, b) == Cleared(slice);
  }

  lemma FourSteps(s: State, p: Step, q: Step, r: Step, u: Step)
    ensures Runs(s, [p, q, r, u]) == Next(Next(Next(Next(s, p), q), r), u)
  {
    hide Next;
    TwoSteps(s, p, q, [r, u]);
    TwoSteps(Next(Next(s, p), q), r, u, []);
    assert [p, q] + [r, u] == [p, q, r, u] && [r, u] + [] == [r, u];
  }

  lemma TwoSteps(s: State, p: Step, q: Step, rest: seq<Step>)
    ensures Runs(s, [p, q] + rest) == Runs(Next(Next(s, p), q), rest)
  {
    hide Next;
    assert ([p, q] + rest)[1..] == [q] + rest && ([q] + rest)[1..] == rest;
  }

  /* ----- the list of backup codes ----- */

  predicate CopyIsRight(s: State, id: nat) {
    PlaceOf(s, id).Arrived? ==>
      var (copy, version) := (PlaceOf(s, id).copy, PlaceOf(s, id).version);
      && version <= s.version && (version == s.version ==> copy == s.codes)
      && (s.issued <= version < s.version && !s.undone ==> CountUsed(copy) < s.successes)
  }

  predicate CountsAreRight(s: State) {
    && s.issued <= s.version
    && (!s.undone ==> CountUsed(s.codes) <= s.successes && (s.overlapped <==> CountUsed(s.codes) < s.successes))
  }

  ghost predicate ListInv(s: State) {
    CountsAreRight(s) && forall id: nat :: CopyIsRight(s, id)
  }

  lemma SpendKeepsCounts(s: State, id: nat, hash: string)
    requires PlaceOf(s, id).Arrived? && CountsAreRight(s) && CopyIsRight(s, id)
    ensures CountsAreRight(Next(s, Spend(id, hash)))
  {
    ConsumeUsesOne(PlaceOf(s, id).copy, hash);
    hide Consume, CountUsed;
  }

  lemma SpendKeepsCopies(s: State, id: nat, hash: string, j: nat)
    requires PlaceOf(s, id).Arrived? && CountsAreRight(s) && CopyIsRight(s, j)
    ensures CopyIsRight(Next(s, Spend(id, hash)), j)
  {
    hide Consume, CountUsed;
  }

  predicate ListStays(s: State, t: State) {
    && t.codes == s.codes && t.version == s.version && t.issued == s.issued
    && t.successes == s.successes && t.overlapped == s.overlapped && t.undone == s.undone
  }

  predicate CopyStays(s: State, t: State, j: nat) {
    PlaceOf(t, j).Arrived? ==> PlaceOf(t, j) == PlaceOf(s, j) || PlaceOf(t, j) == Arrived(s.codes, s.version)
  }

  lemma OthersWriteNoList(s: State, step: Step, j: nat)
    requires !step.Spend? && !step.Reissue?
    ensures ListStays(s, Next(s, step)) && CopyStays(s, Next(s, step), j)
  {
    hide KeyLive, SliceOf;
  }

  lemma ReissueKeepsCopy(s: State, hashes: seq<string>, j: nat)
    requires CountsAreRight(s) && CopyIsRight(s, j)
    ensures CopyIsRight(Next(s, Step.Reissue(hashes)), j)
  {
    hide CountUsed, Fresh;
  }

  lemma ReissueKeepsCounts(s: State, hashes: seq<string>)
    ensures CountsAreRight(Next(s, Step.Reissue(hashes)))
  {
    NoneUsed(Fresh(hashes));
    hide CountUsed;
  }

  lemma ListStaysRight(s: State, t: State, j: nat)
    requires CountsAreRight(s) && CopyIsRight(s, j) && ListStays(s, t) && CopyStays(s, t, j)
    ensures CountsAreRight(t) && CopyIsRight(t, j)
  {
    hide CountUsed;
  }

  lemma StepKeepsList(s: State, step: Step)
    requires ListInv(s)
    ensures ListInv(Next(s, step))
  {
    hide CountsAreRight, CopyIsRight;
    if step.Spend? && PlaceOf(s, step.id).Arrived? {
      SpendKeepsCounts(s, step.id, step.hash);
      hide Next;
      forall j: nat ensures CopyIsRight(Next(s, step), j) { SpendKeepsCopies(s, step.id, step.hash, j); }
    } else if step.Reissue? {
      ReissueKeepsCounts(s, step.hashes);
      hide Next;
      forall j: nat ensures CopyIsRight(Next(s, step), j) { ReissueKeepsCopy(s, step.hashes, j); }
    } else {
      forall j: nat ensures CountsAreRight(Next(s, step)) && CopyIsRight(Next(s, step), j) {
        if !step.Spend? { OthersWriteNoList(s, step, j); }
        ListStaysRight(s, Next(s, step), j);
      }
      assert CopyIsRight(Next(s, step), 0);
    }
  }

  lemma {:induction false} EveryRunKeepsList(s: State, steps: seq<Step>)
    requires ListInv(s)
    ensures ListInv(Runs(s, steps))
    decreases |steps|
  {
    hide Next, ListInv;
    if steps != [] {
      StepKeepsList(s, steps[0]);
      EveryRunKeepsList(Next(s, steps[0]), steps[1..]);
    }
  }

  /**
   In every interleaving in which no list is written back that was read before the last issue: the used
   records are at most the successes since, and fewer exactly if some success wrote back a list that
   another had replaced since it was read.
   */
  lemma FewerUsedIffOverlapped(s: State, steps: seq<Step>)
    requires Initial(s)
    ensures
      var t := Runs(s, steps);
      !t.undone ==> CountUsed(t.codes) <= t.successes && (CountUsed(t.codes) < t.successes <==> t.overlapped)
  {
    EveryRunKeepsList(s, steps);
    hide Runs;
  }

  /** The check that a step is of, if any. */
  predicate IsOf(step: Step, id: nat) {
    match step
    case Wait(_) => false
    case Reissue(_) => false
    case Spend(j, _) => j == id
    case Arrive(j) => j == id
    case Take(j) => j == id
    case Look(j) => j == id
    case SetKey(j) => j == id
  }

  lemma {:induction false} PlaceStays(s: State, steps: seq<Step>, id: nat)
    requires forall i :: 0 <= i < |steps| ==> !IsOf(steps[i], id)
    ensures PlaceOf(Runs(s, steps), id) == PlaceOf(s, id)
    decreases |steps|
  {
    if steps != [] {
      OthersLeaveIt(s, steps[0], id);
      hide Next, IsOf;
      PlaceStays(Next(s, steps[0]), steps[1..], id);
    }
  }

  lemma OthersLeaveIt(s: State, step: Step, id: nat)
    requires !IsOf(step, id)
    ensures PlaceOf(Next(s, step), id) == PlaceOf(s, id)
  {
    hide Consume, Fresh, SliceOf, KeyLive;
  }

  /**
   Whether a backup code passes is decided when its check reads the list, and its success puts back that
   list: whatever other checks used up, or a reissue replaced, in between is undone.
   */
  lemma DecidedAtItsRead(s: State, id: nat, between: seq<Step>, hash: string)
    requires PlaceOf(s, id).Absent? && forall i :: 0 <= i < |between| ==> !IsOf(between[i], id)
    ensures
      var t := Runs(Next(s, Arrive(id)), between);
      var u := Next(t, Spend(id, hash));
      && (PlaceOf(u, id) == Used <==> CodeRecord(hash, false) in s.codes)
      && u.codes == if CodeRecord(hash, false) in s.codes then Consume(s.codes, hash) else t.codes
  {
    PlaceStays(Next(s, Arrive(id)), between, id);
    hide Runs, Consume;
  }

  /** So two checks that both read before either writes both pass with one code, and use one record. */
  lemma OneCodeTwice(s: State, a: nat, b: nat, hash: string)
    requires a != b && PlaceOf(s, a).Absent? && PlaceOf(s, b).Absent? && CodeRecord(hash, false) in s.codes
    ensures
      var t := Runs(s, [Arrive(a), Arrive(b), Spend(a, hash), Spend(b, hash)]);
      && PlaceOf(t, a) == Used && PlaceOf(t, b) == Used && t.successes == s.successes + 2 && t.overlapped
      && CountUsed(t.codes) == CountUsed(s.codes) + 1
  {
    FourSteps(s, Arrive(a), Arrive(b), Spend(a, hash), Spend(b, hash));
    ConsumeUsesOne(s.codes, hash);
    hide Consume, CountUsed;
    var s2 := Next(Next(s, Arrive(a)), Arrive(b));
    assert PlaceOf(s2, a) == Arrived(s.codes, s.version) && PlaceOf(s2, b) == Arrived(s.codes, s.version);
    var s3 := Next(s2, Spend(a, hash));
    assert PlaceOf(s3, a) == Used && PlaceOf(s3, b) == Arrived(s.codes, s.version) && s3.version == s.version + 1;
  }

  /* ----- checks that do not overlap ----- */

  /** What one user's checks see of the whole state. */
  ghost predicate SeenIn(s: State, w: TwoFactor.State, user: nat) {
    && user in w.factors && w.factors[user].enabled && w.factors[user].codes == s.codes && w.now == s.now
    && forall slice: nat :: KeyLive(s, slice) <==> ReplayLive(w, user, slice)
  }

  function StepsOf(s: State, id: nat, byTotp: bool, hash: string): seq<Step> {
    if byTotp then [Arrive(id), Take(id), Look(id), SetKey(id)] else [Arrive(id), Spend(id, hash)]
  }

  /** A check whose steps follow each other, with no step between, is the atomic check. */
  lemma AloneIsAtomic(s: State, id: nat, w: TwoFactor.State, user: nat, code: string, crypto: Crypto)
    requires SeenIn(s, w, user) && PlaceOf(s, id).Absent?
    ensures
      var byTotp := VerifyTotp(crypto, w.factors[user].secret, Strip(code), w.now);
      var t := Runs(s, StepsOf(s, id, byTotp, HashBackupCode(Strip(code), crypto)));
      && SeenIn(t, AfterCheck(w, user, code, crypto), user)
      && (PlaceOf(t, id).Accepted? <==> Verdict(w, user, code, crypto) == ByTotp)
      && (PlaceOf(t, id).Used? <==> Verdict(w, user, code, crypto) == ByBackup)
  {
    hide Strip, Cleaned, VerifyTotp, HashBackupCode, SliceOf, Consume, Next;
    var hash := HashBackupCode(Strip(code), crypto);
    if VerifyTotp(crypto, w.factors[user].secret, Strip(code), w.now) {
      FourSteps(s, Arrive(id), Take(id), Look(id), SetKey(id));
      AloneByTime(s, id, w, user,
        Acceptance(user, SliceOf(w.now), w.now, w.factors[user].secret, Cleaned(Strip(code))));
    } else {
      TwoSteps(s, Arrive(id), Spend(id, hash), []);
      assert [Arrive(id), Spend(id, hash)] + [] == [Arrive(id), Spend(id, hash)];
      AloneByBackup(s, id, w, user, hash);
    }
  }

  lemma AloneByTime(s: State, id: nat, w: TwoFactor.State, user: nat, a: Acceptance)
    requires SeenIn(s, w, user) && PlaceOf(s, id).Absent?
    ensures
      var t := Next(Next(Next(Next(s, Arrive(id)), Take(id)), Look(id)), SetKey(id));
      var slice := SliceOf(w.now);
      && (PlaceOf(t, id).Accepted? <==> !ReplayLive(w, user, slice)) && !PlaceOf(t, id).Used?
      && SeenIn(t, if ReplayLive(w, user, slice) then w
                   else w.(replays := w.replays[(user, slice) := w.now + REPLAY_MS],
                     acceptances := w.acceptances + [a]), user)
  {
    hide SliceOf;
    var slice := SliceOf(w.now);
    var s2 := Next(Next(s, Arrive(id)), Take(id));
    assert s2 == s.(checks := s.checks[id := Taken(slice)], order := s.order + 2);
    assert KeyLive(s2, slice) <==> ReplayLive(w, user, slice);
    var s3 := Next(s2, Look(id));
    if KeyLive(s2, slice) {
      assert PlaceOf(s3, id) == Refused;
    } else {
      assert PlaceOf(s3, id) == Cleared(slice);
      var t := Next(s3, SetKey(id));
      assert t.replays == s.replays[slice := w.now + REPLAY_MS];
      KeySetInBoth(s, t, w, user, slice, a);
    }
  }

  lemma KeySetInBoth(s: State, t: State, w: TwoFactor.State, user: nat, slice: nat, a: Acceptance)
    requires w.now == s.now == t.now && t.replays == s.replays[slice := w.now + REPLAY_MS]
    requires forall k: nat :: KeyLive(s, k) <==> ReplayLive(w, user, k)
    ensures
      var v := w.(replays := w.replays[(user, slice) := w.now + REPLAY_MS], acceptances := w.acceptances + [a]);
      forall k: nat :: KeyLive(t, k) <==> ReplayLive(v, user, k)
  {
    var v := w.(replays := w.replays[(user, slice) := w.now + REPLAY_MS], acceptances := w.acceptances + [a]);
    forall k: nat ensures KeyLive(t, k) <==> ReplayLive(v, user, k) {
      assert KeyLive(s, k) <==> ReplayLive(w, user, k);
    }
  }

  lemma AloneByBackup(s: State, id: nat, w: TwoFactor.State, user: nat, hash: string)
    requires SeenIn(s, w, user) && PlaceOf(s, id).Absent?
    ensures
      var t := Next(Next(s, Arrive(id)), Spend(id, hash));
      var factor := w.factors[user];
      && !PlaceOf(t, id).Accepted? && (PlaceOf(t, id).Used? <==> CodeRecord(hash, false) in factor.codes)
      && SeenIn(t, if CodeRecord(hash, false) !in factor.codes then w
                   else w.(factors := w.factors[user := factor.(codes := Consume(factor.codes, hash))],
                           successes := w.successes[user := SuccessesOf(w, user) + 1]), user)
  {
    hide Consume;
    var s1 := Next(s, Arrive(id));
    assert s1 == s.(checks := s.checks[id := Arrived(s.codes, s.version)], order := s.order + 1);
    var t := Next(s1, Spend(id, hash));
    assert forall slice :: KeyLive(t, slice) <==> KeyLive(s, slice);
  }
}
