/**
 Second factors at login: a time-based code once per 30-second step (sections 4.2 and 5.2 of
 RFC 6238), kept by a replay key of 60 seconds, or a backup code from a list of hashed records.
 Time is in milliseconds. The code generator and the hash function are parameters.
 */
module TwoFactor {
  import opened Wrappers
  import opened Text

  const STEP_MS := 30_000
  const REPLAY_MS := 60_000

  /** The code of a secret in a step, and SHA-256. */
  datatype Crypto = Crypto(otp: (string, nat) -> string, sha: string -> string)

  datatype CodeRecord = CodeRecord(hash: string, used: bool)

  datatype Factor = Factor(secret: string, codes: seq<CodeRecord>, enabled: bool)

  /* ----- backup codes ----- */

  /** str.replace of a character by nothing. */
  function Remove(s: string, c: char): string {
    if s == "" then "" else (if s[0] == c then "" else [s[0]]) + Remove(s[1..], c)
  }

  function UpperChar(c: char): char {
    if 'a' <= c <= 'z' then c - 'a' + 'A' else c
  }

  function Upper(s: string): string {
    if s == "" then "" else [UpperChar(s[0])] + Upper(s[1..])
  }

  function HashBackupCode(code: string, crypto: Crypto): string {
    crypto.sha(Upper(Remove(Strip(code), '-')))
  }

  function CountUsed(codes: seq<CodeRecord>): (n: nat)
    ensures n <= |codes|
  {
    if codes == [] then 0 else (if codes[0].used then 1 else 0) + CountUsed(codes[1..])
  }

  /** The first record with the hash that is not used. */
  function FirstUnused(codes: seq<CodeRecord>, hash: string): (r: Option<nat>)
    ensures r.Some? ==> r.value < |codes| && codes[r.value] == CodeRecord(hash, false)
    ensures r.None? <==> CodeRecord(hash, false) !in codes
  {
    if codes == [] then None
    else if codes[0] == CodeRecord(hash, false) then Some(0)
    else
      var r := FirstUnused(codes[1..], hash);
      if r.Some? then Some(r.value + 1) else None
  }

  lemma {:induction false} FirstUnusedAt(codes: seq<CodeRecord>, hash: string, i: nat)
    requires i < |codes| && CodeRecord(hash, false) !in codes[..i]
    ensures codes[i] == CodeRecord(hash, false) ==> FirstUnused(codes, hash) == Some(i)
  {
    if i > 0 {
      assert codes[0] in codes[..i] && codes[1..][..i - 1] == codes[..i][1..];
      FirstUnusedAt(codes[1..], hash, i - 1);
    }
  }

  function Consume(codes: seq<CodeRecord>, hash: string): seq<CodeRecord> {
    var i := FirstUnused(codes, hash);
    if i.Some? then codes[i.value := CodeRecord(hash, true)] else codes
  }

  /** The loop of verify_and_consume_backup_code over its copy of the list. */
  method VerifyAndConsume(codes: seq<CodeRecord>, candidate: string, crypto: Crypto)
    returns (valid: bool, updated: seq<CodeRecord>)
    ensures valid <==> CodeRecord(HashBackupCode(candidate, crypto), false) in codes
    ensures updated == Consume(codes, HashBackupCode(candidate, crypto))
  {
    hide HashBackupCode, FirstUnused;
    var hash := HashBackupCode(candidate, crypto);
    updated := codes;
    for i := 0 to |updated|
      invariant updated == codes && CodeRecord(hash, false) !in codes[..i]
    {
      assert codes[..i + 1] == codes[..i] + [codes[i]];
      FirstUnusedAt(codes, hash, i);
      if updated[i].hash == hash && !updated[i].used {
        updated := updated[i := updated[i].(used := true)];
        return true, updated;
      }
    }
    assert codes[..|codes|] == codes;
    valid := false;
  }

  /** A success uses up exactly one record, one of the candidate's hash; the rest stay as they were. */
  lemma {:induction false} ConsumeUsesOne(codes: seq<CodeRecord>, hash: string)
    ensures |Consume(codes, hash)| == |codes|
    ensures CountUsed(Consume(codes, hash)) == CountUsed(codes) + if CodeRecord(hash, false) in codes then 1 else 0
    ensures
      forall i :: 0 <= i < |codes| && Consume(codes, hash)[i] != codes[i] ==>
        codes[i] == CodeRecord(hash, false) && Consume(codes, hash)[i] == CodeRecord(hash, true)
  {
    if codes != [] && codes[0] != CodeRecord(hash, false) {
      ConsumeUsesOne(codes[1..], hash);
      assert codes == [codes[0]] + codes[1..];
      assert Consume(codes, hash)[1..] == Consume(codes[1..], hash);
    } else if codes != [] {
      assert Consume(codes, hash)[1..] == codes[1..];
    }
  }

  /** generate_backup_codes; the random halves are a parameter. */
  method GenerateBackupCodes(halves: seq<(string, string)>, crypto: Crypto)
    returns (plaintext: seq<string>, records: seq<CodeRecord>)
    ensures |plaintext| == |records| == |halves|
    ensures forall i :: 0 <= i < |halves| ==> plaintext[i] == Upper(halves[i].0) + "-" + Upper(halves[i].1)
    ensures forall i :: 0 <= i < |halves| ==> records[i] == CodeRecord(HashBackupCode(plaintext[i], crypto), false)
    ensures CountUsed(records) == 0
  {
    hide HashBackupCode, Upper;
    plaintext, records := [], [];
    for i := 0 to |halves|
      invariant |plaintext| == |records| == i
      invariant forall k :: 0 <= k < i ==> plaintext[k] == Upper(halves[k].0) + "-" + Upper(halves[k].1)
      invariant forall k :: 0 <= k < i ==> records[k] == CodeRecord(HashBackupCode(plaintext[k], crypto), false)
    {
      var code := Upper(halves[i].0) + "-" + Upper(halves[i].1);
      plaintext := plaintext + [code];
      records := records + [CodeRecord(HashBackupCode(code, crypto), false)];
    }
    NoneUsed(records);
  }

  lemma {:induction false} NoneUsed(codes: seq<CodeRecord>)
    requires forall i :: 0 <= i < |codes| ==> !codes[i].used
    ensures CountUsed(codes) == 0
  {
    if codes != [] { NoneUsed(codes[1..]); }
  }

  /* ----- time-based codes ----- */

  /** As verify_totp reads a code: no space in it or around it. */
  function Cleaned(code: string): string {
    Remove(Strip(code), ' ')
  }

  predicate SixDigits(code: string) {
    |code| == 6 && forall c :: c in code ==> '0' <= c <= '9'
  }

  /** The steps whose codes are taken in a step: its own and, valid_window being 1, its two neighbours. */
  function Window(slice: nat): set<nat> {
    {slice, slice + 1} + if slice > 0 then {slice - 1} else {}
  }

  /** verify_totp, for a cleaned code. */
  predicate TakenIn(crypto: Crypto, secret: string, code: string, slice: nat) {
    SixDigits(code) && exists n :: n in Window(slice) && crypto.otp(secret, n) == code
  }

  predicate VerifyTotp(crypto: Crypto, secret: string, code: string, now: nat) {
    TakenIn(crypto, secret, Cleaned(code), SliceOf(now))
  }

  function SliceOf(now: nat): nat {
    now / STEP_MS
  }

  /* ----- how a code may be typed ----- */

  predicate Plain(s: string) {
    forall c :: c in s ==> !IsSpace(c) && c != '-'
  }

  lemma {:induction false} PlainHasNoDash(s: string, t: string)
    requires Plain(s)
    ensures Remove(s + t, '-') == s + Remove(t, '-')
  {
    if s == "" {
      assert s + t == t;
    } else {
      assert s[0] in s && (s + t)[1..] == s[1..] + t;
      PlainHasNoDash(s[1..], t);
    }
  }

  lemma {:induction false} UpperConcat(s: string, t: string)
    ensures Upper(s + t) == Upper(s) + Upper(t)
  {
    if s == "" {
      assert s + t == t;
    } else {
      assert (s + t)[1..] == s[1..] + t;
      UpperConcat(s[1..], t);
    }
  }

  lemma {:induction false} UpperIgnoresCase(s: string)
    ensures Upper(Lower(s)) == Upper(s) && Upper(Upper(s)) == Upper(s)
  {
    if s != "" {
      assert s == [s[0]] + s[1..];
      UpperIgnoresCase(s[1..]);
    }
  }

  lemma StripNothing(s: string)
    requires s != "" && !IsSpace(s[0]) && !IsSpace(s[|s| - 1])
    ensures Strip(s) == s
  {
  }

  /** A code of two halves hashes the same with its dash or without, in upper or in lower case. */
  lemma TypingDoesNotMatter(p: string, q: string, crypto: Crypto)
    requires Plain(p) && Plain(q) && p != "" && q != ""
    ensures HashBackupCode(p + "-" + q, crypto) == crypto.sha(Upper(p) + Upper(q))
    ensures HashBackupCode(p + q, crypto) == crypto.sha(Upper(p) + Upper(q))
    ensures HashBackupCode(Lower(p) + "-" + Lower(q), crypto) == crypto.sha(Upper(p) + Upper(q))
  {
    UpperIgnoresCase(p);
    UpperIgnoresCase(q);
    LowerIsPlain(p);
    LowerIsPlain(q);
    HashOfHalves(p, q, crypto);
    HashOfHalves(Lower(p), Lower(q), crypto);
  }

  lemma {:induction false} LowerIsPlain(s: string)
    requires Plain(s)
    ensures Plain(Lower(s))
  {
    if s != "" {
      assert s[0] in s && forall c :: c in s[1..] ==> c in s;
      LowerIsPlain(s[1..]);
    }
  }

  lemma HashOfHalves(p: string, q: string, crypto: Crypto)
    requires Plain(p) && Plain(q) && p != "" && q != ""
    ensures HashBackupCode(p + "-" + q, crypto) == crypto.sha(Upper(p) + Upper(q))
    ensures HashBackupCode(p + q, crypto) == crypto.sha(Upper(p) + Upper(q))
  {
    hide Strip, Upper, Remove, Plain;
    EndsArePlain(p, q);
    StripNothing(p + "-" + q);
    StripNothing(p + q);
    DashesGo(p, q);
    UpperConcat(p, q);
  }

  lemma EndsArePlain(p: string, q: string)
    requires Plain(p) && Plain(q) && p != "" && q != ""
    ensures
      var a, b := p + "-" + q, p + q;
      !IsSpace(a[0]) && !IsSpace(a[|a| - 1]) && !IsSpace(b[0]) && !IsSpace(b[|b| - 1])
  {
    assert p[0] in p && q[|q| - 1] in q;
  }

  lemma DashesGo(p: string, q: string)
    requires Plain(p) && Plain(q)
    ensures Remove(p + "-" + q, '-') == p + q && Remove(p + q, '-') == p + q
  {
    NoDashes();
    DashFirst(q);
    hide Remove, Plain;
    PlainHasNoDash(q, "");
    assert q + "" == q;
    PlainHasNoDash(p, q);
    PlainHasNoDash(p, "-" + q);
    assert p + "-" + q == p + ("-" + q);
  }

  lemma NoDashes()
    ensures Remove("", '-') == ""
  {
  }

  lemma DashFirst(s: string)
    ensures Remove("-" + s, '-') == Remove(s, '-')
  {
    assert ("-" + s)[1..] == s;
  }

  /* ----- login checks ----- */

  /** A time-based acceptance: whose, in which step, when, and of which code for which secret. */
  datatype Acceptance = Acceptance(user: nat, slice: nat, at: nat, secret: string, code: string)

  /**
   Factors, replay keys with their ends, the clock; and, read by no step, the acceptances and the backup
   successes since each list was issued.
   */
  datatype State = State(
    factors: map<nat, Factor>, replays: map<(nat, nat), nat>, now: nat,
    acceptances: seq<Acceptance>, successes: map<nat, nat>)

  datatype Outcome = ByTotp | ByBackup | ReplayDetected | InvalidCode | NotEnabled

  datatype Step =
    | Wait(ms: nat)
    | Check(user: nat, code: string)
    | Issue(user: nat, secret: string, hashes: seq<string>)
    | Reissue(user: nat, newHashes: seq<string>)
    | Disable(user: nat)

  predicate ReplayLive(s: State, user: nat, slice: nat) {
    (user, slice) in s.replays && s.now < s.replays[(user, slice)]
  }

  /** verify_two_factor_challenge down to the tokens: what becomes of a code. */
  function Verdict(s: State, user: nat, code: string, crypto: Crypto): Outcome {
    if user !in s.factors || !s.factors[user].enabled then NotEnabled
    else if VerifyTotp(crypto, s.factors[user].secret, Strip(code), s.now) then
      if ReplayLive(s, user, SliceOf(s.now)) then ReplayDetected else ByTotp
    else if CodeRecord(HashBackupCode(Strip(code), crypto), false) in s.factors[user].codes then ByBackup
    else InvalidCode
  }

  function SuccessesOf(s: State, user: nat): nat {
    if user in s.successes then s.successes[user] else 0
  }

  function AfterCheck(s: State, user: nat, code: string, crypto: Crypto): State {
    match Verdict(s, user, code, crypto)
    case ByTotp =>
      var slice := SliceOf(s.now);
      s.(replays := s.replays[(user, slice) := s.now + REPLAY_MS],
        acceptances := s.acceptances + [Acceptance(user, slice, s.now, s.factors[user].secret, Cleaned(Strip(code)))])
    case ByBackup =>
      var factor := s.factors[user];
      s.(factors := s.factors[user := factor.(codes := Consume(factor.codes, HashBackupCode(Strip(code), crypto)))],
         successes := s.successes[user := SuccessesOf(s, user) + 1])
    case _ => s
  }

  function Fresh(hashes: seq<string>): seq<CodeRecord> {
    seq(|hashes|, i requires 0 <= i < |hashes| => CodeRecord(hashes[i], false))
  }

  function Next(s: State, step: Step, crypto: Crypto): State {
    match step
    case Wait(ms) => s.(now := s.now + ms)
    case Check(user, code) => AfterCheck(s, user, code, crypto)
    case Issue(user, secret, hashes) =>
      s.(factors := s.factors[user := Factor(secret, Fresh(hashes), true)], successes := s.successes[user := 0])
    case Reissue(user, hashes) =>
      if user !in s.factors || !s.factors[user].enabled then s
      else s.(factors := s.factors[user := s.factors[user].(codes := Fresh(hashes))],
        successes := s.successes[user := 0])
    case Disable(user) => s.(factors := s.factors - {user})
  }

  function Runs(s: State, steps: seq<Step>, crypto: Crypto): State
    decreases |steps|
  {
    if steps == [] then s else Runs(Next(s, steps[0], crypto), steps[1..], crypto)
  }

  predicate Initial(s: State) {
    s.factors == map[] && s.replays == map[] && s.acceptances == [] && s.successes == map[]
  }

  /** Every acceptance has left its replay key, and no two of a user share a step. */
  predicate AcceptedOnce(s: State) {
    && (forall i :: 0 <= i < |s.acceptances| ==>
          var a := s.acceptances[i];
          a.at <= s.now && a.slice == SliceOf(a.at) && (a.user, a.slice) in s.replays
            && s.replays[(a.user, a.slice)] == a.at + REPLAY_MS)
    && (forall i, j :: 0 <= i < j < |s.acceptances| && s.acceptances[i].user == s.acceptances[j].user
          ==> s.acceptances[i].slice != s.acceptances[j].slice)
    && (forall key :: key in s.replays ==>
          exists i :: 0 <= i < |s.acceptances| && (s.acceptances[i].user, s.acceptances[i].slice) == key)
  }

  /** The used records of a list are the successes since it was issued. */
  predicate UsesCounted(s: State) {
    forall user :: user in s.factors ==> CountUsed(s.factors[user].codes) == SuccessesOf(s, user)
  }

  lemma KeyOutlivesItsStep(at: nat, now: nat)
    requires at <= now && SliceOf(at) == SliceOf(now)
    ensures now < at + REPLAY_MS
  {
  }

  lemma CheckKeepsAcceptedOnce(s: State, user: nat, code: string, crypto: Crypto)
    requires AcceptedOnce(s)
    ensures AcceptedOnce(AfterCheck(s, user, code, crypto))
  {
    hide Strip, Cleaned, TakenIn, HashBackupCode, SliceOf;
    var slice := SliceOf(s.now);
    if Verdict(s, user, code, crypto) == ByTotp {
      forall i | 0 <= i < |s.acceptances| && s.acceptances[i].user == user ensures s.acceptances[i].slice != slice {
        if s.acceptances[i].slice == slice { KeyOutlivesItsStep(s.acceptances[i].at, s.now); }
      }
      var t := AfterCheck(s, user, code, crypto);
      var n := |s.acceptances|;
      assert t.acceptances[n] == Acceptance(user, slice, s.now, s.factors[user].secret, Cleaned(Strip(code)));
      forall key | key in t.replays ensures
        exists i :: 0 <= i < |t.acceptances| && (t.acceptances[i].user, t.acceptances[i].slice) == key {
        if key == (user, slice) {
          assert (t.acceptances[n].user, t.acceptances[n].slice) == key;
        } else {
          var i :| 0 <= i < n && (s.acceptances[i].user, s.acceptances[i].slice) == key;
          assert t.acceptances[i] == s.acceptances[i];
        }
      }
    }
  }

  lemma StepKeepsAcceptedOnce(s: State, step: Step, crypto: Crypto)
    requires AcceptedOnce(s)
    ensures AcceptedOnce(Next(s, step, crypto))
  {
    hide Strip, Cleaned, TakenIn, HashBackupCode, SliceOf;
    if step.Check? {
      CheckKeepsAcceptedOnce(s, step.user, step.code, crypto);
      hide AfterCheck;
    }
  }

  lemma StepKeepsUsesCounted(s: State, step: Step, crypto: Crypto)
    requires UsesCounted(s)
    ensures UsesCounted(Next(s, step, crypto))
  {
    hide Strip, Cleaned, TakenIn, HashBackupCode, SliceOf, Consume, CountUsed;
    match step
    case Check(user, code) =>
      if user in s.factors { ConsumeUsesOne(s.factors[user].codes, HashBackupCode(Strip(code), crypto)); }
    case Issue(user, secret, hashes) => NoneUsed(Fresh(hashes));
    case Reissue(user, hashes) => NoneUsed(Fresh(hashes));
    case _ =>
  }

  lemma {:induction false} EveryRunKeepsBoth(s: State, steps: seq<Step>, crypto: Crypto)
    requires AcceptedOnce(s) && UsesCounted(s)
    ensures AcceptedOnce(Runs(s, steps, crypto)) && UsesCounted(Runs(s, steps, crypto))
    decreases |steps|
  {
    hide Next, AcceptedOnce, UsesCounted;
    if steps != [] {
      StepKeepsAcceptedOnce(s, steps[0], crypto);
      StepKeepsUsesCounted(s, steps[0], crypto);
      EveryRunKeepsBoth(Next(s, steps[0], crypto), steps[1..], crypto);
    }
  }

  /** In every run a user gets at most one time-based acceptance in any 30-second step. */
  lemma OneAcceptancePerStep(s: State, steps: seq<Step>, crypto: Crypto)
    requires Initial(s)
    ensures
      var a := Runs(s, steps, crypto).acceptances;
      && (forall i, j :: 0 <= i < j < |a| && a[i].user == a[j].user ==> a[i].slice != a[j].slice)
      && (forall i :: 0 <= i < |a| ==> a[i].slice * STEP_MS <= a[i].at < (a[i].slice + 1) * STEP_MS)
  {
    EveryRunKeepsBoth(s, steps, crypto);
    hide Runs;
  }

  /** In every run the backup successes since a list was issued are its used records, at most as many as it has. */
  lemma SuccessesNeverExceedIssued(s: State, steps: seq<Step>, crypto: Crypto, user: nat)
    requires Initial(s)
    ensures
      var t := Runs(s, steps, crypto);
      user in t.factors ==> SuccessesOf(t, user) == CountUsed(t.factors[user].codes) <= |t.factors[user].codes|
  {
    EveryRunKeepsBoth(s, steps, crypto);
    hide Runs;
  }

  predicate AcceptedIn(s: State, user: nat, slice: nat) {
    exists i :: 0 <= i < |s.acceptances| && (s.acceptances[i].user, s.acceptances[i].slice) == (user, slice)
  }

  /**
   The key is the step, not the code: a code that the generator takes now is accepted if and only if
   the user has no acceptance in this very step.
   */
  lemma AcceptedIffStepIsFree(s: State, user: nat, code: string, crypto: Crypto)
    requires AcceptedOnce(s) && user in s.factors && s.factors[user].enabled
      && VerifyTotp(crypto, s.factors[user].secret, Strip(code), s.now)
    ensures Verdict(s, user, code, crypto) == ByTotp <==> !AcceptedIn(s, user, SliceOf(s.now))
  {
    hide Strip, Cleaned, TakenIn, SliceOf;
    if AcceptedIn(s, user, SliceOf(s.now)) {
      var i :| 0 <= i < |s.acceptances| && (s.acceptances[i].user, s.acceptances[i].slice) == (user, SliceOf(s.now));
      KeyOutlivesItsStep(s.acceptances[i].at, s.now);
    }
  }

  /** So one code can be accepted twice: in this step, and in the next if the drift window still takes it. */
  lemma SameCodeInTheNextStep(s: State, user: nat, code: string, crypto: Crypto)
    requires AcceptedOnce(s) && user in s.factors && s.factors[user].enabled
    requires !AcceptedIn(s, user, SliceOf(s.now)) && !AcceptedIn(s, user, SliceOf(s.now) + 1)
    requires VerifyTotp(crypto, s.factors[user].secret, Strip(code), s.now)
      && VerifyTotp(crypto, s.factors[user].secret, Strip(code), s.now + STEP_MS)
    ensures
      var t := Next(Next(s, Check(user, code), crypto), Wait(STEP_MS), crypto);
      Verdict(s, user, code, crypto) == ByTotp && Verdict(t, user, code, crypto) == ByTotp
  {
    hide Strip, Cleaned, TakenIn, HashBackupCode, SliceOf, AcceptedOnce;
    AcceptedIffStepIsFree(s, user, code, crypto);
    NextSlice(s.now);
    var c := Next(s, Check(user, code), crypto);
    CheckKeepsAcceptedOnce(s, user, code, crypto);
    var t := Next(c, Wait(STEP_MS), crypto);
    StepKeepsAcceptedOnce(c, Wait(STEP_MS), crypto);
    OnlyThisStep(s, user, code, crypto);
    hide Verdict, AcceptedIn;
    AcceptedIffStepIsFree(t, user, code, crypto);
  }

  lemma OnlyThisStep(s: State, user: nat, code: string, crypto: Crypto)
    requires Verdict(s, user, code, crypto) == ByTotp
    ensures
      var t := Next(Next(s, Check(user, code), crypto), Wait(STEP_MS), crypto);
      && t.factors == s.factors && t.now == s.now + STEP_MS
      && forall slice :: slice != SliceOf(s.now) && !AcceptedIn(s, user, slice) ==> !AcceptedIn(t, user, slice)
  {
    hide Strip, Cleaned, TakenIn, HashBackupCode, SliceOf;
  }

  lemma NextSlice(now: nat)
    ensures SliceOf(now + STEP_MS) == SliceOf(now) + 1
  {
  }

  /* ----- how often one code is accepted ----- */

  /** Every code accepted is one the generator takes in that step. */
  predicate CodesWereTaken(s: State, crypto: Crypto) {
    forall i :: 0 <= i < |s.acceptances| ==>
      var a := s.acceptances[i];
      TakenIn(crypto, a.secret, a.code, a.slice)
  }

  lemma StepKeepsCodesTaken(s: State, step: Step, crypto: Crypto)
    requires CodesWereTaken(s, crypto)
    ensures CodesWereTaken(Next(s, step, crypto), crypto)
  {
    hide Strip, Cleaned, TakenIn, HashBackupCode, SliceOf, Consume, Fresh;
  }

  lemma {:induction false} EveryRunKeepsCodesTaken(s: State, steps: seq<Step>, crypto: Crypto)
    requires CodesWereTaken(s, crypto)
    ensures CodesWereTaken(Runs(s, steps, crypto), crypto)
    decreases |steps|
  {
    hide Next, CodesWereTaken;
    if steps != [] {
      StepKeepsCodesTaken(s, steps[0], crypto);
      EveryRunKeepsCodesTaken(Next(s, steps[0], crypto), steps[1..], crypto);
    }
  }

  /** Which acceptances of a user are of this code for this secret. */
  function OfCode(a: seq<Acceptance>, user: nat, secret: string, code: string): set<nat> {
    set i: nat | i < |a| && a[i].user == user && a[i].secret == secret && a[i].code == code
  }

  function Near(steps: set<nat>): set<nat> {
    set n, m | n in steps && m in Window(n) :: m
  }

  lemma {:induction false} ThreePerStep(steps: set<nat>)
    ensures |Near(steps)| <= 3 * |steps|
    decreases steps
  {
    if steps != {} {
      var n :| n in steps;
      ThreePerStep(steps - {n});
      assert Near(steps) <= Near(steps - {n}) + Window(n);
      SubsetIsSmaller(Near(steps), Near(steps - {n}) + Window(n));
    } else {
      assert Near(steps) == {};
    }
  }

  lemma {:induction false} SubsetIsSmaller(a: set<nat>, b: set<nat>)
    requires a <= b
    ensures |a| <= |b|
    decreases a
  {
    if a != {} {
      var x :| x in a;
      SubsetIsSmaller(a - {x}, b - {x});
    }
  }

  /** Acceptances in different steps are at most as many as the steps. */
  lemma {:induction false} OnePerSlice(a: seq<Acceptance>, which: set<nat>, slices: set<nat>)
    requires forall i :: i in which ==> i < |a| && a[i].slice in slices
    requires forall i, j :: i in which && j in which && i != j ==> a[i].slice != a[j].slice
    ensures |which| <= |slices|
    decreases which
  {
    if which != {} {
      var i :| i in which;
      OnePerSlice(a, which - {i}, slices - {a[i].slice});
    }
  }

  /**
   In every run a code is accepted at most three times for each step in which the generator gives it:
   once in that step and once in each neighbour.
   */
  lemma OneCodeAtMostThrice(s: State, run: seq<Step>, crypto: Crypto, user: nat, secret: string, code: string,
          generated: set<nat>)
    requires Initial(s)
    requires forall n: nat :: crypto.otp(secret, n) == code ==> n in generated
    ensures |OfCode(Runs(s, run, crypto).acceptances, user, secret, code)| <= 3 * |generated|
  {
    EveryRunKeepsBoth(s, run, crypto);
    EveryRunKeepsCodesTaken(s, run, crypto);
    var t := Runs(s, run, crypto);
    hide Runs;
    SlicesAreNear(t, crypto, user, secret, code, generated);
    OnePerSlice(t.acceptances, OfCode(t.acceptances, user, secret, code), Near(generated));
    ThreePerStep(generated);
  }

  lemma SlicesAreNear(s: State, crypto: Crypto, user: nat, secret: string, code: string, generated: set<nat>)
    requires CodesWereTaken(s, crypto) && forall n: nat :: crypto.otp(secret, n) == code ==> n in generated
    ensures forall i :: i in OfCode(s.acceptances, user, secret, code) ==> s.acceptances[i].slice in Near(generated)
  {
    forall i | i in OfCode(s.acceptances, user, secret, code) ensures s.acceptances[i].slice in Near(generated) {
      var n :| n in Window(s.acceptances[i].slice) && crypto.otp(secret, n) == code;
      assert n in generated && s.acceptances[i].slice in Window(n);
    }
  }

  lemma {:induction false} RemoveAbsent(s: string, c: char)
    requires c !in s
    ensures Remove(s, c) == s
  {
    if s != "" {
      assert s[0] in s;
      RemoveAbsent(s[1..], c);
    }
  }

  lemma DigitsAreClean(code: string)
    requires SixDigits(code)
    ensures Strip(code) == code && Cleaned(code) == code
  {
    assert code[0] in code && code[5] in code;
    StripNothing(code);
    RemoveAbsent(code, ' ');
  }

  /** A check of a code that is taken, in a step without a replay key. */
  lemma TakenCheck(s: State, user: nat, code: string, crypto: Crypto)
    requires user in s.factors && s.factors[user].enabled && SixDigits(code)
    requires TakenIn(crypto, s.factors[user].secret, code, SliceOf(s.now)) && (user, SliceOf(s.now)) !in s.replays
    ensures
      var slice := SliceOf(s.now);
      Next(s, Check(user, code), crypto)
      == s.(replays := s.replays[(user, slice) := s.now + REPLAY_MS],
            acceptances := s.acceptances + [Acceptance(user, slice, s.now, s.factors[user].secret, code)])
  {
    DigitsAreClean(code);
    hide Strip, Cleaned, TakenIn, SliceOf, SixDigits;
  }

  /** Enable, and three checks of one code a step apart. */
  function ThreeChecks(user: nat, secret: string, code: string): seq<Step> {
    [Issue(user, secret, []), Check(user, code), Wait(STEP_MS), Check(user, code), Wait(STEP_MS), Check(user, code)]
  }

  /** Three are reached: in the step before the code's own, in its own and in the one after. */
  lemma OneCodeThrice(s: State, user: nat, secret: string, code: string, crypto: Crypto)
    requires Initial(s) && SixDigits(code) && crypto.otp(secret, SliceOf(s.now) + 1) == code
    ensures OfCode(Runs(s, ThreeChecks(user, secret, code), crypto).acceptances, user, secret, code) == {0, 1, 2}
  {
    var n := SliceOf(s.now);
    assert n + 1 in Window(n) && n + 1 in Window(n + 1) && n + 1 in Window(n + 2);
    RunsAre(s, user, secret, code, crypto);
    var s1 := Next(s, Issue(user, secret, []), crypto);
    hide SliceOf, OfCode, Next, Runs;
    ThreeTaken(s1, user, code, crypto);
  }

  lemma ThreeTaken(s: State, user: nat, code: string, crypto: Crypto)
    requires user in s.factors && s.factors[user].enabled && s.replays == map[] && s.acceptances == []
      && SixDigits(code)
    requires
      var (secret, n) := (s.factors[user].secret, SliceOf(s.now));
      TakenIn(crypto, secret, code, n) && TakenIn(crypto, secret, code, n + 1) && TakenIn(crypto, secret, code, n + 2)
    ensures
      var s3 := Next(Next(s, Check(user, code), crypto), Wait(STEP_MS), crypto);
      var t := Next(Next(Next(s3, Check(user, code), crypto), Wait(STEP_MS), crypto), Check(user, code), crypto);
      OfCode(t.acceptances, user, s.factors[user].secret, code) == {0, 1, 2}
  {
    NextSlice(s.now);
    NextSlice(s.now + STEP_MS);
    hide SliceOf, TakenIn, SixDigits, OfCode, AfterCheck;
    TakenCheck(s, user, code, crypto);
    var s3 := Next(Next(s, Check(user, code), crypto), Wait(STEP_MS), crypto);
    TakenCheck(s3, user, code, crypto);
    var s5 := Next(Next(s3, Check(user, code), crypto), Wait(STEP_MS), crypto);
    TakenCheck(s5, user, code, crypto);
    AllThree(Next(s5, Check(user, code), crypto).acceptances, user, s.factors[user].secret, code);
  }

  lemma RunsAre(s: State, user: nat, secret: string, code: string, crypto: Crypto)
    ensures
      var s3 := Next(Next(Next(s, Issue(user, secret, []), crypto), Check(user, code), crypto), Wait(STEP_MS), crypto);
      Runs(s, ThreeChecks(user, secret, code), crypto)
      == Next(Next(Next(s3, Check(user, code), crypto), Wait(STEP_MS), crypto), Check(user, code), crypto)
  {
    hide Next;
    var issue, check, wait: Step := Issue(user, secret, []), Check(user, code), Wait(STEP_MS);
    var s3 := Next(Next(Next(s, issue, crypto), check, crypto), wait, crypto);
    ThreeSteps(s, issue, check, wait, [check, wait, check], crypto);
    ThreeSteps(s3, check, wait, check, [], crypto);
    assert [issue, check, wait] + [check, wait, check] == ThreeChecks(user, secret, code);
    assert [check, wait, check] + [] == [check, wait, check];
  }

  lemma ThreeSteps(s: State, p: Step, q: Step, r: Step, rest: seq<Step>, crypto: Crypto)
    ensures
      var t := Next(Next(Next(s, p, crypto), q, crypto), r, crypto);
      Runs(s, [p, q, r] + rest, crypto) == Runs(t, rest, crypto)
  {
    hide Next;
    var s1 := Next(s, p, crypto);
    var s2 := Next(s1, q, crypto);
    assert ([p, q, r] + rest)[1..] == [q, r] + rest && ([q, r] + rest)[1..] == [r] + rest && ([r] + rest)[1..] == rest;
    assert Runs(s, [p, q, r] + rest, crypto) == Runs(s1, [q, r] + rest, crypto);
    assert Runs(s1, [q, r] + rest, crypto) == Runs(s2, [r] + rest, crypto);
  }

  lemma AllThree(a: seq<Acceptance>, user: nat, secret: string, code: string)
    requires |a| == 3 && forall i :: 0 <= i < 3 ==> a[i].user == user && a[i].secret == secret && a[i].code == code
    ensures OfCode(a, user, secret, code) == {0, 1, 2}
  {
  }

  /* ----- the service, statement by statement ----- */

  /** A login waiting for its second factor: whose, and when its key expires. */
  datatype Challenge = Challenge(user: nat, end: nat)

  datatype Answer = LoggedIn(user: nat) | ChallengeExpired | Rejected(outcome: Outcome) | UserNotFound

  class TwoFactorService {
    const crypto: Crypto
    /** Users that are there and not deleted. */
    var users: set<nat>
    var factors: map<nat, Factor>
    var replays: map<(nat, nat), nat>
    var challenges: map<string, Challenge>
    var now: nat
    ghost var acceptances: seq<Acceptance>
    ghost var successes: map<nat, nat>

    ghost function Contents(): State
      reads this
    {
      State(factors, replays, now, acceptances, successes)
    }

    /** _verify_2fa_code_or_backup for an enabled factor and a stripped code. */
    method VerifyCodeOrBackup(user: nat, code: string) returns (outcome: Outcome)
      requires user in factors && factors[user].enabled && Strip(code) == code
      modifies this
      ensures outcome == Verdict(old(Contents()), user, code, crypto)
      ensures Contents() == AfterCheck(old(Contents()), user, code, crypto) && challenges == old(challenges)
        && users == old(users)
    {
      hide Strip, Cleaned, TakenIn, HashBackupCode, Consume;
      var factor := factors[user];
      if VerifyTotp(crypto, factor.secret, code, now) {
        var slice := now / STEP_MS;
        if (user, slice) in replays && now < replays[(user, slice)] {
          return ReplayDetected;
        }
        replays := replays[(user, slice) := now + REPLAY_MS];
        acceptances := acceptances + [Acceptance(user, slice, now, factor.secret, Cleaned(code))];
        return ByTotp;
      }
      var valid, updated := VerifyAndConsume(factor.codes, code, crypto);
      if !valid {
        return InvalidCode;
      }
      successes := successes[user := SuccessesOf(Contents(), user) + 1];
      factors := factors[user := factor.(codes := updated)];
      return ByBackup;
    }

    ghost predicate Open(token: string)
      reads this
    {
      token in challenges && now < challenges[token].end
    }

    /**
     verify_two_factor_challenge down to the tokens. The challenge is used up by a success and by nothing
     else; so is the code, even if the user is then found to be gone.
     */
    method VerifyChallenge(token: string, code: string) returns (answer: Answer)
      modifies this
      ensures users == old(users) && (answer.ChallengeExpired? <==> !old(Open(token)))
      ensures answer.ChallengeExpired? ==> Contents() == old(Contents()) && challenges == old(challenges)
      ensures old(Open(token)) ==>
        var user := old(challenges)[token].user;
        var verdict := Verdict(old(Contents()), user, Strip(code), crypto);
        var passed := verdict == ByTotp || verdict == ByBackup;
        && answer == (if !passed then Rejected(verdict) else if user in users then LoggedIn(user) else UserNotFound)
        && Contents() == AfterCheck(old(Contents()), user, Strip(code), crypto)
        && challenges == if passed then old(challenges) - {token} else old(challenges)
    {
      StripTwice(code);
      hide Strip, Cleaned, TakenIn, HashBackupCode, Consume;
      if token !in challenges || now >= challenges[token].end {
        return ChallengeExpired;
      }
      var user := challenges[token].user;
      if user !in factors || !factors[user].enabled {
        return Rejected(NotEnabled);
      }
      var verdict := VerifyCodeOrBackup(user, Strip(code));
      if verdict != ByTotp && verdict != ByBackup {
        return Rejected(verdict);
      }
      challenges := challenges - {token};
      return if user in users then LoggedIn(user) else UserNotFound;
    }
  }

  lemma StripTwice(s: string)
    ensures Strip(Strip(s)) == Strip(s)
  {
    StripLeftStarts(s);
    var l := StripLeft(s);
    StripRightEnds(l);
    hide StripLeft, StripRight;
    var r := Strip(s);
    if r != "" { StripNothing(r); } else { StripEmpty(); }
  }

  lemma StripEmpty()
    ensures Strip("") == ""
  {
  }

  lemma {:induction false} StripLeftStarts(s: string)
    ensures StripLeft(s) != "" ==> !IsSpace(StripLeft(s)[0])
  {
    if s != "" && IsSpace(s[0]) { StripLeftStarts(s[1..]); }
  }

  lemma {:induction false} StripRightEnds(s: string)
    ensures StripRight(s) != "" ==> !IsSpace(StripRight(s)[|StripRight(s)| - 1]) && StripRight(s)[0] == s[0] && s != ""
  {
    if s != "" && IsSpace(s[|s| - 1]) { StripRightEnds(s[..|s| - 1]); }
  }
}
