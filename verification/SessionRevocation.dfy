/**
 Revoked sessions and stopped impersonations: the row goes, and the token's id is blacklisted in
 Redis for a rounded number of seconds, while the token itself expires at a floored second
 (section 4.1.4 of RFC 7519). One clock in seconds serves the server, the database and Redis.
 */
module SessionRevocation {
  import opened Wrappers

  const STOP_TTL := 3600

  /** user_sessions: the access token's id is the key. */
  datatype Session = Session(user: nat, agent: Option<string>, expiresAt: real)

  /** A refresh token has an id of its own, beside the access token it was issued with. */
  datatype RefreshToken = RefreshToken(user: nat, session: nat, expiresAt: real)

  /**
   Sessions, the two blacklists with the ends of their entries, and the clock; and, read by no step
   but those that present one, every access token with its time of expiry and its user, every refresh
   token, which access tokens are impersonations, whose row a later login took over, when each was
   revoked or stopped, and which of the revoked had their blacklist entry lost.
   */
  datatype State = State(
    sessions: map<nat, Session>, blacklist: map<nat, real>, refreshBlacklist: map<nat, real>, now: real,
    tokens: map<nat, real>, owners: map<nat, nat>, refreshes: map<nat, RefreshToken>,
    impersonations: set<nat>, superseded: set<nat>, revoked: map<nat, real>, stopped: map<nat, real>,
      unlisted: set<nat>)

  /** extract(epoch ...)::integer rounds half away from zero. */
  function Rounded(x: real): int {
    if x >= 0.0 then (x + 0.5).Floor else -((-x + 0.5).Floor)
  }

  function Ttl(expiresAt: real, now: real): int {
    Rounded(expiresAt - now)
  }

  predicate Blacklisted(s: State, jti: nat) {
    jti in s.blacklist && s.now < s.blacklist[jti]
  }

  /** verify_token: not past the second its expiry is floored to, and not blacklisted. */
  predicate Accepts(s: State, jti: nat) {
    jti in s.tokens && s.now < s.tokens[jti].Floor as real && !Blacklisted(s, jti)
  }

  /** The same for a refresh token, by its own id. */
  predicate AcceptsRefresh(s: State, id: nat) {
    && id in s.refreshes && s.now < s.refreshes[id].expiresAt.Floor as real
    && !(id in s.refreshBlacklist && s.now < s.refreshBlacklist[id])
  }

  /** The ids and lives of an access token and a refresh token issued together. */
  datatype Pair = Pair(jti: nat, refresh: nat, life: real, refreshLife: real)

  /** The ids whose entry on a blacklist is not written, because the command fails before it takes effect. */
  datatype Lost = Lost(access: set<nat>, refresh: set<nat>)

  const NONE_LOST := Lost({}, {})

  datatype Step =
    | Wait(seconds: real)
    | Login(user: nat, agent: Option<string>, pair: Pair)
    | Refresh(token: nat, allowed: bool, newAgent: Option<string>, newPair: Pair)
    | Impersonate(jti: nat, life: real)
    | Revoke(user: nat, jti: nat, lost: Lost)
    | RevokeAll(user: nat, lost: Lost)
    | StopImpersonation(jti: nat)

  /** One session per user and agent: the upsert takes over the row of an equal, given agent. */
  function Upsert(sessions: map<nat, Session>, jti: nat, row: Session): map<nat, Session> {
    (map j | j in sessions && !(sessions[j].user == row.user && row.agent.Some? && sessions[j].agent == row.agent) ::
      sessions[j])[jti := row]
  }

  function TakenOver(sessions: map<nat, Session>, row: Session): set<nat> {
    set j | j in sessions && sessions[j].user == row.user && row.agent.Some? && sessions[j].agent == row.agent
  }

  predicate Used(s: State, id: nat) {
    id in s.tokens || id in s.refreshes
  }

  /** issue_tokens_and_session; ids are random and never repeat. */
  function Issue(s: State, user: nat, agent: Option<string>, pair: Pair): State {
    if Used(s, pair.jti) || Used(s, pair.refresh) || pair.jti == pair.refresh then s
    else
      var row := Session(user, agent, s.now + pair.life);
      s.(tokens := s.tokens[pair.jti := row.expiresAt], owners := s.owners[pair.jti := user],
         refreshes := s.refreshes[pair.refresh := RefreshToken(user, pair.jti, s.now + pair.refreshLife)],
         superseded := s.superseded + TakenOver(s.sessions, row), sessions := Upsert(s.sessions, pair.jti, row))
  }

  function Entry(blacklist: map<nat, real>, jti: nat, ttl: int, now: real): map<nat, real> {
    if ttl > 0 then blacklist[jti := now + ttl as real] else blacklist
  }

  function OfUser(s: State, user: nat): set<nat> {
    set j | j in s.sessions && s.sessions[j].user == user
  }

  function Listed(s: State, list: map<nat, real>, jtis: set<nat>): map<nat, real>
    requires jtis <= s.sessions.Keys
  {
    map j | j in list.Keys + (set j | j in jtis && Ttl(s.sessions[j].expiresAt, s.now) > 0)
      :: if j in jtis && Ttl(s.sessions[j].expiresAt, s.now) > 0
        then s.now + Ttl(s.sessions[j].expiresAt, s.now) as real else list[j]
  }

  function Marked(revoked: map<nat, real>, jtis: set<nat>, now: real): map<nat, real> {
    map j | j in revoked.Keys + jtis :: if j in jtis then now else revoked[j]
  }

  /**
   The rows of these sessions go, and their ids, if the ttl is positive, are put on both blacklists, but for
   those lost.
   */
  function RevokeThese(s: State, jtis: set<nat>, lost: Lost): State
    requires jtis <= s.sessions.Keys
  {
    s.(sessions := s.sessions - jtis, blacklist := Listed(s, s.blacklist, jtis - lost.access),
       refreshBlacklist := Listed(s, s.refreshBlacklist, jtis - lost.refresh), revoked :=
         Marked(s.revoked, jtis, s.now),
       unlisted := s.unlisted + jtis * lost.access)
  }

  function Next(s: State, step: Step): State {
    match step
    case Wait(seconds) => if seconds >= 0.0 then s.(now := s.now + seconds) else s
    case Login(user, agent, pair) => Issue(s, user, agent, pair)
    case Refresh(token, allowed, agent, pair) =>
      if allowed && AcceptsRefresh(s, token) then Issue(s, s.refreshes[token].user, agent, pair) else s
    case Impersonate(jti, life) =>
      if Used(s, jti) then s
      else s.(tokens := s.tokens[jti := s.now + life], impersonations := s.impersonations + {jti})
    case Revoke(user, jti, lost) => if jti in OfUser(s, user) then RevokeThese(s, {jti}, lost) else s
    case RevokeAll(user, lost) => RevokeThese(s, OfUser(s, user), lost)
    case StopImpersonation(jti) =>
      if jti in s.impersonations && Accepts(s, jti)
      then s.(blacklist := s.blacklist[jti := s.now + STOP_TTL as real], stopped := s.stopped[jti := s.now]) else s
  }

  function Runs(s: State, steps: seq<Step>): State
    decreases |steps|
  {
    if steps == [] then s else Runs(Next(s, steps[0]), steps[1..])
  }

  predicate SessionIsRight(s: State, j: nat) {
    j in s.sessions ==>
      j in s.tokens && s.tokens[j] == s.sessions[j].expiresAt && j !in s.impersonations && j !in s.revoked
  }

  /** A revoked token's entry ends with its rounded ttl; it has none if that is not positive or its command was lost. */
  predicate RevokedIsRight(s: State, j: nat) {
    j in s.revoked ==>
      && j in s.tokens && j !in s.impersonations && s.revoked[j] <= s.now
      && var ttl := Ttl(s.tokens[j], s.revoked[j]);
         if ttl > 0 && j !in s.unlisted then j in s.blacklist && s.blacklist[j] == s.revoked[j] + ttl as real
           else j !in s.blacklist
  }

  predicate StoppedIsRight(s: State, j: nat) {
    j in s.stopped ==>
      j in s.impersonations && s.stopped[j] <= s.now && j in s.blacklist
      && s.blacklist[j] == s.stopped[j] + STOP_TTL as real
  }

  predicate Inv(s: State) {
    && s.impersonations <= s.tokens.Keys && s.unlisted <= s.revoked.Keys
    && (forall j :: j in s.sessions ==> SessionIsRight(s, j))
    && (forall j :: j in s.revoked ==> RevokedIsRight(s, j))
    && (forall j :: j in s.blacklist ==> j in s.revoked || j in s.stopped)
    && (forall j :: j in s.stopped ==> StoppedIsRight(s, j))
  }

  lemma StepKeepsInv(s: State, step: Step)
    requires Inv(s)
    ensures Inv(Next(s, step))
  {
    hide Inv, Ttl;
    match step
    case Wait(seconds) => WaitingKeepsInv(s, seconds);
    case Login(user, agent, pair) => IssueKeepsInv(s, user, agent, pair);
    case Refresh(token, allowed, agent, pair) =>
      if allowed && AcceptsRefresh(s, token) { IssueKeepsInv(s, s.refreshes[token].user, agent, pair); }
    case Impersonate(jti, life) => ImpersonatingKeepsInv(s, jti, life);
    case Revoke(user, jti, lost) => if jti in OfUser(s, user) { RevokingKeepsInv(s, {jti}, lost); }
    case RevokeAll(user, lost) => RevokingKeepsInv(s, OfUser(s, user), lost);
    case StopImpersonation(jti) => StoppingKeepsInv(s, jti);
  }

  lemma WaitingKeepsInv(s: State, seconds: real)
    requires Inv(s)
    ensures Inv(Next(s, Wait(seconds)))
  {
    hide Ttl;
  }

  lemma UpsertChanges(sessions: map<nat, Session>, jti: nat, row: Session)
    ensures
      var t := Upsert(sessions, jti, row);
      && TakenOver(sessions, row) <= sessions.Keys
      && t.Keys == sessions.Keys - TakenOver(sessions, row) + {jti}
      && (forall j :: j in t && j != jti ==> t[j] == sessions[j]) && t[jti] == row
  {
  }

  lemma IssueKeepsInv(s: State, user: nat, agent: Option<string>, pair: Pair)
    requires Inv(s)
    ensures Inv(Issue(s, user, agent, pair))
  {
    UpsertChanges(s.sessions, pair.jti, Session(user, agent, s.now + pair.life));
    hide Ttl, Upsert, TakenOver;
  }

  lemma ImpersonatingKeepsInv(s: State, jti: nat, life: real)
    requires Inv(s)
    ensures Inv(Next(s, Impersonate(jti, life)))
  {
    hide Ttl;
  }

  lemma StoppingKeepsInv(s: State, jti: nat)
    requires Inv(s)
    ensures Inv(Next(s, StopImpersonation(jti)))
  {
    hide Ttl;
  }

  lemma RevokingKeepsInv(s: State, jtis: set<nat>, lost: Lost)
    requires Inv(s) && jtis <= s.sessions.Keys
    ensures Inv(RevokeThese(s, jtis, lost))
  {
    var t := RevokeThese(s, jtis, lost);
    forall j | j in t.revoked ensures RevokedIsRight(t, j) {
      RevokingKeepsRevoked(s, jtis, lost, j);
    }
    hide Ttl, RevokedIsRight;
  }

  lemma RevokingKeepsRevoked(s: State, jtis: set<nat>, lost: Lost, j: nat)
    requires Inv(s) && jtis <= s.sessions.Keys
    ensures RevokedIsRight(RevokeThese(s, jtis, lost), j)
  {
    assert j in s.revoked ==> RevokedIsRight(s, j);
    assert j in s.sessions ==> SessionIsRight(s, j);
    hide Ttl;
  }

  lemma {:induction false} EveryRunKeepsInv(s: State, steps: seq<Step>)
    requires Inv(s)
    ensures Inv(Runs(s, steps))
    decreases |steps|
  {
    hide Next, Inv;
    if steps != [] {
      StepKeepsInv(s, steps[0]);
      EveryRunKeepsInv(Next(s, steps[0]), steps[1..]);
    }
  }

  lemma RoundedIsNear(x: real)
    ensures -0.5 <= x - Rounded(x) as real <= 0.5
  {
  }

  lemma FloorIsBelow(x: real)
    ensures x.Floor as real <= x < x.Floor as real + 1.0
  {
  }

  /** When the blacklist entry of a session revoked at t ends; at once, where the ttl is not positive. */
  function Covered(expiresAt: real, t: real): real {
    if Ttl(expiresAt, t) > 0 then t + Ttl(expiresAt, t) as real else t
  }

  /**
   Accepted from the end of the blacklist entry to the floored expiry, at most half a second; never, on whole
   seconds.
   */
  predicate InWindowOnly(s: State, jti: nat) {
    && jti in s.tokens && jti in s.revoked
    && var (expiresAt, t) := (s.tokens[jti], s.revoked[jti]);
    var exp := expiresAt.Floor as real;
    && (Accepts(s, jti) <==> Covered(expiresAt, t) <= s.now < exp)
    && exp - Covered(expiresAt, t) <= 0.5
    && (WholeSecond(expiresAt) && WholeSecond(t) ==> !Accepts(s, jti))
  }

  predicate WholeSecond(x: real) {
    x == x.Floor as real
  }

  /** As if it had not been revoked. */
  predicate UntilItExpires(s: State, jti: nat) {
    jti in s.tokens && (Accepts(s, jti) <==> s.now < s.tokens[jti].Floor as real)
  }

  lemma RevokedTokenWindow(s: State, jti: nat)
    requires Inv(s) && jti in s.revoked
    ensures if jti in s.unlisted then UntilItExpires(s, jti) else InWindowOnly(s, jti)
  {
    RoundedIsNear(s.tokens[jti] - s.revoked[jti]);
    FloorIsBelow(s.tokens[jti]);
    if WholeSecond(s.tokens[jti]) && WholeSecond(s.revoked[jti]) { WholeIsExact(s.tokens[jti], s.revoked[jti]); }
    hide Rounded;
  }

  predicate Initial(s: State) {
    && s.tokens == map[] && s.owners == map[] && s.refreshes == map[] && s.sessions == map[] && s.blacklist == map[]
       && s.refreshBlacklist == map[]
    && s.revoked == map[] && s.stopped == map[] && s.impersonations == {} && s.superseded == {} && s.unlisted == {}
  }

  /**
   In every run: a revoked token, alone or with all of its user's, is accepted until it expires if its
   blacklist entry was lost, and in its window only if it was not.
   */
  lemma RevokedTokensInEveryRun(s: State, steps: seq<Step>, jti: nat)
    requires Initial(s) && jti in Runs(s, steps).revoked
    ensures
      var t := Runs(s, steps);
      if jti in t.unlisted then UntilItExpires(t, jti) else InWindowOnly(t, jti)
  {
    EveryRunKeepsInv(s, steps);
    hide Inv, Runs;
    RevokedTokenWindow(Runs(s, steps), jti);
  }

  /** And nothing makes up for a lost entry: its row is gone, and no later revocation finds it. */
  lemma LostEntriesStayLost(s: State, steps: seq<Step>, later: seq<Step>, jti: nat)
    requires Initial(s) && jti in Runs(s, steps).unlisted
    ensures var t := Runs(Runs(s, steps), later); jti in t.unlisted && UntilItExpires(t, jti)
  {
    EveryRunKeepsInv(s, steps);
    EveryRunKeepsInv(Runs(s, steps), later);
    UnlistedGrows(Runs(s, steps), later);
    RevokedTokenWindow(Runs(Runs(s, steps), later), jti);
    hide Runs, UntilItExpires, InWindowOnly;
  }

  lemma {:induction false} UnlistedGrows(s: State, steps: seq<Step>)
    ensures s.unlisted <= Runs(s, steps).unlisted
    decreases |steps|
  {
    if steps != [] {
      StepLosesNoLoss(s, steps[0]);
      hide Next;
      UnlistedGrows(Next(s, steps[0]), steps[1..]);
    }
  }

  lemma StepLosesNoLoss(s: State, step: Step)
    ensures s.unlisted <= Next(s, step).unlisted
  {
    hide Ttl, Listed, Marked, Accepts, AcceptsRefresh, Upsert, TakenOver;
  }

  /** Such a run: revoking loses the entry, revoking all finds no row. */
  lemma LostEntryIsAccepted(s: State)
    requires Initial(s) && s.now == 0.0
    ensures
      var t := Runs(s,
        [Login(7, None, Pair(1, 2, 900.0, 9000.0)), Wait(1.0), Revoke(7, 1, Lost({1}, {})), RevokeAll(7, NONE_LOST)]);
      1 in t.revoked && t.sessions == map[] && Accepts(t, 1)
  {
    var login := Login(7, None, Pair(1, 2, 900.0, 9000.0));
    OneLogin(s, None, Pair(1, 2, 900.0, 9000.0), 1.0);
    var s2 := Next(Next(s, login), Wait(1.0));
    RevokeIs(s2, 7, 1, Lost({1}, {}));
    var s3 := Next(s2, Revoke(7, 1, Lost({1}, {})));
    hide Ttl, Next, Runs;
    assert s3.sessions == map[] && s3.blacklist == map[] && s3.tokens == map[1 := 900.0] && s3.now == 1.0;
    NothingToRevoke(s3, 7);
    assert (900.0).Floor == 900;
    FourSteps(s, login, Wait(1.0), Revoke(7, 1, Lost({1}, {})), RevokeAll(7, NONE_LOST));
  }

  lemma NothingToRevoke(s: State, user: nat)
    requires s.sessions == map[]
    ensures Next(s, RevokeAll(user, NONE_LOST)) == s
  {
    assert OfUser(s, user) == {};
    hide Ttl;
  }

  /** The state after a first login, some time later. */
  lemma OneLogin(s: State, agent: Option<string>, pair: Pair, seconds: real)
    requires Initial(s) && s.now == 0.0 && pair.jti != pair.refresh && seconds >= 0.0
    ensures
      var t := Next(Next(s, Login(7, agent, pair)), Wait(seconds));
      && t == State(map[pair.jti := Session(7, agent, pair.life)], map[], map[], seconds,
                    map[pair.jti := pair.life], map[pair.jti := 7],
                      map[pair.refresh := RefreshToken(7, pair.jti, pair.refreshLife)],
                    {}, {}, map[], map[], {})
      && pair.jti in OfUser(t, 7)
  {
    assert Upsert(map[], pair.jti, Session(7, agent, pair.life)) == map[pair.jti := Session(7, agent, pair.life)];
    assert TakenOver(map[], Session(7, agent, pair.life)) == {};
    hide Ttl;
  }

  lemma WholeIsExact(e: real, t: real)
    requires WholeSecond(e) && WholeSecond(t)
    ensures Rounded(e - t) == e.Floor - t.Floor
  {
    var k := e.Floor - t.Floor;
    assert e - t == k as real;
    if k >= 0 {
      assert (k as real + 0.5).Floor == k;
    } else {
      assert ((-k) as real + 0.5).Floor == -k;
    }
  }

  /** The window is real: a token of 3 seconds revoked after 1.6 is accepted again after 2.7. */
  lemma RevokedTokenCanBeBack(s: State)
    requires Initial(s) && s.now == 0.0
    ensures Accepts(Runs(s, [Login(7, None, Pair(1, 2, 3.0, 9.0)), Wait(1.6), Revoke(7, 1, NONE_LOST), Wait(1.1)]), 1)
  {
    var login := Login(7, None, Pair(1, 2, 3.0, 9.0));
    OneLogin(s, None, Pair(1, 2, 3.0, 9.0), 1.6);
    var s2 := Next(Next(s, login), Wait(1.6));
    assert Ttl(3.0, 1.6) == 1 by { assert (1.4 + 0.5).Floor == 1; }
    RevokeIs(s2, 7, 1, NONE_LOST);
    var s4 := Next(Next(s2, Revoke(7, 1, NONE_LOST)), Wait(1.1));
    assert s4.blacklist[1] == 2.6 && s4.now == 2.7 && s4.tokens[1] == 3.0;
    assert (3.0).Floor == 3;
    FourSteps(s, login, Wait(1.6), Revoke(7, 1, NONE_LOST), Wait(1.1));
  }

  lemma FourSteps(s: State, p: Step, q: Step, r: Step, u: Step)
    ensures Runs(s, [p, q, r, u]) == Next(Next(Next(Next(s, p), q), r), u)
  {
    hide Next;
    RunsCons(s, p, [q, r, u]);
    RunsCons(Next(s, p), q, [r, u]);
    RunsCons(Next(Next(s, p), q), r, [u]);
    RunsCons(Next(Next(Next(s, p), q), r), u, []);
  }

  lemma RunsCons(s: State, p: Step, rest: seq<Step>)
    ensures Runs(s, [p] + rest) == Runs(Next(s, p), rest)
    ensures rest == [] ==> Runs(s, [p]) == Next(s, p)
  {
    hide Next;
    assert ([p] + rest)[1..] == rest;
    assert rest == [] ==> [p] + rest == [p];
  }

  /** Accepted again exactly if the token outlives the 3600 seconds of its entry. */
  predicate OutForAnHour(s: State, jti: nat) {
    && jti in s.tokens && jti in s.stopped
    && (Accepts(s, jti) <==> s.stopped[jti] + 3600.0 <= s.now < s.tokens[jti].Floor as real)
  }

  /** In every run, whatever the lives of impersonations. */
  lemma StoppedTokensInEveryRun(s: State, steps: seq<Step>)
    requires Initial(s)
    ensures forall jti :: jti in Runs(s, steps).stopped ==> OutForAnHour(Runs(s, steps), jti)
  {
    EveryRunKeepsInv(s, steps);
    hide Runs, Ttl;
  }

  predicate ImpersonatesAtMost(steps: seq<Step>, life: real) {
    forall i :: 0 <= i < |steps| && steps[i].Impersonate? ==> steps[i].life <= life
  }

  /** No impersonation outlives an hour from now, nor a stopped one an hour from its stop. */
  predicate WithinTheHour(s: State) {
    && (forall j :: j in s.impersonations && j in s.tokens ==> s.tokens[j] <= s.now + STOP_TTL as real)
    && (forall j :: j in s.stopped && j in s.tokens ==> s.tokens[j] <= s.stopped[j] + STOP_TTL as real)
  }

  lemma StepKeepsTheHour(s: State, step: Step)
    requires Inv(s) && WithinTheHour(s) && (step.Impersonate? ==> step.life <= STOP_TTL as real)
    ensures WithinTheHour(Next(s, step))
  {
    hide Ttl, Upsert;
  }

  lemma {:induction false} EveryRunKeepsTheHour(s: State, steps: seq<Step>)
    requires Inv(s) && WithinTheHour(s) && ImpersonatesAtMost(steps, STOP_TTL as real)
    ensures WithinTheHour(Runs(s, steps))
    decreases |steps|
  {
    hide Next, Inv, WithinTheHour;
    if steps != [] {
      StepKeepsInv(s, steps[0]);
      StepKeepsTheHour(s, steps[0]);
      EveryRunKeepsTheHour(Next(s, steps[0]), steps[1..]);
    }
  }

  /**
   With impersonations of an hour at most (the source's are of thirty minutes), a stopped one is never accepted
   again.
   */
  lemma StoppedNeverAcceptedAgain(s: State, steps: seq<Step>, jti: nat)
    requires Initial(s) && ImpersonatesAtMost(steps, 3600.0)
    ensures jti in Runs(s, steps).stopped ==> !Accepts(Runs(s, steps), jti)
  {
    StoppedTokensInEveryRun(s, steps);
    EveryRunKeepsTheHour(s, steps);
    EveryRunKeepsInv(s, steps);
    hide Runs, Ttl;
    var t := Runs(s, steps);
    if jti in t.stopped {
      assert OutForAnHour(t, jti);
      FloorIsBelow(t.tokens[jti]);
    }
  }

  /* ----- the service, statement by statement ----- */

  datatype RevokeError = SessionNotFound | InvalidExpiry | RedisFailed

  /** The SETs of these rows, in order, each with the reply to its command. */
  function Entries(list: map<nat, real>, rows: seq<(nat, int)>, reply: nat -> Reply, now: real): map<nat, real> {
    if rows == [] then list
    else
      var last := rows[|rows| - 1];
      var before := Entries(list, rows[..|rows| - 1], reply, now);
      if reply(last.0).FailsBefore? then before else Entry(before, last.0, last.1, now)
  }

  lemma {:induction false} EntriesAre(s: State, list: map<nat, real>, rows: seq<(nat, int)>, reply: nat -> Reply,
          j: nat)
    requires forall k :: 0 <= k < |rows| ==>
      rows[k].0 in s.sessions && rows[k].1 == Ttl(s.sessions[rows[k].0].expiresAt, s.now)
    ensures
      var entries := Entries(list, rows, reply, s.now);
      var ttl := if j in s.sessions then Ttl(s.sessions[j].expiresAt, s.now) else 0;
      var listed := j in s.sessions && (j, ttl) in rows && ttl > 0 && !reply(j).FailsBefore?;
      && (j in entries <==> j in list || listed)
      && (j in entries ==> entries[j] == if listed then s.now + ttl as real else list[j])
  {
    hide Ttl;
    if rows != [] {
      var n := |rows| - 1;
      EntriesAre(s, list, rows[..n], reply, j);
      assert rows == rows[..n] + [rows[n]];
    }
  }

  /** These sessions in some order, each with its ttl. */
  predicate RowsOf(s: State, jtis: set<nat>, rows: seq<(nat, int)>) {
    && jtis <= s.sessions.Keys
    && (forall k :: 0 <= k < |rows| ==> rows[k].0 in jtis && rows[k].1 == Ttl(s.sessions[rows[k].0].expiresAt, s.now))
    && (forall j :: j in jtis ==> (j, Ttl(s.sessions[j].expiresAt, s.now)) in rows)
  }

  function FailingBefore(jtis: set<nat>, reply: nat -> Reply): set<nat> {
    set j | j in jtis && reply(j).FailsBefore?
  }

  function LostOf(jtis: set<nat>, access: nat -> Reply, refresh: nat -> Reply): Lost {
    Lost(FailingBefore(jtis, access), FailingBefore(jtis, refresh))
  }

  function LostOne(jti: nat, access: Reply, refresh: Reply): Lost {
    Lost(if access.FailsBefore? then {jti} else {}, if refresh.FailsBefore? then {jti} else {})
  }

  /** The entries set one by one are those of the atomic step. */
  lemma EntriesOfRows(s: State, list: map<nat, real>, jtis: set<nat>, rows: seq<(nat, int)>, reply: nat -> Reply)
    requires RowsOf(s, jtis, rows)
    ensures Entries(list, rows, reply, s.now) == Listed(s, list, jtis - FailingBefore(jtis, reply))
  {
    hide Ttl, Entries;
    var listed := Listed(s, list, jtis - FailingBefore(jtis, reply));
    forall j: nat
      ensures j in Entries(list, rows, reply, s.now) <==> j in listed
      ensures j in Entries(list, rows, reply, s.now) ==> Entries(list, rows, reply, s.now)[j] == listed[j]
    {
      EntriesAre(s, list, rows, reply, j);
      NotListed(s, jtis, rows, j);
    }
  }

  lemma OneListed(s: State, list: map<nat, real>, jti: nat)
    requires jti in s.sessions
    ensures Listed(s, list, {jti}) == Entry(list, jti, Ttl(s.sessions[jti].expiresAt, s.now), s.now)
    ensures Listed(s, list, {}) == list
  {
    hide Ttl;
  }

  /** The atomic step for one session, written out. */
  function OneRevoked(s: State, jti: nat, ttl: int, lost: Lost): State {
    s.(sessions := s.sessions - {jti},
       blacklist := if jti in lost.access then s.blacklist else Entry(s.blacklist, jti, ttl, s.now),
       refreshBlacklist := if jti in lost.refresh then s.refreshBlacklist
         else Entry(s.refreshBlacklist, jti, ttl, s.now),
       revoked := s.revoked[jti := s.now], unlisted := s.unlisted + {jti} * lost.access)
  }

  lemma RevokeIs(s: State, user: nat, jti: nat, lost: Lost)
    requires jti in OfUser(s, user)
    ensures Next(s, Revoke(user, jti, lost)) == OneRevoked(s, jti, Ttl(s.sessions[jti].expiresAt, s.now), lost)
  {
    OneListed(s, s.blacklist, jti);
    OneListed(s, s.refreshBlacklist, jti);
    assert Marked(s.revoked, {jti}, s.now) == s.revoked[jti := s.now];
    assert {jti} - lost.access == if jti in lost.access then {} else {jti};
    assert {jti} - lost.refresh == if jti in lost.refresh then {} else {jti};
    hide Ttl, Listed, Marked, Entry;
  }

  lemma NotListed(s: State, jtis: set<nat>, rows: seq<(nat, int)>, j: nat)
    requires forall k :: 0 <= k < |rows| ==> rows[k].0 in jtis
    ensures j !in jtis ==> forall ttl: int :: (j, ttl) !in rows
  {
  }

  class SessionService {
    var sessions: map<nat, Session>
    var blacklist: map<nat, real>
    var refreshBlacklist: map<nat, real>
    var now: real
    ghost var tokens: map<nat, real>
    ghost var owners: map<nat, nat>
    ghost var refreshes: map<nat, RefreshToken>
    ghost var impersonations: set<nat>
    ghost var superseded: set<nat>
    ghost var revoked: map<nat, real>
    ghost var stopped: map<nat, real>
    ghost var unlisted: set<nat>

    ghost function Contents(): State
      reads this
    {
      State(sessions, blacklist, refreshBlacklist, now, tokens, owners, refreshes, impersonations, superseded,
        revoked, stopped, unlisted)
    }

    /** One SET, with its reply. */
    method SetEntry(list: map<nat, real>, jti: nat, ttl: int, reply: Reply) returns (after: map<nat, real>)
      ensures after == if reply.FailsBefore? then list else Entry(list, jti, ttl, now)
    {
      after := if reply.FailsBefore? || ttl <= 0 then list else list[jti := now + ttl as real];
    }

    /**
     A ttl of zero reads as no row and a negative one is refused by Redis; and either SET may fail. The
     row is gone in every case.
     */
    method RevokeUserSession(user: nat, jti: nat, access: Reply, refresh: Reply) returns (r: Result<(), RevokeError>)
      modifies this`sessions, this`blacklist, this`refreshBlacklist, this`revoked, this`unlisted
      ensures Contents() == Next(old(Contents()), Revoke(user, jti, LostOne(jti, access, refresh)))
      ensures r.Ok? <==>
        && jti in OfUser(old(Contents()), user) && Ttl(old(sessions)[jti].expiresAt, now) > 0
        && access.Works? && refresh.Works?
    {
      ghost var before := Contents();
      ghost var lost := LostOne(jti, access, refresh);
      if jti !in sessions || sessions[jti].user != user {
        return Err(SessionNotFound);
      }
      var ttl := Ttl(sessions[jti].expiresAt, now);
      RevokeIs(before, user, jti, lost);
      hide Ttl, Next, Entry;
      sessions, revoked, unlisted := sessions - {jti}, revoked[jti := now], unlisted + {jti} * lost.access;
      blacklist := SetEntry(blacklist, jti, ttl, access);
      refreshBlacklist := SetEntry(refreshBlacklist, jti, ttl, refresh);
      assert Contents() == OneRevoked(before, jti, ttl, lost);
      hide OneRevoked;
      return if ttl == 0 then Err(SessionNotFound)
        else if ttl < 0 then Err(InvalidExpiry)
        else if !access.Works? || !refresh.Works? then Err(RedisFailed) else Ok(());
    }

    /** Deletes the user's rows, then sets both entries of each with a positive ttl; all are sent, whichever fails. */
    method RevokeAllUserSessions(user: nat, access: nat -> Reply, refresh: nat -> Reply) returns (failed: bool)
      modifies this`sessions, this`blacklist, this`refreshBlacklist, this`revoked, this`unlisted
      ensures Contents()
        == Next(old(Contents()), RevokeAll(user, LostOf(OfUser(old(Contents()), user), access, refresh)))
      ensures failed <==>
        exists j :: j in OfUser(old(Contents()), user) && Ttl(old(sessions)[j].expiresAt, now) > 0
          && !(access(j).Works? && refresh(j).Works?)
    {
      hide Ttl, Listed, Marked, Entries, OfUser, RowsOf, FailingBefore;
      ghost var before := Contents();
      ghost var theirs := OfUser(before, user);
      var rows := DeleteRows(user);
      unlisted := unlisted + theirs * FailingBefore(theirs, access);
      failed := BlacklistAll(rows, access, refresh);
      EntriesOfRows(before, before.blacklist, theirs, rows, access);
      EntriesOfRows(before, before.refreshBlacklist, theirs, rows, refresh);
      FailingRows(before, theirs, rows, access, refresh);
    }

    /** The loop over the rows, and whether one of its commands fails. */
    method BlacklistAll(rows: seq<(nat, int)>, access: nat -> Reply, refresh: nat -> Reply) returns (failed: bool)
      modifies this`blacklist, this`refreshBlacklist
      ensures blacklist == Entries(old(blacklist), rows, access, now)
      ensures refreshBlacklist == Entries(old(refreshBlacklist), rows, refresh, now)
      ensures failed <==>
        exists i :: 0 <= i < |rows| && rows[i].1 > 0 && !(access(rows[i].0).Works? && refresh(rows[i].0).Works?)
    {
      failed := false;
      for i := 0 to |rows|
        invariant blacklist == Entries(old(blacklist), rows[..i], access, now)
        invariant refreshBlacklist == Entries(old(refreshBlacklist), rows[..i], refresh, now)
        invariant failed <==>
          exists k :: 0 <= k < i && rows[k].1 > 0 && !(access(rows[k].0).Works? && refresh(rows[k].0).Works?)
      {
        assert rows[..i + 1][..i] == rows[..i];
        var (jti, ttl) := rows[i];
        if ttl > 0 {
          blacklist := SetEntry(blacklist, jti, ttl, access(jti));
          refreshBlacklist := SetEntry(refreshBlacklist, jti, ttl, refresh(jti));
          failed := failed || !access(jti).Works? || !refresh(jti).Works?;
        }
      }
      assert rows[..|rows|] == rows;
    }

    /** DELETE ... RETURNING jti, ttl, in some order. */
    method DeleteRows(user: nat) returns (rows: seq<(nat, int)>)
      modifies this`sessions, this`revoked
      ensures sessions == old(sessions) - OfUser(old(Contents()), user)
      ensures revoked == Marked(old(revoked), OfUser(old(Contents()), user), now)
      ensures RowsOf(old(Contents()), OfUser(old(Contents()), user), rows)
    {
      hide Ttl, Marked;
      rows := [];
      var theirs := set j | j in sessions && sessions[j].user == user;
      assert theirs == OfUser(Contents(), user);
      hide OfUser;
      var left := theirs;
      while left != {}
        invariant left <= theirs
        invariant forall k :: 0 <= k < |rows| ==>
          rows[k].0 in theirs && rows[k].1 == Ttl(sessions[rows[k].0].expiresAt, now)
        invariant forall j :: j in theirs && j !in left ==> (j, Ttl(sessions[j].expiresAt, now)) in rows
        decreases |left|
      {
        var j :| j in left;
        left := left - {j};
        rows := rows + [(j, Ttl(sessions[j].expiresAt, now))];
      }
      sessions := sessions - theirs;
      revoked := Marked(revoked, theirs, now);
    }
  }

  lemma FailingRows(s: State, jtis: set<nat>, rows: seq<(nat, int)>, access: nat -> Reply, refresh: nat -> Reply)
    requires RowsOf(s, jtis, rows)
    ensures (exists i :: 0 <= i < |rows| && rows[i].1 > 0 && !(access(rows[i].0).Works? && refresh(rows[i].0).Works?))
      <==> exists j :: j in jtis && Ttl(s.sessions[j].expiresAt, s.now) > 0 && !(access(j).Works? && refresh(j).Works?)
  {
    hide Ttl;
    if j :| j in jtis && Ttl(s.sessions[j].expiresAt, s.now) > 0 && !(access(j).Works? && refresh(j).Works?) {
      assert (j, Ttl(s.sessions[j].expiresAt, s.now)) in rows;
    }
  }
}
