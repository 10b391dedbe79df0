/**
 What revocation does not reach: every access token of a login has its row, or was revoked, or lost its
 row to a later login; and refresh tokens, which have ids of their own, are never on their blacklist.
 */
module SessionFates {
  import opened Wrappers
  import opened SessionRevocation

  /** An access token of a login has its row, or was revoked, or lost its row to a later login. */
  predicate HasOneFate(s: State, j: nat) {
    && (j in s.owners <==> j in s.tokens && j !in s.impersonations)
    && (j in s.owners <==> j in s.sessions || j in s.revoked || j in s.superseded)
    && !(j in s.sessions && j in s.revoked) && !(j in s.sessions && j in s.superseded)
       && !(j in s.revoked && j in s.superseded)
    && (j in s.sessions && j in s.owners ==> s.sessions[j].user == s.owners[j])
  }

  ghost predicate Fates(s: State) {
    (forall j: nat :: HasOneFate(s, j)) && RefreshesOk(s)
  }

  predicate RefreshesOk(s: State) {
    && (forall r :: r in s.refreshes ==> r !in s.tokens && s.refreshes[r].session in s.owners)
    && (forall j :: j in s.refreshBlacklist ==> j in s.revoked)
  }

  lemma IssueKeepsRefreshes(s: State, user: nat, agent: Option<string>, pair: Pair)
    requires RefreshesOk(s)
    ensures RefreshesOk(Issue(s, user, agent, pair))
  {
    hide Upsert, TakenOver;
  }

  lemma ImpersonationsAreTokens(s: State)
    requires Inv(s)
    ensures s.impersonations <= s.tokens.Keys
  {
  }

  lemma IssueKeepsFate(s: State, user: nat, agent: Option<string>, pair: Pair, j: nat)
    requires s.impersonations <= s.tokens.Keys && HasOneFate(s, j)
    ensures HasOneFate(Issue(s, user, agent, pair), j)
  {
    UpsertAt(s.sessions, pair.jti, Session(user, agent, s.now + pair.life), j);
    hide Upsert, TakenOver;
  }

  lemma UpsertAt(sessions: map<nat, Session>, jti: nat, row: Session, j: nat)
    ensures
      var t := Upsert(sessions, jti, row);
      && (j in t <==> j == jti || (j in sessions && j !in TakenOver(sessions, row)))
      && (j in t ==> t[j] == if j == jti then row else sessions[j])
      && (j in TakenOver(sessions, row) ==> j in sessions)
  {
  }

  lemma RevokingKeepsFate(s: State, jtis: set<nat>, lost: Lost, j: nat)
    requires jtis <= s.sessions.Keys && HasOneFate(s, j)
    ensures HasOneFate(RevokeThese(s, jtis, lost), j)
  {
    hide Listed;
  }

  lemma RevokingKeepsRefreshes(s: State, jtis: set<nat>, lost: Lost)
    requires jtis <= s.sessions.Keys && RefreshesOk(s)
    ensures RefreshesOk(RevokeThese(s, jtis, lost))
  {
    hide Ttl;
  }

  lemma IssueKeepsFates(s: State, user: nat, agent: Option<string>, pair: Pair)
    requires Inv(s) && Fates(s)
    ensures Fates(Issue(s, user, agent, pair))
  {
    ImpersonationsAreTokens(s);
    IssueKeepsRefreshes(s, user, agent, pair);
    hide Inv, HasOneFate, RefreshesOk, Issue;
    forall j: nat ensures HasOneFate(Issue(s, user, agent, pair), j) {
      IssueKeepsFate(s, user, agent, pair, j);
    }
  }

  lemma RevokingKeepsFates(s: State, jtis: set<nat>, lost: Lost)
    requires Fates(s) && jtis <= s.sessions.Keys
    ensures Fates(RevokeThese(s, jtis, lost))
  {
    RevokingKeepsRefreshes(s, jtis, lost);
    hide HasOneFate, RefreshesOk, RevokeThese;
    forall j: nat ensures HasOneFate(RevokeThese(s, jtis, lost), j) {
      RevokingKeepsFate(s, jtis, lost, j);
    }
  }

  lemma ImpersonationKeepsFate(s: State, jti: nat, life: real, j: nat)
    requires HasOneFate(s, j) && HasOneFate(s, jti)
    ensures HasOneFate(Next(s, Impersonate(jti, life)), j)
  {
  }

  lemma ImpersonationKeepsRefreshes(s: State, jti: nat, life: real)
    requires RefreshesOk(s)
    ensures RefreshesOk(Next(s, Impersonate(jti, life)))
  {
  }

  lemma ImpersonatingKeepsFates(s: State, jti: nat, life: real)
    requires Fates(s)
    ensures Fates(Next(s, Impersonate(jti, life)))
  {
    ImpersonationKeepsRefreshes(s, jti, life);
    hide HasOneFate, RefreshesOk, Next;
    forall j: nat ensures HasOneFate(Next(s, Impersonate(jti, life)), j) {
      ImpersonationKeepsFate(s, jti, life, j);
    }
  }

  /** A change of the clock or of the access blacklist alone. */
  lemma SameRowsSameFates(s: State, t: State)
    requires Fates(s) && t == s.(now := t.now, blacklist := t.blacklist, stopped := t.stopped)
    ensures Fates(t)
  {
    forall j: nat ensures HasOneFate(t, j) {
      assert HasOneFate(s, j);
    }
  }

  lemma LoginKeepsFates(s: State, user: nat, agent: Option<string>, pair: Pair)
    requires Inv(s) && Fates(s)
    ensures Fates(Next(s, Login(user, agent, pair)))
  {
    IssueKeepsFates(s, user, agent, pair);
    hide Issue, Inv, Fates;
  }

  lemma RefreshKeepsFates(s: State, token: nat, allowed: bool, agent: Option<string>, pair: Pair)
    requires Inv(s) && Fates(s)
    ensures Fates(Next(s, Refresh(token, allowed, agent, pair)))
  {
    if allowed && AcceptsRefresh(s, token) { IssueKeepsFates(s, s.refreshes[token].user, agent, pair); }
    hide Issue, Inv, Fates, HasOneFate, RefreshesOk;
  }

  lemma RevokeKeepsFates(s: State, step: Step)
    requires Fates(s) && (step.Revoke? || step.RevokeAll?)
    ensures Fates(Next(s, step))
  {
    hide RevokeThese, Fates, HasOneFate, RefreshesOk;
    if step.RevokeAll? {
      RevokingKeepsFates(s, OfUser(s, step.user), step.lost);
    } else if step.jti in OfUser(s, step.user) {
      RevokingKeepsFates(s, {step.jti}, step.lost);
    }
  }

  lemma WaitKeepsFates(s: State, seconds: real)
    requires Fates(s)
    ensures Fates(Next(s, Wait(seconds)))
  {
    SameRowsSameFates(s, s.(now := s.now + seconds));
    hide Fates;
  }

  lemma StopKeepsFates(s: State, jti: nat)
    requires Fates(s)
    ensures Fates(Next(s, StopImpersonation(jti)))
  {
    SameRowsSameFates(s,
      s.(blacklist := s.blacklist[jti := s.now + STOP_TTL as real], stopped := s.stopped[jti := s.now]));
    hide Fates, Accepts;
  }

  lemma StepKeepsFates(s: State, step: Step)
    requires Inv(s) && Fates(s)
    ensures Fates(Next(s, step))
  {
    hide *;
    match step
    case Login(user, agent, pair) => LoginKeepsFates(s, user, agent, pair);
    case Refresh(token, allowed, agent, pair) => RefreshKeepsFates(s, token, allowed, agent, pair);
    case Revoke(_, _, _) => RevokeKeepsFates(s, step);
    case RevokeAll(_, _) => RevokeKeepsFates(s, step);
    case Impersonate(jti, life) => ImpersonatingKeepsFates(s, jti, life);
    case Wait(seconds) => WaitKeepsFates(s, seconds);
    case StopImpersonation(jti) => StopKeepsFates(s, jti);
  }

  lemma {:induction false} EveryRunKeepsFates(s: State, steps: seq<Step>)
    requires Inv(s) && Fates(s)
    ensures Inv(Runs(s, steps)) && Fates(Runs(s, steps))
    decreases |steps|
  {
    hide Next, Inv, Fates;
    if steps != [] {
      StepKeepsInv(s, steps[0]);
      StepKeepsFates(s, steps[0]);
      EveryRunKeepsFates(Next(s, steps[0]), steps[1..]);
    }
  }

  lemma RefreshListIsOfSessions(s: State)
    requires Fates(s)
    ensures forall r :: r in s.refreshes ==> r !in s.refreshBlacklist
  {
    forall r | r in s.refreshes ensures r !in s.refreshBlacklist {
      assert HasOneFate(s, r);
    }
  }

  /**
   The entry under the session's id is never a refresh token's: in every run, revoked or not, each is accepted
   until it expires.
   */
  lemma RefreshTokensAreNotRevoked(s: State, steps: seq<Step>)
    requires Initial(s)
    ensures
      var t := Runs(s, steps);
      forall r :: r in t.refreshes ==> (AcceptsRefresh(t, r) <==> t.now < t.refreshes[r].expiresAt.Floor as real)
  {
    EveryRunKeepsFates(s, steps);
    RefreshListIsOfSessions(Runs(s, steps));
    hide Inv, Runs, Fates;
  }

  /**
   So a revoked session can still be refreshed, into a new access token that is accepted at once,
   exactly while its refresh token is unexpired, if user, version and policy allow.
   */
  lemma RevokedSessionsCanBeRefreshed(s: State, steps: seq<Step>, r: nat, agent: Option<string>, pair: Pair)
    requires Initial(s)
    requires !Used(Runs(s, steps), pair.jti) && !Used(Runs(s, steps), pair.refresh) && pair.jti != pair.refresh
      && pair.life >= 1.0
    ensures
      var t := Runs(s, steps);
      r in t.refreshes && t.refreshes[r].session in t.revoked ==>
        (Accepts(Next(t, Refresh(r, true, agent, pair)), pair.jti) <==> t.now < t.refreshes[r].expiresAt.Floor as real)
  {
    RefreshTokensAreNotRevoked(s, steps);
    EveryRunKeepsFates(s, steps);
    hide Runs, Ttl;
    var t := Runs(s, steps);
    FloorIsBelow(t.now + pair.life);
  }

  /** Such a run: log in, revoke the session a second later, refresh. */
  lemma RefreshedAfterRevocation(s: State)
    requires Initial(s) && s.now == 0.0
    ensures
      var login, refresh :=
        Login(7, None, Pair(1, 2, 900.0, 9000.0)), Refresh(2, true, None, Pair(3, 4, 900.0, 9000.0));
      var t := Runs(s, [login, Wait(1.0), Revoke(7, 1, NONE_LOST), refresh]);
      1 in t.revoked && !Accepts(t, 1) && Accepts(t, 3)
  {
    var login, refresh := Login(7, None, Pair(1, 2, 900.0, 9000.0)), Refresh(2, true, None, Pair(3, 4, 900.0, 9000.0));
    OneLogin(s, None, Pair(1, 2, 900.0, 9000.0), 1.0);
    var s2 := Next(Next(s, login), Wait(1.0));
    assert Ttl(900.0, 1.0) == 899 by { assert (899.0 + 0.5).Floor == 899; }
    RevokeIs(s2, 7, 1, NONE_LOST);
    var s3 := Next(s2, Revoke(7, 1, NONE_LOST));
    assert s3 == OneRevoked(s2, 1, 899, NONE_LOST);
    hide Ttl, RevokeThese, Upsert, TakenOver;
    assert (9000.0).Floor == 9000 && (901.0).Floor == 901 && (900.0).Floor == 900;
    assert s3.refreshes[2].expiresAt == 9000.0 && AcceptsRefresh(s3, 2);
    FourSteps(s, login, Wait(1.0), Revoke(7, 1, NONE_LOST), refresh);
  }

  /** Whether an access token of a login is accepted, by its fate. */
  predicate AcceptedByFate(s: State, j: nat) {
    && j in s.tokens
    && (Accepts(s, j) <==>
          && s.now < s.tokens[j].Floor as real
          && (j in s.sessions || j in s.superseded
                || (j in s.revoked && (j in s.unlisted || Covered(s.tokens[j], s.revoked[j]) <= s.now))))
  }

  lemma FateDecides(s: State, j: nat)
    requires Inv(s) && Fates(s) && j in s.owners
    ensures AcceptedByFate(s, j)
  {
    assert HasOneFate(s, j);
    hide Ttl, Fates;
  }

  /** A token without a row keeps its fate. */
  predicate FateKept(s: State, t: State, j: nat) {
    && j in t.owners && j !in t.sessions && (j in t.superseded <==> j in s.superseded)
       && (j in t.revoked <==> j in s.revoked)
    && (j in t.unlisted <==> j in s.unlisted)
  }

  lemma IssueIsFinal(s: State, user: nat, agent: Option<string>, pair: Pair, j: nat)
    requires Fates(s) && j in s.owners && j !in s.sessions
    ensures FateKept(s, Issue(s, user, agent, pair), j)
  {
    assert HasOneFate(s, j);
    UpsertAt(s.sessions, pair.jti, Session(user, agent, s.now + pair.life), j);
    hide Upsert, TakenOver, Fates;
  }

  lemma RevokingIsFinal(s: State, jtis: set<nat>, lost: Lost, j: nat)
    requires j in s.owners && j !in s.sessions && jtis <= s.sessions.Keys
    ensures FateKept(s, RevokeThese(s, jtis, lost), j)
  {
    hide Listed;
  }

  lemma LoginIsFinal(s: State, user: nat, agent: Option<string>, pair: Pair, j: nat)
    requires Fates(s) && j in s.owners && j !in s.sessions
    ensures FateKept(s, Next(s, Login(user, agent, pair)), j)
  {
    IssueIsFinal(s, user, agent, pair, j);
    hide Issue, Fates, HasOneFate, RefreshesOk, FateKept;
  }

  lemma RefreshIsFinal(s: State, token: nat, allowed: bool, agent: Option<string>, pair: Pair, j: nat)
    requires Fates(s) && j in s.owners && j !in s.sessions
    ensures FateKept(s, Next(s, Refresh(token, allowed, agent, pair)), j)
  {
    if allowed && AcceptsRefresh(s, token) { IssueIsFinal(s, s.refreshes[token].user, agent, pair, j); }
    hide Issue, Fates, HasOneFate, RefreshesOk;
  }

  lemma RevokeIsFinal(s: State, step: Step, j: nat)
    requires (step.Revoke? || step.RevokeAll?) && j in s.owners && j !in s.sessions
    ensures FateKept(s, Next(s, step), j)
  {
    hide RevokeThese;
    if step.RevokeAll? {
      RevokingIsFinal(s, OfUser(s, step.user), step.lost, j);
    } else if step.jti in OfUser(s, step.user) {
      RevokingIsFinal(s, {step.jti}, step.lost, j);
    }
  }

  lemma WaitIsFinal(s: State, seconds: real, j: nat)
    requires j in s.owners && j !in s.sessions
    ensures FateKept(s, Next(s, Wait(seconds)), j)
  {
  }

  lemma ImpersonationIsFinal(s: State, jti: nat, life: real, j: nat)
    requires j in s.owners && j !in s.sessions
    ensures FateKept(s, Next(s, Impersonate(jti, life)), j)
  {
  }

  lemma StopIsFinal(s: State, jti: nat, j: nat)
    requires j in s.owners && j !in s.sessions
    ensures FateKept(s, Next(s, StopImpersonation(jti)), j)
  {
    hide Accepts;
  }

  lemma FatesAreFinal(s: State, step: Step, j: nat)
    requires Fates(s) && j in s.owners && j !in s.sessions
    ensures FateKept(s, Next(s, step), j)
  {
    hide *;
    match step
    case Login(user, agent, pair) => LoginIsFinal(s, user, agent, pair, j);
    case Refresh(token, allowed, agent, pair) => RefreshIsFinal(s, token, allowed, agent, pair, j);
    case Revoke(_, _, _) => RevokeIsFinal(s, step, j);
    case RevokeAll(_, _) => RevokeIsFinal(s, step, j);
    case Wait(seconds) => WaitIsFinal(s, seconds, j);
    case Impersonate(jti, life) => ImpersonationIsFinal(s, jti, life, j);
    case StopImpersonation(jti) => StopIsFinal(s, jti, j);
  }

  lemma {:induction false} FatesStayFinal(s: State, steps: seq<Step>, j: nat)
    requires Inv(s) && Fates(s) && j in s.owners && j !in s.sessions
    ensures FateKept(s, Runs(s, steps), j)
    decreases |steps|
  {
    if steps != [] {
      FatesAreFinal(s, steps[0], j);
      StepKeepsInv(s, steps[0]);
      StepKeepsFates(s, steps[0]);
      hide Next, Inv, Fates;
      FatesStayFinal(Next(s, steps[0]), steps[1..], j);
    }
  }

  /**
   Revoking all sessions of a user ends the tokens that still have a row and whose entry is written. In
   whatever follows, a token issued before is accepted until it expires if a later login from the same agent
   had taken its row over, or its entry is lost, and else in the last half second of one revoked only.
   */
  lemma RevokeAllMissesTakenOverRows(s: State, steps: seq<Step>, user: nat, lost: Lost, later: seq<Step>, j: nat)
    requires Initial(s)
    requires j in Runs(s, steps).owners && Runs(s, steps).owners[j] == user
    ensures
      var before := Runs(s, steps);
      var t := Runs(Next(before, RevokeAll(user, lost)), later);
      var isLost := j in before.unlisted || (j in before.sessions && j in lost.access);
      && j in t.tokens && (j in t.superseded <==> j in before.superseded)
         && (j in t.revoked <==> j !in before.superseded)
      && (j in t.unlisted <==> isLost)
      && if j in before.superseded || isLost then UntilItExpires(t, j) else InWindowOnly(t, j)
  {
    EveryRunKeepsFates(s, steps);
    var before := Runs(s, steps);
    hide Runs;
    var all := Next(before, RevokeAll(user, lost));
    StepKeepsInv(before, RevokeAll(user, lost));
    StepKeepsFates(before, RevokeAll(user, lost));
    AllRevoked(before, user, lost, j);
    FatesStayFinal(all, later, j);
    EveryRunKeepsFates(all, later);
    var t := Runs(all, later);
    FateDecides(t, j);
    hide Next;
    if j in t.revoked { RevokedTokenWindow(t, j); }
  }

  lemma AllRevoked(s: State, user: nat, lost: Lost, j: nat)
    requires Inv(s) && Fates(s) && j in s.owners && s.owners[j] == user
    ensures
      var t := Next(s, RevokeAll(user, lost));
      && j in t.owners && j !in t.sessions && (j in t.superseded <==> j in s.superseded)
         && (j in t.revoked <==> j !in s.superseded)
      && (j in t.unlisted <==> j in s.unlisted || (j in s.sessions && j in lost.access))
  {
    assert HasOneFate(s, j);
    hide Inv, Fates, Ttl, Listed;
  }

  /** Such a run: a second login from the agent takes the row of the first over, and revoking all misses its token. */
  lemma TakenOverRowIsMissed(s: State)
    requires Initial(s) && s.now == 0.0
    ensures
      var first, second :=
        Login(7, Some("agent"), Pair(1, 2, 900.0, 9000.0)), Login(7, Some("agent"), Pair(3, 4, 900.0, 9000.0));
      var t := Runs(s, [first, Wait(1.0), second, RevokeAll(7, NONE_LOST)]);
      1 in t.superseded && 3 in t.revoked && t.sessions == map[] && Accepts(t, 1) && !Accepts(t, 3)
  {
    var first, second :=
      Login(7, Some("agent"), Pair(1, 2, 900.0, 9000.0)), Login(7, Some("agent"), Pair(3, 4, 900.0, 9000.0));
    OneLogin(s, Some("agent"), Pair(1, 2, 900.0, 9000.0), 1.0);
    var s2 := Next(Next(s, first), Wait(1.0));
    SecondLogin(s2);
    var s3 := Next(s2, second);
    OnlyTheSecondIsRevoked(s3);
    hide Next, Runs, Accepts;
    FourSteps(s, first, Wait(1.0), second, RevokeAll(7, NONE_LOST));
  }

  lemma SecondLogin(s: State)
    requires s.sessions == map[1 := Session(7, Some("agent"), 900.0)] && s.tokens == map[1 := 900.0]
      && s.refreshes.Keys == {2}
    requires s.blacklist == map[] && s.now == 1.0 && s.superseded == {} && s.revoked == map[]
    ensures
      var t := Next(s, Login(7, Some("agent"), Pair(3, 4, 900.0, 9000.0)));
      && t.sessions == map[3 := Session(7, Some("agent"), 901.0)] && t.tokens == map[1 := 900.0, 3 := 901.0]
      && t.blacklist == map[] && t.now == 1.0 && t.superseded == {1} && t.revoked == map[]
  {
    UpsertChanges(s.sessions, 3, Session(7, Some("agent"), 901.0));
    assert TakenOver(s.sessions, Session(7, Some("agent"), 901.0)) == {1};
    hide Upsert, TakenOver;
  }

  lemma OnlyTheSecondIsRevoked(s: State)
    requires s.sessions == map[3 := Session(7, Some("agent"), 901.0)] && s.tokens == map[1 := 900.0, 3 := 901.0]
    requires s.blacklist == map[] && s.now == 1.0 && s.superseded == {1} && s.revoked == map[]
    ensures
      var t := Next(s, RevokeAll(7, NONE_LOST));
      1 in t.superseded && 3 in t.revoked && t.sessions == map[] && Accepts(t, 1) && !Accepts(t, 3)
  {
    assert Ttl(901.0, 1.0) == 900 by { assert (900.0 + 0.5).Floor == 900; }
    hide Ttl;
    assert OfUser(s, 7) == {3};
    var t := Next(s, RevokeAll(7, NONE_LOST));
    assert t.blacklist == map[3 := 901.0] && (900.0).Floor == 900;
  }
}
