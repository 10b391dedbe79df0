/**
 What each step of module SessionRevocation does to the rows and tokens, and how long, in every run, each
 access token is accepted.
 */
module SessionEffects {
  import opened Wrappers
  import opened SessionRevocation
  import opened SessionFates

  /* ----- logging in and refreshing ----- */

  /**
   One new row, which takes the place of the user's rows of the same, given agent; a new access token and a new
   refresh token; and every other row, token and entry as it was.
   */
  ghost predicate LoggedIn(s: State, t: State, user: nat, agent: Option<string>, pair: Pair) {
    && t.now == s.now && t.blacklist == s.blacklist && t.refreshBlacklist == s.refreshBlacklist
    && t.impersonations == s.impersonations && t.revoked == s.revoked && t.stopped == s.stopped
    && pair.jti in t.sessions && t.sessions[pair.jti] == Session(user, agent, s.now + pair.life)
    && (forall j :: j != pair.jti ==>
          (j in t.sessions <==>
             j in s.sessions && !(s.sessions[j].user == user && agent.Some? && s.sessions[j].agent == agent)))
    && (forall j :: j != pair.jti && j in t.sessions ==> j in s.sessions && t.sessions[j] == s.sessions[j])
    && t.tokens == s.tokens[pair.jti := s.now + pair.life] && t.owners == s.owners[pair.jti := user]
    && t.refreshes == s.refreshes[pair.refresh := RefreshToken(user, pair.jti, s.now + pair.refreshLife)]
  }

  lemma LoginLogsIn(s: State, user: nat, agent: Option<string>, pair: Pair)
    requires !Used(s, pair.jti) && !Used(s, pair.refresh) && pair.jti != pair.refresh
    ensures LoggedIn(s, Next(s, Login(user, agent, pair)), user, agent, pair)
  {
    UpsertChanges(s.sessions, pair.jti, Session(user, agent, s.now + pair.life));
    hide Upsert, Ttl;
  }

  /** A refresh logs the token's own user in, if it is allowed and its token is neither expired nor blacklisted. */
  lemma RefreshLogsIn(s: State, token: nat, allowed: bool, agent: Option<string>, pair: Pair)
    requires !Used(s, pair.jti) && !Used(s, pair.refresh) && pair.jti != pair.refresh
    ensures
      var t := Next(s, Refresh(token, allowed, agent, pair));
      if allowed && token in s.refreshes && s.now < s.refreshes[token].expiresAt.Floor as real
         && !(token in s.refreshBlacklist && s.now < s.refreshBlacklist[token])
      then LoggedIn(s, t, s.refreshes[token].user, agent, pair) else t == s
  {
    if token in s.refreshes { LoginLogsIn(s, s.refreshes[token].user, agent, pair); }
    hide Issue, LoggedIn;
  }

  /** Logins without an agent take no row over, and one agent's rows are taken over for the same user only. */
  lemma OtherRowsStay(s: State, user: nat, agent: Option<string>, pair: Pair, j: nat)
    requires !Used(s, pair.jti) && !Used(s, pair.refresh) && pair.jti != pair.refresh
    requires j in s.sessions && j != pair.jti
    requires agent.None? || s.sessions[j].user != user || s.sessions[j].agent != agent
    ensures
      var t := Next(s, Login(user, agent, pair));
      j in t.sessions && t.sessions[j] == s.sessions[j]
  {
    LoginLogsIn(s, user, agent, pair);
    hide Next;
  }

  /* ----- revoking and stopping ----- */

  /** Revoking one session takes that row of that user only; revoking all takes the user's rows and no other's. */
  lemma RowsThatGo(s: State, user: nat, jti: nat, lost: Lost)
    ensures
      var t := Next(s, Revoke(user, jti, lost));
      && (forall j :: j in t.sessions <==> j in s.sessions && !(j == jti && s.sessions[j].user == user))
      && (forall j :: j in t.sessions ==> t.sessions[j] == s.sessions[j])
    ensures
      var t := Next(s, RevokeAll(user, lost));
      && (forall j :: j in t.sessions <==> j in s.sessions && s.sessions[j].user != user)
      && (forall j :: j in t.sessions ==> t.sessions[j] == s.sessions[j])
  {
    hide Ttl, Listed, Marked;
  }

  /** And no token but theirs is accepted any less or any more. */
  lemma OtherTokensAreUntouched(s: State, user: nat, jti: nat, lost: Lost, j: nat)
    requires !(j in s.sessions && s.sessions[j].user == user)
    ensures Accepts(Next(s, Revoke(user, jti, lost)), j) <==> Accepts(s, j)
    ensures Accepts(Next(s, RevokeAll(user, lost)), j) <==> Accepts(s, j)
  {
    RevokingTouchesNoOther(s, OfUser(s, user), lost, j);
    if jti in OfUser(s, user) { RevokingTouchesNoOther(s, {jti}, lost, j); }
    hide Accepts, RevokeThese;
  }

  lemma RevokingTouchesNoOther(s: State, jtis: set<nat>, lost: Lost, j: nat)
    requires jtis <= s.sessions.Keys && j !in jtis
    ensures Accepts(RevokeThese(s, jtis, lost), j) <==> Accepts(s, j)
  {
    hide Ttl;
  }

  lemma StoppingTouchesNoOther(s: State, jti: nat, j: nat)
    requires j != jti
    ensures Accepts(Next(s, StopImpersonation(jti)), j) <==> Accepts(s, j)
  {
  }

  /** An impersonation is accepted as long as it lives, and no longer once it is stopped. */
  lemma StoppingStops(s: State, jti: nat, life: real)
    requires !Used(s, jti) && jti !in s.blacklist && life >= 1.0
    ensures
      var begun := Next(s, Impersonate(jti, life));
      var ended := Next(begun, StopImpersonation(jti));
      && begun.tokens == s.tokens[jti := s.now + life] && jti in begun.impersonations && Accepts(begun, jti)
      && jti in ended.stopped && ended.stopped[jti] == s.now && !Accepts(ended, jti)
  {
    FloorIsBelow(s.now + life);
  }

  /* ----- every token, in every run ----- */

  /** An impersonation that was not stopped has no entry on the blacklist. */
  lemma UnstoppedIsUnlisted(s: State, j: nat)
    requires Inv(s) && j in s.impersonations && j !in s.stopped
    ensures j in s.tokens && j !in s.blacklist
  {
    assert j in s.revoked ==> RevokedIsRight(s, j);
    hide Ttl;
  }

  /**
   In every run every access token is of one of five kinds, and is accepted: until it expires while it has its
   row, or lost it to a later login, or is an impersonation not stopped; from an hour after its stop if it was
   stopped; and if it was revoked until it expires where its entry was lost, and in the last half second
   otherwise.
   */
  lemma EveryTokensLife(s: State, steps: seq<Step>, j: nat)
    requires Initial(s) && j in Runs(s, steps).tokens
    ensures
      var t := Runs(s, steps);
      if j in t.sessions || j in t.superseded then UntilItExpires(t, j)
      else if j in t.revoked then if j in t.unlisted then UntilItExpires(t, j) else InWindowOnly(t, j)
      else if j in t.stopped then OutForAnHour(t, j)
      else j in t.impersonations && UntilItExpires(t, j)
  {
    EveryRunKeepsFates(s, steps);
    StoppedTokensInEveryRun(s, steps);
    var t := Runs(s, steps);
    hide Runs, OutForAnHour, InWindowOnly;
    assert HasOneFate(t, j);
    if j in t.revoked { RevokedTokenWindow(t, j); }
    if j in t.owners {
      FateDecides(t, j);
    } else if j !in t.stopped {
      UnstoppedIsUnlisted(t, j);
    }
    hide Inv, Fates, Ttl;
  }
}
