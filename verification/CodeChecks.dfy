/**
 What module TwoFactor makes of a code, in terms of the clock, the generator and the records; and backup codes
 as issued and used: each works once, whatever order they are tried in.
 */
module CodeChecks {
  import opened Wrappers
  import opened Text
  import opened TwoFactor

  /* ----- what becomes of a code ----- */

  /** Six digits, spaces aside, that the generator gives in this half minute, the one before or the one after. */
  ghost predicate Current(crypto: Crypto, secret: string, typed: string, now: nat) {
    && |typed| == 6 && (forall i :: 0 <= i < 6 ==> '0' <= typed[i] <= '9')
    && exists n: nat :: now / 30_000 - 1 <= n <= now / 30_000 + 1 && crypto.otp(secret, n) == typed
  }

  /** The record of a code that was issued and not used. */
  predicate Unused(factor: Factor, hash: string) {
    exists i :: 0 <= i < |factor.codes| && factor.codes[i].hash == hash && !factor.codes[i].used
  }

  /**
   A code is tried as a time-based one first, which is taken once in a half minute, and else as a backup code;
   without a factor that is on, nothing passes.
   */
  ghost predicate IsVerdict(s: State, user: nat, typed: string, hash: string, crypto: Crypto, outcome: Outcome) {
    if user !in s.factors || !s.factors[user].enabled then outcome == NotEnabled
    else if Current(crypto, s.factors[user].secret, typed, s.now) then
      if (user, s.now / 30_000) in s.replays && s.now < s.replays[(user, s.now / 30_000)]
      then outcome == ReplayDetected else outcome == ByTotp
    else if Unused(s.factors[user], hash) then outcome == ByBackup
    else outcome == InvalidCode
  }

  lemma VerdictIs(s: State, user: nat, code: string, crypto: Crypto)
    ensures IsVerdict(s, user, Cleaned(Strip(code)), HashBackupCode(Strip(code), crypto), crypto,
              Verdict(s, user, code, crypto))
  {
    if user in s.factors {
      TakenIsCurrent(crypto, s.factors[user].secret, Cleaned(Strip(code)), s.now);
      UnusedIsListed(s.factors[user], HashBackupCode(Strip(code), crypto));
    }
    hide Current, TakenIn, Unused, Strip, Cleaned, HashBackupCode;
  }

  lemma TakenIsCurrent(crypto: Crypto, secret: string, typed: string, now: nat)
    ensures TakenIn(crypto, secret, typed, SliceOf(now)) <==> Current(crypto, secret, typed, now)
  {
    assert forall n: nat :: n in Window(SliceOf(now)) <==> now / 30_000 - 1 <= n <= now / 30_000 + 1;
    DigitsAt(typed);
    hide SixDigits, Window, SliceOf;
  }

  lemma DigitsAt(typed: string)
    ensures SixDigits(typed) <==> |typed| == 6 && forall i :: 0 <= i < 6 ==> '0' <= typed[i] <= '9'
  {
    forall i | 0 <= i < |typed| ensures typed[i] in typed {}
    if |typed| == 6 && forall i :: 0 <= i < 6 ==> '0' <= typed[i] <= '9' {
      forall c | c in typed ensures '0' <= c <= '9' {
        var i :| 0 <= i < |typed| && typed[i] == c;
      }
    }
  }

  lemma UnusedIsListed(factor: Factor, hash: string)
    ensures CodeRecord(hash, false) in factor.codes <==> Unused(factor, hash)
  {
    if CodeRecord(hash, false) in factor.codes {
      var i :| 0 <= i < |factor.codes| && factor.codes[i] == CodeRecord(hash, false);
      assert factor.codes[i].hash == hash;
    }
    if i :| 0 <= i < |factor.codes| && factor.codes[i].hash == hash && !factor.codes[i].used {
      assert factor.codes[i] == CodeRecord(hash, false);
    }
  }

  /** A check changes what its verdict says, and nothing else. */
  lemma CheckChanges(s: State, user: nat, code: string, crypto: Crypto)
    ensures
      var t := AfterCheck(s, user, code, crypto);
      var outcome := Verdict(s, user, code, crypto);
      && t.now == s.now
      && t.replays ==
           (if outcome == ByTotp then s.replays[(user, s.now / 30_000) := s.now + 60_000] else s.replays)
      && t.factors.Keys == s.factors.Keys
      && (forall u :: u in s.factors && (u != user || outcome != ByBackup) ==> t.factors[u] == s.factors[u])
      && (outcome == ByBackup ==>
            user in s.factors && t.factors[user].secret == s.factors[user].secret && t.factors[user].enabled)
  {
    hide Strip, Cleaned, TakenIn, HashBackupCode, Consume;
  }

  /* ----- the text of a code ----- */

  /** Dropping a character leaves the others, in their order. */
  lemma {:induction false} RemoveIs(s: string, c: char, t: string)
    ensures Remove("", c) == ""
    ensures Remove([c] + t, c) == Remove(t, c)
    ensures forall d :: d != c ==> Remove([d] + t, c) == [d] + Remove(t, c)
  {
    assert forall d :: ([d] + t)[1..] == t && ([d] + t)[0] == d;
  }

  lemma {:induction false} UpperAt(s: string, i: nat)
    requires i < |s|
    ensures |Upper(s)| == |s|
    ensures Upper(s)[i] == if 'a' <= s[i] <= 'z' then (s[i] as int - 32) as char else s[i]
  {
    if |s| > 1 { UpperAt(s[1..], if i > 0 then i - 1 else 0); }
  }

  /* ----- the life of a factor ----- */

  lemma FactorsComeAndGo(s: State, user: nat, secret: string, hashes: seq<string>, crypto: Crypto)
    ensures
      var t := Next(s, Issue(user, secret, hashes), crypto);
      && user in t.factors && Issued(t.factors[user], hashes) && t.factors[user].secret == secret
      && OthersKeep(s, t, user)
    ensures
      var t := Next(s, Reissue(user, hashes), crypto);
      && OthersKeep(s, t, user)
      && (user in s.factors && s.factors[user].enabled ==>
            user in t.factors && Issued(t.factors[user], hashes) && t.factors[user].secret == s.factors[user].secret)
      && (!(user in s.factors && s.factors[user].enabled) ==> t == s)
    ensures
      var t := Next(s, Disable(user), crypto);
      && OthersKeep(s, t, user) && forall code :: Verdict(t, user, code, crypto) == NotEnabled
  {
    hide Strip, Cleaned, TakenIn, HashBackupCode;
  }

  /** On, with an unused record for each hash in its place. */
  predicate Issued(factor: Factor, hashes: seq<string>) {
    && factor.enabled && |factor.codes| == |hashes|
    && forall i :: 0 <= i < |hashes| ==> factor.codes[i] == CodeRecord(hashes[i], false)
  }

  predicate OthersKeep(s: State, t: State, user: nat) {
    && t.replays == s.replays && t.now == s.now && t.acceptances == s.acceptances
    && forall u :: u in s.factors && u != user ==> u in t.factors && t.factors[u] == s.factors[u]
  }

  /* ----- a list of backup codes ----- */

  /** A list with no two codes of one hash, none of which can be a time-based code. */
  predicate Listed(codes: seq<string>, crypto: Crypto) {
    && (forall i :: 0 <= i < |codes| ==> !SixDigits(Cleaned(Strip(codes[i]))))
    && forall i, j :: 0 <= i < j < |codes| ==>
         HashBackupCode(Strip(codes[i]), crypto) != HashBackupCode(Strip(codes[j]), crypto)
  }

  /** The factor holds the list, and exactly the codes tried are used. */
  predicate Spent(s: State, user: nat, codes: seq<string>, tried: seq<nat>, crypto: Crypto) {
    && user in s.factors && s.factors[user].enabled && |s.factors[user].codes| == |codes|
    && forall i :: 0 <= i < |codes| ==>
         s.factors[user].codes[i] == CodeRecord(HashBackupCode(Strip(codes[i]), crypto), i in tried)
  }

  function Checks(user: nat, codes: seq<string>, tried: seq<nat>): seq<Step>
    requires forall k :: 0 <= k < |tried| ==> tried[k] < |codes|
  {
    seq(|tried|, k requires 0 <= k < |tried| => Check(user, codes[tried[k]]))
  }

  lemma OneCodeIsSpent(s: State, user: nat, codes: seq<string>, tried: seq<nat>, i: nat, crypto: Crypto)
    requires Listed(codes, crypto) && Spent(s, user, codes, tried, crypto) && i < |codes|
    ensures Verdict(s, user, codes[i], crypto) == if i in tried then InvalidCode else ByBackup
    ensures Spent(Next(s, Check(user, codes[i]), crypto), user, codes, tried + [i], crypto)
  {
    hide Strip, Cleaned, HashBackupCode, SixDigits, Consume;
    var hash := HashBackupCode(Strip(codes[i]), crypto);
    var records := s.factors[user].codes;
    OneRecord(records, codes, tried, i, crypto);
    assert Cleaned(Strip(codes[i])) == Cleaned(Strip(codes[i]));
    if i !in tried { FirstUnusedAt(records, hash, i); }
    assert i in tried ==> forall k :: k in tried + [i] <==> k in tried;
    ConsumedAt(records, hash, i);
  }

  lemma ConsumedAt(records: seq<CodeRecord>, hash: string, i: nat)
    requires i < |records|
    ensures FirstUnused(records, hash) == Some(i) ==> Consume(records, hash) == records[i := CodeRecord(hash, true)]
  {
  }

  lemma OtherHash(codes: seq<string>, k: nat, i: nat, crypto: Crypto)
    requires Listed(codes, crypto) && k < |codes| && i < |codes| && k != i
    ensures HashBackupCode(Strip(codes[k]), crypto) != HashBackupCode(Strip(codes[i]), crypto)
  {
    hide Strip, HashBackupCode, SixDigits, Cleaned;
  }

  lemma OneRecord(records: seq<CodeRecord>, codes: seq<string>, tried: seq<nat>, i: nat, crypto: Crypto)
    requires Listed(codes, crypto) && |records| == |codes| && i < |codes|
    requires forall k :: 0 <= k < |codes| ==>
      records[k] == CodeRecord(HashBackupCode(Strip(codes[k]), crypto), k in tried)
    ensures
      var hash := HashBackupCode(Strip(codes[i]), crypto);
      && (CodeRecord(hash, false) in records <==> i !in tried)
      && CodeRecord(hash, false) !in records[..i]
  {
    hide Strip, Cleaned, HashBackupCode, SixDigits;
    var hash := HashBackupCode(Strip(codes[i]), crypto);
    forall k | 0 <= k < |codes| && k != i ensures HashBackupCode(Strip(codes[k]), crypto) != hash {
      OtherHash(codes, k, i, crypto);
    }
    if i !in tried { assert records[i] == CodeRecord(hash, false); }
  }

  /**
   Of a list issued, each code passes the first time it is tried and never again, in whatever order and however
   often they are tried.
   */
  lemma {:induction false} EachBackupCodeWorksOnce(s: State, user: nat, codes: seq<string>, tried: seq<nat>, i: nat,
          crypto: Crypto)
    requires Listed(codes, crypto) && Spent(s, user, codes, [], crypto) && i < |codes|
    requires forall k :: 0 <= k < |tried| ==> tried[k] < |codes|
    ensures
      var t := Runs(s, Checks(user, codes, tried), crypto);
      && Spent(t, user, codes, tried, crypto)
      && Verdict(t, user, codes[i], crypto) == if i in tried then InvalidCode else ByBackup
    decreases |tried|
  {
    hide Listed, Spent, Verdict, Next;
    if tried != [] {
      var n := |tried| - 1;
      EachBackupCodeWorksOnce(s, user, codes, tried[..n], i, crypto);
      var t := Runs(s, Checks(user, codes, tried[..n]), crypto);
      OneCodeIsSpent(t, user, codes, tried[..n], tried[n], crypto);
      assert Checks(user, codes, tried) == Checks(user, codes, tried[..n]) + [Check(user, codes[tried[n]])];
      RunsSnoc(s, Checks(user, codes, tried[..n]), Check(user, codes[tried[n]]), crypto);
      assert tried == tried[..n] + [tried[n]];
    }
    OneCodeIsSpent(Runs(s, Checks(user, codes, tried), crypto), user, codes, tried, i, crypto);
  }

  lemma {:induction false} RunsSnoc(s: State, steps: seq<Step>, step: Step, crypto: Crypto)
    ensures Runs(s, steps + [step], crypto) == Next(Runs(s, steps, crypto), step, crypto)
    decreases |steps|
  {
    hide Next;
    if steps == [] {
      assert steps + [step] == [step] && [step][1..] == [];
    } else {
      assert (steps + [step])[1..] == steps[1..] + [step];
      RunsSnoc(Next(s, steps[0], crypto), steps[1..], step, crypto);
    }
  }

  /** As issued, none is spent. */
  lemma IssuedIsUnspent(s: State, user: nat, codes: seq<string>, hashes: seq<string>, crypto: Crypto)
    requires user in s.factors && Issued(s.factors[user], hashes) && |hashes| == |codes|
    requires forall i :: 0 <= i < |codes| ==> hashes[i] == HashBackupCode(Strip(codes[i]), crypto)
    ensures Spent(s, user, codes, [], crypto)
  {
    hide HashBackupCode, Strip;
  }

  /** The codes generated are of that kind: two halves and a dash are no six digits. */
  lemma GeneratedIsNoTotp(p: string, q: string)
    requires Plain(p) && Plain(q) && |p| == 4 && |q| == 4
    ensures Strip(p + "-" + q) == p + "-" + q && !SixDigits(Cleaned(Strip(p + "-" + q)))
  {
    var code := p + "-" + q;
    assert p[0] in p && q[3] in q && code[0] == p[0] && code[8] == q[3];
    StripNothing(code);
    forall c | c in code ensures c != ' ' {
      assert c in p || c == '-' || c in q;
    }
    RemoveAbsent(code, ' ');
  }
}
