/**
 The connection manager of the WebSocket channel: the sockets of each user on this worker, the
 Redis channels it is subscribed to, and sends that drop the sockets they fail on.
 */
module Connections {
  import opened Wrappers


  type User = nat
  type Socket = nat

  /** One call of send_text and whether it returned. */
  datatype Attempt = Attempt(user: User, socket: Socket, ok: bool)

  predicate Distinct<T(==)>(s: seq<T>) {
    forall i, j :: 0 <= i < j < |s| ==> s[i] != s[j]
  }

  lemma DistinctTail<T>(s: seq<T>)
    requires Distinct(s) && s != []
    ensures Distinct(s[1..]) && s[0] !in s[1..]
  {
  }

  lemma DistinctCons<T>(x: T, s: seq<T>)
    requires Distinct(s) && x !in s
    ensures Distinct([x] + s)
  {
  }

  lemma DistinctInit<T>(s: seq<T>, k: nat)
    requires Distinct(s) && k < |s|
    ensures Distinct(s[..k]) && s[k] !in s[..k]
  {
    assert forall i :: 0 <= i < k ==> s[i] != s[k];
  }

  /** list.remove: the first occurrence goes. */
  function Remove(s: seq<Socket>, x: Socket): seq<Socket> {
    if s == [] then [] else if s[0] == x then s[1..] else [s[0]] + Remove(s[1..], x)
  }

  /** The attempts on the sockets in order; the n-th attempt of the worker succeeds if ok(n). */
  function Attempts(user: User, sockets: seq<Socket>, ok: nat -> bool, n: nat): (r: seq<Attempt>)
    ensures |r| == |sockets|
  {
    if sockets == [] then []
    else
      var k := |sockets| - 1;
      Attempts(user, sockets[..k], ok, n) + [Attempt(user, sockets[k], ok(n + k))]
  }

  lemma AttemptsSnoc(user: User, sockets: seq<Socket>, ok: nat -> bool, n: nat, i: nat)
    requires i < |sockets|
    ensures Attempts(user, sockets[..i + 1], ok, n)
      == Attempts(user, sockets[..i], ok, n) + [Attempt(user, sockets[i], ok(n + i))]
  {
    assert sockets[..i + 1][..i] == sockets[..i];
  }

  /** Each attempt is on its own socket, in the order of the list. */
  lemma {:induction false} AttemptAt(user: User, sockets: seq<Socket>, ok: nat -> bool, n: nat, i: nat)
    requires i < |sockets|
    ensures Attempts(user, sockets, ok, n)[i] == Attempt(user, sockets[i], ok(n + i))
  {
    var k := |sockets| - 1;
    if i < k { AttemptAt(user, sockets[..k], ok, n, i); }
  }

  /** The sockets whose attempt succeeded. */
  function Kept(attempts: seq<Attempt>): seq<Socket> {
    if attempts == [] then []
    else
      var last := attempts[|attempts| - 1];
      Kept(attempts[..|attempts| - 1]) + if last.ok then [last.socket] else []
  }

  lemma KeptSnoc(attempts: seq<Attempt>, last: Attempt)
    ensures Kept(attempts + [last]) == Kept(attempts) + if last.ok then [last.socket] else []
  {
    assert (attempts + [last])[..|attempts|] == attempts;
  }

  lemma {:induction false} RemoveAfter(before: seq<Socket>, x: Socket, after: seq<Socket>)
    requires x !in before
    ensures Remove(before + [x] + after, x) == before + after
  {
    var all := before + [x] + after;
    if before == [] {
      assert all[1..] == after && before + after == after;
    } else {
      assert all[1..] == before[1..] + [x] + after;
      RemoveAfter(before[1..], x, after);
      assert [before[0]] + (before[1..] + after) == before + after;
    }
  }

  lemma {:induction false} KeptAreOfTheSockets(user: User, sockets: seq<Socket>, ok: nat -> bool, n: nat)
    ensures forall x :: x in Kept(Attempts(user, sockets, ok, n)) ==> x in sockets
  {
    if sockets != [] {
      var k := |sockets| - 1;
      KeptAreOfTheSockets(user, sockets[..k], ok, n);
      KeptSnoc(Attempts(user, sockets[..k], ok, n), Attempt(user, sockets[k], ok(n + k)));
      hide Kept;
    }
  }

  lemma SplitAt(s: seq<Socket>, i: nat)
    requires i < |s|
    ensures s[i..] == [s[i]] + s[i + 1..]
  {
  }

  /** What one more attempt makes of the sockets of a user. */
  lemma OneMoreAttempt(user: User, sockets: seq<Socket>, ok: nat -> bool, n: nat, i: nat, now: seq<Socket>)
    requires Distinct(sockets) && i < |sockets|
    requires now == Kept(Attempts(user, sockets[..i], ok, n)) + sockets[i..]
    ensures Attempts(user, sockets[..i + 1], ok, n)
      == Attempts(user, sockets[..i], ok, n) + [Attempt(user, sockets[i], ok(n + i))]
    ensures (if ok(n + i) then now else Remove(now, sockets[i])) == Kept(Attempts(user, sockets[..i + 1], ok, n))
      + sockets[i + 1..]
  {
    hide Kept, Attempts, Remove, Distinct;
    var done := Attempts(user, sockets[..i], ok, n);
    var kept := Kept(done);
    DistinctInit(sockets, i);
    AttemptsSnoc(user, sockets, ok, n, i);
    KeptSnoc(done, Attempt(user, sockets[i], ok(n + i)));
    KeptAreOfTheSockets(user, sockets[..i], ok, n);
    SplitAt(sockets, i);
    RemoveAfter(kept, sockets[i], sockets[i + 1..]);
    assert now == kept + [sockets[i]] + sockets[i + 1..];
  }

  lemma {:induction false} RemoveKeepsDistinct(s: seq<Socket>, x: Socket)
    requires Distinct(s)
    ensures Distinct(Remove(s, x)) && forall y :: y in Remove(s, x) <==> y in s && y != x
  {
    if s != [] {
      DistinctTail(s);
      hide Distinct;
      assert s == [s[0]] + s[1..];
      if s[0] != x {
        RemoveKeepsDistinct(s[1..], x);
        DistinctCons(s[0], Remove(s[1..], x));
      }
    }
  }

  class ConnectionManager {
    /** active_connections: the users in the order of the dictionary, and the sockets of each. */
    var users: seq<User>
    var active: map<User, seq<Socket>>
    var subscribed: set<User>
    /** Every send so far. */
    var log: seq<Attempt>
    /** The users present whose subscription was lost. */
    ghost var unheard: set<User>

    /** No user without sockets, and a subscription for exactly the users present, but for the lost ones. */
    ghost predicate Valid()
      reads this
    {
      && Distinct(users) && (forall u :: u in users <==> u in active)
      && (forall u :: u in active ==> active[u] != [])
      && unheard <= active.Keys && subscribed == active.Keys - unheard
    }

    ghost predicate DistinctSockets()
      reads this
    {
      forall u :: u in active ==> Distinct(active[u])
    }

    /** Users have only gone, and with them their lost subscriptions. */
    ghost predicate Remaining(keys: set<User>, lost: set<User>)
      reads this
    {
      active.Keys <= keys && unheard == lost * active.Keys
    }

    function SocketsOf(user: User): seq<Socket>
      reads this
    {
      if user in active then active[user] else []
    }

    constructor ()
      ensures Valid() && active == map[] && log == []
    {
      users, active, subscribed, log, unheard := [], map[], {}, [], {};
    }

    /**
     Only the first socket of a user subscribes, and a subscription that fails is not tried again: the user
     is unheard, whatever sockets come after, until the last is gone.
     */
    method Connect(socket: Socket, user: User, subscribe: Reply) returns (failed: bool)
      requires Valid()
      modifies this`users, this`active, this`subscribed, this`unheard
      ensures Valid() && active == old(active)[user := old(SocketsOf(user)) + [socket]]
      ensures failed <==> user !in old(active) && !subscribe.Works?
      ensures unheard == if user !in old(active) && subscribe.FailsBefore? then old(unheard) + {user} else old(unheard)
      ensures users == if user in old(active) then old(users) else old(users) + [user]
      ensures old(DistinctSockets()) && socket !in old(SocketsOf(user)) ==> DistinctSockets()
    {
      AppendKeepsDistinct(SocketsOf(user), socket);
      AppendKeepsDistinct(users, user);
      hide Distinct;
      if user !in active {
        users, active := users + [user], active[user := []];
      }
      active := active[user := active[user] + [socket]];
      failed := false;
      if |active[user]| == 1 {
        if subscribe.FailsBefore? {
          unheard := unheard + {user};
        } else {
          subscribed := subscribed + {user};
        }
        failed := !subscribe.Works?;
      }
    }

    method Disconnect(socket: Socket, user: User)
      requires Valid()
      modifies this`users, this`active, this`subscribed, this`unheard
      ensures Valid() && Remaining(old(active.Keys), old(unheard))
      ensures
        var left := Remove(old(SocketsOf(user)), socket);
        active == if left == [] then old(active) - {user} else old(active)[user := left]
      ensures old(DistinctSockets()) ==> DistinctSockets()
    {
      RemoveFromNone(socket);
      hide Distinct, Remove;
      if user in active {
        if Distinct(active[user]) { RemoveKeepsDistinct(active[user], socket); }
        RemoveAbsent(active[user], socket);
        if socket in active[user] {
          active := active[user := Remove(active[user], socket)];
        }
        if active[user] == [] {
          RemoveKeepsDistinct(users, user);
          users, active := Remove(users, user), active - {user};
          subscribed, unheard := subscribed - {user}, unheard - {user};
        }
      }
    }

    /** One send; the socket goes if it fails. */
    method SendOne(socket: Socket, user: User, ok: bool)
      requires Valid()
      modifies this`users, this`active, this`subscribed, this`unheard, this`log
      ensures Remaining(old(active.Keys), old(unheard))
      ensures Valid() && (old(DistinctSockets()) ==> DistinctSockets())
      ensures log == old(log) + [Attempt(user, socket, ok)]
      ensures SocketsOf(user) == if ok then old(SocketsOf(user)) else Remove(old(SocketsOf(user)), socket)
      ensures forall u :: u != user ==> SocketsOf(u) == old(SocketsOf(u))
    {
      log := log + [Attempt(user, socket, ok)];
      if !ok {
        RemoveFromNone(socket);
        hide Distinct, Remove;
        Disconnect(socket, user);
      }
    }

    /** Each socket the user had is tried once, in order, and with distinct sockets exactly the successful ones stay. */
    method LocalSend(user: User, ok: nat -> bool)
      requires Valid()
      modifies this`users, this`active, this`subscribed, this`unheard, this`log
      ensures Remaining(old(active.Keys), old(unheard))
      ensures Valid() && (old(DistinctSockets()) ==> DistinctSockets())
      ensures log == old(log) + Attempts(user, old(SocketsOf(user)), ok, |old(log)|)
      ensures old(DistinctSockets()) ==> SocketsOf(user) == Kept(Attempts(user, old(SocketsOf(user)), ok, |old(log)|))
      ensures forall u :: u != user ==> SocketsOf(u) == old(SocketsOf(u))
    {
      AttemptsOnNone(user, ok, |log|);
      if user !in active {
        return;
      }
      var snapshot := active[user];
      ghost var before := log;
      NoneSent(user, snapshot, ok);
      hide Valid, DistinctSockets, SocketsOf, Sent;
      for i := 0 to |snapshot|
        invariant Valid() && (old(DistinctSockets()) ==> DistinctSockets()) && Sent(user, snapshot, ok, before, i)
        invariant forall u :: u != user ==> SocketsOf(u) == old(SocketsOf(u))
        invariant Remaining(old(active.Keys), old(unheard))
      {
        SendNext(user, snapshot, ok, before, i);
      }
      AllSent(user, snapshot, ok, before);
    }

    /** The first i sockets of the snapshot have been tried and the failed ones dropped. */
    ghost predicate Sent(user: User, snapshot: seq<Socket>, ok: nat -> bool, before: seq<Attempt>, i: nat)
      reads this
    {
      && i <= |snapshot|
      && log == before + Attempts(user, snapshot[..i], ok, |before|)
      && (Distinct(snapshot) ==> SocketsOf(user) == Kept(Attempts(user, snapshot[..i], ok, |before|)) + snapshot[i..])
    }

    lemma NoneSent(user: User, snapshot: seq<Socket>, ok: nat -> bool)
      requires user in active && snapshot == active[user]
      ensures Sent(user, snapshot, ok, log, 0)
    {
      AttemptsOnNone(user, ok, |log|);
      assert snapshot[..0] == [] && snapshot[0..] == snapshot && log + [] == log && [] + snapshot == snapshot;
    }

    lemma AllSent(user: User, snapshot: seq<Socket>, ok: nat -> bool, before: seq<Attempt>)
      requires Sent(user, snapshot, ok, before, |snapshot|)
      ensures log == before + Attempts(user, snapshot, ok, |before|)
      ensures Distinct(snapshot) ==> SocketsOf(user) == Kept(Attempts(user, snapshot, ok, |before|))
    {
      hide SocketsOf, Attempts, Kept, Distinct;
      assert snapshot[..|snapshot|] == snapshot && snapshot[|snapshot|..] == [];
    }

    method SendNext(user: User, snapshot: seq<Socket>, ok: nat -> bool, ghost before: seq<Attempt>, i: nat)
      requires Valid() && i < |snapshot| && Sent(user, snapshot, ok, before, i)
      modifies this`users, this`active, this`subscribed, this`unheard, this`log
      ensures Remaining(old(active.Keys), old(unheard))
      ensures Valid() && (old(DistinctSockets()) ==> DistinctSockets()) && Sent(user, snapshot, ok, before, i + 1)
      ensures forall u :: u != user ==> SocketsOf(u) == old(SocketsOf(u))
    {
      hide Valid, DistinctSockets, SocketsOf, Distinct, Attempts, Kept, Remove;
      AttemptsSnoc(user, snapshot, ok, |before|, i);
      if Distinct(snapshot) { OneMoreAttempt(user, snapshot, ok, |before|, i, SocketsOf(user)); }
      ghost var done := Attempts(user, snapshot[..i], ok, |before|);
      assert |log| == |before| + i;
      Associative(before, done, [Attempt(user, snapshot[i], ok(|log|))]);
      SendOne(snapshot[i], user, ok(|log|));
    }

    /** Every socket present at the start is tried exactly once, user by user, and exactly the successful ones stay. */
    method LocalBroadcast(ok: nat -> bool)
      requires Valid()
      modifies this`users, this`active, this`subscribed, this`unheard, this`log
      ensures Remaining(old(active.Keys), old(unheard))
      ensures Valid() && (old(DistinctSockets()) ==> DistinctSockets())
      ensures log == old(log) + AttemptsOf(old(users), old(active), ok, |old(log)|)
      ensures old(DistinctSockets()) ==> forall u :: SocketsOf(u) == KeptOf(u, old(users), old(active), ok, |old(log)|)
    {
      hide Distinct, Attempts, Kept, AttemptsOf, KeptOf;
      var snapshot := users;
      ghost var n := |log|;
      NoUsers(active, ok, n);
      for i := 0 to |snapshot|
        invariant Valid() && (old(DistinctSockets()) ==> DistinctSockets())
        invariant log == old(log) + AttemptsOf(snapshot[..i], old(active), ok, n)
        invariant Remaining(old(active.Keys), old(unheard))
        invariant forall u :: u !in snapshot[..i] ==> SocketsOf(u) == old(SocketsOf(u))
        invariant old(DistinctSockets()) ==> forall u :: u in snapshot[..i] ==>
          SocketsOf(u) == KeptOf(u, snapshot[..i], old(active), ok, n)
        invariant forall u :: u !in snapshot[..i] ==> KeptOf(u, snapshot[..i], old(active), ok, n) == []
      {
        var user := snapshot[i];
        OneMoreUser(snapshot, old(active), ok, n, i);
        LocalSend(user, ok);
      }
      assert snapshot[..|snapshot|] == snapshot;
    }
  }

  lemma Associative<T>(a: seq<T>, b: seq<T>, c: seq<T>)
    ensures a + b + c == a + (b + c)
  {
  }

  lemma AppendKeepsDistinct<T>(s: seq<T>, x: T)
    ensures Distinct(s) && x !in s ==> Distinct(s + [x])
    ensures s == [] ==> Distinct(s + [x])
  {
  }

  lemma RemoveFromNone(x: Socket)
    ensures Remove([], x) == []
  {
  }

  lemma {:induction false} RemoveAbsent(s: seq<Socket>, x: Socket)
    ensures x !in s ==> Remove(s, x) == s
  {
    if s != [] { RemoveAbsent(s[1..], x); }
  }

  /** The attempts of a broadcast over these users. */
  function AttemptsOf(users: seq<User>, active: map<User, seq<Socket>>, ok: nat -> bool, n: nat): seq<Attempt> {
    if users == [] then []
    else
      var before := AttemptsOf(users[..|users| - 1], active, ok, n);
      var user := users[|users| - 1];
      before + Attempts(user, Of(active, user), ok, n + |before|)
  }

  /** The sockets of a user that a broadcast keeps. */
  function KeptOf(user: User, users: seq<User>, active: map<User, seq<Socket>>, ok: nat -> bool, n: nat): seq<Socket> {
    if users == [] then []
    else if users[|users| - 1] == user then
      Kept(Attempts(user, Of(active, user), ok, n + |AttemptsOf(users[..|users| - 1], active, ok, n)|))
    else KeptOf(user, users[..|users| - 1], active, ok, n)
  }

  lemma AttemptsOnNone(user: User, ok: nat -> bool, n: nat)
    ensures Attempts(user, [], ok, n) == [] && Kept([]) == []
  {
  }

  lemma NoUsers(active: map<User, seq<Socket>>, ok: nat -> bool, n: nat)
    ensures AttemptsOf([], active, ok, n) == [] && forall u :: KeptOf(u, [], active, ok, n) == []
  {
  }

  function Of(active: map<User, seq<Socket>>, user: User): seq<Socket> {
    if user in active then active[user] else []
  }

  /** What one more user adds to a broadcast. */
  lemma OneMoreUser(users: seq<User>, active: map<User, seq<Socket>>, ok: nat -> bool, n: nat, i: nat)
    requires Distinct(users) && i < |users|
    ensures
      var before := AttemptsOf(users[..i], active, ok, n);
      var own := Attempts(users[i], Of(active, users[i]), ok, n + |before|);
      && AttemptsOf(users[..i + 1], active, ok, n) == before + own
      && KeptOf(users[i], users[..i + 1], active, ok, n) == Kept(own)
      && forall u :: u != users[i] ==> KeptOf(u, users[..i + 1], active, ok, n) == KeptOf(u, users[..i], active, ok, n)
    ensures users[i] !in users[..i] && users[..i + 1] == users[..i] + [users[i]]
  {
    DistinctInit(users, i);
    hide *;
    OneUserLonger(users, i);
    UnfoldUsers(users[..i + 1], active, ok, n);
  }

  lemma OneUserLonger(users: seq<User>, i: nat)
    requires i < |users|
    ensures
      var next := users[..i + 1];
      next[..|next| - 1] == users[..i] && next[|next| - 1] == users[i] && next == users[..i] + [users[i]]
  {
  }

  lemma UnfoldUsers(users: seq<User>, active: map<User, seq<Socket>>, ok: nat -> bool, n: nat)
    requires users != []
    ensures
      var init, user := users[..|users| - 1], users[|users| - 1];
      var own := Attempts(user, Of(active, user), ok, n + |AttemptsOf(init, active, ok, n)|);
      && AttemptsOf(users, active, ok, n) == AttemptsOf(init, active, ok, n) + own
      && KeptOf(user, users, active, ok, n) == Kept(own)
      && forall u :: u != user ==> KeptOf(u, users, active, ok, n) == KeptOf(u, init, active, ok, n)
  {
    hide Kept, Attempts;
  }

  /** How often a socket of a user is tried. */
  function Tries(attempts: seq<Attempt>, user: User, socket: Socket): nat {
    if attempts == [] then 0
    else
      var last := attempts[|attempts| - 1];
      Tries(attempts[..|attempts| - 1], user, socket) + if last.user == user && last.socket == socket then 1 else 0
  }

  lemma {:induction false} TriesConcat(a: seq<Attempt>, b: seq<Attempt>, user: User, socket: Socket)
    ensures Tries(a + b, user, socket) == Tries(a, user, socket) + Tries(b, user, socket)
  {
    if b == [] {
      assert a + b == a;
    } else {
      var n := |b| - 1;
      assert (a + b)[..|a + b| - 1] == a + b[..n];
      TriesConcat(a, b[..n], user, socket);
    }
  }

  lemma {:induction false} TriesOfOneUser(user: User, sockets: seq<Socket>, ok: nat -> bool, n: nat, u: User,
          socket: Socket)
    requires Distinct(sockets)
    ensures Tries(Attempts(user, sockets, ok, n), u, socket) == if u == user && socket in sockets then 1 else 0
  {
    if sockets != [] {
      var k := |sockets| - 1;
      DistinctInit(sockets, k);
      hide Distinct;
      assert sockets == sockets[..k] + [sockets[k]];
      TriesOfOneUser(user, sockets[..k], ok, n, u, socket);
    }
  }

  /** A broadcast tries the sockets of the users it goes over once each, and no other. */
  lemma {:induction false} EachSocketIsTriedOnce(users: seq<User>, active: map<User, seq<Socket>>, ok: nat -> bool,
          n: nat, u: User, socket: Socket)
    requires Distinct(users) && forall v :: v in active ==> Distinct(active[v])
    ensures Tries(AttemptsOf(users, active, ok, n), u, socket)
      == if u in users && u in active && socket in active[u] then 1 else 0
  {
    hide AttemptsOf, KeptOf, Attempts, Kept;
    NoUsers(active, ok, n);
    if users != [] {
      var k := |users| - 1;
      var user := users[k];
      DistinctInit(users, k);
      hide Distinct;
      var before := AttemptsOf(users[..k], active, ok, n);
      var sockets := Of(active, user);
      DistinctNone(sockets, active, user);
      OneMoreUser(users, active, ok, n, k);
      assert users[..k + 1] == users;
      EachSocketIsTriedOnce(users[..k], active, ok, n, u, socket);
      TriesOfOneUser(user, sockets, ok, n + |before|, u, socket);
      TriesConcat(before, Attempts(user, sockets, ok, n + |before|), u, socket);
    }
  }

  lemma DistinctNone(sockets: seq<Socket>, active: map<User, seq<Socket>>, user: User)
    requires sockets == Of(active, user) && (user in active ==> Distinct(active[user]))
    ensures Distinct(sockets)
  {
  }

  /** A socket is kept if and only if its one attempt succeeded. */
  lemma {:induction false} KeptIffItsAttemptSucceeded(users: seq<User>, active: map<User, seq<Socket>>,
          ok: nat -> bool, n: nat, u: User, socket: Socket)
    requires Distinct(users) && forall v :: v in active ==> Distinct(active[v])
    ensures socket in KeptOf(u, users, active, ok, n) <==> Attempt(u, socket, true) in AttemptsOf(users, active, ok, n)
  {
    hide AttemptsOf, KeptOf, Attempts, Kept;
    NoUsers(active, ok, n);
    if users != [] {
      var k := |users| - 1;
      var user := users[k];
      DistinctInit(users, k);
      hide Distinct;
      var before := AttemptsOf(users[..k], active, ok, n);
      var sockets := Of(active, user);
      OneMoreUser(users, active, ok, n, k);
      assert users[..k + 1] == users;
      KeptIffItsAttemptSucceeded(users[..k], active, ok, n, u, socket);
      KeptIffSucceeded(user, sockets, ok, n + |before|, socket);
      OnlyTheirUsers(users[..k], active, ok, n);
      var own := Attempts(user, sockets, ok, n + |before|);
      TheirOwnAttempts(user, sockets, ok, n + |before|);
      NotGoneOver(u, users[..k], active, ok, n);
    }
  }

  lemma {:induction false} KeptIffSucceeded(user: User, sockets: seq<Socket>, ok: nat -> bool, n: nat, socket: Socket)
    ensures socket in Kept(Attempts(user, sockets, ok, n)) <==>
      Attempt(user, socket, true) in Attempts(user, sockets, ok, n)
  {
    if sockets != [] {
      var k := |sockets| - 1;
      var all := Attempts(user, sockets, ok, n);
      assert all == Attempts(user, sockets[..k], ok, n) + [Attempt(user, sockets[k], ok(n + k))];
      KeptSnoc(Attempts(user, sockets[..k], ok, n), Attempt(user, sockets[k], ok(n + k)));
      KeptIffSucceeded(user, sockets[..k], ok, n, socket);
    }
  }

  lemma {:induction false} TheirOwnAttempts(user: User, sockets: seq<Socket>, ok: nat -> bool, n: nat)
    ensures forall a :: a in Attempts(user, sockets, ok, n) ==> a.user == user
  {
    if sockets != [] {
      TheirOwnAttempts(user, sockets[..|sockets| - 1], ok, n);
    }
  }

  lemma {:induction false} NotGoneOver(u: User, users: seq<User>, active: map<User, seq<Socket>>, ok: nat -> bool,
          n: nat)
    ensures u !in users ==> KeptOf(u, users, active, ok, n) == []
  {
    if users != [] {
      NotGoneOver(u, users[..|users| - 1], active, ok, n);
    }
  }

  lemma {:induction false} OnlyTheirUsers(users: seq<User>, active: map<User, seq<Socket>>, ok: nat -> bool, n: nat)
    ensures forall a :: a in AttemptsOf(users, active, ok, n) ==> a.user in users
  {
    if users != [] {
      var k := |users| - 1;
      OnlyTheirUsers(users[..k], active, ok, n);
      TheirOwnAttempts(users[k], Of(active, users[k]), ok, n + |AttemptsOf(users[..k], active, ok, n)|);
      hide Attempts;
      assert users == users[..k] + [users[k]];
    }
  }
}
