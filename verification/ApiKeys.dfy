/**
 API keys and the cached copy of each: verification reads the copy by the hash of the presented
 key, and every change of a row deletes the copy under the hash the row had.
 */
module ApiKeys {
  import opened Wrappers

  datatype Row = Row(name: string, hash: string, scopes: seq<string>, rateLimit: Option<int>,
    expires: Option<int>, active: bool)

  /** What a caller learns of a key. The copy in Redis leaves the hash out. */
  datatype KeyData = KeyData(id: nat, name: string, scopes: seq<string>, rateLimit: Option<int>,
    expires: Option<int>, active: bool)

  /** Only what is given is changed. */
  datatype Patch = Patch(name: Option<string>, scopes: Option<seq<string>>, rateLimit: Option<int>,
    expires: Option<int>, active: Option<bool>)

  /** The table, the live copies, and every hash and id ever used; new ones are random and never repeat. */
  datatype State = State(rows: map<nat, Row>, copies: map<string, KeyData>, usedHashes: set<string>, usedIds: set<nat>)

  function Data(id: nat, row: Row): KeyData {
    KeyData(id, row.name, row.scopes, row.rateLimit, row.expires, row.active)
  }

  function Patched(row: Row, patch: Patch): Row {
    row.(name := if patch.name.Some? then patch.name.value else row.name,
         scopes := if patch.scopes.Some? then patch.scopes.value else row.scopes,
         rateLimit := if patch.rateLimit.Some? then patch.rateLimit else row.rateLimit,
         expires := if patch.expires.Some? then patch.expires else row.expires,
         active := if patch.active.Some? then patch.active.value else row.active)
  }

  predicate HasHash(rows: map<nat, Row>, id: nat, hash: string) {
    id in rows && rows[id].hash == hash
  }

  /** The hash column is unique. */
  predicate UniqueHashes(rows: map<nat, Row>) {
    forall i, j :: i in rows && j in rows && rows[i].hash == rows[j].hash ==> i == j
  }

  ghost function ByHash(rows: map<nat, Row>, hash: string): (r: Option<KeyData>)
    ensures r.Some? ==> HasHash(rows, r.value.id, hash) && r.value == Data(r.value.id, rows[r.value.id])
    ensures r.None? ==> forall id :: !HasHash(rows, id, hash)
  {
    if exists id :: HasHash(rows, id, hash) then
      var id :| HasHash(rows, id, hash);
      Some(Data(id, rows[id]))
    else None
  }

  predicate Usable(data: KeyData, now: int) {
    data.active && (data.expires.Some? ==> data.expires.value >= now)
  }

  /** get_api_key_by_hash behind its cache. */
  ghost function Lookup(s: State, hash: string, get: bool): Option<KeyData> {
    if get && hash in s.copies then Some(s.copies[hash]) else ByHash(s.rows, hash)
  }

  ghost function Verified(s: State, hash: string, now: int, get: bool): Option<KeyData> {
    var data := Lookup(s, hash, get);
    if data.Some? && Usable(data.value, now) then data else None
  }

  /* ----- operations and runs ----- */

  datatype Step =
    | Create(id: nat, row: Row)
    | Verify(hash: string, get: bool, save: bool)
    | Update(id: nat, patch: Patch, evicts: bool)
    | Rotate(id: nat, newHash: string, evicts: bool)
    | Delete(id: nat, evicts: bool)
    | DeleteMany(ids: set<nat>, evicts: bool)
    | Expire(hash: string)

  function Evict(copies: map<string, KeyData>, hash: string, works: bool): map<string, KeyData> {
    if works then copies - {hash} else copies
  }

  function HashesOf(rows: map<nat, Row>, ids: set<nat>): set<string> {
    set id | id in ids && id in rows :: rows[id].hash
  }

  ghost function Next(s: State, step: Step): State {
    match step
    case Create(id, row) =>
      if id in s.usedIds || row.hash in s.usedHashes then s
      else s.(rows := s.rows[id := row.(active := true)], usedHashes := s.usedHashes + {row.hash},
        usedIds := s.usedIds + {id})
    case Verify(hash, get, save) =>
      var data := ByHash(s.rows, hash);
      if (get && hash in s.copies) || !save || data.None? then s else s.(copies := s.copies[hash := data.value])
    case Update(id, patch, evicts) =>
      if id !in s.rows then s
      else s.(rows := s.rows[id := Patched(s.rows[id], patch)], copies := Evict(s.copies, s.rows[id].hash, evicts))
    case Rotate(id, newHash, evicts) =>
      if id !in s.rows || newHash in s.usedHashes then s
      else s.(rows := s.rows[id := s.rows[id].(hash := newHash)], copies := Evict(s.copies, s.rows[id].hash, evicts),
              usedHashes := s.usedHashes + {newHash})
    case Delete(id, evicts) =>
      if id !in s.rows then s else s.(rows := s.rows - {id}, copies := Evict(s.copies, s.rows[id].hash, evicts))
    case DeleteMany(ids, evicts) =>
      s.(rows := s.rows - ids, copies := if evicts then s.copies - HashesOf(s.rows, ids) else s.copies)
    case Expire(hash) => s.(copies := s.copies - {hash})
  }

  ghost function Runs(s: State, steps: seq<Step>): State
    decreases |steps|
  {
    if steps == [] then s else Runs(Next(s, steps[0]), steps[1..])
  }

  predicate Evicts(step: Step) {
    (step.Update? || step.Rotate? || step.Delete? || step.DeleteMany?) ==> step.evicts
  }

  predicate AllEvict(steps: seq<Step>) {
    forall i :: 0 <= i < |steps| ==> Evicts(steps[i])
  }

  /** A copy is its row, and nobody else's. */
  ghost predicate CopyAgrees(s: State, hash: string) {
    hash in s.copies ==>
      HasHash(s.rows, s.copies[hash].id, hash) && s.copies[hash] == Data(s.copies[hash].id, s.rows[s.copies[hash].id])
  }

  ghost predicate Inv(s: State) {
    && UniqueHashes(s.rows)
    && (forall id :: id in s.rows ==> id in s.usedIds && s.rows[id].hash in s.usedHashes)
    && (forall hash :: CopyAgrees(s, hash))
  }

  lemma HashIsListed(rows: map<nat, Row>, ids: set<nat>, id: nat)
    ensures id in ids && id in rows ==> rows[id].hash in HashesOf(rows, ids)
  {
  }

  lemma StepKeepsInv(s: State, step: Step)
    requires Inv(s) && Evicts(step)
    ensures Inv(Next(s, step))
  {
    var t := Next(s, step);
    forall hash ensures CopyAgrees(t, hash) {
      assert CopyAgrees(s, hash);
      if step.DeleteMany? && hash in t.copies {
        HashIsListed(s.rows, step.ids, s.copies[hash].id);
      }
    }
  }

  lemma {:induction false} EveryRunKeepsInv(s: State, steps: seq<Step>)
    requires Inv(s) && AllEvict(steps)
    ensures Inv(Runs(s, steps))
    decreases |steps|
  {
    hide Next, Inv, Evicts;
    if steps != [] {
      StepKeepsInv(s, steps[0]);
      EveryRunKeepsInv(Next(s, steps[0]), steps[1..]);
    }
  }

  /** The fields of the row under this id, but its hash. */
  predicate TellsOf(data: KeyData, row: Row) {
    && data.name == row.name && data.scopes == row.scopes && data.rateLimit == row.rateLimit
    && data.expires == row.expires && data.active == row.active
  }

  /** A row of this hash that is active and does not expire before now. */
  predicate Opens(rows: map<nat, Row>, id: nat, hash: string, now: int) {
    && id in rows && rows[id].hash == hash && rows[id].active
    && (rows[id].expires.None? || rows[id].expires.value >= now)
  }

  /**
   Verifying answers from the row, cached or not: what the row says, if there is one of the hash that is active
   and does not expire before now, else nothing.
   */
  lemma VerifyIsTheRow(s: State, hash: string, now: int, get: bool)
    requires Inv(s)
    ensures Verified(s, hash, now, get).Some? <==> exists id :: Opens(s.rows, id, hash, now)
    ensures Verified(s, hash, now, get).Some? ==>
      var data := Verified(s, hash, now, get).value;
      data.id in s.rows && s.rows[data.id].hash == hash && TellsOf(data, s.rows[data.id])
  {
    VerifiedByData(s, hash, now, get);
    if id :| Opens(s.rows, id, hash, now) {
      assert HasHash(s.rows, id, hash) && Usable(Data(id, s.rows[id]), now);
    }
    if id :| HasHash(s.rows, id, hash) && Usable(Data(id, s.rows[id]), now) {
      assert Opens(s.rows, id, hash, now);
    }
    hide Verified, Inv;
  }

  lemma VerifiedByData(s: State, hash: string, now: int, get: bool)
    requires Inv(s)
    ensures Verified(s, hash, now, get).Some?
      <==> exists id :: HasHash(s.rows, id, hash) && Usable(Data(id, s.rows[id]), now)
    ensures Verified(s, hash, now, get).Some? ==>
      var data := Verified(s, hash, now, get).value;
      HasHash(s.rows, data.id, hash) && data == Data(data.id, s.rows[data.id])
  {
    assert CopyAgrees(s, hash);
    if id :| HasHash(s.rows, id, hash) {
      assert Lookup(s, hash, get).Some? && Lookup(s, hash, get).value.id == id;
    }
  }

  /** A new key is its row, active, and verifies at once unless it has expired; no other row changes. */
  lemma NewKeyVerifies(s: State, id: nat, row: Row, now: int, get: bool)
    requires Inv(s) && id !in s.usedIds && row.hash !in s.usedHashes
    ensures
      var t := Next(s, Create(id, row));
      && t.rows == s.rows[id := Row(row.name, row.hash, row.scopes, row.rateLimit, row.expires, true)]
      && (Verified(t, row.hash, now, get).Some? <==> row.expires.None? || row.expires.value >= now)
  {
    var t := Next(s, Create(id, row));
    StepKeepsInv(s, Create(id, row));
    VerifyIsTheRow(t, row.hash, now, get);
    assert Opens(t.rows, id, row.hash, now) <==> row.expires.None? || row.expires.value >= now;
    hide Verified, CopyAgrees;
  }

  /** An update changes the fields that are given, and these only, of this row only; never the hash. */
  lemma UpdateChangesWhatIsGiven(s: State, id: nat, patch: Patch, evicts: bool)
    requires id in s.rows
    ensures
      var t := Next(s, Update(id, patch, evicts));
      var before := s.rows[id];
      && t.rows.Keys == s.rows.Keys
      && (forall other :: other in s.rows && other != id ==> t.rows[other] == s.rows[other])
      && var after := t.rows[id];
         && after.hash == before.hash
         && (if patch.name.Some? then patch.name == Some(after.name) else after.name == before.name)
         && (if patch.scopes.Some? then patch.scopes == Some(after.scopes) else after.scopes == before.scopes)
         && (if patch.rateLimit.Some? then after.rateLimit == patch.rateLimit else after.rateLimit == before.rateLimit)
         && (if patch.expires.Some? then after.expires == patch.expires else after.expires == before.expires)
         && (if patch.active.Some? then patch.active == Some(after.active) else after.active == before.active)
  {
  }

  /** No operation touches another key's row, and only a creation adds one. */
  lemma OtherKeysStay(s: State, step: Step, id: nat)
    requires match step
      case Create(i, _) => i != id
      case Update(i, _, _) => i != id
      case Rotate(i, _, _) => i != id
      case Delete(i, _) => i != id
      case DeleteMany(ids, _) => id !in ids
      case _ => true
    ensures id in Next(s, step).rows <==> id in s.rows
    ensures id in s.rows ==> Next(s, step).rows[id] == s.rows[id]
  {
  }

  /* ----- retired and inactive keys ----- */

  /** A hash that was a key's and is no row's. */
  ghost predicate Retired(s: State, hash: string) {
    hash in s.usedHashes && forall id :: !HasHash(s.rows, id, hash)
  }

  lemma StepKeepsRetired(s: State, step: Step, hash: string)
    requires Retired(s, hash)
    ensures Retired(Next(s, step), hash)
  {
    var t := Next(s, step);
    forall id ensures !HasHash(t.rows, id, hash) {
      assert !HasHash(s.rows, id, hash);
    }
  }

  lemma {:induction false} RetiredNeverVerifies(s: State, steps: seq<Step>, hash: string, now: int, get: bool)
    requires Inv(s) && AllEvict(steps) && Retired(s, hash)
    ensures Verified(Runs(s, steps), hash, now, get).None?
    decreases |steps|
  {
    if steps == [] {
      VerifiedByData(s, hash, now, get);
    } else {
      StepKeepsInv(s, steps[0]);
      StepKeepsRetired(s, steps[0], hash);
      hide Next, Inv, Retired;
      RetiredNeverVerifies(Next(s, steps[0]), steps[1..], hash, now, get);
    }
  }

  /**
   After a rotation the new key verifies exactly when the row is active and unexpired, and the old one never
   again.
   */
  lemma RotationReplacesTheKey(s: State, id: nat, newHash: string, steps: seq<Step>, now: int, get: bool)
    requires Inv(s) && id in s.rows && newHash !in s.usedHashes && AllEvict(steps)
    ensures
      var t := Next(s, Rotate(id, newHash, true));
      && Verified(Runs(t, steps), s.rows[id].hash, now, get).None?
      && Verified(t, newHash, now, get) == if Usable(Data(id, s.rows[id]), now)
         then Some(Data(id, s.rows[id])) else None
  {
    var step := Rotate(id, newHash, true);
    var t := Next(s, step);
    StepKeepsInv(s, step);
    assert HasHash(t.rows, id, newHash);
    VerifiedByData(t, newHash, now, get);
    forall other ensures !HasHash(t.rows, other, s.rows[id].hash) {
    }
    RetiredNeverVerifies(t, steps, s.rows[id].hash, now, get);
  }

  /** A deleted key never verifies again, deleted alone or in bulk. */
  lemma DeletedKeysNeverVerify(s: State, ids: set<nat>, id: nat, steps: seq<Step>, now: int, get: bool)
    requires Inv(s) && id in s.rows && id in ids && AllEvict(steps)
    ensures Verified(Runs(Next(s, DeleteMany(ids, true)), steps), s.rows[id].hash, now, get).None?
    ensures Verified(Runs(Next(s, Delete(id, true)), steps), s.rows[id].hash, now, get).None?
  {
    StepKeepsInv(s, DeleteMany(ids, true));
    StepKeepsInv(s, Delete(id, true));
    RetiredNeverVerifies(Next(s, DeleteMany(ids, true)), steps, s.rows[id].hash, now, get);
    RetiredNeverVerifies(Next(s, Delete(id, true)), steps, s.rows[id].hash, now, get);
  }

  /** Gone or inactive, under an id that is taken. */
  predicate Inactive(s: State, id: nat) {
    id in s.usedIds && (id in s.rows ==> !s.rows[id].active)
  }

  predicate NeverReactivates(steps: seq<Step>, id: nat) {
    forall i :: 0 <= i < |steps| && steps[i].Update? && steps[i].id == id ==> steps[i].patch.active != Some(true)
  }

  /** A deactivated key verifies under none of its hashes until an update makes it active again. */
  lemma {:induction false} InactiveUntilReactivated(s: State, steps: seq<Step>, id: nat, hash: string, now: int,
          get: bool)
    requires Inv(s) && AllEvict(steps) && Inactive(s, id) && NeverReactivates(steps, id)
    ensures Verified(Runs(s, steps), hash, now, get).Some? ==> Verified(Runs(s, steps), hash, now, get).value.id != id
    decreases |steps|
  {
    if steps == [] {
      VerifyIsTheRow(s, hash, now, get);
    } else {
      StepKeepsInv(s, steps[0]);
      hide Inv, ByHash, Verified;
      InactiveUntilReactivated(Next(s, steps[0]), steps[1..], id, hash, now, get);
    }
  }

  /**
   If the delete of the copy fails, the rotated key still verifies through the cache if and only if a
   usable copy of it was there; with the cache unread it does not.
   */
  lemma LostEvictionKeepsTheOldKey(s: State, id: nat, newHash: string, now: int)
    requires Inv(s) && id in s.rows && newHash !in s.usedHashes
    ensures
      var t := Next(s, Rotate(id, newHash, false));
      && (Verified(t, s.rows[id].hash, now, true).Some?
          <==> s.rows[id].hash in s.copies && Usable(Data(id, s.rows[id]), now))
      && Verified(t, s.rows[id].hash, now, false).None?
  {
    var t := Next(s, Rotate(id, newHash, false));
    assert CopyAgrees(s, s.rows[id].hash);
    assert ByHash(t.rows, s.rows[id].hash).None?;
  }

  /* ----- the service, statement by statement ----- */

  const THROTTLE_SECONDS := 300

  datatype KeyError = NotFound | EvictionFailed | StampFailed

  /** When and from where a key was last used. */
  datatype LastUse = LastUse(at: int, ip: Option<string>)

  class ApiKeyService {
    var rows: map<nat, Row>
    var copies: map<string, KeyData>
    /** last_used_at and last_used_ip of the rows, and the ends of the locks that throttle them. */
    var lastUses: map<nat, LastUse>
    var throttles: map<nat, int>
    ghost var usedHashes: set<string>
    ghost var usedIds: set<nat>

    ghost function Contents(): State
      reads this
    {
      State(rows, copies, usedHashes, usedIds)
    }

    method SelectByHash(hash: string) returns (data: Option<KeyData>)
      requires UniqueHashes(rows)
      ensures data == ByHash(rows, hash)
    {
      var left := rows.Keys;
      while left != {}
        invariant left <= rows.Keys
        invariant forall id :: id in rows && id !in left ==> rows[id].hash != hash
        decreases |left|
      {
        var id :| id in left;
        if rows[id].hash == hash {
          assert HasHash(rows, id, hash);
          return Some(Data(id, rows[id]));
        }
        left := left - {id};
      }
      data := None;
    }

    predicate Throttled(id: nat, now: int)
      reads this
    {
      id in throttles && now < throttles[id]
    }

    /** SET NX EX, and update_last_used if the lock was free; a raise of either reaches the caller. */
    method StampUse(id: nat, ip: Option<string>, now: int, sets: Reply, writes: Reply) returns (failed: bool)
      modifies this`lastUses, this`throttles
      ensures failed <==> !sets.Works? || (!old(Throttled(id, now)) && !writes.Works?)
      ensures throttles == if old(Throttled(id, now)) || sets.FailsBefore? then old(throttles)
        else old(throttles)[id := now + 300]
      ensures lastUses ==
        if old(Throttled(id, now)) || !sets.Works? || writes.FailsBefore? || id !in rows then old(lastUses)
        else old(lastUses)[id := LastUse(now, ip)]
    {
      var acquired := !Throttled(id, now);
      if acquired && !sets.FailsBefore? {
        throttles := throttles[id := now + THROTTLE_SECONDS];
      }
      if !sets.Works? {
        return true;
      }
      if acquired {
        if id in rows && !writes.FailsBefore? {
          lastUses := lastUses[id := LastUse(now, ip)];
        }
        return !writes.Works?;
      }
      failed := false;
    }

    /** get_api_key_by_hash behind its cache: the copy, or the row, which is then kept. */
    method GetApiKeyByHash(hash: string, get: bool, save: bool) returns (data: Option<KeyData>)
      requires UniqueHashes(rows)
      modifies this`copies
      ensures Contents() == Next(old(Contents()), Verify(hash, get, save)) && data == Lookup(old(Contents()), hash, get)
    {
      if get && hash in copies {
        return Some(copies[hash]);
      }
      data := SelectByHash(hash);
      if data.Some? && save {
        copies := copies[hash := data.value];
      }
    }

    /** hash_api_key is a parameter; an empty key is no key. */
    method VerifyApiKey(rawKey: string, ip: Option<string>, sha: string -> string, now: int, get: bool, save: bool,
            sets: Reply, writes: Reply)
      returns (r: Result<Option<KeyData>, KeyError>)
      requires UniqueHashes(rows)
      modifies this`copies, this`lastUses, this`throttles
      ensures Contents() == if rawKey == "" then old(Contents())
        else Next(old(Contents()), Verify(sha(rawKey), get, save))
      ensures
        var data := if rawKey == "" then None else Verified(old(Contents()), sha(rawKey), now, get);
        if data.None? then r == Ok(None) && lastUses == old(lastUses) && throttles == old(throttles)
        else
          var free := !old(Throttled(data.value.id, now));
          && r == (if !sets.Works? || (free && !writes.Works?) then Err(StampFailed) else Ok(data))
          && (throttles != old(throttles) ==> free && !sets.FailsBefore?)
          && (lastUses != old(lastUses) ==>
                free && sets.Works? && lastUses == old(lastUses)[data.value.id := LastUse(now, ip)])
          && (r.Ok? && free && data.value.id in rows ==> lastUses == old(lastUses)[data.value.id := LastUse(now, ip)])
    {
      hide Inv, UniqueHashes;
      if rawKey == "" {
        return Ok(None);
      }
      hide Next, Lookup;
      var data := GetApiKeyByHash(sha(rawKey), get, save);
      if data.None? || !data.value.active {
        return Ok(None);
      }
      if data.value.expires.Some? && data.value.expires.value < now {
        return Ok(None);
      }
      var failed := StampUse(data.value.id, ip, now, sets, writes);
      r := if failed then Err(StampFailed) else Ok(data);
    }

    method EvictCache(hash: string, works: bool) returns (failed: bool)
      modifies this`copies
      ensures copies == Evict(old(copies), hash, works) && failed == !works
    {
      if works {
        copies := copies - {hash};
      }
      failed := !works;
    }

    method UpdateApiKey(id: nat, patch: Patch, evicts: bool) returns (r: Result<KeyData, KeyError>)
      modifies this`rows, this`copies
      ensures Contents() == Next(old(Contents()), Update(id, patch, evicts))
      ensures r == if id !in old(rows) then Err(NotFound) else if !evicts then Err(EvictionFailed)
        else Ok(Data(id, Patched(old(rows)[id], patch)))
    {
      if id !in rows {
        return Err(NotFound);
      }
      var existing := rows[id];
      rows := rows[id := Patched(existing, patch)];
      var failed := EvictCache(existing.hash, evicts);
      return if failed then Err(EvictionFailed) else Ok(Data(id, rows[id]));
    }

    method RotateApiKey(id: nat, newHash: string, evicts: bool) returns (r: Result<KeyData, KeyError>)
      requires newHash !in usedHashes
      modifies this`rows, this`copies, this`usedHashes
      ensures Contents() == Next(old(Contents()), Rotate(id, newHash, evicts))
      ensures r.Err? <==> id !in old(rows) || !evicts
    {
      if id !in rows {
        return Err(NotFound);
      }
      var existing := rows[id];
      rows := rows[id := existing.(hash := newHash)];
      usedHashes := usedHashes + {newHash};
      var failed := EvictCache(existing.hash, evicts);
      return if failed then Err(EvictionFailed) else Ok(Data(id, rows[id]));
    }

    method DeleteApiKey(id: nat, evicts: bool) returns (r: Result<(), KeyError>)
      modifies this`rows, this`copies
      ensures Contents() == Next(old(Contents()), Delete(id, evicts))
      ensures r.Err? <==> id !in old(rows) || !evicts
    {
      if id !in rows {
        return Err(NotFound);
      }
      var existing := rows[id];
      rows := rows - {id};
      var failed := EvictCache(existing.hash, evicts);
      return if failed then Err(EvictionFailed) else Ok(());
    }

    /** Reads the hashes, deletes the rows, then deletes the copies; a failing delete of the copies is swallowed. */
    method DeleteApiKeys(ids: set<nat>, evicts: bool) returns (count: nat)
      modifies this`rows, this`copies
      ensures Contents() == Next(old(Contents()), DeleteMany(ids, evicts))
      ensures count == |ids * old(rows).Keys|
    {
      var hashes := set id | id in ids && id in rows :: rows[id].hash;
      count := |ids * rows.Keys|;
      rows := rows - ids;
      if evicts {
        copies := copies - hashes;
      }
    }
  }
}
