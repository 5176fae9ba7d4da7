/** The life of API keys: create, revoke and rotate over the `api_keys` table. */
module ApiKeys {
  import opened Keyset

  type Scopes = Option<seq<string>>      // None inherits everything the account may do

  datatype ApiKey = ApiKey(account: Id, prefix: string, name: string, scopes: Scopes, revoked: bool)

  type Keys = map<Id, ApiKey>

  datatype Error = NotFound | KeyNotFound | EmptyScopes | DuplicatePrefix | PrefixCollision | CheckViolation

  datatype Result<+T> = Ok(value: T) | Err(error: Error)

  /** What `generate` draws for one attempt. */
  datatype Draw = Draw(id: Id, prefix: string)

  predicate PrefixTaken(keys: Keys, prefix: string) {
    exists k | k in keys :: keys[k].prefix == prefix
  }

  predicate UniquePrefixes(keys: Keys) {
    forall i, k | i in keys && k in keys && keys[i].prefix == keys[k].prefix :: i == k
  }

  predicate NoEmptyScopes(keys: Keys) {
    forall k | k in keys :: keys[k].scopes != Some([])
  }

  predicate Inv(keys: Keys) {
    UniquePrefixes(keys) && NoEmptyScopes(keys)
  }

  function Active(keys: Keys): set<Id> {
    set k | k in keys && !keys[k].revoked
  }

  function Revoked(keys: Keys, id: Id): Keys {
    if id in keys then keys[id := keys[id].(revoked := true)] else keys
  }

  // ---- statements ---------------------------------------------------------------------

  /** The transactions on the table; services of any number of callers interleave them freely. */
  datatype Statement =
    | Insert(id: Id, key: ApiKey)
    | Revoke(account: Id, id: Id)
    | Rotate(id: Id, key: ApiKey, oldId: Id)

  predicate IsNew(keys: Keys, st: Statement) {
    st.Revoke? || (st.id !in keys && !st.key.revoked)
  }

  /** The check on `scopes`, then the unique index on `prefix`. */
  function InsertError(keys: Keys, key: ApiKey): Option<Error> {
    if key.scopes == Some([]) then Some(CheckViolation)
    else if PrefixTaken(keys, key.prefix) then Some(DuplicatePrefix) else None
  }

  function Perform(keys: Keys, st: Statement): Keys {
    match st
    case Insert(id, key) => if InsertError(keys, key).None? then keys[id := key] else keys
    case Revoke(account, id) => if id in keys && keys[id].account == account then Revoked(keys, id) else keys
    case Rotate(id, key, oldId) => if InsertError(keys, key).None? then Revoked(keys, oldId)[id := key] else keys
  }

  predicate IsRun(keys: Keys, run: seq<Statement>)
    decreases |run|
  {
    run == [] || (IsNew(keys, run[0]) && IsRun(Perform(keys, run[0]), run[1..]))
  }

  function Run(keys: Keys, run: seq<Statement>): Keys
    decreases |run|
  {
    if run == [] then keys else Run(Perform(keys, run[0]), run[1..])
  }

  /** Over any run with any collisions: prefixes stay unique, no key stores an empty scope list, no key
      disappears or changes, and a revoked key stays revoked. */
  lemma {:induction false} RunsKeepKeys(keys: Keys, run: seq<Statement>)
    requires Inv(keys) && IsRun(keys, run)
    ensures Inv(Run(keys, run))
    ensures forall k | k in keys :: k in Run(keys, run) && Run(keys, run)[k] in {keys[k], keys[k].(revoked := true)}
    decreases |run|
  {
    if run != [] {
      RunsKeepKeys(Perform(keys, run[0]), run[1..]);
    }
  }

  /** A rotation that succeeds keeps the number of active keys if and only if the key it replaces was
      still active: rotating a revoked key is accepted and adds one. */
  lemma RotationKeepsActiveCount(keys: Keys, oldId: Id, id: Id, key: ApiKey)
    requires oldId in keys && IsNew(keys, Rotate(id, key, oldId)) && InsertError(keys, key).None?
    ensures var after := Perform(keys, Rotate(id, key, oldId));
            |Active(after)| == |Active(keys)| + if keys[oldId].revoked then 1 else 0
  {
    var after := Perform(keys, Rotate(id, key, oldId));
    var rest := Active(keys) - {oldId};
    assert Active(after) == rest + {id};
    assert oldId in Active(keys) ==> |rest| == |Active(keys)| - 1;
  }

  /** The draw an attempt loop of two settles on. */
  function FirstFree(keys: Keys, first: Draw, second: Draw): Option<Draw> {
    if !PrefixTaken(keys, first.prefix) then Some(first)
    else if !PrefixTaken(keys, second.prefix) then Some(second)
    else None
  }

  /** An insert is refused exactly for an empty scope list or a prefix that is taken. */
  predicate Refusal(keys: Keys, key: ApiKey, r: Result<ApiKey>) {
    if key.scopes == Some([]) then r == Err(CheckViolation)
    else if exists k | k in keys :: keys[k].prefix == key.prefix then r == Err(DuplicatePrefix)
    else r == Ok(key)
  }

  /** The old key is revoked, the new one added, every other row as before. */
  predicate Replaces(before: Keys, after: Keys, oldId: Id, id: Id, key: ApiKey) {
    && after.Keys == before.Keys + {id} && after[id] == key
    && (oldId in before && oldId != id ==> after[oldId] == before[oldId].(revoked := true))
    && forall k | k in before && k != oldId && k != id :: after[k] == before[k]
  }

  class ApiKeyRepository {
    var keys: Keys

    constructor ()
      ensures keys == map[] && Inv(keys)
    {
      keys := map[];
    }

    method InsertKey(id: Id, key: ApiKey) returns (r: Result<ApiKey>)
      requires Inv(keys) && id !in keys && !key.revoked
      modifies this
      ensures Inv(keys)
      ensures r == match InsertError(old(keys), key) case Some(e) => Err(e) case None => Ok(key)
      ensures keys == Perform(old(keys), Statement.Insert(id, key))
      ensures Refusal(old(keys), key, r)
      ensures keys == if r.Ok? then old(keys)[id := key] else old(keys)
    {
      if key.scopes == Some([]) { return Err(CheckViolation); }
      if exists k | k in keys :: keys[k].prefix == key.prefix { return Err(DuplicatePrefix); }
      keys := keys[id := key];
      r := Ok(key);
    }

    /** The one active key a prefix can stand for. */
    method FindActiveByPrefix(prefix: string) returns (found: Option<Id>)
      requires Inv(keys)
      ensures forall k :: found == Some(k) <==> k in keys && keys[k].prefix == prefix && !keys[k].revoked
    {
      var matching := set k | k in keys && keys[k].prefix == prefix && !keys[k].revoked;
      found := None;
      if k :| k in matching {
        found := Some(k);
      }
      assert forall k | k in keys && keys[k].prefix == prefix && !keys[k].revoked :: k in matching;
    }

    method Revoke(account: Id, id: Id) returns (changed: bool)
      requires Inv(keys)
      modifies this
      ensures Inv(keys)
      ensures changed <==> id in old(keys) && old(keys)[id].account == account && !old(keys)[id].revoked
      ensures keys == Perform(old(keys), Statement.Revoke(account, id))
      ensures keys.Keys == old(keys).Keys && forall k | k in keys ::
                keys[k] == if changed && k == id then old(keys)[k].(revoked := true) else old(keys)[k]
      ensures id in keys && keys[id].account == account ==> keys[id].revoked
    {
      changed := id in keys && keys[id].account == account && !keys[id].revoked;
      if changed {
        keys := keys[id := keys[id].(revoked := true)];
      }
    }

    /** Revoke and insert in one transaction: a failed insert rolls the revocation back. */
    method Rotate(oldId: Id, id: Id, key: ApiKey) returns (r: Result<ApiKey>)
      requires Inv(keys) && id !in keys && !key.revoked
      modifies this
      ensures Inv(keys)
      ensures r == match InsertError(old(keys), key) case Some(e) => Err(e) case None => Ok(key)
      ensures keys == Perform(old(keys), Statement.Rotate(id, key, oldId))
      ensures Refusal(old(keys), key, r) && (r.Err? ==> keys == old(keys))
      ensures r.Ok? ==> Replaces(old(keys), keys, oldId, id, key)
    {
      var begun := keys;
      if oldId in keys && !keys[oldId].revoked {
        keys := keys[oldId := keys[oldId].(revoked := true)];
      }
      assert keys == Revoked(begun, oldId);
      assert PrefixTaken(keys, key.prefix) <==> PrefixTaken(begun, key.prefix) by { RevokingKeepsPrefixes(begun, oldId, key.prefix); }
      r := InsertKey(id, key);
      if r.Err? {
        keys := begun;
      }
    }
  }

  lemma RevokingKeepsPrefixes(keys: Keys, id: Id, prefix: string)
    ensures PrefixTaken(Revoked(keys, id), prefix) <==> PrefixTaken(keys, prefix)
  {
    if PrefixTaken(keys, prefix) {
      var k :| k in keys && keys[k].prefix == prefix;
      assert Revoked(keys, id)[k].prefix == prefix;
    }
  }

  predicate PrefixInUse(keys: Keys, prefix: string) {
    exists k | k in keys :: keys[k].prefix == prefix
  }

  /** The key came from the first draw if its prefix was free, else from the second, and is the only new row. */
  predicate IsFreeDraw(before: Keys, draws: seq<Draw>, after: Keys, key: ApiKey)
    requires |draws| == 2
  {
    var draw := if PrefixInUse(before, draws[0].prefix) then draws[1] else draws[0];
    && key.prefix == draw.prefix && !PrefixInUse(before, draw.prefix)
    && draw.id in after && after[draw.id] == key && after.Keys == before.Keys + {draw.id}
  }

  // ---- services ---------------------------------------------------------------------

  method CreateApiKey(repo: ApiKeyRepository, accountExists: bool, account: Id, name: string, scopes: Scopes, draws: seq<Draw>)
    returns (r: Result<ApiKey>)
    requires Inv(repo.keys) && |draws| == 2 && forall d <- draws :: d.id !in repo.keys
    modifies repo
    ensures Inv(repo.keys)
    ensures var free := FirstFree(old(repo.keys), draws[0], draws[1]);
            if scopes == Some([]) then r == Err(EmptyScopes) && repo.keys == old(repo.keys)
            else if !accountExists then r == Err(NotFound) && repo.keys == old(repo.keys)
            else if free.None? then r == Err(PrefixCollision) && repo.keys == old(repo.keys)
            else var key := ApiKey(account, free.value.prefix, name, scopes, false);
              r == Ok(key) && repo.keys == old(repo.keys)[free.value.id := key]
    ensures r.Ok? ==>
              && r.value.account == account && r.value.name == name && r.value.scopes == scopes && !r.value.revoked
              && IsFreeDraw(old(repo.keys), draws, repo.keys, r.value)
    ensures r == Err(PrefixCollision) <==>
              scopes != Some([]) && accountExists && PrefixInUse(old(repo.keys), draws[0].prefix) && PrefixInUse(old(repo.keys), draws[1].prefix)
  {
    if scopes == Some([]) { return Err(EmptyScopes); }
    if !accountExists { return Err(NotFound); }
    for i := 0 to 2
      invariant repo.keys == old(repo.keys)
      invariant forall j | 0 <= j < i :: PrefixTaken(repo.keys, draws[j].prefix)
    {
      r := repo.InsertKey(draws[i].id, ApiKey(account, draws[i].prefix, name, scopes, false));
      if r.Ok? { return; }
    }
    r := Err(PrefixCollision);
  }

  /** What the new key of a rotation is called and may do: overridden, else as before. */
  function Successor(was: ApiKey, prefix: string, name: Option<string>, scopes: Option<Scopes>): ApiKey {
    ApiKey(was.account, prefix, if name.Some? then name.value else was.name,
           if scopes.Some? then scopes.value else was.scopes, false)
  }

  method RotateApiKey(repo: ApiKeyRepository, accountExists: bool, account: Id, oldId: Id,
                      name: Option<string>, scopes: Option<Scopes>, draws: seq<Draw>)
    returns (r: Result<ApiKey>)
    requires Inv(repo.keys) && |draws| == 2 && forall d <- draws :: d.id !in repo.keys
    modifies repo
    ensures Inv(repo.keys)
    ensures var free := FirstFree(old(repo.keys), draws[0], draws[1]);
            if !accountExists then r == Err(NotFound)
            else if oldId !in old(repo.keys) || old(repo.keys)[oldId].account != account then r == Err(KeyNotFound)
            else if scopes == Some(Some([])) then r == Err(EmptyScopes)
            else if free.None? then r == Err(PrefixCollision)
            else r == Ok(Successor(old(repo.keys)[oldId], free.value.prefix, name, scopes)) &&
                 repo.keys == Revoked(old(repo.keys), oldId)[free.value.id := r.value]
    ensures r.Err? ==> repo.keys == old(repo.keys)
    ensures r.Ok? ==>
              && r.value.account == account && !r.value.revoked
              && r.value.name == (if name.Some? then name.value else old(repo.keys)[oldId].name)
              && r.value.scopes == (if scopes.Some? then scopes.value else old(repo.keys)[oldId].scopes)
              && repo.keys[oldId] == old(repo.keys)[oldId].(revoked := true)
              && (forall k | k in old(repo.keys) && k != oldId :: k in repo.keys && repo.keys[k] == old(repo.keys)[k])
              && IsFreeDraw(old(repo.keys), draws, repo.keys, r.value)
  {
    if !accountExists { return Err(NotFound); }
    if oldId !in repo.keys || repo.keys[oldId].account != account { return Err(KeyNotFound); }
    var was := repo.keys[oldId];
    var newName := if name.Some? then name.value else was.name;
    var newScopes := was.scopes;
    if scopes.Some? {
      if scopes.value == Some([]) { return Err(EmptyScopes); }
      newScopes := scopes.value;
    }
    for i := 0 to 2
      invariant repo.keys == old(repo.keys)
      invariant forall j | 0 <= j < i :: PrefixTaken(repo.keys, draws[j].prefix)
    {
      r := repo.Rotate(oldId, draws[i].id, ApiKey(account, draws[i].prefix, newName, newScopes, false));
      if r.Ok? { return; }
    }
    r := Err(PrefixCollision);
  }
}
