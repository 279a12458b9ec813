/**
 * LocalDatabaseCluster: the registry of databases, the active set held by
 * the balancer and persisted under the cluster id, the lazily populated
 * lock registry, and the fixed table of mutex patterns.
 */
module Local {
  import opened Wrappers
  import opened Databases
  import opened Delimited
  import opened BalancerContract

  datatype ClusterError =
    /** `getDatabase` of an id that is not registered. */
    | InvalidDatabase(databaseId: string, clusterId: string)
    /** The preferences store could not be synchronised during `loadState`. */
    | StateLoadFailed(clusterId: string)
    /** `unlock` of a lock the caller does not hold. */
    | IllegalMonitorState(key: string)
    /** `put` of a key longer than `MaxKeyLength`. */
    | KeyTooLong(key: string)
    /** `put` of a value longer than `MaxValueLength`. */
    | ValueTooLong(value: string)

  /** `Preferences.MAX_KEY_LENGTH`: the longest key the store accepts. */
  const MaxKeyLength: nat := 80

  /** `Preferences.MAX_VALUE_LENGTH`: the longest value the store accepts. */
  const MaxValueLength: nat := 8192

  /**
   * The argument checks of `put(key, value)`: the key length is checked
   * before the value length, and the store accepts the pair exactly when both
   * are within their limits.
   */
  function PutCheck(key: string, value: string): (r: Outcome<ClusterError>)
    ensures r.Pass? <==> |key| <= MaxKeyLength && |value| <= MaxValueLength
    ensures |key| > MaxKeyLength ==> r == Fail(KeyTooLong(key))
    ensures |key| <= MaxKeyLength && |value| > MaxValueLength ==> r == Fail(ValueTooLong(value))
  {
    if |key| > MaxKeyLength then Fail(KeyTooLong(key))
    else if |value| > MaxValueLength then Fail(ValueTooLong(value))
    else Pass
  }

  /** The dialect ids that have a mutex pattern. */
  const MutexDialects: set<string> :=
    {"identity", "sequence-SQL:2003", "sequence-PostgreSQL", "sequence-MaxDB", "sequence-Firebird", "sequence-DB2"}

  /** The regular expression (as text) that extracts the table or sequence a statement of dialect `id` serialises on. */
  function MutexPattern(id: string): (pattern: Option<string>)
    ensures pattern.Some? <==> id in MutexDialects
    ensures pattern.Some? ==> |pattern.value| > 0
  {
    var table := map[
      "identity" := "[iI][nN][sS][eE][rR][tT]\\s+(?:[iI][nN][tT][oO])?\\s+\\W?(\\w+)\\W?",
      "sequence-SQL:2003" := "[nN][eE][xX][tT]\\s+[vV][aA][lL][uU][eE]\\s+[fF][oO][rR]\\s+\\W?(\\w+)\\W?",
      "sequence-PostgreSQL" := "[nN][eE][xX][tT][vV][aA][lL]\\s*\\(\\s*\\W(\\w+)\\W\\s*\\)",
      "sequence-MaxDB" := "(\\w+)\\W?\\.[nN][eE][xX][tT][vV][aA][lL]",
      "sequence-Firebird" := "[gG][eE][nN]_[iI][dD]\\(\\s*\\W(\\w+)\\W\\s*\\,\\s*\\d+\\s*\\)",
      "sequence-DB2" := "[nN][eE][xX][tT][vV][aA][lL]\\s+[fF][oO][rR]\\s+\\W?(\\w+)\\W?"
    ];
    if id in table then Some(table[id]) else None
  }

  /** Every one of `ids` is a registered database id. */
  predicate AllRegistered(ids: seq<string>, registry: set<string>) {
    forall i | 0 <= i < |ids| :: ids[i] in registry
  }

  /** The record stored under `clusterId` is present, non-empty and names an unregistered id. */
  predicate IsCorrupt(stored: map<string, string>, clusterId: string, registry: set<string>) {
    clusterId in stored && stored[clusterId] != "" && !AllRegistered(Split(stored[clusterId]), registry)
  }

  /**
   * What `loadState` returns: no ids when nothing is stored or the record is
   * corrupt, no ids at all for an empty record, otherwise every stored id in
   * stored order; never a part of the stored list.
   */
  function LoadedState(stored: map<string, string>, clusterId: string, registry: set<string>): (r: Option<seq<string>>)
    ensures r.None? <==> clusterId !in stored || IsCorrupt(stored, clusterId, registry)
    ensures r.Some? ==> AllRegistered(r.value, registry)
    ensures r.Some? && stored[clusterId] == "" ==> r.value == []
    ensures r.Some? && stored[clusterId] != "" ==> r.value == Split(stored[clusterId])
  {
    if clusterId !in stored then None
    else if stored[clusterId] == "" then Some([])
    else if AllRegistered(Split(stored[clusterId]), registry) then Some(Split(stored[clusterId]))
    else None
  }

  /** The store after `loadState`: a corrupt record is removed, nothing else changes. */
  function StoredAfterLoad(stored: map<string, string>, clusterId: string, registry: set<string>): (after: map<string, string>)
    ensures LoadedState(stored, clusterId, registry).None? ==> clusterId !in after
    ensures LoadedState(stored, clusterId, registry).Some? ==> after == stored
    ensures forall k | k != clusterId :: (k in after <==> k in stored) && (k in after ==> after[k] == stored[k])
  {
    if IsCorrupt(stored, clusterId, registry) then stored - {clusterId} else stored
  }

  /**
   * Storing a list of registered, non-empty, delimiter-free ids and loading it
   * back gives exactly that list, and the load removes nothing.
   */
  lemma {:induction false} StoreLoadRoundTrip(stored: map<string, string>, clusterId: string, ids: seq<string>, registry: set<string>)
    requires forall i | 0 <= i < |ids| :: ids[i] in registry && IsField(ids[i])
    ensures LoadedState(stored[clusterId := Join(ids)], clusterId, registry) == Some(ids)
    ensures StoredAfterLoad(stored[clusterId := Join(ids)], clusterId, registry) == stored[clusterId := Join(ids)]
  {
    if |ids| > 0 {
      SplitJoin(ids);
      JoinEnds(ids);
    }
  }

  /** A store (the `Preferences` node): string values keyed by cluster id. */
  class Preferences {
    var entries: map<string, string>

    constructor ()
      ensures entries == map[]
    {
      entries := map[];
    }

    /** `get(key, null)`. */
    function Get(key: string): (value: Option<string>)
      reads this
      ensures value.Some? <==> key in entries
      ensures value.Some? ==> value.value == entries[key]
    {
      if key in entries then Some(entries[key]) else None
    }

    /** `put(key, value)`: records the value unless the key or the value is too long, in which case nothing changes. */
    method Put(key: string, value: string) returns (r: Outcome<ClusterError>)
      modifies this
      ensures r == PutCheck(key, value)
      ensures entries == if r.Pass? then old(entries)[key := value] else old(entries)
    {
      r := PutCheck(key, value);
      if r.Pass? {
        entries := entries[key := value];
      }
    }

    /** `remove(key)`. */
    method Remove(key: string)
      modifies this
      ensures entries == old(entries) - {key}
    {
      entries := entries - {key};
    }
  }

  /** A reentrant lock, reduced to how many times its holder has acquired it. */
  class Lock {
    var holdCount: nat

    constructor ()
      ensures holdCount == 0
    {
      holdCount := 0;
    }
  }

  class LocalDatabaseCluster {
    const id: string
    var databaseMap: map<string, Database>
    const balancer: Balancer
    const preferences: Preferences
    var lockMap: map<string, Lock>

    /** Every database is registered under its own id. */
    ghost predicate RegistryValid()
      reads this
    {
      forall k | k in databaseMap :: databaseMap[k].id == k
    }

    /** Different keys have different locks. */
    ghost predicate LocksDistinct()
      reads this
    {
      forall k1, k2 | k1 in lockMap && k2 in lockMap && k1 != k2 :: lockMap[k1] != lockMap[k2]
    }

    ghost predicate Valid()
      reads this, balancer
    {
      RegistryValid() && LocksDistinct() && balancer.Valid()
    }

    /** A cluster with no databases registered and no locks, over the given balancer and store. */
    constructor (id: string, balancer: Balancer, preferences: Preferences)
      requires balancer.Valid()
      ensures Valid()
      ensures this.id == id && this.balancer == balancer && this.preferences == preferences
      ensures databaseMap == map[] && lockMap == map[]
    {
      this.id := id;
      this.balancer := balancer;
      this.preferences := preferences;
      databaseMap := map[];
      lockMap := map[];
    }

    /**
     * `loadState()`: the persisted active set, checked against the registry.
     * A failed synchronisation of the store is an error; a corrupt record is
     * removed and reported as no state.
     */
    method LoadState(syncFailed: bool) returns (r: Result<Option<seq<string>>, ClusterError>)
      requires Valid()
      modifies preferences
      ensures Valid()
      ensures syncFailed ==> r == Failure(StateLoadFailed(id)) && preferences.entries == old(preferences.entries)
      ensures !syncFailed ==> r == Success(LoadedState(old(preferences.entries), id, databaseMap.Keys))
      ensures !syncFailed ==> preferences.entries == StoredAfterLoad(old(preferences.entries), id, databaseMap.Keys)
    {
      if syncFailed {
        return Failure(StateLoadFailed(id));
      }
      var state := preferences.Get(id);
      if state.None? {
        return Success(None);
      }
      if |state.value| == 0 {
        return Success(Some([]));
      }
      var databases := Split(state.value);
      for i := 0 to |databases|
        invariant forall j | 0 <= j < i :: databases[j] in databaseMap
        invariant preferences.entries == old(preferences.entries)
      {
        if databases[i] !in databaseMap {
          preferences.Remove(id);
          return Success(None);
        }
      }
      return Success(Some(databases));
    }

    /**
     * `storeState()`: the ids of the balancer's members, in `toArray` order and
     * joined by the delimiter, stored under the cluster id. The store's
     * `put` rejects a cluster id or a joined value over its length limits,
     * and that error propagates; a failed flush is only logged, so it leaves
     * the store as written.
     */
    method StoreState() returns (r: Outcome<ClusterError>)
      requires Valid()
      modifies preferences
      ensures Valid()
      ensures r == PutCheck(id, Join(balancer.Ids()))
      ensures preferences.entries ==
                if r.Pass? then old(preferences.entries)[id := Join(balancer.Ids())] else old(preferences.entries)
    {
      var databases := balancer.ToArray();
      var buffer := "";
      for i := 0 to |databases|
        invariant i > 0 ==> buffer == Join(IdsOf(databases[..i]))
        invariant i == 0 ==> buffer == ""
        invariant preferences.entries == old(preferences.entries)
      {
        if i > 0 {
          buffer := buffer + [Delimiter];
        }
        buffer := buffer + databases[i].id;
        assert IdsOf(databases[..i + 1]) == IdsOf(databases[..i]) + [databases[i].id];
        if i > 0 {
          JoinSnoc(IdsOf(databases[..i]), databases[i].id);
        }
      }
      assert databases[..|databases|] == databases;
      assert buffer == Join(IdsOf(databases)) by {
        if |databases| == 0 { assert IdsOf(databases) == []; }
      }
      r := preferences.Put(id, buffer);
    }

    /**
     * `activate(database)`: adds it to the balancer and, only if that changed
     * the balancer, persists the active set. A rejected `put` is an error
     * raised after the balancer has changed, with nothing stored.
     */
    method Activate(database: Database) returns (r: Result<bool, ClusterError>)
      requires Valid()
      modifies balancer, preferences
      ensures Valid()
      ensures balancer.members ==
                if database.id in old(balancer.Ids()) then old(balancer.members) else old(balancer.members) + [database]
      ensures database.id in balancer.Ids()
      ensures database.id in old(balancer.Ids()) ==> r == Success(false)
      ensures database.id !in old(balancer.Ids()) ==>
                match PutCheck(id, Join(balancer.Ids()))
                case Pass => r == Success(true)
                case Fail(e) => r == Failure(e)
      ensures preferences.entries ==
                if r == Success(true) then old(preferences.entries)[id := Join(balancer.Ids())] else old(preferences.entries)
    {
      var added := balancer.Add(database);
      if !added {
        return Success(false);
      }
      var stored := StoreState();
      if stored.Fail? {
        return Failure(stored.error);
      }
      return Success(true);
    }

    /**
     * `deactivate(database)`: removes it from the balancer and, only if that
     * changed the balancer, persists the active set. A rejected `put` is an
     * error raised after the balancer has changed, with nothing stored.
     */
    method Deactivate(database: Database) returns (r: Result<bool, ClusterError>)
      requires Valid()
      modifies balancer, preferences
      ensures Valid()
      ensures balancer.members == RemoveId(old(balancer.members), database.id)
      ensures database.id !in balancer.Ids()
      ensures database.id !in old(balancer.Ids()) ==> r == Success(false)
      ensures database.id in old(balancer.Ids()) ==>
                match PutCheck(id, Join(balancer.Ids()))
                case Pass => r == Success(true)
                case Fail(e) => r == Failure(e)
      ensures preferences.entries ==
                if r == Success(true) then old(preferences.entries)[id := Join(balancer.Ids())] else old(preferences.entries)
    {
      var removed := balancer.Remove(database);
      if !removed {
        return Success(false);
      }
      var stored := StoreState();
      if stored.Fail? {
        return Failure(stored.error);
      }
      return Success(true);
    }

    /** `getDatabaseIds(collection)`: the id of each database, in iteration order. */
    static method GetDatabaseIds(databases: seq<Database>) returns (ids: seq<string>)
      ensures |ids| == |databases|
      ensures forall i | 0 <= i < |databases| :: ids[i] == databases[i].id
    {
      ids := [];
      var i := 0;
      while i < |databases|
        invariant 0 <= i <= |databases|
        invariant |ids| == i
        invariant forall j | 0 <= j < i :: ids[j] == databases[j].id
      {
        ids := ids + [databases[i].id];
        i := i + 1;
      }
    }

    /** `getActiveDatabases()`: the ids of the balancer's members, in `toArray` order. */
    method GetActiveDatabases() returns (ids: seq<string>)
      requires Valid()
      ensures ids == balancer.Ids()
      ensures NoDuplicates(ids)
    {
      var members := balancer.ToArray();
      ids := GetDatabaseIds(members);
    }

    /**
     * `getInactiveDatabases()`: the ids of the registered databases that are not
     * members of the balancer, each once, in the unspecified order of a hash set.
     */
    method GetInactiveDatabases() returns (ids: seq<string>)
      requires Valid()
      ensures forall x :: x in ids <==> x in databaseMap && x !in balancer.Ids()
      ensures NoDuplicates(ids)
    {
      var members := balancer.ToArray();
      var memberIds := IdsOf(members);
      var databaseSet := set d | d in databaseMap.Values && d.id !in memberIds;
      var databases := Enumerate(databaseSet);
      ids := GetDatabaseIds(databases);
      forall x | x in databaseMap && x !in balancer.Ids() ensures x in ids {
        assert databaseMap[x] in databaseSet;
        var j :| 0 <= j < |databases| && databases[j] == databaseMap[x];
        assert ids[j] == x;
      }
      forall x | x in ids ensures x in databaseMap && x !in balancer.Ids() {
        var j :| 0 <= j < |ids| && ids[j] == x;
        assert databases[j] in databases;
        assert databases[j] in databaseSet;
      }
      forall i, j | 0 <= i < j < |ids| ensures ids[i] != ids[j] {
        assert databases[i] in databases && databases[j] in databases;
        assert databases[i] in databaseMap.Values && databases[j] in databaseMap.Values;
      }
    }

    /** `getDatabase(databaseId)`: the database registered under `databaseId`, or an invalid-database error. */
    function GetDatabase(databaseId: string): (r: Result<Database, ClusterError>)
      reads this
      ensures r.Success? <==> databaseId in databaseMap
      ensures r.Success? ==> r.value == databaseMap[databaseId]
      ensures r.Success? && RegistryValid() ==> r.value.id == databaseId
      ensures r.Failure? ==> r.error == InvalidDatabase(databaseId, id)
    {
      if databaseId in databaseMap then Success(databaseMap[databaseId])
      else Failure(InvalidDatabase(databaseId, id))
    }

    /** `addDatabase(database)`: registers it under its id, replacing any database with that id. */
    method AddDatabase(database: Database)
      requires Valid()
      modifies this`databaseMap
      ensures Valid()
      ensures databaseMap == old(databaseMap)[database.id := database]
      ensures GetDatabase(database.id) == Success(database)
      ensures forall other | other != database.id :: GetDatabase(other) == old(GetDatabase(other))
    {
      databaseMap := databaseMap[database.id := database];
    }

    /**
     * `acquireLock(key)`: creates the lock for `key` on first use and reuses it
     * afterwards, then takes it once more.
     */
    method AcquireLock(key: string)
      requires Valid()
      modifies this`lockMap, lockMap.Values
      ensures Valid()
      ensures key in lockMap && lockMap.Keys == old(lockMap.Keys) + {key}
      ensures key in old(lockMap) ==> lockMap == old(lockMap)
      ensures key !in old(lockMap) ==> fresh(lockMap[key]) && lockMap == old(lockMap)[key := lockMap[key]]
      ensures lockMap[key].holdCount == (if key in old(lockMap) then old(lockMap[key].holdCount) else 0) + 1
      ensures forall k | k in old(lockMap) && k != key :: lockMap[k].holdCount == old(lockMap[k].holdCount)
    {
      var lock: Lock;
      if key in lockMap {
        lock := lockMap[key];
      } else {
        lock := new Lock();
        lockMap := lockMap[key := lock];
      }
      lock.holdCount := lock.holdCount + 1;
    }

    /**
     * `releaseLock(key)`: gives up one hold on the lock of `key`; nothing at
     * all when `key` has no lock, and an error when the lock is not held.
     */
    method ReleaseLock(key: string) returns (r: Outcome<ClusterError>)
      requires Valid()
      modifies lockMap.Values
      ensures lockMap == old(lockMap)
      ensures key !in lockMap ==> r == Pass
      ensures key in lockMap ==> (r == Fail(IllegalMonitorState(key)) <==> old(lockMap[key].holdCount) == 0)
      ensures key in lockMap ==> lockMap[key].holdCount == if r.Pass? then old(lockMap[key].holdCount) - 1 else old(lockMap[key].holdCount)
      ensures r.Pass? || r == Fail(IllegalMonitorState(key))
      ensures forall k | k in lockMap && k != key :: lockMap[k].holdCount == old(lockMap[k].holdCount)
    {
      if key !in lockMap {
        return Pass;
      }
      var lock := lockMap[key];
      if lock.holdCount == 0 {
        return Fail(IllegalMonitorState(key));
      }
      lock.holdCount := lock.holdCount - 1;
      r := Pass;
    }
  }

  /** Iterating a set: each element once, in an unspecified order. */
  method Enumerate(s: set<Database>) returns (r: seq<Database>)
    ensures forall d :: d in r <==> d in s
    ensures forall i, j | 0 <= i < j < |r| :: r[i] != r[j]
  {
    r := [];
    var rest := s;
    while rest != {}
      invariant rest <= s
      invariant forall d :: d in r <==> d in s && d !in rest
      invariant forall i, j | 0 <= i < j < |r| :: r[i] != r[j]
      decreases rest
    {
      var d :| d in rest;
      r := r + [d];
      rest := rest - {d};
    }
  }
}
