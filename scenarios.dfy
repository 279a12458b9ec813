/** The assertions of AbstractTestBalancer, proved from the Balancer contract alone. */
module BalancerTests {
  import opened Wrappers
  import opened Databases
  import opened BalancerContract

  /** `testAdd`: a new database is added, the same one again is not. */
  method TestAdd() returns (first: bool, second: bool)
    ensures first && !second
  {
    var balancer := new Balancer();
    var database := Database("1", 1);
    first := balancer.Add(database);
    second := balancer.Add(database);
  }

  /** `testRemove`: a non-member is not removed; a member is, once. */
  method TestRemove() returns (before: bool, after: bool, again: bool)
    ensures !before && after && !again
  {
    var balancer := new Balancer();
    var database := Database("1", 1);
    before := balancer.Remove(database);
    var _ := balancer.Add(database);
    after := balancer.Remove(database);
    again := balancer.Remove(database);
  }

  /** `testToArray`: the snapshots after adding db1 and db2 and removing them again. */
  method TestToArray() returns (empty: seq<Database>, one: seq<Database>, two: seq<Database>,
                                withoutFirst: seq<Database>, withoutBoth: seq<Database>)
    ensures empty == [] && one == [Database("db1", 1)]
    ensures two == [Database("db1", 1), Database("db2", 1)] || two == [Database("db2", 1), Database("db1", 1)]
    ensures withoutFirst == [Database("db2", 1)] && withoutBoth == []
  {
    var balancer := new Balancer();
    empty := balancer.ToArray();
    var database1 := Database("db1", 1);
    var _ := balancer.Add(database1);
    one := balancer.ToArray();
    var database2 := Database("db2", 1);
    var _ := balancer.Add(database2);
    two := balancer.ToArray();
    assert balancer.members == [database1, database2];
    RemoveIdAt([database1, database2], 0);
    var _ := balancer.Remove(database1);
    withoutFirst := balancer.ToArray();
    assert withoutFirst == [database2];
    RemoveIdAt([database2], 0);
    var _ := balancer.Remove(database2);
    withoutBoth := balancer.ToArray();
  }

  /** `testContains`: an added database is a member, another one is not. */
  method TestContains() returns (added: bool, other: bool)
    ensures added && !other
  {
    var balancer := new Balancer();
    var database1 := Database("db1", 1);
    var database2 := Database("db2", 1);
    var _ := balancer.Add(database1);
    added := balancer.Contains(database1);
    other := balancer.Contains(database2);
  }

  /** `testFirst`: no first member when empty; the only member otherwise. */
  method TestFirst() returns (empty: Result<Database, BalancerError>, single: Result<Database, BalancerError>)
    ensures empty == Failure(NoSuchElement)
    ensures single == Success(Database("0", 0))
  {
    var balancer := new Balancer();
    empty := balancer.First();
    var _ := balancer.Add(Database("0", 0));
    single := balancer.First();
  }

  /**
   * `testNext`: no next member when the balancer is empty, as the test
   * asserts. The second half, that with one member every policy returns that
   * member, is this model's addition and follows from the `Next` contract.
   */
  method TestNext() returns (empty: Result<Database, BalancerError>, single: Result<Database, BalancerError>)
    ensures empty == Failure(NoSuchElement)
    ensures single == Success(Database("db1", 1))
  {
    var balancer := new Balancer();
    empty := balancer.Next();
    var _ := balancer.Add(Database("db1", 1));
    single := balancer.Next();
  }
}

/** Properties of a LocalDatabaseCluster that take several calls to state. */
module ClusterScenarios {
  import opened Wrappers
  import opened Databases
  import opened Delimited
  import opened BalancerContract
  import opened Local

  /** The active and inactive views never overlap, and together they name every registered database. */
  method Views(cluster: LocalDatabaseCluster) returns (active: seq<string>, inactive: seq<string>)
    requires cluster.Valid()
    ensures forall x | x in cluster.databaseMap :: x in active || x in inactive
    ensures forall x | x in active :: x !in inactive
    ensures (forall x | x in active :: x in cluster.databaseMap) ==>
              forall x :: (x in active || x in inactive) <==> x in cluster.databaseMap
  {
    active := cluster.GetActiveDatabases();
    inactive := cluster.GetInactiveDatabases();
  }

  /**
   * For any cluster and any registered database, after `deactivate` its id is
   * among the inactive ids and not among the active ones.
   */
  method DeactivateMakesInactive(cluster: LocalDatabaseCluster, database: Database)
      returns (active: seq<string>, inactive: seq<string>)
    requires cluster.Valid() && database.id in cluster.databaseMap
    modifies cluster.balancer, cluster.preferences
    ensures database.id in inactive && database.id !in active
  {
    var _ := cluster.Deactivate(database);
    active := cluster.GetActiveDatabases();
    inactive := cluster.GetInactiveDatabases();
  }

  /** A second activation of an active database returns false and writes nothing. */
  method ActivateTwice(cluster: LocalDatabaseCluster, database: Database)
      returns (first: Result<bool, ClusterError>, second: Result<bool, ClusterError>)
    requires cluster.Valid()
    modifies cluster.balancer, cluster.preferences
    ensures cluster.Valid()
    ensures second == Success(false)
    ensures first == Success(true) ==>
              cluster.preferences.entries == old(cluster.preferences.entries)[cluster.id := Join(cluster.balancer.Ids())]
    ensures first != Success(true) ==> cluster.preferences.entries == old(cluster.preferences.entries)
  {
    first := cluster.Activate(database);
    second := cluster.Activate(database);
  }

  /** A second deactivation of an inactive database returns false and writes nothing. */
  method DeactivateTwice(cluster: LocalDatabaseCluster, database: Database)
      returns (first: Result<bool, ClusterError>, second: Result<bool, ClusterError>)
    requires cluster.Valid()
    modifies cluster.balancer, cluster.preferences
    ensures cluster.Valid()
    ensures second == Success(false)
    ensures database.id !in cluster.balancer.Ids()
    ensures first == Success(true) ==>
              cluster.preferences.entries == old(cluster.preferences.entries)[cluster.id := Join(cluster.balancer.Ids())]
    ensures first != Success(true) ==> cluster.preferences.entries == old(cluster.preferences.entries)
  {
    first := cluster.Deactivate(database);
    second := cluster.Deactivate(database);
  }

  /**
   * After a change of the active set, loading the state back gives exactly
   * the active ids, in order, when every one of them is registered,
   * non-empty and free of the delimiter.
   */
  method ActivateThenLoad(cluster: LocalDatabaseCluster, database: Database)
      returns (added: Result<bool, ClusterError>, loaded: Result<Option<seq<string>>, ClusterError>)
    requires cluster.Valid()
    requires database.id in cluster.databaseMap && IsField(database.id)
    requires forall i | 0 <= i < |cluster.balancer.Ids()| ::
               cluster.balancer.Ids()[i] in cluster.databaseMap && IsField(cluster.balancer.Ids()[i])
    modifies cluster.balancer, cluster.preferences
    ensures added == Success(true) ==> loaded == Success(Some(cluster.balancer.Ids()))
    ensures added == Success(true) ==>
              cluster.preferences.entries == old(cluster.preferences.entries)[cluster.id := Join(cluster.balancer.Ids())]
  {
    added := cluster.Activate(database);
    var ids := cluster.balancer.Ids();
    assert ids == old(cluster.balancer.Ids()) + (if database.id in old(cluster.balancer.Ids()) then [] else [database.id]);
    StoreLoadRoundTrip(old(cluster.preferences.entries), cluster.id, ids, cluster.databaseMap.Keys);
    loaded := cluster.LoadState(false);
  }

  /**
   * After a deactivation that changes the active set, loading the state back
   * gives exactly the remaining active ids, in order, when every one of them
   * is registered, non-empty and free of the delimiter.
   */
  method DeactivateThenLoad(cluster: LocalDatabaseCluster, database: Database)
      returns (removed: Result<bool, ClusterError>, loaded: Result<Option<seq<string>>, ClusterError>)
    requires cluster.Valid()
    requires forall i | 0 <= i < |cluster.balancer.Ids()| ::
               cluster.balancer.Ids()[i] in cluster.databaseMap && IsField(cluster.balancer.Ids()[i])
    modifies cluster.balancer, cluster.preferences
    ensures removed == Success(true) ==> loaded == Success(Some(cluster.balancer.Ids()))
    ensures removed == Success(true) ==>
              cluster.preferences.entries == old(cluster.preferences.entries)[cluster.id := Join(cluster.balancer.Ids())]
  {
    removed := cluster.Deactivate(database);
    var ids := cluster.balancer.Ids();
    forall i | 0 <= i < |ids| ensures ids[i] in cluster.databaseMap && IsField(ids[i]) {
      assert cluster.balancer.members[i] in old(cluster.balancer.members);
      var j :| 0 <= j < |old(cluster.balancer.members)| && old(cluster.balancer.members)[j] == cluster.balancer.members[i];
      assert old(cluster.balancer.Ids())[j] == ids[i];
    }
    StoreLoadRoundTrip(old(cluster.preferences.entries), cluster.id, ids, cluster.databaseMap.Keys);
    loaded := cluster.LoadState(false);
  }

  /**
   * The end-to-end round trip on a fresh cluster: two databases activated,
   * then the state reloaded. Whatever order the balancer's policy gives its
   * members, loading returns them in that order.
   */
  method ReloadAfterActivation() returns (loaded: Result<Option<seq<string>>, ClusterError>, active: seq<string>)
    ensures loaded == Success(Some(active))
    ensures active == ["db1", "db2"] || active == ["db2", "db1"]
  {
    var preferences := new Preferences();
    var balancer := new Balancer();
    var cluster := new LocalDatabaseCluster("cluster", balancer, preferences);
    var database1 := Database("db1", 1);
    var database2 := Database("db2", 1);
    cluster.AddDatabase(database1);
    cluster.AddDatabase(database2);
    var _ := cluster.Activate(database1);
    var activated := cluster.Activate(database2);
    assert balancer.Ids() == ["db1", "db2"];
    assert Join(["db1", "db2"]) == "db1,db2";
    assert activated == Success(true);
    StoreLoadRoundTrip(map[], "cluster", ["db1", "db2"], cluster.databaseMap.Keys);
    loaded := cluster.LoadState(false);
    active := balancer.Ids();
  }

  /**
   * A stored record naming a registered and an unregistered database is
   * reported as no state, and the record is removed while other clusters'
   * records stay.
   */
  method CorruptStateIsDiscarded(known: string, unknown: string)
      returns (loaded: Result<Option<seq<string>>, ClusterError>, stored: map<string, string>)
    requires IsField(known) && IsField(unknown) && known != unknown
    requires |known| + |unknown| < MaxValueLength
    ensures loaded == Success(None)
    ensures "cluster" !in stored
    ensures "other" in stored && stored["other"] == unknown
  {
    var preferences := new Preferences();
    assert Join([known, unknown]) == known + [Delimiter] + unknown;
    var _ := preferences.Put("cluster", Join([known, unknown]));
    var _ := preferences.Put("other", unknown);
    var balancer := new Balancer();
    var cluster := new LocalDatabaseCluster("cluster", balancer, preferences);
    cluster.AddDatabase(Database(known, 1));
    assert cluster.databaseMap.Keys == {known};
    SplitJoin([known, unknown]);
    JoinEnds([known, unknown]);
    assert Split(Join([known, unknown]))[1] !in cluster.databaseMap.Keys;
    loaded := cluster.LoadState(false);
    stored := preferences.entries;
  }

  /**
   * A cluster id longer than the store's key limit: activation still adds the
   * database to the balancer, but the store rejects the record, so the call
   * fails and nothing is stored.
   */
  method OverlongClusterId(clusterId: string, database: Database)
      returns (activated: Result<bool, ClusterError>, active: seq<string>, stored: map<string, string>)
    requires |clusterId| > MaxKeyLength
    ensures activated == Failure(KeyTooLong(clusterId))
    ensures active == [database.id]
    ensures stored == map[]
  {
    var preferences := new Preferences();
    var balancer := new Balancer();
    var cluster := new LocalDatabaseCluster(clusterId, balancer, preferences);
    cluster.AddDatabase(database);
    activated := cluster.Activate(database);
    active := cluster.GetActiveDatabases();
    stored := preferences.entries;
  }

  /** A deactivated database shows up among the inactive ids and not among the active ones. */
  method DeactivatedIsInactive() returns (active: seq<string>, inactive: seq<string>)
    ensures "db1" in inactive && "db1" !in active
    ensures "db2" in active && "db2" !in inactive
  {
    var preferences := new Preferences();
    var balancer := new Balancer();
    var cluster := new LocalDatabaseCluster("cluster", balancer, preferences);
    var database1 := Database("db1", 1);
    var database2 := Database("db2", 1);
    cluster.AddDatabase(database1);
    cluster.AddDatabase(database2);
    var _ := cluster.Activate(database1);
    var _ := cluster.Activate(database2);
    var _ := cluster.Deactivate(database1);
    active := cluster.GetActiveDatabases();
    inactive := cluster.GetInactiveDatabases();
  }

  /** Two acquisitions of one key share one lock; releasing an unknown key changes nothing. */
  method LockRegistry(cluster: LocalDatabaseCluster, key: string, unknown: string)
      returns (released: Outcome<ClusterError>, unknownReleased: Outcome<ClusterError>)
    requires cluster.Valid() && key !in cluster.lockMap && unknown !in cluster.lockMap && unknown != key
    modifies cluster, cluster.lockMap.Values
    ensures cluster.Valid()
    ensures cluster.lockMap.Keys == old(cluster.lockMap.Keys) + {key}
    ensures cluster.lockMap[key].holdCount == 1
    ensures released == Pass && unknownReleased == Pass
  {
    cluster.AcquireLock(key);
    var lock := cluster.lockMap[key];
    cluster.AcquireLock(key);
    assert cluster.lockMap[key] == lock && lock.holdCount == 2;
    released := cluster.ReleaseLock(key);
    unknownReleased := cluster.ReleaseLock(unknown);
  }
}
