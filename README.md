# HA-JDBC local cluster state, in Dafny

This project models the bookkeeping core of HA-JDBC's `LocalDatabaseCluster`:

- the registry of backend databases, keyed by id;
- the active set, which lives in a `Balancer` and is persisted as one comma-delimited string under the cluster id;
- reading that string back (`loadState`): all of the stored ids or none of them;
- the active and inactive views;
- the lazily populated lock registry;
- the fixed table of mutex patterns, keyed by dialect id.

It also models the Balancer contract spelled out by `AbstractTestBalancer`. The balancer is a set of databases, where two databases are equal when their ids are.

Files, one module each:

- `wrappers.dfy` (`Wrappers`): `Option`, `Result` and `Outcome`. They stand for the source's `null` returns and its exceptions.
- `delimited.dfy` (`Delimited`): how `storeState` joins ids with `,`, and how Java's `String.split(",")` reads them back. The split has Java's semantics:
  - a string without a comma comes back whole, so `""` gives `[""]`;
  - otherwise trailing empty fields are dropped, so `",,"` gives `[]`.

  The file also proves the round trip between the two.
- `databases.dfy` (`Databases`): the `Database` value (id and weight). It also holds lookup and removal by id, which is the `equals` of the test's `MockDatabase`.
- `balancer.dfy` (`BalancerContract`): class `Balancer`. It holds a duplicate-free `seq<Database>` field that `Add` and `Remove` change in place.
- `local.dfy` (`Local`): the pieces of the cluster.
  - `Preferences` is the persisted store, as an in-memory map.
  - `Lock` is a reentrant lock, reduced to a hold counter.
  - `LocalDatabaseCluster` is the cluster class.
  - `MutexPattern` is the dialect table.
  - `LoadedState` and `StoredAfterLoad` are the pure specification of `loadState`, with the store/load round-trip lemma.
- `scenarios.dfy` (`BalancerTests`, `ClusterScenarios`): the assertions of the balancer test cases, proved from the contracts alone. It also holds cluster properties that need several calls, such as idempotent activation, reloading after activation, discarding a corrupt record, and the partition of the views.

Modelling choices:

- **Balancer behaviour.** The balancer implementations are not part of this model, so `Balancer` makes these choices:
  - members are kept in insertion order;
  - `First` returns the earliest member still present;
  - `Next` may return any member (a nondeterministic choice), which is all the contract promises.
- **Preferences store.** In the source the store is a static `Preferences` node shared by all clusters. Here it is a `Preferences` object passed to the cluster's constructor.
- **Store failures.**
  - A failing `sync` in `loadState` is the parameter `syncFailed`, and it turns into `StateLoadFailed`.
  - The `put` in `storeState` is outside its `try` and is not caught. `Preferences.put` rejects a key longer than 80 characters or a value longer than 8192 (`MAX_KEY_LENGTH` and `MAX_VALUE_LENGTH`). An overlong cluster id or active-id list therefore makes `activate` and `deactivate` fail after the balancer has changed, with nothing stored. `PutCheck` states these limits. `Put` reports the error, and `StoreState`, `Activate` and `Deactivate` pass it on.
  - A failing `flush` in `storeState` is only logged. The value has already been put into the store, so it does not change the model's state.
- **Iteration order of the inactive view.** `getInactiveDatabases` iterates a `HashSet`. `Enumerate` stands for that iteration: each element comes once, in an unspecified order.
- **Behaviour this code does not have.**
  - `activate` calls no synchronization strategy, so `Activate` does not either.
  - The mutex patterns spell case with `[iI]`-style character classes and are compiled with no flag; `MutexPattern` holds that text.

## Model

| member | source | states |
|---|---|---|
| `Delimited.SplitAll` | ha-jdbc/src/net/sf/hajdbc/local/LocalDatabaseCluster.java:122 | splitting always yields at least one field, and a leading delimiter yields an empty first field |
| `Delimited.DropTrailingEmpty` | ha-jdbc/src/net/sf/hajdbc/local/LocalDatabaseCluster.java:122 | the kept fields are a prefix of the input, the last kept one is non-empty, and only empty fields are dropped |
| `Delimited.Split` | ha-jdbc/src/net/sf/hajdbc/local/LocalDatabaseCluster.java:122 | a string without a delimiter is returned whole; otherwise the result never ends in an empty field (Java split with limit 0) |
| `Delimited.JoinSnoc` | ha-jdbc/src/net/sf/hajdbc/local/LocalDatabaseCluster.java:234-242 | appending one more id to the buffer adds one delimiter and the id, as each loop step does |
| `Delimited.JoinEnds` | ha-jdbc/src/net/sf/hajdbc/local/LocalDatabaseCluster.java:234-242 | the joined string begins with the first id and ends with the last: the join adds no delimiter before the first id or after the last |
| `Delimited.SplitAllOfField` | ha-jdbc/src/net/sf/hajdbc/local/LocalDatabaseCluster.java:122 | a string without a delimiter splits into itself alone |
| `Delimited.SplitAllCons` | ha-jdbc/src/net/sf/hajdbc/local/LocalDatabaseCluster.java:122 | a delimiter-free prefix before a delimiter becomes the first field and the rest is split on its own |
| `Delimited.SplitAllJoin` | ha-jdbc/src/net/sf/hajdbc/local/LocalDatabaseCluster.java:122 | splitting at every delimiter recovers the joined delimiter-free ids |
| `Delimited.SplitJoin` | ha-jdbc/src/net/sf/hajdbc/local/LocalDatabaseCluster.java:122 | Java's split recovers exactly the joined ids when each is non-empty and delimiter-free |
| `Delimited.TrailingEmptyFieldIsDropped` | ha-jdbc/src/net/sf/hajdbc/local/LocalDatabaseCluster.java:122 | an empty last id does not survive the round trip: it is dropped with the trailing empty field |
| `Delimited.FieldWithDelimiterSplits` | ha-jdbc/src/net/sf/hajdbc/local/LocalDatabaseCluster.java:122 | an id containing the delimiter comes back as two ids |
| `Databases.FindId` | ha-jdbc/test/net/sf/hajdbc/balancer/AbstractTestBalancer.java:232-237 | the first position whose database equals (has the id of) the given one, or none exactly when no member has that id |
| `Databases.RemoveId` | ha-jdbc/test/net/sf/hajdbc/balancer/AbstractTestBalancer.java:121-132 | removal by id drops one element when the id is present and none otherwise, keeps every other element, and keeps ids distinct |
| `Databases.RemoveIdAt` | ha-jdbc/test/net/sf/hajdbc/balancer/AbstractTestBalancer.java:121-126 | with distinct ids, removing a member's id removes exactly that member's position and keeps the order of the rest |
| `BalancerContract.Balancer.constructor` | ha-jdbc/test/net/sf/hajdbc/balancer/AbstractTestBalancer.java:42-47 | a new balancer has no members |
| `BalancerContract.Balancer.Add` | ha-jdbc/test/net/sf/hajdbc/balancer/AbstractTestBalancer.java:49-60 | returns true exactly when no equal member was present, appends only then, and the database is a member afterwards |
| `BalancerContract.Balancer.Remove` | ha-jdbc/test/net/sf/hajdbc/balancer/AbstractTestBalancer.java:80-97 | returns true exactly when an equal member was present, removes it, and the database is not a member afterwards |
| `BalancerContract.Balancer.Contains` | ha-jdbc/test/net/sf/hajdbc/balancer/AbstractTestBalancer.java:135-144 | true exactly when some member has the database's id |
| `BalancerContract.Balancer.ToArray` | ha-jdbc/test/net/sf/hajdbc/balancer/AbstractTestBalancer.java:99-133 | the snapshot is the member list, with no two equal databases |
| `BalancerContract.Balancer.First` | ha-jdbc/test/net/sf/hajdbc/balancer/AbstractTestBalancer.java:146-166 | fails with NoSuchElement exactly when empty, and otherwise returns the first member |
| `BalancerContract.Balancer.Next` | ha-jdbc/test/net/sf/hajdbc/balancer/AbstractTestBalancer.java:168-184 | fails with NoSuchElement exactly when empty, and otherwise returns some member |
| `BalancerTests.TestAdd` | ha-jdbc/test/net/sf/hajdbc/balancer/AbstractTestBalancer.java:49-60 | the first add of a database succeeds, the second fails |
| `BalancerTests.TestRemove` | ha-jdbc/test/net/sf/hajdbc/balancer/AbstractTestBalancer.java:80-97 | removing a non-member fails; after an add, a remove succeeds once |
| `BalancerTests.TestToArray` | ha-jdbc/test/net/sf/hajdbc/balancer/AbstractTestBalancer.java:99-133 | snapshots are [], [db1], a permutation of {db1, db2}, [db2] and [] |
| `BalancerTests.TestContains` | ha-jdbc/test/net/sf/hajdbc/balancer/AbstractTestBalancer.java:135-144 | the added database is a member, another is not |
| `BalancerTests.TestFirst` | ha-jdbc/test/net/sf/hajdbc/balancer/AbstractTestBalancer.java:146-166 | first fails on an empty balancer and returns the only member otherwise |
| `BalancerTests.TestNext` | ha-jdbc/test/net/sf/hajdbc/balancer/AbstractTestBalancer.java:168-184 | next fails on an empty balancer and, with one member, returns it whatever the policy |
| `Local.MutexPattern` | ha-jdbc/src/net/sf/hajdbc/local/LocalDatabaseCluster.java:75-89 | a pattern exists exactly for the six dialect ids identity and sequence-SQL:2003/PostgreSQL/MaxDB/Firebird/DB2, and none for any other id |
| `Local.LoadedState` | ha-jdbc/src/net/sf/hajdbc/local/LocalDatabaseCluster.java:110-136 | none exactly when nothing is stored or the record names an unregistered id; otherwise every returned id is registered and the list is [] for an empty record or the whole split record, never a part of it |
| `Local.StoredAfterLoad` | ha-jdbc/src/net/sf/hajdbc/local/LocalDatabaseCluster.java:127-133 | after a load that returns none there is no record under the cluster id; after one that returns ids the store is unchanged; other keys never change |
| `Local.StoreLoadRoundTrip` | ha-jdbc/src/net/sf/hajdbc/local/LocalDatabaseCluster.java:104-136 | storing registered, non-empty, delimiter-free ids and loading them back gives exactly those ids in order, and the load removes nothing |
| `Local.Preferences.constructor` | ha-jdbc/src/net/sf/hajdbc/local/LocalDatabaseCluster.java:66 | a new store has no records |
| `Local.Preferences.Get` | ha-jdbc/src/net/sf/hajdbc/local/LocalDatabaseCluster.java:110 | the stored value for the key, or none exactly when there is no record |
| `Local.PutCheck` | ha-jdbc/src/net/sf/hajdbc/local/LocalDatabaseCluster.java:244 | the store accepts a key and value exactly when the key has at most 80 characters and the value at most 8192; an overlong key is reported before an overlong value |
| `Local.Preferences.Put` | ha-jdbc/src/net/sf/hajdbc/local/LocalDatabaseCluster.java:244 | fails as PutCheck says and then changes nothing; otherwise the record for the key becomes the value and nothing else changes |
| `Local.Preferences.Remove` | ha-jdbc/src/net/sf/hajdbc/local/LocalDatabaseCluster.java:130 | the record for the key is gone; nothing else changes |
| `Local.Lock.constructor` | ha-jdbc/src/net/sf/hajdbc/local/LocalDatabaseCluster.java:390 | a new lock is not held |
| `Local.LocalDatabaseCluster.constructor` | ha-jdbc/src/net/sf/hajdbc/local/LocalDatabaseCluster.java:91-98 | a new cluster has no registered databases and no locks, and uses the given balancer and store |
| `Local.LocalDatabaseCluster.LoadState` | ha-jdbc/src/net/sf/hajdbc/local/LocalDatabaseCluster.java:104-142 | a sync failure is StateLoadFailed and changes nothing; otherwise the result is LoadedState of the store and the registry, and the store becomes StoredAfterLoad |
| `Local.LocalDatabaseCluster.StoreState` | ha-jdbc/src/net/sf/hajdbc/local/LocalDatabaseCluster.java:229-254 | the record under the cluster id becomes the balancer's member ids joined in toArray order, unless the store rejects the id or that value, in which case the error is returned and the store is unchanged; nothing else in the store changes |
| `Local.LocalDatabaseCluster.Activate` | ha-jdbc/src/net/sf/hajdbc/local/LocalDatabaseCluster.java:217-227 | the database is a member afterwards in every case; false, with the store untouched, when the balancer already had it; otherwise the new active set is stored and the result is true, or the store's rejection is returned with the balancer already changed and nothing stored |
| `Local.LocalDatabaseCluster.Deactivate` | ha-jdbc/src/net/sf/hajdbc/local/LocalDatabaseCluster.java:194-204 | the database is not a member afterwards in every case; false, with the store untouched, when the balancer did not have it; otherwise the new active set is stored and the result is true, or the store's rejection is returned with the balancer already changed and nothing stored |
| `Local.LocalDatabaseCluster.GetDatabaseIds` | ha-jdbc/src/net/sf/hajdbc/local/LocalDatabaseCluster.java:276-290 | one id per database, same length and same order |
| `Local.LocalDatabaseCluster.GetActiveDatabases` | ha-jdbc/src/net/sf/hajdbc/local/LocalDatabaseCluster.java:259-262 | the ids of the balancer's members in toArray order, without duplicates |
| `Local.LocalDatabaseCluster.GetInactiveDatabases` | ha-jdbc/src/net/sf/hajdbc/local/LocalDatabaseCluster.java:267-274 | exactly the registered ids that are not balancer members, each once |
| `Local.LocalDatabaseCluster.GetDatabase` | ha-jdbc/src/net/sf/hajdbc/local/LocalDatabaseCluster.java:295-305 | the database registered under the id, which carries that id, or InvalidDatabase naming the id and the cluster when the id is absent |
| `Local.LocalDatabaseCluster.AddDatabase` | ha-jdbc/src/net/sf/hajdbc/local/LocalDatabaseCluster.java:323-326 | registers the database under its own id, replacing any earlier one; lookups of every other id are unchanged |
| `Local.LocalDatabaseCluster.AcquireLock` | ha-jdbc/src/net/sf/hajdbc/local/LocalDatabaseCluster.java:380-399 | creates a fresh lock only for a key without one and reuses an existing lock; the key set only grows; the key's hold count goes up by one and no other lock changes |
| `Local.LocalDatabaseCluster.ReleaseLock` | ha-jdbc/src/net/sf/hajdbc/local/LocalDatabaseCluster.java:404-418 | never changes the lock map; a no-op for a key without a lock; otherwise one hold is given up, or IllegalMonitorState when the lock is not held |
| `Local.Enumerate` | ha-jdbc/src/net/sf/hajdbc/local/LocalDatabaseCluster.java:269-273 | iterating the set yields each element exactly once |
| `ClusterScenarios.Views` | ha-jdbc/src/net/sf/hajdbc/local/LocalDatabaseCluster.java:259-290 | the active and inactive views do not overlap and cover every registered id; when every active id is registered they are exactly the registry |
| `ClusterScenarios.ActivateTwice` | ha-jdbc/src/net/sf/hajdbc/local/LocalDatabaseCluster.java:217-227 | activating an already-activated database returns false, and the store changes only if the first call returned true |
| `ClusterScenarios.DeactivateTwice` | ha-jdbc/src/net/sf/hajdbc/local/LocalDatabaseCluster.java:194-204 | deactivating an already-deactivated database returns false, and the store changes only if the first call returned true |
| `ClusterScenarios.ActivateThenLoad` | ha-jdbc/src/net/sf/hajdbc/local/LocalDatabaseCluster.java:217-227 | after an activation that returns true, loading returns exactly the active ids in order |
| `ClusterScenarios.ReloadAfterActivation` | ha-jdbc/src/net/sf/hajdbc/local/LocalDatabaseCluster.java:104-136 | on a fresh cluster that activates db1 and then db2, loading returns the active ids in toArray order, which is [db1, db2] or [db2, db1] |
| `ClusterScenarios.CorruptStateIsDiscarded` | ha-jdbc/src/net/sf/hajdbc/local/LocalDatabaseCluster.java:122-133 | a record naming an unregistered id makes loading return none, and the record is removed while other clusters' records stay |
| `ClusterScenarios.DeactivateMakesInactive` | ha-jdbc/src/net/sf/hajdbc/local/LocalDatabaseCluster.java:194-204 | for any cluster and any registered database, after deactivation its id is in the inactive view and not in the active view |
| `ClusterScenarios.DeactivateThenLoad` | ha-jdbc/src/net/sf/hajdbc/local/LocalDatabaseCluster.java:194-204 | after a deactivation that returns true, loading returns exactly the remaining active ids in order |
| `ClusterScenarios.OverlongClusterId` | ha-jdbc/src/net/sf/hajdbc/local/LocalDatabaseCluster.java:217-227 | with a cluster id over the key limit, activation fails with KeyTooLong, yet the database is active and nothing is stored |
| `ClusterScenarios.DeactivatedIsInactive` | ha-jdbc/src/net/sf/hajdbc/local/LocalDatabaseCluster.java:267-274 | after deactivation a database's id is inactive and not active, while another active database stays active |
| `ClusterScenarios.LockRegistry` | ha-jdbc/src/net/sf/hajdbc/local/LocalDatabaseCluster.java:380-418 | two acquisitions of one key share a single lock; releasing a key with no lock changes nothing |

## Left out

- `isAlive` is not modelled. It opens a JDBC connection and runs the validation statement, which is I/O.
- `createConnectionFactories` and `getConnectionFactory` are not modelled. They call database drivers.
- The thread pool is not modelled: `getExecutor`, `setMinThreads`, `setMaxThreads` and `setMaxIdle`. It is concurrency with no state logic.
- The blocking, fairness and reentrancy of `ReentrantLock` are not modelled. Only the key-to-lock map and an abstract per-key hold count remain.
- `Local.PutCheck` counts characters, while Java's `String.length` counts UTF-16 code units. For a key or value with characters outside the Basic Multilingual Plane the model's count is lower, so it accepts some values that Java rejects.
- The other checks of `Preferences.put` are not modelled: a `null` key or value, and a removed node. The model's strings cannot be `null`, and the cluster never removes its node.
- Preferences persistence to its backing store is not modelled. `sync` failure is the `syncFailed` parameter. `flush` failure only writes a log message, and logging is left out.
- Compiling and matching the mutex patterns is not modelled. `MutexPattern` returns the pattern text rather than a compiled `Pattern`.
- The cluster's own `mutexPattern` field and its accessor are not modelled. The field is set by configuration code that is not part of this model.
- The accessors `getId` and `getBalancer` are the const fields `id` and `balancer` of `LocalDatabaseCluster`.
- The `defaultSynchronizationStrategy` field and its accessor `getDefaultSynchronizationStrategy` are not modelled. The `activate` of this code never uses them.
- The balancer hooks `beforeOperation` and `afterOperation` are not modelled. The tests call them without asserting anything.
- Concrete `next` policies (round-robin, random, weighted) are not modelled. Their implementations are not part of this model.
- Database connection, weight-based selection and connection-factory creation are not modelled. The weight is carried but never used.
- ConnectionInvocationStrategy.java and ConnectionPoolDataSourceDatabaseCluster.java are not part of this model. They are a dynamic-proxy wrapper and a configuration hook.
- `Balancer.Add` and `Balancer.Remove` promise one behaviour: add appends, and remove keeps the order of the rest. That is one of the orders the contract allows. The tests accept either order for two members.
- `Local.StoreLoadRoundTrip` requires every active id to be registered, non-empty and comma-free. The source enforces none of these. `Delimited.TrailingEmptyFieldIsDropped` and `Delimited.FieldWithDelimiterSplits` show what goes wrong without them.
