/**
 * The Balancer contract that AbstractTestBalancer pins down: a set of
 * databases, equal when their ids are, that `add` and `remove` change in
 * place and `contains`, `toArray`, `first` and `next` observe. The members
 * are kept in insertion order; `first` is the earliest member still present
 * and `next` is left to the policy (any member).
 */
module BalancerContract {
  import opened Wrappers
  import opened Databases

  /** `NoSuchElementException`. */
  datatype BalancerError = NoSuchElement

  class Balancer {
    var members: seq<Database>

    /** Set semantics: no two members are equal. */
    ghost predicate Valid()
      reads this
    {
      DistinctIds(members)
    }

    /** The member ids, in `toArray` order. */
    function Ids(): seq<string>
      reads this
    {
      IdsOf(members)
    }

    /** `createBalancer()`: a balancer with no members. */
    constructor ()
      ensures Valid() && members == []
    {
      members := [];
    }

    /** Adds `database` unless an equal one is a member; reports whether it did. */
    method Add(database: Database) returns (added: bool)
      requires Valid()
      modifies this
      ensures Valid()
      ensures added <==> database.id !in old(Ids())
      ensures members == if added then old(members) + [database] else old(members)
      ensures database.id in Ids()
    {
      added := FindId(members, database.id).None?;
      if added {
        assert forall i | 0 <= i < |members| :: members[i].id != database.id by {
          forall i | 0 <= i < |members| ensures members[i].id != database.id {
            assert Ids()[i] == members[i].id;
          }
        }
        members := members + [database];
        assert Ids()[|members| - 1] == database.id;
      }
    }

    /** Removes the member equal to `database`, if any; reports whether there was one. */
    method Remove(database: Database) returns (removed: bool)
      requires Valid()
      modifies this
      ensures Valid()
      ensures removed <==> database.id in old(Ids())
      ensures members == RemoveId(old(members), database.id)
      ensures database.id !in Ids()
    {
      removed := FindId(members, database.id).Some?;
      members := RemoveId(members, database.id);
      assert database.id !in Ids() by {
        if i :| 0 <= i < |members| && Ids()[i] == database.id {
          assert members[i] in members;
        }
      }
    }

    /** Whether a member is equal to `database`. */
    method Contains(database: Database) returns (b: bool)
      ensures b <==> database.id in Ids()
      ensures b <==> exists m | m in members :: SameDatabase(m, database)
    {
      b := FindId(members, database.id).Some?;
      assert b ==> members[FindId(members, database.id).value] in members;
      assert (exists m | m in members :: SameDatabase(m, database)) ==> b by {
        if m :| m in members && SameDatabase(m, database) {
          var j :| 0 <= j < |members| && members[j] == m;
          assert Ids()[j] == database.id;
        }
      }
    }

    /** A snapshot of the members, each exactly once. */
    method ToArray() returns (snapshot: seq<Database>)
      requires Valid()
      ensures snapshot == members
      ensures DistinctIds(snapshot)
    {
      snapshot := members;
    }

    /** The primary member; `NoSuchElement` when there is none. */
    method First() returns (r: Result<Database, BalancerError>)
      ensures r.Failure? <==> members == []
      ensures r.Failure? ==> r.error == NoSuchElement
      ensures r.Success? ==> r.value == members[0]
    {
      if members == [] {
        r := Failure(NoSuchElement);
      } else {
        r := Success(members[0]);
      }
    }

    /** The member the policy picks for the next read; `NoSuchElement` when there is none. */
    method Next() returns (r: Result<Database, BalancerError>)
      ensures r.Failure? <==> members == []
      ensures r.Failure? ==> r.error == NoSuchElement
      ensures r.Success? ==> r.value in members
    {
      if members == [] {
        r := Failure(NoSuchElement);
      } else {
        assert members[0] in members;
        var d :| d in members;
        r := Success(d);
      }
    }
  }
}
