/**
 * A backend database as the cluster and the balancer see it. Equality of
 * databases is equality of ids: `equals` of the test's MockDatabase compares
 * ids alone, so every lookup below goes by id.
 */
module Databases {
  import opened Wrappers

  datatype Database = Database(id: string, weight: int)

  /** `a.equals(b)` of the balancer contract. */
  predicate SameDatabase(a: Database, b: Database) {
    a.id == b.id
  }

  /** The ids of `ds`, in order. */
  function IdsOf(ds: seq<Database>): seq<string>
  {
    seq(|ds|, i requires 0 <= i < |ds| => ds[i].id)
  }

  /** No two of `ds` are equal (by id): the members of a set. */
  ghost predicate DistinctIds(ds: seq<Database>) {
    forall i, j | 0 <= i < j < |ds| :: ds[i].id != ds[j].id
  }

  /** No string occurs twice. */
  ghost predicate NoDuplicates(xs: seq<string>) {
    forall i, j | 0 <= i < j < |xs| :: xs[i] != xs[j]
  }

  /** The position of the first database of `ds` whose id is `id`, if any. */
  function FindId(ds: seq<Database>, id: string): (r: Option<nat>)
    ensures r.Some? ==> r.value < |ds| && ds[r.value].id == id
    ensures r.Some? ==> forall j | 0 <= j < r.value :: ds[j].id != id
    ensures r.None? <==> id !in IdsOf(ds)
  {
    if |ds| == 0 then None
    else if ds[0].id == id then assert IdsOf(ds)[0] == id; Some(0)
    else
      assert IdsOf(ds) == [ds[0].id] + IdsOf(ds[1..]);
      match FindId(ds[1..], id)
      case None => None
      case Some(k) => Some(k + 1)
  }

  /** `ds` without the database whose id is `id`; `ds` itself when there is none. */
  function RemoveId(ds: seq<Database>, id: string): (r: seq<Database>)
    ensures id !in IdsOf(ds) ==> r == ds
    ensures id in IdsOf(ds) ==> |r| == |ds| - 1
    ensures forall x | x in ds && x.id != id :: x in r
    ensures forall x | x in r :: x in ds
    ensures DistinctIds(ds) ==> DistinctIds(r) && forall x | x in r :: x.id != id
  {
    match FindId(ds, id)
    case None =>
      assert forall x | x in ds :: x.id != id by {
        forall x | x in ds ensures x.id != id {
          var j :| 0 <= j < |ds| && ds[j] == x;
          assert IdsOf(ds)[j] == x.id;
        }
      }
      ds
    case Some(k) =>
      var r := ds[..k] + ds[k + 1..];
      assert forall x | x in ds && x.id != id :: x in r by {
        forall x | x in ds && x.id != id ensures x in r {
          var j :| 0 <= j < |ds| && ds[j] == x;
          if j < k { assert r[j] == x; } else { assert r[j - 1] == x; }
        }
      }
      assert DistinctIds(ds) ==> forall x | x in r :: x.id != id by {
        if DistinctIds(ds) {
          forall x | x in r ensures x.id != id {
            var j :| 0 <= j < |r| && r[j] == x;
            if j < k { assert r[j] == ds[j]; } else { assert r[j] == ds[j + 1]; }
          }
        }
      }
      r
  }

  /** In a list of distinct ids, removing the id at `k` removes exactly position `k`. */
  lemma {:induction false} RemoveIdAt(ds: seq<Database>, k: nat)
    requires DistinctIds(ds) && k < |ds|
    ensures RemoveId(ds, ds[k].id) == ds[..k] + ds[k + 1..]
  {
    var r := FindId(ds, ds[k].id);
    assert r.Some? by { assert IdsOf(ds)[k] == ds[k].id; }
  }
}
