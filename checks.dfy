/**
 * The domain of a permission check: the permission or role names of a
 * permission map, and a validity check once it has settled.
 */
module Checks {
  /** A permission or role name: an opaque string. */
  type Id = string

  /** One validity check that has settled: the identifier it carries and whether it held. */
  datatype Settlement = Settlement(id: Id, valid: bool)

  predicate NoneValid(results: seq<Settlement>)
  {
    forall i :: 0 <= i < |results| ==> !results[i].valid
  }

  /** `k` is the position of the first valid settlement. */
  predicate FirstValidAt(results: seq<Settlement>, k: int)
  {
    0 <= k < |results| && results[k].valid &&
    forall j :: 0 <= j < k ==> !results[j].valid
  }

  /** The identifiers carried by a sequence of settlements, in settlement order. */
  function Ids(results: seq<Settlement>): seq<Id>
  {
    seq(|results|, i requires 0 <= i < |results| => results[i].id)
  }

  /**
   * `results` is a complete settlement order of the checks requested for `ids`:
   * every check settled exactly once, each carrying its own identifier.
   */
  predicate IsTrace(ids: seq<Id>, results: seq<Settlement>)
  {
    multiset(Ids(results)) == multiset(ids)
  }
}
