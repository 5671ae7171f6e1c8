/**
 * The "any" combinator that authorization applies to the checks of one phase
 * (`$q.any`, called at Authorization.js:56 and :80). Its implementation is not
 * part of this model; what follows is the behaviour the model ASSUMES of it,
 * stated over the order in which the checks settled:
 *  - it succeeds with the value of the first check observed to be valid;
 *  - when every check is invalid it fails with the value of the check that
 *    settled last;
 *  - over no checks at all it fails, carrying no permission identifier.
 */
module AnyCombinator {
  import opened Wrappers
  import opened Checks

  /** What the combinator settles to. */
  datatype AnyResult = Succeeded(value: Id) | Failed(reason: Option<Id>)

  /** The combinator, applied to the checks in the order they settled. */
  function Any(results: seq<Settlement>): (r: AnyResult)
    ensures r.Succeeded? <==> !NoneValid(results)
    ensures r.Succeeded? ==>
      exists k :: FirstValidAt(results, k) && r.value == results[k].id
    ensures r.Failed? ==>
      r.reason == if results == [] then None else Some(results[|results| - 1].id)
    decreases |results|
  {
    if results == [] then Failed(None)
    else if results[0].valid then Succeeded(results[0].id)
    else if |results| == 1 then Failed(Some(results[0].id))
    else
      var r := Any(results[1..]);
      assert r.Succeeded? ==> exists k :: FirstValidAt(results[1..], k) && r.value == results[1..][k].id;
      assert forall k :: FirstValidAt(results[1..], k) ==> FirstValidAt(results, k + 1);
      r
  }

  /**
   * Once some check has been observed valid, checks that settle afterwards
   * cannot change what the combinator settled to.
   */
  lemma {:induction false} AnyIgnoresLaterSettlements(results: seq<Settlement>, later: seq<Settlement>)
    requires !NoneValid(results)
    ensures Any(results + later) == Any(results)
    decreases |results|
  {
    assert (results + later)[0] == results[0];
    if !results[0].valid {
      assert |results| > 1;
      assert (results + later)[1..] == results[1..] + later;
      AnyIgnoresLaterSettlements(results[1..], later);
    }
  }

  /**
   * Whether the combinator succeeds does not depend on the order in which the
   * checks settle, only on their results; which value it carries may.
   */
  lemma AnySuccessIgnoresOrder(results: seq<Settlement>, reordered: seq<Settlement>)
    requires multiset(results) == multiset(reordered)
    ensures Any(results).Succeeded? == Any(reordered).Succeeded?
  {
    SomeValidTransfers(results, reordered);
    SomeValidTransfers(reordered, results);
  }

  lemma SomeValidTransfers(results: seq<Settlement>, reordered: seq<Settlement>)
    requires multiset(results) == multiset(reordered)
    ensures !NoneValid(results) ==> !NoneValid(reordered)
  {
    if !NoneValid(results) {
      var i :| 0 <= i < |results| && results[i].valid;
      assert results[i] in multiset(reordered);
      var j :| 0 <= j < |reordered| && reordered[j] == results[i];
    }
  }
}
