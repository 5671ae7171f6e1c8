/**
 * The two-phase decision of `permAuthorization.authorize`
 * (src/permission/authorization/Authorization.js), stated over the order in
 * which each phase's validity checks settled.
 *
 * The "except" list is a deny-list: any check in it that holds rejects. Only
 * when all of them fail is the "only" list (an allow-list) consulted: empty,
 * it accepts unconditionally; otherwise the first check that holds accepts,
 * and if all fail authorization is rejected.
 */
module Decision {
  import opened Wrappers
  import opened Checks
  import opened AnyCombinator

  /** The permission map: the two ordered lists of permission or role names. */
  datatype PermissionMap = PermissionMap(except: seq<Id>, only: seq<Id>)

  /** How the authorization promise settles, and with which evidence. */
  datatype Outcome = Accepted(evidence: Option<Id>) | Rejected(evidence: Option<Id>)

  /** The "only" phase, entered once every "except" check has failed. */
  function ResolveOnlyPermissionMap(permissions: PermissionMap, onlyResults: seq<Settlement>): (r: Outcome)
    ensures permissions.only == [] ==> r == Accepted(None)
    ensures permissions.only != [] && !NoneValid(onlyResults) ==>
      r.Accepted? && exists k :: FirstValidAt(onlyResults, k) && r.evidence == Some(onlyResults[k].id)
    ensures permissions.only != [] && NoneValid(onlyResults) ==>
      r == Rejected(if onlyResults == [] then None else Some(onlyResults[|onlyResults| - 1].id))
  {
    if |permissions.only| == 0 then Accepted(None)
    else
      match Any(onlyResults)
      case Succeeded(granted) => Accepted(Some(granted))
      case Failed(reason) => Rejected(reason)
  }

  /** The "except" phase; its failure branch hands over to the "only" phase. */
  function ResolveExceptPrivilegeMap(permissions: PermissionMap, exceptResults: seq<Settlement>,
                                     onlyResults: seq<Settlement>): (r: Outcome)
    ensures !NoneValid(exceptResults) ==>
      r.Rejected? && exists k :: FirstValidAt(exceptResults, k) && r.evidence == Some(exceptResults[k].id)
    ensures NoneValid(exceptResults) ==> r == ResolveOnlyPermissionMap(permissions, onlyResults)
  {
    match Any(exceptResults)
    case Succeeded(denied) => Rejected(Some(denied))
    case Failed(_) => ResolveOnlyPermissionMap(permissions, onlyResults)
  }

  /** `authorize(map)`: the whole decision, case by case. */
  function Authorize(permissions: PermissionMap, exceptResults: seq<Settlement>,
                     onlyResults: seq<Settlement>): (r: Outcome)
    // a deny-list hit rejects with the first hit observed, whatever "only" holds
    ensures !NoneValid(exceptResults) ==>
      r.Rejected? && exists k :: FirstValidAt(exceptResults, k) && r.evidence == Some(exceptResults[k].id)
    // no deny-list hit and no allow-list: accepted without evidence
    ensures NoneValid(exceptResults) && permissions.only == [] ==> r == Accepted(None)
    // no deny-list hit, some allow-list check holds: accepted with the first observed
    ensures NoneValid(exceptResults) && permissions.only != [] && !NoneValid(onlyResults) ==>
      r.Accepted? && exists k :: FirstValidAt(onlyResults, k) && r.evidence == Some(onlyResults[k].id)
    // no deny-list hit, every allow-list check fails: rejected with the last to fail
    ensures NoneValid(exceptResults) && permissions.only != [] && NoneValid(onlyResults) ==>
      r == Rejected(if onlyResults == [] then None else Some(onlyResults[|onlyResults| - 1].id))
  {
    ResolveExceptPrivilegeMap(permissions, exceptResults, onlyResults)
  }

  /** With both lists empty, authorization accepts without evidence. */
  lemma BothListsEmptyAccepts(permissions: PermissionMap, exceptResults: seq<Settlement>,
                              onlyResults: seq<Settlement>)
    requires permissions.except == [] && permissions.only == []
    requires IsTrace(permissions.except, exceptResults)
    ensures Authorize(permissions, exceptResults, onlyResults) == Accepted(None)
  {
    assert |Ids(exceptResults)| == |multiset(Ids(exceptResults))| == 0;
  }

  /** A deny-list hit rejects whatever the "only" checks would have said. */
  lemma ExceptOverridesOnly(permissions: PermissionMap, exceptResults: seq<Settlement>,
                            onlyResults: seq<Settlement>, otherOnlyResults: seq<Settlement>)
    requires !NoneValid(exceptResults)
    ensures Authorize(permissions, exceptResults, onlyResults).Rejected?
    ensures Authorize(permissions, exceptResults, onlyResults) ==
            Authorize(permissions, exceptResults, otherOnlyResults)
  {
  }

  /**
   * Once a deny-list check has been observed to hold, except checks that
   * settle later, and whatever the only checks do, leave the outcome as it was.
   */
  lemma LateExceptSettlementsIgnored(permissions: PermissionMap, exceptResults: seq<Settlement>,
                                     later: seq<Settlement>, onlyResults: seq<Settlement>,
                                     otherOnlyResults: seq<Settlement>)
    requires !NoneValid(exceptResults)
    ensures Authorize(permissions, exceptResults + later, otherOnlyResults) ==
            Authorize(permissions, exceptResults, onlyResults)
  {
    AnyIgnoresLaterSettlements(exceptResults, later);
  }

  /**
   * Once an allow-list check has been observed to hold, only checks that
   * settle later leave the outcome as it was.
   */
  lemma LateOnlySettlementsIgnored(permissions: PermissionMap, exceptResults: seq<Settlement>,
                                   onlyResults: seq<Settlement>, later: seq<Settlement>)
    requires !NoneValid(onlyResults)
    ensures Authorize(permissions, exceptResults, onlyResults + later) ==
            Authorize(permissions, exceptResults, onlyResults)
  {
    AnyIgnoresLaterSettlements(onlyResults, later);
  }

  /**
   * Whether authorization accepts depends on the checks' results and not on
   * the order in which they settle; only the evidence may differ.
   */
  lemma AcceptanceIgnoresOrder(permissions: PermissionMap,
                               exceptResults: seq<Settlement>, exceptReordered: seq<Settlement>,
                               onlyResults: seq<Settlement>, onlyReordered: seq<Settlement>)
    requires multiset(exceptResults) == multiset(exceptReordered)
    requires multiset(onlyResults) == multiset(onlyReordered)
    ensures Authorize(permissions, exceptResults, onlyResults).Accepted? ==
            Authorize(permissions, exceptReordered, onlyReordered).Accepted?
  {
    AnySuccessIgnoresOrder(exceptResults, exceptReordered);
    AnySuccessIgnoresOrder(onlyResults, onlyReordered);
  }

  /** An identifier carried by a settlement is one of the identifiers its checks were requested for. */
  lemma SettledIdIsRequested(ids: seq<Id>, results: seq<Settlement>, k: int)
    requires multiset(Ids(results)) <= multiset(ids)
    requires 0 <= k < |results|
    ensures results[k].id in ids
  {
    assert Ids(results)[k] == results[k].id;
    assert results[k].id in multiset(Ids(results));
  }

  /**
   * Evidence always names a permission of the map: a rejection names an
   * "except" entry when some except check held and an "only" entry otherwise,
   * and an acceptance with evidence names an "only" entry. When every check
   * of a non-empty "only" list has settled as failed, the rejection does carry
   * evidence.
   */
  lemma EvidenceComesFromMap(permissions: PermissionMap, exceptResults: seq<Settlement>,
                             onlyResults: seq<Settlement>)
    requires multiset(Ids(exceptResults)) <= multiset(permissions.except)
    requires multiset(Ids(onlyResults)) <= multiset(permissions.only)
    ensures var r := Authorize(permissions, exceptResults, onlyResults);
      && (!NoneValid(exceptResults) ==> r.evidence.Some? && r.evidence.value in permissions.except)
      && (NoneValid(exceptResults) && r.evidence.Some? ==> r.evidence.value in permissions.only)
      && (NoneValid(exceptResults) && permissions.only != [] && IsTrace(permissions.only, onlyResults) ==>
            r.evidence.Some?)
  {
    var r := Authorize(permissions, exceptResults, onlyResults);
    if !NoneValid(exceptResults) {
      var k :| FirstValidAt(exceptResults, k) && r.evidence == Some(exceptResults[k].id);
      SettledIdIsRequested(permissions.except, exceptResults, k);
    } else if permissions.only != [] {
      if IsTrace(permissions.only, onlyResults) {
        assert permissions.only[0] in multiset(Ids(onlyResults));
      }
      if !NoneValid(onlyResults) {
        var k :| FirstValidAt(onlyResults, k) && r.evidence == Some(onlyResults[k].id);
        SettledIdIsRequested(permissions.only, onlyResults, k);
      } else if onlyResults != [] {
        SettledIdIsRequested(permissions.only, onlyResults, |onlyResults| - 1);
      }
    }
  }
}
