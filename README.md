# permAuthorization: the two-phase access decision

A Dafny model of `permAuthorization.authorize` from angular-permission
(`src/permission/authorization/Authorization.js`). The service takes a
permission map with two ordered lists of permission or role names: `except`,
a deny-list, and `only`, an allow-list. It returns a promise that settles
once.

- **Except phase.** The validity checks of every `except` entry run. If any
  of them holds, authorization is rejected with that entry's name.
- **Only phase.** This phase starts only after every `except` check has
  failed. An empty `only` list accepts without evidence. Otherwise the first
  `only` check observed to hold accepts with its name. If every `only` check
  fails, authorization is rejected with the name of the last one to fail.

The model has four layers. They share `Checks` (checks.dfy), which holds
the permission names and a check once it has settled:

- `AnyCombinator` (any_combinator.dfy) gives the "any" combinator (`$q.any`)
  as a function over the order in which a phase's checks settled. Its
  implementation is not part of this model, so the behaviour below is an
  assumption:
  - the first valid check in settlement order wins;
  - if all checks fail, the result carries the last check to settle;
  - an empty list fails and carries no name.
- `Decision` (decision.dfy) is the decision rule as pure functions.
  `ResolveExceptPrivilegeMap`, `ResolveOnlyPermissionMap` and `Authorize`
  mirror the source's functions. Lemmas cover precedence, late settlements,
  order independence and where evidence comes from.
- `Settling` (settling.dfy) turns one `authorize` call into a machine that
  consumes one check settlement at a time. `Start`, `EnterOnly` and `Step`
  are its transitions, and `Inv` is its invariant. Lemmas prove these
  properties:
  - the invariant holds in every state;
  - once settled, the outcome never changes;
  - no `only` check is consumed before every `except` check has failed;
  - the machine reaches a result once every requested check has settled;
  - a phase that ends because every check failed has seen all of its checks;
  - the result is the one `Authorize` gives for any complete settlement
    orders that extend the settlements observed.
- `Authorizer` (authorizer.dfy) is the imperative form the source has:
  - a settle-once `Deferred`, whose resolve and reject take effect only
    while it is pending;
  - an `Authorization` class for one call, whose constructor is `authorize`
    and whose settlement callbacks (`OnSettle`, `OnExceptSettle`,
    `OnOnlySettle`) update the phase, the in-flight checks and the deferred.
    Each method is proved against `Settling.Step`. Its `Valid()` also says
    that resolve or reject was called exactly once when the call is done, and
    never before.

A validity check is a settled `Settlement(id, valid)`. A phase's results are
the sequence in which its checks settled. `IsTrace(ids, results)` says that
every requested check settled exactly once, carrying its own name. This is
the assumption the model makes about `PermissionMap.resolvePropertyValidity`.

Determinism needs no lemma: `Authorize` and `Step` are functions, and each
method's postcondition fixes the new state. So the same results in the same
settlement order always give the same outcome and evidence. `Authorize`
reads only the emptiness of `only` from the map, and otherwise reads only
the check results.

## Model

| member | source | states |
|---|---|---|
| `AnyCombinator.Any` | src/permission/authorization/Authorization.js:56 | succeeds exactly when some settled check is valid, carrying the id of the first valid one in settlement order; otherwise fails with the id of the last check to settle, or with none for an empty list |
| `AnyCombinator.AnyIgnoresLaterSettlements` | src/permission/authorization/Authorization.js:56-59 | once a valid check has been observed, checks that settle later do not change the combinator's result |
| `AnyCombinator.AnySuccessIgnoresOrder` | src/permission/authorization/Authorization.js:80-86 | whether the combinator succeeds depends only on the multiset of results, not on their settlement order |
| `Decision.ResolveOnlyPermissionMap` | src/permission/authorization/Authorization.js:73-87 | an empty `only` list accepts with no evidence; otherwise the first valid `only` check accepts with its id; if all fail, rejects with the id of the last to settle |
| `Decision.ResolveExceptPrivilegeMap` | src/permission/authorization/Authorization.js:53-63 | a valid `except` check rejects with the id of the first one observed; if none is valid, the outcome is exactly the `only` phase's |
| `Decision.Authorize` | src/permission/authorization/Authorization.js:22-41 | the full decision table: except hit rejects with the first hit; otherwise empty `only` accepts with no evidence, the first valid `only` accepts with its id, and all `only` failing rejects with the last to fail |
| `Decision.BothListsEmptyAccepts` | src/permission/authorization/Authorization.js:54-76 | with `except` and `only` both empty, the outcome is Accepted with no evidence |
| `Decision.ExceptOverridesOnly` | src/permission/authorization/Authorization.js:56-62 | an except hit rejects, and the outcome is the same whatever the `only` checks return |
| `Decision.LateExceptSettlementsIgnored` | src/permission/authorization/Authorization.js:56-59 | after an except hit, except checks that settle later and any `only` results leave the outcome unchanged |
| `Decision.LateOnlySettlementsIgnored` | src/permission/authorization/Authorization.js:80-83 | after an `only` check has been observed valid, `only` checks that settle later leave the outcome unchanged |
| `Decision.AcceptanceIgnoresOrder` | src/permission/authorization/Authorization.js:54-86 | whether authorization accepts depends on the check results and not on their settlement order; only the evidence may differ |
| `Decision.EvidenceComesFromMap` | src/permission/authorization/Authorization.js:54-85 | an except rejection names an `except` entry; otherwise any evidence names an `only` entry; with a non-empty `only` list whose checks have all settled, the evidence is always present |
| `Settling.Settle` | src/permission/authorization/Authorization.js:58 | resolving or rejecting always leaves the deferred settled: a pending one takes the new outcome, a settled one keeps the outcome it has (the same rule for the calls at lines 75, 82 and 85) |
| `Settling.EnterOnly` | src/permission/authorization/Authorization.js:73-79 | an empty `only` list settles the call as Accepted with no evidence; otherwise the call moves to the only phase with the `only` checks in flight and the deferred unchanged; the observed settlements are kept |
| `Settling.Start` | src/permission/authorization/Authorization.js:35-41 | a fresh call has a pending deferred and has observed nothing. It waits on the `except` checks (requested at line 54); with no `except` entries it moves straight to the `only` checks; with both lists empty it is settled as Accepted with no evidence |
| `Settling.Step` | src/permission/authorization/Authorization.js:56-86 | a settlement after the call is done is ignored. Otherwise the check leaves the checks in flight and is appended to its phase's observed settlements. A valid `except` check rejects with its id, and the last `except` failure enters the only phase. A valid `only` check accepts with its id, and the last `only` failure rejects with its id. Any other failure leaves the deferred pending |
| `Settling.StartEstablishesInv` | src/permission/authorization/Authorization.js:35-41 | a fresh call starts in a state satisfying the invariant, with nothing observed yet |
| `Settling.StepPreservesInv` | src/permission/authorization/Authorization.js:53-87 | every settlement keeps the invariant: the deferred is settled exactly when the call is done, and then with `Authorize` of the settlements observed |
| `Settling.ExceptStepPreservesInv` | src/permission/authorization/Authorization.js:56-62 | an `except` settlement keeps the invariant, including the move into the `only` phase after the last failure |
| `Settling.OnlyStepPreservesInv` | src/permission/authorization/Authorization.js:80-86 | an `only` settlement keeps the invariant |
| `Settling.StepSettlesOnce` | src/permission/authorization/Authorization.js:56-86 | once the deferred is settled, any further settlement leaves the whole state unchanged |
| `Settling.OnlyConsultedAfterExceptFailed` | src/permission/authorization/Authorization.js:60-62 | an `only` settlement is consumed only in the `only` phase, after every `except` check has settled as failed |
| `Settling.StepMakesProgress` | src/permission/authorization/Authorization.js:56-86 | every settlement consumed before the call is done strictly lowers the number of settlements still needed |
| `Settling.RunKeepsSettled` | src/permission/authorization/Authorization.js:56-86 | a run of settlements starting from a settled state changes nothing |
| `Settling.RunSettles` | src/permission/authorization/Authorization.js:36-87 | every run keeps the invariant. Once all requested checks have settled, the call is done and its deferred holds `Authorize` of the observed settlements. `Settling.SettledAgreesWithCompleteOrders` extends this to the complete settlement orders |
| `Settling.SettledAgreesWithCompleteOrders` | src/permission/authorization/Authorization.js:56-86 | a settled call's outcome is `Authorize` of any complete settlement orders of the `except` and `only` checks that extend what it observed; checks that settle after it is done cannot change it |
| `Settling.AcceptedOnlyAfterExceptFailed` | src/permission/authorization/Authorization.js:56-62 | in every reachable state, a call settled as Accepted has seen every `except` check settle, and every one of them failed |
| `Authorizer.Deferred.constructor` | src/permission/authorization/Authorization.js:36 | a new deferred is pending and has not been resolved or rejected |
| `Authorizer.Deferred.Resolve` | src/permission/authorization/Authorization.js:75 | resolving settles a pending deferred as Accepted and leaves a settled one as it was |
| `Authorizer.Deferred.Reject` | src/permission/authorization/Authorization.js:58 | rejecting settles a pending deferred as Rejected and leaves a settled one as it was |
| `Authorizer.Authorization.constructor` | src/permission/authorization/Authorization.js:22-41 | `authorize` creates its own fresh deferred and reaches the machine's start state, satisfying the invariant |
| `Authorizer.Authorization.ResolveOnlyPermissionMap` | src/permission/authorization/Authorization.js:73-79 | an empty `only` list resolves the deferred with no evidence (one call); otherwise the `only` checks become the checks in flight |
| `Authorizer.Authorization.OnSettle` | src/permission/authorization/Authorization.js:56-86 | consuming one settlement keeps `Valid()` and moves the state exactly as `Settling.Step` |
| `Authorizer.Authorization.OnExceptSettle` | src/permission/authorization/Authorization.js:56-62 | an `except` settlement rejects on a valid check, and enters the `only` phase after the last failure |
| `Authorizer.Authorization.OnOnlySettle` | src/permission/authorization/Authorization.js:80-86 | an `only` settlement resolves on a valid check, and rejects with the last failure's id |

## Left out

- Angular service registration and `'ngInject'` (lines 10 and 90-92) are framework plumbing.
- The `$q` promise machinery and its event loop are left out. A phase's checks are given as the order in which they settle. `OnSettle` is called once per settlement in that order.
- The asynchronous hop before the `.catch` callback at line 60 runs is left out. With an empty `except` list, `$q.any` fails at once, and the model enters the `only` phase in the constructor.
- The `.catch` at line 60 would also catch an exception thrown by the `.then` handler at 57-59. That handler only rejects the deferred, which does not throw, so this path is not modelled.
- The implementation of `$q.any` is not part of this model. Its behaviour is the stated assumption in `AnyCombinator.Any`. When the list is empty it would reject with an empty collection; the model carries `None` instead. That value reaches an outcome only through the `except` phase, where line 60 discards it.
- `PermissionMap.resolvePropertyValidity` and the individual permission and role validators are not part of this model; validators may do network I/O. Each check is a settled `(id, valid)` pair that carries its own permission name.
- A collaborator that throws while creating the checks (a construction fault) is not modelled.
- Liveness is not modelled. A check that never settles leaves the call pending forever, and abandoned checks are never cancelled. `Settling.RunSettles` only shows that the call settles once every requested check has settled.
