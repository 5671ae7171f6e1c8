/**
 * `permAuthorization` as the source runs it: each `authorize` call creates a
 * fresh deferred and settles it from callbacks as the validity checks of each
 * phase settle. The callbacks are the method `OnSettle`, invoked once per
 * settlement in the order the checks settle; every method is proved against
 * the machine of module Settling.
 */
module Authorizer {
  import opened Wrappers
  import opened Checks
  import opened Decision
  import opened Settling

  /** A settle-once deferred: only the first resolve or reject takes effect. */
  class Deferred {
    var status: Status
    /** How many times resolve or reject has been called on it. */
    ghost var calls: nat

    constructor ()
      ensures status == Pending && calls == 0
    {
      status := Pending;
      calls := 0;
    }

    method Resolve(value: Option<Id>)
      modifies this
      ensures status == Settle(old(status), Accepted(value))
      ensures calls == old(calls) + 1
    {
      if status.Pending? {
        status := Settled(Accepted(value));
      }
      calls := calls + 1;
    }

    method Reject(reason: Option<Id>)
      modifies this
      ensures status == Settle(old(status), Rejected(reason))
      ensures calls == old(calls) + 1
    {
      if status.Pending? {
        status := Settled(Rejected(reason));
      }
      calls := calls + 1;
    }
  }

  /** One `authorize` call in progress. */
  class Authorization {
    const permissions: PermissionMap
    const deferred: Deferred
    var phase: Phase
    /** The checks of the current phase still in flight. */
    var waiting: seq<Id>
    /** The settlements observed in each phase, in settlement order. */
    ghost var exceptLog: seq<Settlement>
    ghost var onlyLog: seq<Settlement>

    ghost function Abstract(): Machine
      reads this, deferred
    {
      Machine(permissions, phase, waiting, deferred.status, exceptLog, onlyLog)
    }

    /**
     * The machine invariant holds, and the deferred has been resolved or
     * rejected exactly once if the call is done and not at all before.
     */
    ghost predicate Valid()
      reads this, deferred
    {
      Inv(Abstract()) && deferred.calls == (if phase == Done then 1 else 0)
    }

    /** `authorize(map)`: a fresh deferred, then the "except" checks requested. */
    constructor (permissions: PermissionMap)
      ensures Valid() && fresh(deferred)
      ensures Abstract() == Start(permissions)
    {
      this.permissions := permissions;
      deferred := new Deferred();
      phase := ExceptPhase;
      waiting := permissions.except;
      exceptLog := [];
      onlyLog := [];
      new;
      if permissions.except == [] {
        ResolveOnlyPermissionMap();
      }
      StartEstablishesInv(permissions);
    }

    /** The "only" phase: accept at once on an empty list, else request its checks. */
    method ResolveOnlyPermissionMap()
      requires deferred.status == Pending && deferred.calls == 0
      modifies this, deferred
      ensures Abstract() == EnterOnly(old(Abstract()))
      ensures deferred.calls == if phase == Done then 1 else 0
    {
      if |permissions.only| == 0 {
        phase := Done;
        deferred.Resolve(None);
        return;
      }
      phase := OnlyPhase;
      waiting := permissions.only;
    }

    /**
     * The `check`-th check still in flight settles; once done, settlements
     * are ignored.
     */
    method OnSettle(check: nat, valid: bool)
      requires Valid()
      requires phase != Done ==> check < |waiting|
      modifies this, deferred
      ensures Valid()
      ensures Abstract() == Step(old(Abstract()), check, valid)
    {
      if phase == Done {
        return;
      }
      ghost var before := Abstract();
      if phase == ExceptPhase {
        OnExceptSettle(check, valid);
      } else {
        OnOnlySettle(check, valid);
      }
      StepPreservesInv(before, check, valid);
    }

    /**
     * The callbacks on the "except" combinator: a valid check rejects with its
     * identifier; the failure of the last one moves on to the "only" phase.
     */
    method OnExceptSettle(check: nat, valid: bool)
      requires phase == ExceptPhase && check < |waiting|
      requires deferred.status == Pending && deferred.calls == 0
      modifies this, deferred
      ensures Abstract() == Step(old(Abstract()), check, valid)
      ensures deferred.calls == if phase == Done then 1 else 0
    {
      var id := waiting[check];
      waiting := waiting[..check] + waiting[check + 1..];
      exceptLog := exceptLog + [Settlement(id, valid)];
      if valid {
        phase := Done;
        deferred.Reject(Some(id));
      } else if waiting == [] {
        ResolveOnlyPermissionMap();
      }
    }

    /**
     * The callbacks on the "only" combinator: a valid check accepts with its
     * identifier; the failure of the last one rejects with that one's.
     */
    method OnOnlySettle(check: nat, valid: bool)
      requires phase == OnlyPhase && check < |waiting|
      requires deferred.status == Pending && deferred.calls == 0
      modifies this, deferred
      ensures Abstract() == Step(old(Abstract()), check, valid)
      ensures deferred.calls == if phase == Done then 1 else 0
    {
      var id := waiting[check];
      waiting := waiting[..check] + waiting[check + 1..];
      onlyLog := onlyLog + [Settlement(id, valid)];
      if valid {
        phase := Done;
        deferred.Resolve(Some(id));
      } else if waiting == [] {
        phase := Done;
        deferred.Reject(Some(id));
      }
    }
  }
}
