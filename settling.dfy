/**
 * One `authorize` call as a machine that consumes the settlement of one
 * validity check at a time. Its state is the phase it is in, the checks of
 * that phase still in flight, the state of its settle-once deferred, and
 * (for the proofs) the settlements it has observed in each phase.
 */
module Settling {
  import opened Wrappers
  import opened Checks
  import opened AnyCombinator
  import opened Decision

  datatype Phase = ExceptPhase | OnlyPhase | Done

  /** The state of a deferred: pending, or settled once and for all. */
  datatype Status = Pending | Settled(outcome: Outcome)

  /** One check of the current phase settles: the `check`-th one still in flight. */
  datatype Event = Event(check: nat, valid: bool)

  datatype Machine = Machine(permissions: PermissionMap, phase: Phase, waiting: seq<Id>,
                             status: Status, exceptLog: seq<Settlement>, onlyLog: seq<Settlement>)

  /** Resolving or rejecting a deferred settles it only if it is still pending. */
  function Settle(status: Status, outcome: Outcome): (r: Status)
    ensures r.Settled?
    ensures status.Settled? ==> r == status
    ensures status.Pending? ==> r.outcome == outcome
  {
    if status.Pending? then Settled(outcome) else status
  }

  /** Entering the "only" phase: settle at once on an empty list, else request its checks. */
  function EnterOnly(m: Machine): (r: Machine)
    ensures r.permissions == m.permissions && r.exceptLog == m.exceptLog && r.onlyLog == m.onlyLog
    ensures m.permissions.only == [] ==>
      r.phase == Done && r.status == Settle(m.status, Accepted(None))
    ensures m.permissions.only != [] ==>
      r.phase == OnlyPhase && r.waiting == m.permissions.only && r.status == m.status
  {
    if |m.permissions.only| == 0 then
      m.(phase := Done, status := Settle(m.status, Accepted(None)))
    else
      m.(phase := OnlyPhase, waiting := m.permissions.only)
  }

  /**
   * A fresh deferred and the "except" checks requested; with no "except"
   * entries the combinator fails at once and the "only" phase is entered.
   */
  function Start(permissions: PermissionMap): (r: Machine)
    ensures r.permissions == permissions && r.exceptLog == [] && r.onlyLog == []
    ensures permissions.except != [] ==>
      r.phase == ExceptPhase && r.waiting == permissions.except && r.status == Pending
    ensures permissions.except == [] && permissions.only != [] ==>
      r.phase == OnlyPhase && r.waiting == permissions.only && r.status == Pending
    ensures permissions.except == [] && permissions.only == [] ==>
      r.phase == Done && r.status == Settled(Accepted(None))
  {
    var m := Machine(permissions, ExceptPhase, permissions.except, Pending, [], []);
    if permissions.except == [] then EnterOnly(m) else m
  }

  /**
   * The settlement of one in-flight check of the current phase; ignored once
   * done. A check of the current phase is consumed: it leaves the checks in
   * flight and is appended to that phase's observed settlements. A valid
   * "except" check rejects with its id; a valid "only" check accepts with its
   * id; the failure of the last "only" check rejects with its id; the failure
   * of the last "except" check enters the "only" phase.
   */
  function Step(m: Machine, check: nat, valid: bool): (r: Machine)
    requires m.phase != Done ==> check < |m.waiting|
    ensures r.permissions == m.permissions
    ensures m.phase == Done ==> r == m
    ensures m.phase == ExceptPhase ==>
      && r.exceptLog == m.exceptLog + [Settlement(m.waiting[check], valid)]
      && r.onlyLog == m.onlyLog
      && (valid ==> r.phase == Done && r.status == Settle(m.status, Rejected(Some(m.waiting[check]))))
      && (!valid && |m.waiting| > 1 ==> r.phase == ExceptPhase && r.status == m.status)
      && (!valid && |m.waiting| == 1 ==> r == EnterOnly(m.(waiting := [], exceptLog := r.exceptLog)))
    ensures m.phase == OnlyPhase ==>
      && r.onlyLog == m.onlyLog + [Settlement(m.waiting[check], valid)]
      && r.exceptLog == m.exceptLog
      && (valid ==> r.phase == Done && r.status == Settle(m.status, Accepted(Some(m.waiting[check]))))
      && (!valid && |m.waiting| > 1 ==> r.phase == OnlyPhase && r.status == m.status)
      && (!valid && |m.waiting| == 1 ==> r.phase == Done && r.status == Settle(m.status, Rejected(Some(m.waiting[check]))))
    ensures m.phase != Done && r.phase == m.phase ==>
      multiset(r.waiting) + multiset{m.waiting[check]} == multiset(m.waiting)
  {
    if m.phase == Done then m
    else
      var id := m.waiting[check];
      var rest := m.waiting[..check] + m.waiting[check + 1..];
      RemoveAt(m.waiting, check);
      if m.phase == ExceptPhase then
        var m' := m.(waiting := rest, exceptLog := m.exceptLog + [Settlement(id, valid)]);
        if valid then m'.(phase := Done, status := Settle(m.status, Rejected(Some(id))))
        else if rest == [] then EnterOnly(m')
        else m'
      else
        var m' := m.(waiting := rest, onlyLog := m.onlyLog + [Settlement(id, valid)]);
        if valid then m'.(phase := Done, status := Settle(m.status, Accepted(Some(id))))
        else if rest == [] then m'.(phase := Done, status := Settle(m.status, Rejected(Some(id))))
        else m'
  }

  /**
   * The machine's invariant. The deferred is settled exactly when the machine
   * is done, and then with the outcome the decision gives for the observed
   * settlements; the observed settlements and the checks in flight together
   * are the phase's checks; and nothing of the "only" phase has been observed
   * unless every "except" check has settled as failed.
   */
  ghost predicate Inv(m: Machine)
  {
    && (m.status.Pending? <==> m.phase != Done)
    && multiset(Ids(m.exceptLog)) <= multiset(m.permissions.except)
    && multiset(Ids(m.onlyLog)) <= multiset(m.permissions.only)
    && (m.onlyLog != [] ==> NoneValid(m.exceptLog) && IsTrace(m.permissions.except, m.exceptLog))
    && match m.phase
       case ExceptPhase =>
         && m.waiting != [] && m.onlyLog == [] && NoneValid(m.exceptLog)
         && multiset(Ids(m.exceptLog)) + multiset(m.waiting) == multiset(m.permissions.except)
       case OnlyPhase =>
         && m.waiting != [] && m.permissions.only != []
         && NoneValid(m.exceptLog) && IsTrace(m.permissions.except, m.exceptLog)
         && NoneValid(m.onlyLog)
         && multiset(Ids(m.onlyLog)) + multiset(m.waiting) == multiset(m.permissions.only)
       case Done =>
         && m.status == Settled(Authorize(m.permissions, m.exceptLog, m.onlyLog))
         // a phase decided by every check failing has seen all of its checks
         && (NoneValid(m.exceptLog) ==> IsTrace(m.permissions.except, m.exceptLog))
         && (NoneValid(m.exceptLog) && m.permissions.only != [] && NoneValid(m.onlyLog) ==>
               IsTrace(m.permissions.only, m.onlyLog))
  }

  /** Settlements still to be consumed, at most, before the machine is done. */
  function Remaining(m: Machine): nat
  {
    match m.phase
    case ExceptPhase => |m.waiting| + |m.permissions.only|
    case OnlyPhase => |m.waiting|
    case Done => 0
  }

  lemma StartEstablishesInv(permissions: PermissionMap)
    ensures Inv(Start(permissions))
    ensures Start(permissions).exceptLog == [] && Start(permissions).onlyLog == []
  {
  }

  lemma IdsAppend(log: seq<Settlement>, s: Settlement)
    ensures Ids(log + [s]) == Ids(log) + [s.id]
  {
  }

  lemma IdsConcat(log: seq<Settlement>, later: seq<Settlement>)
    ensures Ids(log + later) == Ids(log) + Ids(later)
  {
  }

  /** When `log` already is a complete trace, no further settlement can follow it. */
  lemma NothingLaterThanTrace(ids: seq<Id>, log: seq<Settlement>, later: seq<Settlement>)
    requires IsTrace(ids, log) && IsTrace(ids, log + later)
    ensures later == []
  {
    IdsConcat(log, later);
    var seen, rest := multiset(Ids(log)), multiset(Ids(later));
    assert seen == multiset(ids) == multiset(Ids(log + later)) == seen + rest;
    assert |seen + rest| == |seen| + |rest|;
    assert |Ids(later)| == |rest| == 0;
  }

  lemma RemoveAt(waiting: seq<Id>, check: nat)
    requires check < |waiting|
    ensures multiset(waiting) == multiset(waiting[..check] + waiting[check + 1..]) + multiset{waiting[check]}
  {
    assert waiting == waiting[..check] + [waiting[check]] + waiting[check + 1..];
  }

  lemma FailuresThenOne(log: seq<Settlement>, s: Settlement)
    requires NoneValid(log)
    ensures s.valid ==> Any(log + [s]) == Succeeded(s.id)
    ensures !s.valid ==> NoneValid(log + [s]) && Any(log + [s]) == Failed(Some(s.id))
  {
  }

  /** Every settlement keeps the invariant. */
  lemma StepPreservesInv(m: Machine, check: nat, valid: bool)
    requires Inv(m)
    requires m.phase != Done ==> check < |m.waiting|
    ensures Inv(Step(m, check, valid))
  {
    if m.phase == ExceptPhase {
      ExceptStepPreservesInv(m, check, valid);
    } else if m.phase == OnlyPhase {
      OnlyStepPreservesInv(m, check, valid);
    }
  }

  lemma ExceptStepPreservesInv(m: Machine, check: nat, valid: bool)
    requires Inv(m) && m.phase == ExceptPhase && check < |m.waiting|
    ensures Inv(Step(m, check, valid))
  {
    var id := m.waiting[check];
    var s := Settlement(id, valid);
    var rest := m.waiting[..check] + m.waiting[check + 1..];
    var log := m.exceptLog + [s];
    RemoveAt(m.waiting, check);
    IdsAppend(m.exceptLog, s);
    FailuresThenOne(m.exceptLog, s);
    assert multiset(Ids(log)) + multiset(rest) == multiset(m.permissions.except);
    if !valid && rest == [] {
      assert IsTrace(m.permissions.except, log);
    }
  }

  lemma OnlyStepPreservesInv(m: Machine, check: nat, valid: bool)
    requires Inv(m) && m.phase == OnlyPhase && check < |m.waiting|
    ensures Inv(Step(m, check, valid))
  {
    var id := m.waiting[check];
    var s := Settlement(id, valid);
    var rest := m.waiting[..check] + m.waiting[check + 1..];
    var log := m.onlyLog + [s];
    RemoveAt(m.waiting, check);
    IdsAppend(m.onlyLog, s);
    FailuresThenOne(m.onlyLog, s);
    assert multiset(Ids(log)) + multiset(rest) == multiset(m.permissions.only);
  }

  /** Once settled, the deferred never changes again: later settlements are ignored. */
  lemma StepSettlesOnce(m: Machine, check: nat, valid: bool)
    requires Inv(m)
    requires m.status.Settled?
    ensures Step(m, check, valid) == m
  {
  }

  /** An "only" settlement is consumed only after every "except" check has failed. */
  lemma OnlyConsultedAfterExceptFailed(m: Machine, check: nat, valid: bool)
    requires Inv(m)
    requires m.phase != Done ==> check < |m.waiting|
    requires Step(m, check, valid).onlyLog != m.onlyLog
    ensures m.phase == OnlyPhase
    ensures NoneValid(m.exceptLog) && IsTrace(m.permissions.except, m.exceptLog)
  {
  }

  /** A settlement consumed before the machine is done brings it closer to done. */
  lemma StepMakesProgress(m: Machine, check: nat, valid: bool)
    requires Inv(m)
    requires m.phase != Done && check < |m.waiting|
    ensures Remaining(m) > 0
    ensures Remaining(Step(m, check, valid)) < Remaining(m)
  {
  }

  /**
   * A settled call agrees with the decision over any complete settlement
   * orders that extend what it observed: the checks that settle after the
   * call is done cannot change its outcome, and the call never settles
   * before the checks its decision depends on have settled.
   */
  lemma SettledAgreesWithCompleteOrders(m: Machine, laterExcept: seq<Settlement>,
                                        laterOnly: seq<Settlement>)
    requires Inv(m) && m.phase == Done
    requires IsTrace(m.permissions.except, m.exceptLog + laterExcept)
    requires IsTrace(m.permissions.only, m.onlyLog + laterOnly)
    ensures m.status == Settled(Authorize(m.permissions, m.exceptLog + laterExcept, m.onlyLog + laterOnly))
  {
    var p := m.permissions;
    if !NoneValid(m.exceptLog) {
      LateExceptSettlementsIgnored(p, m.exceptLog, laterExcept, m.onlyLog, m.onlyLog + laterOnly);
    } else {
      NothingLaterThanTrace(p.except, m.exceptLog, laterExcept);
      assert m.exceptLog + laterExcept == m.exceptLog;
      if p.only != [] {
        if !NoneValid(m.onlyLog) {
          LateOnlySettlementsIgnored(p, m.exceptLog, m.onlyLog, laterOnly);
        } else {
          NothingLaterThanTrace(p.only, m.onlyLog, laterOnly);
          assert m.onlyLog + laterOnly == m.onlyLog;
        }
      }
    }
  }

  /**
   * A call is accepted only after every "except" check has settled, and
   * every one of them failed.
   */
  lemma AcceptedOnlyAfterExceptFailed(m: Machine)
    requires Inv(m) && m.status.Settled? && m.status.outcome.Accepted?
    ensures NoneValid(m.exceptLog) && IsTrace(m.permissions.except, m.exceptLog)
  {
  }

  /** A sequence of settlements each of which names a check still in flight. */
  predicate Feasible(m: Machine, events: seq<Event>)
    decreases |events|
  {
    events == [] ||
    ((m.phase != Done ==> events[0].check < |m.waiting|) &&
     Feasible(Step(m, events[0].check, events[0].valid), events[1..]))
  }

  function Run(m: Machine, events: seq<Event>): Machine
    requires Feasible(m, events)
    decreases |events|
  {
    if events == [] then m
    else Run(Step(m, events[0].check, events[0].valid), events[1..])
  }

  /** Settlements arriving after the deferred is settled change nothing. */
  lemma {:induction false} RunKeepsSettled(m: Machine, events: seq<Event>)
    requires Inv(m) && m.status.Settled?
    requires Feasible(m, events)
    ensures Run(m, events) == m
    decreases |events|
  {
    if events != [] {
      StepSettlesOnce(m, events[0].check, events[0].valid);
      RunKeepsSettled(m, events[1..]);
    }
  }

  /**
   * Any run keeps the invariant, and once every requested check has settled
   * the deferred is settled, with the outcome the decision gives for the
   * settlements observed.
   */
  lemma {:induction false} RunSettles(m: Machine, events: seq<Event>)
    requires Inv(m)
    requires Feasible(m, events)
    ensures Inv(Run(m, events))
    ensures |events| >= Remaining(m) ==>
      var final := Run(m, events);
      final.phase == Done &&
      final.status == Settled(Authorize(final.permissions, final.exceptLog, final.onlyLog))
    decreases |events|
  {
    if events != [] {
      var e := events[0];
      StepPreservesInv(m, e.check, e.valid);
      if m.phase != Done {
        StepMakesProgress(m, e.check, e.valid);
      }
      RunSettles(Step(m, e.check, e.valid), events[1..]);
    }
  }
}
