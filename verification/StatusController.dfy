/** Conditions of a status check and the reconciler that keeps them (controllers/statuscheck/conditions.go,
    controllers/statuscheck/controller.go, api/v1alpha1/statuscheck_types.go). The clock's readings are parameters. */
module StatusController {
  import opened Text
  import opened StatusRecords
  import opened StatusWorker
  import opened StatusManager

  datatype ConditionType = Completed | DurationExceed | FailureThresholdExceed | SuccessThresholdExceed

  datatype Reason = NoReason | ByDuration | ByFailureThreshold | BySuccessThreshold

  datatype Condition = Condition(typ: ConditionType, status: bool, reason: Reason, lastProbe: int, lastTransition: int)

  /** The duration of a check, after it has been parsed. */
  datatype Duration = Unlimited | Lasting(d: int) | Malformed

  datatype StatusCheck = StatusCheck(spec: Spec, duration: Duration, startTime: Option<int>,
                                     completionTime: Option<int>,
                                     count: int, conditions: seq<Condition>, records: seq<Record>)

  // ---------- durations ----------

  datatype Exceed = Exceed(yes: bool) | BadDuration

  /** A check that has not started has not exceeded its duration, even if the duration is malformed. */
  function DurationExceeded(check: StatusCheck, now: int): Exceed {
    if check.startTime.None? then Exceed(false)
    else match check.duration
         case Malformed => BadDuration
         case Unlimited => Exceed(false)
         case Lasting(d) => Exceed(check.startTime.value + d < now)
  }

  // ---------- conditions ----------

  predicate IsCompleted(conditions: seq<Condition>) {
    exists i :: 0 <= i < |conditions| && conditions[i].typ == Completed && conditions[i].status
  }

  /** The last condition of a type in a list. */
  function Latest(list: seq<Condition>, t: ConditionType): Option<Condition> {
    if list == [] then None
    else if list[|list| - 1].typ == t then Some(list[|list| - 1])
    else Latest(list[..|list| - 1], t)
  }

  /** A condition after a probe: the transition time moves exactly when the condition is new or its status flips. */
  function Probed(t: ConditionType, prior: Option<Condition>, status: bool, reason: Reason, now: int): Condition {
    Condition(t, status, reason, now,
              if prior.Some? && prior.value.status == status then prior.value.lastTransition else now)
  }

  function Lookup(conds: map<ConditionType, Condition>, t: ConditionType): Option<Condition> {
    if t in conds then Some(conds[t]) else None
  }

  function FirstReason(duration: bool, failure: bool, success: bool): Reason {
    if duration then ByDuration else if failure then ByFailureThreshold
    else if success then BySuccessThreshold else NoReason
  }

  class ConditionMap {
    var conds: map<ConditionType, Condition>

    predicate Holds(t: ConditionType)
      reads this
    {
      t in conds && conds[t].status
    }

    constructor (list: seq<Condition>)
      ensures forall t :: Lookup(conds, t) == Latest(list, t)
    {
      var m: map<ConditionType, Condition> := map[];
      for n := 0 to |list|
        invariant forall t :: Lookup(m, t) == Latest(list[..n], t)
      {
        m := m[list[n].typ := list[n]];
        assert list[..n + 1][..n] == list[..n];
      }
      assert list[..|list|] == list;
      conds := m;
    }

    method SetCondition(t: ConditionType, status: bool, reason: Reason, now: int)
      requires t in conds ==> conds[t].typ == t
      modifies this
      ensures conds == old(conds)[t := Probed(t, Lookup(old(conds), t), status, reason, now)]
    {
      if t !in conds {
        conds := conds[t := Condition(t, status, reason, now, now)];
      } else {
        var c := conds[t].(lastProbe := now, reason := reason);
        if status != c.status {
          c := c.(status := status, lastTransition := now);
        }
        conds := conds[t := c];
      }
    }

    /** The first of duration, failure threshold and (in Synchronous mode) success threshold gives the reason. */
    method SetCompleted(mode: Mode, now: int)
      requires Completed in conds ==> conds[Completed].typ == Completed
      modifies this
      ensures var reason := FirstReason(old(Holds(DurationExceed)), old(Holds(FailureThresholdExceed)),
                                        mode.Synchronous? && old(Holds(SuccessThresholdExceed)));
              conds == old(conds)[Completed := Probed(Completed, Lookup(old(conds), Completed), reason != NoReason,
                                                      reason, now)]
    {
      if Holds(DurationExceed) {
        SetCondition(Completed, true, ByDuration, now);
        return;
      }
      if Holds(FailureThresholdExceed) {
        SetCondition(Completed, true, ByFailureThreshold, now);
        return;
      }
      if mode == Synchronous {
        if Holds(SuccessThresholdExceed) {
          SetCondition(Completed, true, BySuccessThreshold, now);
          return;
        }
      }
      SetCondition(Completed, false, NoReason, now);
    }

    /** The conditions as a list, each once, in any order. */
    method ToList() returns (list: seq<Condition>)
      requires forall t :: t in conds ==> conds[t].typ == t
      ensures forall t :: Latest(list, t) == Lookup(conds, t)
      ensures |list| == |conds|
      ensures IsCompleted(list) <==> Holds(Completed)
    {
      list := [];
      var rest := conds.Keys;
      while rest != {}
        invariant rest <= conds.Keys
        invariant forall t :: Latest(list, t) == if t in rest then None else Lookup(conds, t)
        invariant |list| + |rest| == |conds|
        invariant IsCompleted(list) <==> Completed !in rest && Holds(Completed)
        decreases rest
      {
        var t :| t in rest;
        ghost var before := list;
        list := list + [conds[t]];
        rest := rest - {t};
        assert list[..|list| - 1] == before;
        OneMoreCondition(before, conds[t]);
      }
    }
  }

  lemma OneMoreCondition(list: seq<Condition>, c: Condition)
    ensures IsCompleted(list + [c]) <==> IsCompleted(list) || (c.typ == Completed && c.status)
  {
    if IsCompleted(list) {
      var i :| 0 <= i < |list| && list[i].typ == Completed && list[i].status;
      assert (list + [c])[i] == list[i];
    }
    assert (list + [c])[|list|] == c;
  }

  lemma {:induction false} LatestHasItsType(list: seq<Condition>, t: ConditionType)
    ensures Latest(list, t).Some? ==> Latest(list, t).value.typ == t && Latest(list, t).value in list
  {
    if list != [] { LatestHasItsType(list[..|list| - 1], t); }
  }

  // ---------- what a pass computes ----------

  /** Completion without the condition map: the duration is over, or the scan of the records fires. */
  predicate Finished(check: StatusCheck, now: int) {
    DurationExceeded(check, now) == Exceed(true) || ScanFires(check.spec, check.records)
  }

  function ReasonFor(check: StatusCheck, now: int): Reason {
    FirstReason(DurationExceeded(check, now) == Exceed(true),
                Exceeded(check.records, Failure, check.spec.failureThreshold),
                check.spec.mode.Synchronous? && Exceeded(check.records, Success, check.spec.successThreshold))
  }

  /** The clock is read for the duration, for each condition set, and for the completion time, in this order. */
  datatype Clock = Clock(now: int, duration: int, failure: int, success: int, completed: int, stamp: int)

  predicate Ticks(clock: Clock) {
    clock.now <= clock.duration <= clock.failure <= clock.success <= clock.completed <= clock.stamp
  }

  /** The conditions of a check: each type by its own test, completion with its reason. */
  function Expected(check: StatusCheck, clock: Clock, t: ConditionType): Condition {
    var prior := Latest(check.conditions, t);
    match t
    case Completed => Probed(t, prior, Finished(check, clock.now), ReasonFor(check, clock.now), clock.completed)
    case DurationExceed =>
      Probed(t, prior, DurationExceeded(check, clock.now) == Exceed(true), NoReason, clock.duration)
    case FailureThresholdExceed =>
      Probed(t, prior, Exceeded(check.records, Failure, check.spec.failureThreshold), NoReason, clock.failure)
    case SuccessThresholdExceed =>
      Probed(t, prior, Exceeded(check.records, Success, check.spec.successThreshold), NoReason, clock.success)
  }

  method GenerateConditions(check: StatusCheck, clock: Clock) returns (conditions: ConditionMap, ok: bool)
    ensures fresh(conditions)
    ensures ok <==> !DurationExceeded(check, clock.now).BadDuration?
    ensures ok ==> forall t :: Lookup(conditions.conds, t) == Some(Expected(check, clock, t))
  {
    hide Exceeded, Latest, Probed, Expected, FirstReason;
    conditions := new ConditionMap(check.conditions);
    ghost var first := conditions.conds;
    FirstIsTyped(first, check.conditions);
    var exceed := DurationExceeded(check, clock.now);
    if exceed.BadDuration? { return conditions, false; }
    conditions.SetCondition(DurationExceed, exceed.yes, NoReason, clock.duration);
    var failed := IsThresholdExceed(check.records, Failure, check.spec.failureThreshold);
    conditions.SetCondition(FailureThresholdExceed, failed, NoReason, clock.failure);
    var succeeded := IsThresholdExceed(check.records, Success, check.spec.successThreshold);
    conditions.SetCondition(SuccessThresholdExceed, succeeded, NoReason, clock.success);
    ghost var three := conditions.conds;
    ThreeSet(first, three, check, clock);
    conditions.SetCompleted(check.spec.mode, clock.completed);
    AllSet(first, three, conditions.conds, check, clock);
    ok := true;
  }

  lemma FirstIsTyped(first: map<ConditionType, Condition>, list: seq<Condition>)
    requires forall t :: Lookup(first, t) == Latest(list, t)
    ensures forall t :: t in first ==> first[t].typ == t
  {
    hide Latest;
    forall t ensures t in first ==> first[t].typ == t {
      LatestHasItsType(list, t);
      assert Lookup(first, t) == Latest(list, t);
    }
  }

  /** The three measured conditions, over whatever the check had before. */
  ghost function Measured(first: map<ConditionType, Condition>, check: StatusCheck, clock: Clock)
    : map<ConditionType, Condition>
  {
    first[DurationExceed := Probed(DurationExceed, Lookup(first, DurationExceed),
                                   DurationExceeded(check, clock.now) == Exceed(true), NoReason, clock.duration)]
         [FailureThresholdExceed := Probed(FailureThresholdExceed, Lookup(first, FailureThresholdExceed),
                                           Exceeded(check.records, Failure, check.spec.failureThreshold),
                                           NoReason, clock.failure)]
         [SuccessThresholdExceed := Probed(SuccessThresholdExceed, Lookup(first, SuccessThresholdExceed),
                                           Exceeded(check.records, Success, check.spec.successThreshold),
                                           NoReason, clock.success)]
  }

  lemma ThreeSet(first: map<ConditionType, Condition>, three: map<ConditionType, Condition>, check: StatusCheck,
                 clock: Clock)
    requires three == Measured(first, check, clock)
    ensures Lookup(three, Completed) == Lookup(first, Completed)
    ensures forall t :: t != Completed ==> t in three
    ensures three[DurationExceed].status == (DurationExceeded(check, clock.now) == Exceed(true))
    ensures three[FailureThresholdExceed].status == Exceeded(check.records, Failure, check.spec.failureThreshold)
    ensures three[SuccessThresholdExceed].status == Exceeded(check.records, Success, check.spec.successThreshold)
  {
    hide Exceeded;
  }

  lemma AllSet(first: map<ConditionType, Condition>, three: map<ConditionType, Condition>,
               conds: map<ConditionType, Condition>, check: StatusCheck, clock: Clock)
    requires forall t :: Lookup(first, t) == Latest(check.conditions, t)
    requires three == Measured(first, check, clock)
    requires var reason := ReasonFor(check, clock.now);
             conds == three[Completed := Probed(Completed, Lookup(first, Completed), reason != NoReason, reason,
                                            clock.completed)]
    ensures forall t :: Lookup(conds, t) == Some(Expected(check, clock, t))
  {
    hide Exceeded, Latest, Probed;
    forall t ensures Lookup(conds, t) == Some(Expected(check, clock, t)) {
      assert Lookup(first, t) == Latest(check.conditions, t);
    }
  }

  /** A check with the manager's count and records, started if it was not. */
  function Refreshed(check: StatusCheck, result: Result, startTime: int): StatusCheck {
    check.(startTime := if check.startTime.None? then Some(startTime) else check.startTime,
           count := result.count, records := result.records)
  }

  /** When a check is over, in terms of its own fields: its duration has passed since its start, or its last records
      reach a threshold of its mode. */
  predicate Over(check: StatusCheck, now: int) {
    || (check.startTime.Some? && check.duration.Lasting? && check.startTime.value + check.duration.d < now)
    || LastAre(check.records, Failure, check.spec.failureThreshold)
    || (check.spec.mode == Synchronous && LastAre(check.records, Success, check.spec.successThreshold))
  }

  lemma OverIsFinished(check: StatusCheck, now: int)
    ensures Over(check, now) <==> Finished(check, now)
  {
    ExceededMeans(check.records, Failure, check.spec.failureThreshold);
    ExceededMeans(check.records, Success, check.spec.successThreshold);
    hide Exceeded, LastAre;
  }

  /** What one status update may leave in place of the check it read. The order of the conditions is free. */
  predicate Updated(read: StatusCheck, after: StatusCheck, result: Result, startTime: int, clock: Clock) {
    var check := Refreshed(read, result, startTime);
    && |after.conditions| == 4
    && (forall t :: Latest(after.conditions, t) == Some(Expected(check, clock, t)))
    && (IsCompleted(after.conditions) <==> Over(check, clock.now))
    && after == check.(conditions := after.conditions,
                       completionTime :=
                         if Over(check, clock.now) && check.completionTime.None? then Some(clock.stamp)
                         else check.completionTime)
  }

  /** A condition after a status update, in terms of the one before: the probe is recorded, and the transition too
      exactly when the condition is new or its status has flipped. */
  predicate Follows(before: Option<Condition>, after: Option<Condition>, status: bool, reason: Reason, time: int) {
    && after.Some? && after.value.status == status && after.value.reason == reason && after.value.lastProbe == time
    && (before.None? || before.value.status != status ==> after.value.lastTransition == time)
    && (before.Some? && before.value.status == status ==> after.value.lastTransition == before.value.lastTransition)
  }

  /** What a status update writes, in terms of the check read, the manager's result and the clock. */
  lemma WhatIsWritten(read: StatusCheck, after: StatusCheck, result: Result, startTime: int, clock: Clock)
    requires Updated(read, after, result, startTime, clock)
    ensures var start := if read.startTime.Some? then read.startTime.value else startTime;
            var late := read.duration.Lasting? && start + read.duration.d < clock.now;
            var failed := LastAre(result.records, Failure, read.spec.failureThreshold);
            var succeeded := LastAre(result.records, Success, read.spec.successThreshold);
            var reason := if late then ByDuration else if failed then ByFailureThreshold
                          else if read.spec.mode == Synchronous && succeeded then BySuccessThreshold else NoReason;
            && Follows(Latest(read.conditions, DurationExceed), Latest(after.conditions, DurationExceed),
                       late, NoReason, clock.duration)
            && Follows(Latest(read.conditions, FailureThresholdExceed),
                       Latest(after.conditions, FailureThresholdExceed), failed, NoReason, clock.failure)
            && Follows(Latest(read.conditions, SuccessThresholdExceed),
                       Latest(after.conditions, SuccessThresholdExceed), succeeded, NoReason, clock.success)
            && Follows(Latest(read.conditions, Completed), Latest(after.conditions, Completed),
                       reason != NoReason, reason, clock.completed)
            && (IsCompleted(after.conditions) <==> reason != NoReason)
            && after.startTime == Some(start) && after.count == result.count && after.records == result.records
            && after.spec == read.spec && after.duration == read.duration
            && (if reason != NoReason && read.completionTime.None? then after.completionTime == Some(clock.stamp)
                else after.completionTime == read.completionTime)
  {
    var check := Refreshed(read, result, startTime);
    ExceededMeans(result.records, Failure, read.spec.failureThreshold);
    ExceededMeans(result.records, Success, read.spec.successThreshold);
    OverIsFinished(check, clock.now);
    hide Exceeded, LastAre, Latest, IsCompleted;
    assert Latest(after.conditions, Completed) == Some(Expected(check, clock, Completed));
    assert Latest(after.conditions, DurationExceed) == Some(Expected(check, clock, DurationExceed));
    assert Latest(after.conditions, FailureThresholdExceed) == Some(Expected(check, clock, FailureThresholdExceed));
    assert Latest(after.conditions, SuccessThresholdExceed) == Some(Expected(check, clock, SuccessThresholdExceed));
  }

  // ---------- the reconciler ----------

  /** How a status write ends, and one attempt of the status update: the check is read again before it is written. */
  datatype Write = Stored | Conflict | Refused | Vanished

  datatype Attempt = NotThere | Unreadable | Reads(check: StatusCheck, clock: Clock, write: Write)

  /** The end of an attempt. Only a conflict is tried again. */
  datatype Ending = Done | Retry | Error | NotFound

  function EndingOf(attempt: Attempt): Ending {
    match attempt
    case NotThere => NotFound
    case Unreadable => Error
    case Reads(check, _, write) =>
      if check.duration.Malformed? then Error
      else match write
           case Stored => Done
           case Conflict => Retry
           case Refused => Error
           case Vanished => NotFound
  }

  /** The attempt got as far as finding the check finished. */
  predicate FindsFinished(attempt: Attempt, result: Result, startTime: int) {
    && attempt.Reads? && !attempt.check.duration.Malformed?
    && Over(Refreshed(attempt.check, result, startTime), attempt.clock.now)
  }

  /** One attempt at the status. The worker is dropped as soon as the check is found finished, before anything is
      written and whether or not the write succeeds. */
  method UpdateStatus(m: Manager, key: Key, attempt: Attempt, result: Result, startTime: int)
    returns (after: Option<StatusCheck>, ending: Ending)
    modifies m`workers, m`stopped
    ensures old(m.stopped) <= m.stopped
    ensures forall k :: k in old(m.workers) && k !in m.workers ==> old(m.workers)[k] in m.stopped
    ensures ending == EndingOf(attempt)
    ensures after.Some? <==> ending.Done?
    ensures ending.Done? ==> Updated(attempt.check, after.value, result, startTime, attempt.clock)
    ensures m.workers == if FindsFinished(attempt, result, startTime) then old(m.workers) - {key}
      else old(m.workers)
  {
    hide Finished, Over, IsCompleted, Latest, ReasonFor;
    if attempt.NotThere? { return None, NotFound; }
    if attempt.Unreadable? { return None, Error; }
    var check := Refreshed(attempt.check, result, startTime);
    var clock := attempt.clock;
    OverIsFinished(check, clock.now);
    var conditions, ok := GenerateConditions(check, clock);
    if !ok { return None, Error; }
    assert Lookup(conditions.conds, Completed) == Some(Expected(check, clock, Completed));
    var completionTime := check.completionTime;
    if conditions.Holds(Completed) {
      if completionTime.None? { completionTime := Some(clock.stamp); }
      m.Complete(key);
    }
    AllFour(conditions.conds, check, clock);
    var list := conditions.ToList();
    match attempt.write
    case Stored => after, ending := Some(check.(conditions := list, completionTime := completionTime)), Done;
    case Conflict => after, ending := None, Retry;
    case Refused => after, ending := None, Error;
    case Vanished => after, ending := None, NotFound;
  }

  lemma AllFour(conds: map<ConditionType, Condition>, check: StatusCheck, clock: Clock)
    requires forall t :: Lookup(conds, t) == Some(Expected(check, clock, t))
    ensures |conds| == 4 && forall t :: t in conds ==> conds[t].typ == t
  {
    hide Finished, Latest, ReasonFor, Exceeded;
    forall t ensures t in conds && conds[t].typ == t {
      assert Lookup(conds, t) == Some(Expected(check, clock, t));
    }
    assert conds.Keys == {Completed, DurationExceed, FailureThresholdExceed, SuccessThresholdExceed};
  }

  /** The check as first read: found, gone, or not readable. */
  datatype Fetch = Found(check: StatusCheck) | Missing | Unavailable

  datatype Pass = Written | Skipped | Failed | Gone

  /** The first attempt that is not tried again, or their number when all of them met a conflict. */
  function Deciding(attempts: seq<Attempt>): (n: nat)
    ensures n <= |attempts| && (forall i :: 0 <= i < n ==> EndingOf(attempts[i]).Retry?)
    ensures n < |attempts| ==> !EndingOf(attempts[n]).Retry?
  {
    if attempts == [] || !EndingOf(attempts[0]).Retry? then 0 else 1 + Deciding(attempts[1..])
  }

  function EndingOfAll(attempts: seq<Attempt>): Ending {
    var n := Deciding(attempts);
    if n == |attempts| then Error else EndingOf(attempts[n])
  }

  /** The attempts that are made. */
  function Made(attempts: seq<Attempt>): seq<Attempt> {
    var n := Deciding(attempts);
    if n == |attempts| then attempts else attempts[..n + 1]
  }

  function Dropped(key: Key, workers: map<Key, nat>, made: seq<Attempt>, result: Result, startTime: int)
    : map<Key, nat>
  {
    if exists i :: 0 <= i < |made| && FindsFinished(made[i], result, startTime) then workers - {key} else workers
  }

  /** Attempt after attempt until one does not meet a conflict. */
  method UpdateWithRetries(m: Manager, key: Key, attempts: seq<Attempt>, result: Result, startTime: int)
    returns (after: Option<StatusCheck>, ending: Ending)
    modifies m`workers, m`stopped
    ensures old(m.stopped) <= m.stopped
    ensures forall k :: k in old(m.workers) && k !in m.workers ==> old(m.workers)[k] in m.stopped
    ensures ending == EndingOfAll(attempts)
    ensures after.Some? <==> ending.Done?
    ensures ending.Done? ==>
      && Deciding(attempts) < |attempts| && attempts[Deciding(attempts)].Reads?
      && Updated(attempts[Deciding(attempts)].check, after.value, result, startTime, attempts[Deciding(attempts)].clock)
    ensures m.workers == Dropped(key, old(m.workers), Made(attempts), result, startTime)
  {
    hide Updated, EndingOf, FindsFinished, Deciding;
    for n := 0 to |attempts|
      invariant forall i :: 0 <= i < n ==> EndingOf(attempts[i]).Retry?
      invariant m.workers == Dropped(key, old(m.workers), attempts[..n], result, startTime)
      invariant old(m.stopped) <= m.stopped
      invariant forall k :: k in old(m.workers) && k !in m.workers ==> old(m.workers)[k] in m.stopped
    {
      after, ending := UpdateStatus(m, key, attempts[n], result, startTime);
      OneMoreDropped(key, old(m.workers), attempts[..n], attempts[n], result, startTime);
      assert attempts[..n] + [attempts[n]] == attempts[..n + 1];
      if !ending.Retry? {
        DecidedAt(attempts, n);
        if ending.Done? { DoneReads(attempts[n]); }
        return;
      }
    }
    NeverDecided(attempts);
    assert attempts[..|attempts|] == attempts;
    return None, Error;
  }

  lemma OneMoreDropped(key: Key, workers: map<Key, nat>, made: seq<Attempt>, attempt: Attempt, result: Result,
                       startTime: int)
    ensures Dropped(key, workers, made + [attempt], result, startTime)
         == if FindsFinished(attempt, result, startTime)
            then Dropped(key, workers, made, result, startTime) - {key}
            else Dropped(key, workers, made, result, startTime)
  {
    hide FindsFinished;
    var more := made + [attempt];
    assert more[|made|] == attempt;
    assert forall i :: 0 <= i < |made| ==> more[i] == made[i];
    assert workers - {key} - {key} == workers - {key};
  }

  /** What becomes of one pass over a check. */
  function PassOf(obj: Fetch, known: bool, executorOk: bool, attempts: seq<Attempt>): Pass {
    match obj
    case Missing => Gone
    case Unavailable => Failed
    case Found(check) =>
      if IsCompleted(check.conditions) then Skipped
      else if !known && !executorOk then Failed
      else match EndingOfAll(attempts)
           case Done => Written
           case NotFound => Gone
           case _ => Failed
  }

  /** One pass. A completed check is left alone, a deleted one forgotten. Any other gets an entry and a worker if it has
      none, loses the worker to any attempt that finds it finished, and is updated from the version that the deciding
      attempt read. A pass that writes nothing leaves the check as it was read. */
  method Reconcile(m: Manager, key: Key, obj: Fetch, executorOk: bool, attempts: seq<Attempt>, startTime: int)
    returns (after: Option<StatusCheck>, r: Pass)
    modifies m, m.results
    ensures old(m.stopped) <= m.stopped
    ensures forall k :: k in old(m.workers) && k !in m.workers ==> old(m.workers)[k] in m.stopped
    ensures r == PassOf(obj, key in old(m.results.results), executorOk, attempts)
    ensures after == None <==> r == Gone || obj.Unavailable?
    ensures r in {Skipped, Failed} && obj.Found? ==> after == Some(obj.check)
    ensures r == Written ==>
      && key in m.results.results && Deciding(attempts) < |attempts| && attempts[Deciding(attempts)].Reads?
      && Updated(attempts[Deciding(attempts)].check, after.value, m.results.results[key], startTime,
                 attempts[Deciding(attempts)].clock)
    ensures obj.Missing? ==> m.results.results == old(m.results.results) - {key} && m.workers == old(m.workers) - {key}
    ensures obj.Unavailable? || r == Skipped ==>
      m.workers == old(m.workers) && m.results.results == old(m.results.results)
    ensures obj.Found? && r != Skipped ==>
      m.results.results ==
        if key in old(m.results.results) then old(m.results.results)
        else old(m.results.results)[key := Initial(obj.check.records, obj.check.count, obj.check.spec.limit)]
    ensures obj.Found? && r != Skipped && (key in old(m.results.results) || executorOk) ==>
      var started := if key in old(m.results.results) || key in old(m.workers) then old(m.workers)
                     else old(m.workers)[key := old(m.made)];
      m.workers == Dropped(key, started, Made(attempts), m.results.results[key], startTime)
    ensures obj.Found? && r != Skipped && key !in old(m.results.results) && !executorOk ==> m.workers == old(m.workers)
  {
    if obj.Missing? {
      m.Delete(key);
      return None, Gone;
    }
    if obj.Unavailable? { return None, Failed; }
    var check := obj.check;
    if exists i :: 0 <= i < |check.conditions| && check.conditions[i].typ == Completed && check.conditions[i].status {
      return Some(check), Skipped;
    }
    hide IsCompleted, Initial, Updated, EndingOfAll, FindsFinished, Deciding, Made;
    var entry := m.results.Get(key);
    if entry.None? {
      var added := m.Add(key, check.records, check.count, check.spec.limit, false, executorOk);
      if !added { return Some(check), Failed; }
      entry := m.results.Get(key);
    }
    var updated, ending := UpdateWithRetries(m, key, attempts, entry.value, startTime);
    match ending
    case Done => after, r := updated, Written;
    case NotFound => after, r := None, Gone;
    case _ => after, r := Some(check), Failed;
  }

  lemma {:induction false} DecidedAt(attempts: seq<Attempt>, n: nat)
    requires n < |attempts| && !EndingOf(attempts[n]).Retry? && forall i :: 0 <= i < n ==> EndingOf(attempts[i]).Retry?
    ensures Deciding(attempts) == n
  {
    if n > 0 { DecidedAt(attempts[1..], n - 1); }
  }

  lemma {:induction false} NeverDecided(attempts: seq<Attempt>)
    requires forall i :: 0 <= i < |attempts| ==> EndingOf(attempts[i]).Retry?
    ensures Deciding(attempts) == |attempts|
  {
    if attempts != [] { NeverDecided(attempts[1..]); }
  }

  lemma DoneReads(attempt: Attempt)
    requires EndingOf(attempt).Done?
    ensures attempt.Reads?
  {
  }

  // ---------- runs ----------

  /** What one pass gets from the manager and the clock, and whether it writes. */
  datatype Turn = Turn(result: Result, startTime: int, clock: Clock, written: bool)

  /** One pass with up-to-date reads. A pass that fails leaves the check alone. */
  predicate Step(before: StatusCheck, after: StatusCheck, turn: Turn) {
    if IsCompleted(before.conditions) || !turn.written then after == before
    else Updated(before, after, turn.result, turn.startTime, turn.clock)
  }

  /** A pass of the reconciler whose reads are up to date is a step, and writes exactly when the check is not completed,
      has an entry or can be given an executor, has a readable duration and the write succeeds. */
  method PassIsStep(m: Manager, key: Key, check: StatusCheck, executorOk: bool, write: Write, startTime: int,
                    clock: Clock)
    returns (after: StatusCheck, ghost turn: Turn)
    requires !write.Vanished?
    modifies m, m.results
    ensures Step(check, after, turn)
    ensures turn.written <==>
      && !IsCompleted(check.conditions) && (key in old(m.results.results) || executorOk)
      && !check.duration.Malformed? && write.Stored?
    ensures turn.written ==> key in m.results.results && turn.result == m.results.results[key]
    ensures turn.startTime == startTime && turn.clock == clock
    ensures key in old(m.results.results) ==> m.results.results == old(m.results.results)
    ensures turn.written && IsCompleted(after.conditions) ==> key !in m.workers
  {
    hide IsCompleted, Over, Latest, Expected, Refreshed, Initial;
    var attempts := [Reads(check, clock, write)];
    OnlyAttempt(attempts);
    var stored, r := Reconcile(m, key, Found(check), executorOk, attempts, startTime);
    after := stored.value;
    turn := Turn(if r.Written? then m.results.results[key] else Result([], 0, 0), startTime, clock, r.Written?);
  }

  lemma OnlyAttempt(attempts: seq<Attempt>)
    requires |attempts| == 1
    ensures EndingOfAll(attempts) == if EndingOf(attempts[0]).Retry? then Error else EndingOf(attempts[0])
    ensures Deciding(attempts) < |attempts| ==> Deciding(attempts) == 0
    ensures Made(attempts) == attempts
  {
    assert attempts[1..] == [];
  }

  predicate IsRun(states: seq<StatusCheck>, turns: seq<Turn>) {
    && |states| == |turns| + 1
    && forall i :: 0 <= i < |turns| ==> Step(states[i], states[i + 1], turns[i]) && Ticks(turns[i].clock)
  }

  /** Nothing changes a completed check. */
  lemma {:induction false} CompletionIsPermanent(states: seq<StatusCheck>, turns: seq<Turn>, i: nat, j: nat)
    requires IsRun(states, turns) && i <= j < |states| && IsCompleted(states[i].conditions)
    ensures states[j] == states[i]
    decreases j - i
  {
    if i < j {
      assert Step(states[i], states[i + 1], turns[i]);
      CompletionIsPermanent(states, turns, i + 1, j);
    }
  }

  /** A worker that stopped by itself is noticed by the next pass that writes, whatever records the check began with,
      and the check then stays as it is. */
  lemma StoppedWorkerIsNoticed(states: seq<StatusCheck>, turns: seq<Turn>, i: nat, j: nat, earlier: seq<Record>,
                               done: seq<Record>)
    requires IsRun(states, turns) && i < j < |states| && turns[i].written
    requires SaneLimits(states[i].spec) && ShouldStop(states[i].spec, done)
    requires turns[i].result.records == Window(states[i].spec, earlier, done)
    ensures IsCompleted(states[j].conditions) && states[j] == states[i + 1]
  {
    hide IsCompleted, Latest, Expected, Window, ShouldStop, ScanFires;
    assert Step(states[i], states[i + 1], turns[i]);
    StopMeansScanFires(states[i].spec, earlier, done);
    OverIsFinished(Refreshed(states[i], turns[i].result, turns[i].startTime), turns[i].clock.now);
    CompletionIsPermanent(states, turns, i + 1, j);
  }

  /** A worker's whole life followed by a pass: if the worker stopped by itself, the pass completes the check; and in
      either case the records written are the window of all that was executed. */
  method WorkThenReconcile(m: Manager, w: Worker, check: StatusCheck, ticks: seq<Option<bool>>, startTime: int,
                           clock: Clock)
    returns (stoppedItself: bool, after: StatusCheck)
    requires w.Valid() && w.done == [] && w.spec == check.spec && SaneLimits(check.spec)
    requires w.key in m.results.results
    requires m.results.results[w.key] == Initial(check.records, check.count, check.spec.limit)
    requires !IsCompleted(check.conditions) && !check.duration.Malformed?
    modifies w, m, m.results
    ensures stoppedItself ==> IsCompleted(after.conditions) && w.key !in m.workers
    ensures after.records == Window(check.spec, check.records, w.done)
    ensures after.count == (if check.records == [] then 0 else check.count) + |w.done|
  {
    hide ScanFires, ShouldStop, Window, Initial, IsCompleted, Latest, Expected;
    stoppedItself := StatusWorker.Run(w, m.results, check.records, check.count, ticks);
    ghost var turn;
    after, turn := PassIsStep(m, w.key, check, true, Stored, startTime, clock);
    OverIsFinished(Refreshed(check, turn.result, startTime), clock.now);
  }

  /** A check as it is created. */
  predicate New(check: StatusCheck) {
    check.startTime.None? && check.completionTime.None? && check.conditions == []
  }

  predicate Consistent(check: StatusCheck) {
    && (IsCompleted(check.conditions) <==> check.completionTime.Some?)
    && (check.completionTime.Some? ==>
          check.startTime.Some? && var c := Latest(check.conditions, Completed);
          c.Some? && c.value.status && c.value.lastTransition <= check.completionTime.value)
    && (check.completionTime.None? ==> var c := Latest(check.conditions, Completed);
          c.Some? ==> !c.value.status)
  }

  /** Along every run of a new check, failing passes included: the completion time is there exactly when the check is
      completed, and its condition flipped no later than that. */
  lemma {:induction false} TimesAgree(states: seq<StatusCheck>, turns: seq<Turn>, i: nat)
    requires IsRun(states, turns) && i < |states| && New(states[0])
    ensures Consistent(states[i])
  {
    if i > 0 {
      TimesAgree(states, turns, i - 1);
      assert Step(states[i - 1], states[i], turns[i - 1]);
      StepKeepsTimes(states[i - 1], states[i], turns[i - 1]);
    }
  }

  lemma StepKeepsTimes(before: StatusCheck, after: StatusCheck, turn: Turn)
    requires Consistent(before) && Step(before, after, turn) && Ticks(turn.clock)
    ensures Consistent(after)
  {
    hide IsCompleted, Latest, Finished, Over, ReasonFor;
    if !IsCompleted(before.conditions) && turn.written {
      var check := Refreshed(before, turn.result, turn.startTime);
      OverIsFinished(check, turn.clock.now);
      assert Latest(after.conditions, Completed) == Some(Expected(check, turn.clock, Completed));
    }
  }

  // ---------- stale reads ----------

  /** With a stale first read a completed check is written again: it stays completed exactly when it is finished by the
      records the manager now holds. */
  method StaleReadRewrites(m: Manager, key: Key, stale: StatusCheck, read: StatusCheck, startTime: int, clock: Clock)
    returns (after: StatusCheck)
    requires key in m.results.results && !IsCompleted(stale.conditions) && IsCompleted(read.conditions)
    requires !read.duration.Malformed?
    modifies m, m.results
    ensures IsCompleted(after.conditions) <==>
      Over(Refreshed(read, old(m.results.results)[key], startTime), clock.now)
  {
    hide IsCompleted, Finished, Latest, Initial, Expected;
    var attempts := [Reads(read, clock, Stored)];
    OnlyAttempt(attempts);
    var stored, r := Reconcile(m, key, Found(stale), true, attempts, startTime);
    after := stored.value;
  }

  /** Such a rewrite can undo a completion. A check with one earlier failure has the failure threshold 2. Its worker
      fails once, and does not stop, having seen one failure only; a pass completes the check; the worker succeeds
      once before it is dropped; a pass with a stale first read then writes the check as not completed. */
  lemma StaleReadCanUndo() returns (before: StatusCheck, read: StatusCheck, after: StatusCheck, done: seq<Record>)
    ensures var spec := before.spec;
            && SaneLimits(spec) && |done| == 2 && !ShouldStop(spec, done[..1]) && !ShouldStop(spec, done)
            && !IsCompleted(before.conditions)
            && Updated(before, read, Result(Window(spec, before.records, done[..1]), 2, spec.limit), 0, ZERO)
            && IsCompleted(read.conditions)
            && Updated(read, after, Result(Window(spec, before.records, done), 3, spec.limit), 0, ZERO)
            && !IsCompleted(after.conditions) && after.completionTime.Some?
  {
    var spec := Spec(Continuous, 1, 2, 9);
    var failure, success := Record(0, Failure), Record(0, Success);
    done := [failure, success];
    before := StatusCheck(spec, Unlimited, Some(0), None, 1, [], [failure]);
    assert done[..1] == [failure] && [failure][..0] == [] && done[..1][..0] == [];
    var first := Window(spec, [failure], done[..1]);
    assert first == [failure, failure] && [failure, failure][..1] == [failure];
    var second := Window(spec, [failure], done);
    assert second == [failure, failure, success];
    assert TrailingRun([failure], Failure) == 1 && TrailingRun(first, Failure) == 2;
    assert TrailingRun(second, Failure) == 0;
    read := FinishedWith(before, Result(first, 2, 9));
    after := FinishedWith(read, Result(second, 3, 9));
  }

  const ZERO := Clock(0, 0, 0, 0, 0, 0)

  /** Some status update of a check, at time 0. */
  lemma FinishedWith(before: StatusCheck, result: Result) returns (after: StatusCheck)
    requires !before.duration.Malformed?
    ensures Updated(before, after, result, 0, ZERO)
  {
    hide Finished, Over, Exceeded, ReasonFor;
    var check := Refreshed(before, result, 0);
    OverIsFinished(check, 0);
    var list := [Expected(check, ZERO, DurationExceed), Expected(check, ZERO, FailureThresholdExceed),
                 Expected(check, ZERO, SuccessThresholdExceed), Expected(check, ZERO, Completed)];
    FourInAList(list);
    hide Latest, IsCompleted;
    after := check.(conditions := list,
                    completionTime :=
                      if Finished(check, 0) && check.completionTime.None? then Some(0) else check.completionTime);
  }

  lemma FourInAList(list: seq<Condition>)
    requires |list| == 4 && list[0].typ == DurationExceed && list[1].typ == FailureThresholdExceed
    requires list[2].typ == SuccessThresholdExceed && list[3].typ == Completed
    ensures Latest(list, DurationExceed) == Some(list[0]) && Latest(list, FailureThresholdExceed) == Some(list[1])
    ensures Latest(list, SuccessThresholdExceed) == Some(list[2]) && Latest(list, Completed) == Some(list[3])
    ensures IsCompleted(list) <==> list[3].status
  {
    var three := list[..3];
    assert three[..2] == list[..2] && list[..2][..1] == list[..1];
    assert Latest(three, FailureThresholdExceed) == Latest(list[..2], FailureThresholdExceed) == Some(list[1]);
    assert Latest(three, DurationExceed) == Latest(list[..2], DurationExceed) == Latest(list[..1], DurationExceed)
      == Some(list[0]);
  }
}
