/** The worker that executes a status check and decides when to stop, against the scan of its records
    (controllers/statuscheck/worker.go). */
module StatusWorker {
  import opened Text
  import opened StatusRecords

  datatype Mode = Synchronous | Continuous

  datatype Spec = Spec(mode: Mode, successThreshold: int, failureThreshold: int, limit: nat)

  function OutcomeOf(result: bool): Outcome {
    if result then Success else Failure
  }

  /** The scan's reason to complete a check, as the reconciler computes it from the window of records. */
  predicate ScanFires(spec: Spec, window: seq<Record>) {
    || Exceeded(window, Failure, spec.failureThreshold)
    || (spec.mode.Synchronous? && Exceeded(window, Success, spec.successThreshold))
  }

  /** The worker's reason to stop, as a property of everything it has executed. */
  predicate ShouldStop(spec: Spec, done: seq<Record>) {
    done != [] &&
    var outcome := done[|done| - 1].outcome;
    var run := TrailingRun(done, outcome);
    if outcome.Success? then spec.mode.Synchronous? && run >= spec.successThreshold else run >= spec.failureThreshold
  }

  /** The counter is the length of the run of equal outcomes at the end. */
  predicate Counts(done: seq<Record>, last: bool, count: int) {
    if done == [] then !last && count == 0
    else OutcomeOf(last) == done[|done| - 1].outcome && count == TrailingRun(done, OutcomeOf(last))
  }

  lemma CounterAdvances(spec: Spec, done: seq<Record>, last: bool, count: int, ok: bool, now: int)
    requires Counts(done, last, count)
    ensures var n := if last == ok then count + 1 else 1;
            var after := done + [Record(now, OutcomeOf(ok))];
            && Counts(after, ok, n)
            && (ShouldStop(spec, after) <==>
                if ok then spec.mode.Synchronous? && n >= spec.successThreshold else n >= spec.failureThreshold)
  {
    var after := done + [Record(now, OutcomeOf(ok))];
    assert after[..|after| - 1] == done;
    RunBroken(done, OutcomeOf(ok));
  }

  /** `done` holds the records of the executions that were not thrown away. */
  class Worker {
    const spec: Spec
    const key: Key
    var lastResult: bool
    var sameResultCount: int
    ghost var done: seq<Record>

    ghost predicate Valid()
      reads this
    {
      Counts(done, lastResult, sameResultCount)
    }

    constructor (spec: Spec, key: Key)
      ensures Valid() && this.spec == spec && this.key == key && done == []
    {
      this.spec, this.key := spec, key;
      lastResult, sameResultCount, done := false, 0, [];
    }

    /** One execution. An executor error changes nothing; otherwise the record is appended to the cache and the worker
        goes on unless the run of equal outcomes has reached the threshold. */
    method Execute(cache: ResultCache, result: Option<bool>, now: int) returns (go: bool)
      requires Valid()
      modifies this, cache
      ensures Valid()
      ensures result.None? ==> go && done == old(done) && cache.results == old(cache.results)
      ensures result.Some? ==>
        && done == old(done) + [Record(now, OutcomeOf(result.value))]
        && (var entry := if key in old(cache.results) then Some(old(cache.results)[key]) else None;
            cache.results == old(cache.results)[key := Appended(entry, [Record(now, OutcomeOf(result.value))])])
        && go == !ShouldStop(spec, done)
    {
      hide Counts, ShouldStop, Appended;
      if result.None? { return true; }
      var ok := result.value;
      CounterAdvances(spec, done, lastResult, sameResultCount, ok, now);
      if lastResult == ok {
        sameResultCount := sameResultCount + 1;
      } else {
        lastResult := ok;
        sameResultCount := 1;
      }
      done := done + [Record(now, OutcomeOf(ok))];
      if ok {
        cache.Append(key, Record(now, Success));
        if spec.mode == Synchronous && sameResultCount >= spec.successThreshold { return false; }
      } else {
        cache.Append(key, Record(now, Failure));
        if sameResultCount >= spec.failureThreshold { return false; }
      }
      return true;
    }
  }

  lemma RunBroken(records: seq<Record>, outcome: Outcome)
    ensures records != [] && records[|records| - 1].outcome != outcome ==> TrailingRun(records, outcome) == 0
    ensures records == [] ==> TrailingRun(records, outcome) == 0
  {
  }

  // ---------- counter and scan ----------

  lemma {:induction false} EarlierRecordsOnlyHelp(earlier: seq<Record>, done: seq<Record>, outcome: Outcome)
    ensures TrailingRun(earlier + done, outcome) >= TrailingRun(done, outcome)
  {
    if done != [] {
      var all := earlier + done;
      assert all[..|all| - 1] == earlier + done[..|done| - 1];
      EarlierRecordsOnlyHelp(earlier, done[..|done| - 1], outcome);
    }
  }

  /** The window a cache holds after the worker's executions. */
  function Window(spec: Spec, earlier: seq<Record>, done: seq<Record>): seq<Record> {
    LimitRecords(earlier + done, spec.limit)
  }

  predicate SaneLimits(spec: Spec) {
    spec.successThreshold >= 1 && spec.failureThreshold >= 1
    && spec.limit >= spec.failureThreshold && (spec.mode.Synchronous? ==> spec.limit >= spec.successThreshold)
  }

  /** Stopping is never premature: whatever records the check started from, when the worker stops the scan fires. */
  lemma StopMeansScanFires(spec: Spec, earlier: seq<Record>, done: seq<Record>)
    requires SaneLimits(spec) && ShouldStop(spec, done)
    ensures ScanFires(spec, Window(spec, earlier, done))
  {
    var outcome := done[|done| - 1].outcome;
    EarlierRecordsOnlyHelp(earlier, done, outcome);
    RunInWindow(earlier + done, outcome, spec.limit);
    hide LimitRecords;
  }

  /** The incremental counter refines the scan: from empty records the worker stops exactly when the scan fires. */
  lemma CounterRefinesScan(spec: Spec, done: seq<Record>)
    requires SaneLimits(spec) && done != []
    ensures ShouldStop(spec, done) <==> ScanFires(spec, Window(spec, [], done))
  {
    assert [] + done == done;
    RunInWindow(done, Success, spec.limit);
    RunInWindow(done, Failure, spec.limit);
    hide LimitRecords;
  }

  function Repeated(outcome: Outcome, n: nat): seq<Record> {
    seq(n, _ => Record(0, outcome))
  }

  lemma {:induction false} RepeatedRuns(outcome: Outcome, n: nat)
    ensures TrailingRun(Repeated(outcome, n), outcome) == n
  {
    if n > 0 {
      assert Repeated(outcome, n)[..n - 1] == Repeated(outcome, n - 1);
      RepeatedRuns(outcome, n - 1);
    }
  }

  /** Counter and scan agree on every history exactly when the window is as long as every threshold the mode uses;
      with a shorter window the worker stops and no scan ever notices. */
  lemma AgreementIff(spec: Spec)
    requires spec.successThreshold >= 1 && spec.failureThreshold >= 1
    ensures (forall done: seq<Record> :: ShouldStop(spec, done) ==> ScanFires(spec, Window(spec, [], done))) <==>
      SaneLimits(spec)
  {
    if SaneLimits(spec) {
      forall done: seq<Record> | ShouldStop(spec, done) ensures ScanFires(spec, Window(spec, [], done)) {
        StopMeansScanFires(spec, [], done);
      }
    } else {
      var outcome := if spec.limit < spec.failureThreshold then Failure else Success;
      var threshold := if outcome.Failure? then spec.failureThreshold else spec.successThreshold;
      var done := Repeated(outcome, threshold);
      RepeatedRuns(outcome, threshold);
      assert ShouldStop(spec, done);
      CutShort(spec, done, outcome, threshold);
      assert !ScanFires(spec, Window(spec, [], done));
    }
  }

  lemma CutShort(spec: Spec, done: seq<Record>, outcome: Outcome, threshold: nat)
    requires spec.successThreshold >= 1 && spec.failureThreshold >= 1
    requires done == Repeated(outcome, threshold) && spec.limit < threshold
    requires threshold == if outcome.Failure? then spec.failureThreshold else spec.successThreshold
    requires TrailingRun(done, outcome) == threshold
    ensures !ScanFires(spec, Window(spec, [], done))
  {
    assert [] + done == done;
    RunInWindow(done, Success, spec.limit);
    RunInWindow(done, Failure, spec.limit);
    hide LimitRecords;
  }

  // ---------- a whole run ----------

  /** The worker's loop over its ticks, ended early by a threshold or by the ticks running out (the stop signal). It
      starts from an entry made for this check. Ended by a threshold, the scan of the cache fires; from empty
      records, it fires at no other time. */
  method Run(w: Worker, cache: ResultCache, earlier: seq<Record>, count: int, ticks: seq<Option<bool>>)
    returns (stoppedItself: bool)
    requires w.Valid() && w.done == []
    requires w.key in cache.results && cache.results[w.key] == Initial(earlier, count, w.spec.limit)
    modifies w, cache
    ensures w.Valid() && w.key in cache.results
    ensures cache.results[w.key]
      == Result(Window(w.spec, earlier, w.done), (if earlier == [] then 0 else count) + |w.done|, w.spec.limit)
    ensures stoppedItself ==> ShouldStop(w.spec, w.done)
    ensures SaneLimits(w.spec) && stoppedItself ==> ScanFires(w.spec, cache.results[w.key].records)
    ensures SaneLimits(w.spec) && earlier == [] && w.done != [] ==>
      (stoppedItself <==> ScanFires(w.spec, cache.results[w.key].records))
  {
    hide ScanFires, ShouldStop, Window, Initial, Appended, LimitRecords;
    ghost var first := cache.results[w.key];
    stoppedItself := false;
    NothingAppended(first);
    for n := 0 to |ticks|
      invariant w.Valid() && w.key in cache.results && cache.results[w.key] == Appended(Some(first), w.done)
      invariant w.done != [] ==> !ShouldStop(w.spec, w.done)
    {
      ghost var before := w.done;
      var go := w.Execute(cache, ticks[n], n);
      if ticks[n].Some? { AppendsCompose(Some(first), before, [Record(n, OutcomeOf(ticks[n].value))]); }
      if !go {
        stoppedItself := true;
        break;
      }
    }
    CacheHoldsWindow(w.spec, earlier, count, w.done);
    if SaneLimits(w.spec) && w.done != [] {
      if stoppedItself { StopMeansScanFires(w.spec, earlier, w.done); }
      if earlier == [] { CounterRefinesScan(w.spec, w.done); }
    }
    if stoppedItself { StoppedDidSomething(w.spec, w.done); }
  }

  lemma StoppedDidSomething(spec: Spec, done: seq<Record>)
    requires ShouldStop(spec, done)
    ensures done != []
  {
  }

  lemma NothingAppended(r: Result)
    ensures Appended(Some(r), []) == r
  {
  }

  lemma CacheHoldsWindow(spec: Spec, earlier: seq<Record>, count: int, done: seq<Record>)
    ensures Appended(Some(Initial(earlier, count, spec.limit)), done)
         == Result(Window(spec, earlier, done), (if earlier == [] then 0 else count) + |done|, spec.limit)
  {
    WindowIsExact(earlier, count, spec.limit, done);
  }
}
