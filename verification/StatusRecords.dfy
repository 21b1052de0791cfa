/** Execution records of a status check: the bounded window the manager keeps and the scan the reconciler makes of it
    (controllers/statuscheck/manager.go, controllers/statuscheck/conditions.go). */
module StatusRecords {
  import opened Text

  datatype Outcome = Success | Failure

  datatype Record = Record(startTime: int, outcome: Outcome)

  // ---------- the scan ----------

  /** How many of the last records have this outcome in a row. */
  function TrailingRun(records: seq<Record>, outcome: Outcome): nat {
    if records == [] || records[|records| - 1].outcome != outcome then 0
    else 1 + TrailingRun(records[..|records| - 1], outcome)
  }

  /** A threshold is exceeded when the run of the outcome at the end is not empty and long enough. */
  predicate Exceeded(records: seq<Record>, outcome: Outcome, threshold: int) {
    TrailingRun(records, outcome) >= 1 && TrailingRun(records, outcome) >= threshold
  }

  lemma {:induction false} TrailingRunIs(records: seq<Record>, outcome: Outcome)
    ensures TrailingRun(records, outcome) <= |records|
    ensures forall i :: |records| - TrailingRun(records, outcome) <= i < |records| ==> records[i].outcome == outcome
    ensures TrailingRun(records, outcome) < |records| ==>
      records[|records| - TrailingRun(records, outcome) - 1].outcome != outcome
  {
    if records != [] && records[|records| - 1].outcome == outcome {
      TrailingRunIs(records[..|records| - 1], outcome);
    }
  }

  /** The last records, as many as the threshold asks for and at least one, all have the outcome. */
  predicate LastAre(records: seq<Record>, outcome: Outcome, threshold: int) {
    var n := if threshold < 1 then 1 else threshold;
    |records| >= n && forall i :: |records| - n <= i < |records| ==> records[i].outcome == outcome
  }

  lemma ExceededMeans(records: seq<Record>, outcome: Outcome, threshold: int)
    ensures Exceeded(records, outcome, threshold) <==> LastAre(records, outcome, threshold)
  {
    TrailingRunIs(records, outcome);
    if LastAre(records, outcome, threshold) {
      RunReaches(records, outcome, |records| - if threshold < 1 then 1 else threshold);
    }
  }

  method IsThresholdExceed(records: seq<Record>, outcome: Outcome, threshold: int) returns (r: bool)
    ensures r == Exceeded(records, outcome, threshold) == LastAre(records, outcome, threshold)
  {
    ExceededMeans(records, outcome, threshold);
    hide LastAre;
    TrailingRunIs(records, outcome);
    var count := 0;
    var n := |records|;
    while n > 0
      invariant 0 <= n <= |records| && count == |records| - n
      invariant forall i :: n <= i < |records| ==> records[i].outcome == outcome
      invariant count > 0 ==> count < threshold
      invariant TrailingRun(records, outcome) >= count
    {
      n := n - 1;
      if records[n].outcome != outcome { return false; }
      RunReaches(records, outcome, n);
      count := count + 1;
      if count >= threshold { return true; }
    }
    return false;
  }

  lemma RunReaches(records: seq<Record>, outcome: Outcome, n: nat)
    requires n < |records| && forall i :: n <= i < |records| ==> records[i].outcome == outcome
    ensures TrailingRun(records, outcome) >= |records| - n
  {
    TrailingRunIs(records, outcome);
  }

  // ---------- the window ----------

  function LimitRecords(records: seq<Record>, limit: nat): seq<Record> {
    if |records| < limit then records else records[|records| - limit..]
  }

  /** A window is the end of the list, as long as the limit allows. */
  lemma WindowIsSuffix(records: seq<Record>, limit: nat)
    ensures var window := LimitRecords(records, limit);
            |window| == (if |records| < limit then |records| else limit) && window == records[|records| - |window|..]
  {
  }

  /** Trimming after every append is the same as trimming once at the end. */
  lemma LimitOnceOrTwice(records: seq<Record>, more: seq<Record>, limit: nat)
    ensures LimitRecords(LimitRecords(records, limit) + more, limit) == LimitRecords(records + more, limit)
  {
    WindowIsSuffix(records, limit);
    var window := LimitRecords(records, limit);
    var a, b := window + more, records + more;
    WindowIsSuffix(a, limit);
    WindowIsSuffix(b, limit);
    hide LimitRecords;
    assert a == b[|b| - |a|..];
    var n := |LimitRecords(a, limit)|;
    assert a[|a| - n..] == b[|b| - n..];
  }

  /** The run at the end of a window is the run at the end of the whole list, cut to the window. */
  lemma {:induction false} RunInWindow(records: seq<Record>, outcome: Outcome, limit: nat)
    ensures TrailingRun(LimitRecords(records, limit), outcome)
         == if TrailingRun(records, outcome) <= limit then TrailingRun(records, outcome) else limit
  {
    if limit > 0 && records != [] {
      var n := |records| - 1;
      var window, shorter := LimitRecords(records, limit), LimitRecords(records[..n], limit - 1);
      assert window == shorter + [records[n]];
      assert window[..|window| - 1] == shorter;
      RunInWindow(records[..n], outcome, limit - 1);
    }
  }

  // ---------- the cache ----------

  type Key = string

  datatype Result = Result(records: seq<Record>, count: int, limit: nat)

  function Initial(records: seq<Record>, count: int, limit: nat): Result {
    Result(LimitRecords(records, limit), if records == [] then 0 else count, limit)
  }

  /** The entry after a number of appends: a missing entry starts out with limit 0. */
  function Appended(entry: Option<Result>, more: seq<Record>): Result {
    var r := if entry.Some? then entry.value else Result([], 0, 0);
    if more == [] then r else
      var before := Appended(entry, more[..|more| - 1]);
      Result(LimitRecords(before.records + [more[|more| - 1]], before.limit), before.count + 1, before.limit)
  }

  class ResultCache {
    var results: map<Key, Result>

    constructor ()
      ensures results == map[]
    {
      results := map[];
    }

    /** An existing entry is left alone. */
    method Init(key: Key, records: seq<Record>, count: int, limit: nat)
      modifies this
      ensures results == if key in old(results) then old(results)
        else old(results)[key := Initial(records, count, limit)]
    {
      hide LimitRecords;
      if key in results { return; }
      var n := if |records| == 0 then 0 else count;
      results := results[key := Result(LimitRecords(records, limit), n, limit)];
    }

    method Append(key: Key, record: Record)
      modifies this
      ensures results
        == old(results)[key := Appended(if key in old(results) then Some(old(results)[key]) else None, [record])]
    {
      var result := if key in results then results[key] else Result([], 0, 0);
      result := result.(records := LimitRecords(result.records + [record], result.limit), count := result.count + 1);
      results := results[key := result];
    }

    method Delete(key: Key)
      modifies this
      ensures results == old(results) - {key}
    {
      results := results - {key};
    }

    method Get(key: Key) returns (r: Option<Result>)
      ensures r == if key in results then Some(results[key]) else None
    {
      r := if key in results then Some(results[key]) else None;
    }
  }

  /** Window correctness: after any number of appends the records are exactly the last ones, up to the limit, of the
      initial records followed by all appended ones, and the count has grown by the number of appends. */
  lemma {:induction false} WindowIsExact(records: seq<Record>, count: int, limit: nat, more: seq<Record>)
    ensures Appended(Some(Initial(records, count, limit)), more)
         == Result(LimitRecords(records + more, limit), (if records == [] then 0 else count) + |more|, limit)
  {
    if more == [] {
      assert records + [] == records;
    } else {
      var n := |more| - 1;
      hide LimitRecords;
      WindowIsExact(records, count, limit, more[..n]);
      LimitOnceOrTwice(records + more[..n], [more[n]], limit);
      assert records + more[..n] + [more[n]] == records + more;
    }
  }

  /** Append by append or all at once is the same. */
  lemma {:induction false} AppendsCompose(entry: Option<Result>, a: seq<Record>, b: seq<Record>)
    ensures Appended(entry, a + b) == Appended(Some(Appended(entry, a)), b)
  {
    if b == [] {
      assert a + b == a;
    } else {
      assert (a + b)[..|a + b| - 1] == a + b[..|b| - 1];
      AppendsCompose(entry, a, b[..|b| - 1]);
    }
  }

  /** An append to a deleted key brings the key back with an entry that never holds a record. */
  lemma {:induction false} LateAppendHoldsNothing(more: seq<Record>)
    ensures Appended(None, more) == Result([], |more|, 0)
  {
    if more != [] { LateAppendHoldsNothing(more[..|more| - 1]); }
  }
}
