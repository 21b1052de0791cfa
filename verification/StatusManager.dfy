/** The manager of status checks: results and workers by key (controllers/statuscheck/manager.go). Workers are numbered
    as they are made; `stopped` holds those told to stop. */
module StatusManager {
  import opened StatusRecords

  class Manager {
    const results: ResultCache
    var workers: map<Key, nat>
    var made: nat
    var stopped: set<nat>

    constructor ()
      ensures fresh(results) && results.results == map[] && workers == map[] && made == 0 && stopped == {}
    {
      results := new ResultCache();
      workers := map[];
      made := 0;
      stopped := {};
    }

    /** Adding a check that already has an entry does nothing. Otherwise the entry is made first, even when no worker
        follows because the check is completed or its executor cannot be built. */
    method Add(key: Key, records: seq<Record>, count: int, limit: nat, completed: bool, executorOk: bool)
      returns (ok: bool)
      modifies this, results
      ensures stopped == old(stopped)
      ensures key in old(results.results) ==>
        ok && results.results == old(results.results) && workers == old(workers) && made == old(made)
      ensures key !in old(results.results) ==>
        && results.results == old(results.results)[key := Initial(records, count, limit)]
        && (ok <==> !completed && executorOk)
        && (!ok ==> workers == old(workers) && made == old(made))
        && (ok ==> made == old(made) + 1)
        && (ok ==> workers == if key in old(workers) then old(workers) else old(workers)[key := old(made)])
    {
      var entry := results.Get(key);
      if entry.Some? { return true; }
      results.Init(key, records, count, limit);
      if completed { return false; }
      if !executorOk { return false; }
      var worker := made;
      made := made + 1;
      if key !in workers {
        workers := workers[key := worker];
      }
      ok := true;
    }

    function Registered(key: Key): set<nat>
      reads this
    {
      if key in workers then {workers[key]} else {}
    }

    /** Takes the worker of a key, if there is one, out of the cache and stops it. */
    method DeleteWorker(key: Key)
      modifies this`workers, this`stopped
      ensures workers == old(workers) - {key} && stopped == old(stopped) + old(Registered(key))
    {
      if key !in workers { return; }
      var worker := workers[key];
      workers := workers - {key};
      stopped := stopped + {worker};
    }

    /** Deleting forgets the results and stops the worker. */
    method Delete(key: Key)
      modifies this, results
      ensures results.results == old(results.results) - {key} && workers == old(workers) - {key} && made == old(made)
      ensures stopped == old(stopped) + old(Registered(key))
    {
      results.Delete(key);
      DeleteWorker(key);
    }

    /** Completing stops the worker alone: the results stay readable. */
    method Complete(key: Key)
      modifies this`workers, this`stopped
      ensures workers == old(workers) - {key} && stopped == old(stopped) + old(Registered(key))
    {
      DeleteWorker(key);
    }

    /** A check whose executor could not be built is never given a worker: every later Add succeeds without doing
        anything, until the check is deleted. */
    method FailedAddIsFinal(key: Key, records: seq<Record>, count: int, limit: nat, again: seq<bool>) returns (ok: bool)
      requires key !in results.results && key !in workers
      modifies this, results
      ensures !ok && key !in workers && made == old(made)
    {
      ok := Add(key, records, count, limit, false, false);
      for n := 0 to |again|
        invariant key in results.results && key !in workers && made == old(made)
      {
        var _ := Add(key, records, count, limit, false, again[n]);
      }
    }
  }
}
