/** The worker cache of the status check manager as a transition system (controllers/statuscheck/manager.go,
    controllers/statuscheck/worker.go): any number of Add, Delete and Complete calls and running workers, interleaved
    in every way. Taking a worker out of the cache and stopping it are two steps. */
module WorkerRegistry {
  type Key = string

  type Id = nat

  /** How far one Add and its worker have come. The first line is the Add, the second the worker. */
  datatype Phase =
    | Checked | Made | Discarded
    | Stored | Running | Leaving | Left

  /** `stops` counts calls of stop, `closes` closings of the stop channel. */
  datatype Worker = Worker(key: Key, phase: Phase, stops: nat, closes: nat)

  /** `pending` holds the workers taken out of the cache and not stopped yet; `results` the keys that have an entry. */
  datatype State = State(workers: map<Id, Worker>, registered: map<Key, Id>, pending: set<Id>, results: set<Key>)

  const START := State(map[], map[], {}, {})

  datatype Event =
    | Check(w: Id, key: Key) | Init(w: Id) | Abandon(w: Id) | LoadOrStore(w: Id) | Launch(w: Id)
    | Record(w: Id) | Leave(w: Id) | Exit(w: Id)
    | Take(key: Key) | Stop(w: Id) | Forget(key: Key)

  predicate At(s: State, w: Id, phase: Phase) {
    w in s.workers && s.workers[w].phase == phase
  }

  predicate Enabled(s: State, e: Event) {
    match e
    case Check(w, key) => w !in s.workers && key !in s.results
    case Init(w) => At(s, w, Checked)
    case Abandon(w) => At(s, w, Made)
    case LoadOrStore(w) => At(s, w, Made)
    case Launch(w) => At(s, w, Stored)
    case Record(w) => At(s, w, Running)
    case Leave(w) => At(s, w, Running)
    case Exit(w) => At(s, w, Leaving)
    case Stop(w) => w in s.pending && w in s.workers
    case Take(_) => true
    case Forget(_) => true
  }

  function Moved(s: State, w: Id, phase: Phase): State
    requires w in s.workers
  {
    s.(workers := s.workers[w := s.workers[w].(phase := phase)])
  }

  /** LoadAndDelete: whoever is registered under the key is taken. */
  function Taken(s: State, key: Key): State {
    if key in s.registered then s.(registered := s.registered - {key}, pending := s.pending + {s.registered[key]})
      else s
  }

  function Next(s: State, e: Event): State
    requires Enabled(s, e)
  {
    match e
    case Check(w, key) => s.(workers := s.workers[w := Worker(key, Checked, 0, 0)])
    case Init(w) => Moved(s, w, Made).(results := s.results + {s.workers[w].key})
    case Abandon(w) => Moved(s, w, Discarded)
    case LoadOrStore(w) =>
      if s.workers[w].key in s.registered then Moved(s, w, Discarded)
      else Moved(s, w, Stored).(registered := s.registered[s.workers[w].key := w])
    case Launch(w) => Moved(s, w, Running)
    case Record(w) => s.(results := s.results + {s.workers[w].key})
    case Leave(w) => Moved(s, w, Leaving)
    case Exit(w) => Taken(Moved(s, w, Left), s.workers[w].key)
    case Take(key) => Taken(s, key)
    case Stop(w) =>
      var worker := s.workers[w];
      var closes := if worker.stops == 0 then worker.closes + 1 else worker.closes;
      s.(workers := s.workers[w := worker.(stops := worker.stops + 1, closes := closes)], pending := s.pending - {w})
    case Forget(key) => s.(results := s.results - {key})
  }

  predicate Reaches(s: State, events: seq<Event>, t: State)
    decreases |events|
  {
    if events == [] then s == t
    else Enabled(s, events[0]) && Reaches(Next(s, events[0]), events[1..], t)
  }

  // ---------- the invariant ----------

  predicate Registered(s: State, w: Id) {
    w in s.workers && s.workers[w].key in s.registered && s.registered[s.workers[w].key] == w
  }

  predicate Started(phase: Phase) {
    phase.Stored? || phase.Running? || phase.Leaving? || phase.Left?
  }

  function Bit(b: bool): nat {
    if b then 1 else 0
  }

  /** Registered, taken and about to be stopped, stopped: a worker is in exactly one of the three places from the
      moment it is stored, and in none before. */
  predicate OnePlace(s: State, w: Id)
    requires w in s.workers
  {
    var worker := s.workers[w];
    && Bit(Registered(s, w)) + Bit(w in s.pending) + worker.stops == Bit(Started(worker.phase))
    && worker.closes == worker.stops
    && (worker.phase.Left? ==> !Registered(s, w))
  }

  predicate Rooted(s: State) {
    && (forall key :: key in s.registered ==> s.registered[key] in s.workers && s.workers[s.registered[key]].key == key)
    && (forall w :: w in s.pending ==> w in s.workers)
  }

  predicate Inv(s: State) {
    Rooted(s) && forall w :: w in s.workers ==> OnePlace(s, w)
  }

  lemma StepKeepsRoots(s: State, e: Event)
    requires Inv(s) && Enabled(s, e)
    ensures Rooted(Next(s, e))
  {
  }

  lemma StepKeepsPlace(s: State, e: Event, w: Id)
    requires Inv(s) && Enabled(s, e) && w in Next(s, e).workers
    ensures OnePlace(Next(s, e), w)
  {
    if w in s.workers {
      assert OnePlace(s, w);
    }
  }

  lemma StepKeepsInv(s: State, e: Event)
    requires Inv(s) && Enabled(s, e)
    ensures Inv(Next(s, e))
  {
    StepKeepsRoots(s, e);
    forall w | w in Next(s, e).workers ensures OnePlace(Next(s, e), w) {
      StepKeepsPlace(s, e, w);
    }
  }

  lemma {:induction false} RunKeepsInv(s: State, events: seq<Event>, t: State)
    requires Inv(s) && Reaches(s, events, t)
    ensures Inv(t)
    decreases |events|
  {
    if events != [] {
      StepKeepsInv(s, events[0]);
      RunKeepsInv(Next(s, events[0]), events[1..], t);
    }
  }

  // ---------- what every interleaving keeps ----------

  /** Started and neither left its loop nor been stopped. */
  predicate Active(s: State, w: Id) {
    w in s.workers && s.workers[w].phase in {Stored, Running} && s.workers[w].stops == 0
  }

  /** In every run each stored worker is registered under its key, or taken and about to be stopped, or stopped,
      exactly one of them; and its channel has been closed as often as stop was called, at most once. */
  lemma EachWorkerInOnePlace(events: seq<Event>, s: State, w: Id)
    requires Reaches(START, events, s) && w in s.workers
    ensures Bit(Registered(s, w)) + Bit(w in s.pending) + s.workers[w].stops == Bit(Started(s.workers[w].phase))
    ensures s.workers[w].closes == s.workers[w].stops <= 1
  {
    RunKeepsInv(START, events, s);
    assert OnePlace(s, w);
  }

  /** An active worker is the registered one, unless it has been taken and its stop is on its way. */
  lemma ActiveIsRegisteredIff(events: seq<Event>, s: State, w: Id)
    requires Reaches(START, events, s) && Active(s, w)
    ensures Registered(s, w) <==> w !in s.pending
  {
    EachWorkerInOnePlace(events, s, w);
  }

  /** At most one active worker per key, but for workers about to be stopped: of any two, one is. */
  lemma OneActivePerKey(events: seq<Event>, s: State, v: Id, w: Id)
    requires Reaches(START, events, s) && Active(s, v) && Active(s, w) && s.workers[v].key == s.workers[w].key
    ensures v == w || v in s.pending || w in s.pending
  {
    EachWorkerInOnePlace(events, s, v);
    EachWorkerInOnePlace(events, s, w);
  }

  /** The exit of a worker that nobody took removes that worker and no other. The exit of one that was taken removes
      its successor, if there is one. */
  lemma ExitTakesItselfIff(events: seq<Event>, s: State, w: Id)
    requires Reaches(START, events, s) && Enabled(s, Exit(w))
    ensures var key, after := s.workers[w].key, Next(s, Exit(w));
            && key !in after.registered
            && (w in after.pending - s.pending <==> w !in s.pending && s.workers[w].stops == 0)
            && (forall v :: v in after.pending - s.pending && v != w ==> Registered(s, v) && s.workers[v].key == key)
            && (forall v :: v != w && Registered(s, v) && s.workers[v].key == key ==> v in after.pending)
  {
    RunKeepsInv(START, events, s);
    assert OnePlace(s, w);
    if s.workers[w].key in s.registered { assert OnePlace(s, s.registered[s.workers[w].key]); }
  }

  function Bring(w: Id, key: Key): seq<Event> {
    [Check(w, key), Init(w), LoadOrStore(w), Launch(w)]
  }

  lemma Extend(before: seq<Event>, s: State, e: Event) returns (events: seq<Event>, t: State)
    requires Reaches(START, before, s) && Enabled(s, e)
    ensures Reaches(START, events, t) && t == Next(s, e)
  {
    t := Next(s, e);
    events := before + [e];
    assert [e][1..] == [];
    RunsJoin(START, before, s, [e], t);
  }

  lemma ExtendBring(before: seq<Event>, s: State, w: Id, key: Key) returns (events: seq<Event>, t: State)
    requires Reaches(START, before, s) && w !in s.workers && key !in s.results && key !in s.registered
    ensures Reaches(START, events, t)
    ensures t == s.(workers := s.workers[w := Worker(key, Running, 0, 0)], registered := s.registered[key := w],
                    results := s.results + {key})
  {
    t := AfterBring(s, w, key);
    events := before + Bring(w, key);
    RunsJoin(START, before, s, Bring(w, key), t);
  }

  /** The exit of a worker can take its successor, which nobody asked to stop: Add, a complete Delete, Add again, and
      only then does the first worker leave. No two calls of the manager overlap. */
  lemma ExitCanTakeSuccessor(key: Key) returns (events: seq<Event>, s: State)
    ensures Reaches(START, events, s) && s.results == {key} && s.registered == map[] && s.pending == {1}
    ensures s.workers == map[0 := Worker(key, Left, 1, 1), 1 := Worker(key, Running, 0, 0)]
    ensures Active(s, 1)
  {
    hide Reaches;
    events, s := DeletedWhileRunning(key);
    events, s := ExtendBring(events, s, 1, key);
    var first := Worker(key, Running, 1, 1);
    assert s.workers[0] == first && s.registered == map[key := 1];
    events, s := Extend(events, s, Leave(0));
    assert s.workers == map[0 := first.(phase := Leaving), 1 := Worker(key, Running, 0, 0)];
    events, s := Extend(events, s, Exit(0));
    assert s.registered == map[];
  }

  lemma DeletedWhileRunning(key: Key) returns (events: seq<Event>, s: State)
    ensures Reaches(START, events, s)
    ensures s == State(map[0 := Worker(key, Running, 1, 1)], map[], {}, {})
  {
    hide Reaches;
    assert Reaches(START, [], START) by { NoStep(); }
    events, s := ExtendBring([], START, 0, key);
    events, s := Extend(events, s, Forget(key));
    events, s := Extend(events, s, Take(key));
    assert s == State(map[0 := Worker(key, Running, 0, 0)], map[], {0}, {});
    events, s := Extend(events, s, Stop(0));
  }

  lemma NoStep()
    ensures Reaches(START, [], START)
  {
  }

  /** Two workers of one key can be active at once: after that, Delete finds no worker, Add makes a third, and the
      second has still to be stopped. Here too no two calls of the manager overlap. */
  lemma TwoCanBeActive(key: Key) returns (events: seq<Event>, s: State)
    ensures Reaches(START, events, s) && Active(s, 1) && Active(s, 2) && s.workers[1].key == s.workers[2].key == key
    ensures s.workers[1].phase == s.workers[2].phase == Running && Registered(s, 2)
  {
    events, s := ExitCanTakeSuccessor(key);
    events, s := Extend(events, s, Forget(key));
    events, s := Extend(events, s, Take(key));
    assert s.results == {} && s.registered == map[];
    events, s := ExtendBring(events, s, 2, key);
  }

  lemma AfterBring(s: State, w: Id, key: Key) returns (t: State)
    requires w !in s.workers && key !in s.results && key !in s.registered
    ensures t == s.(workers := s.workers[w := Worker(key, Running, 0, 0)], registered := s.registered[key := w],
                    results := s.results + {key})
    ensures Reaches(s, Bring(w, key), t)
  {
    var e := Bring(w, key);
    var s1 := Next(s, e[0]);
    var s2 := Next(s1, e[1]);
    var s3 := Next(s2, e[2]);
    t := Next(s3, e[3]);
    assert e[1..][1..] == e[2..] && e[2..][1..] == e[3..] && e[3..][1..] == [];
    assert Reaches(s3, e[3..], t);
    assert Reaches(s2, e[2..], t);
    assert Reaches(s1, e[1..], t);
  }

  lemma {:induction false} RunsJoin(s: State, a: seq<Event>, t: State, b: seq<Event>, u: State)
    requires Reaches(s, a, t) && Reaches(t, b, u)
    ensures Reaches(s, a + b, u)
    decreases |a|
  {
    if a == [] {
      assert a + b == b;
    } else {
      assert (a + b)[1..] == a[1..] + b;
      RunsJoin(Next(s, a[0]), a[1..], t, b, u);
    }
  }

  // ---------- a check that never gets a worker ----------

  predicate NoAdd(s: State, key: Key) {
    forall w :: w in s.workers && s.workers[w].key == key ==>
      !s.workers[w].phase.Checked? && !s.workers[w].phase.Made?
  }

  /** The key has an entry, and no Add of it is under way. */
  predicate Blocked(s: State, key: Key) {
    key in s.results && NoAdd(s, key)
  }

  predicate Idle(s: State, key: Key) {
    key !in s.registered && forall w :: w in s.workers && s.workers[w].key == key ==> !Active(s, w)
  }

  lemma StepStaysBlocked(s: State, e: Event, key: Key)
    requires Inv(s) && Enabled(s, e) && Blocked(s, key) && Idle(s, key) && e != Forget(key)
    ensures Blocked(Next(s, e), key) && Idle(Next(s, e), key)
  {
    var next := Next(s, e);
    assert key in next.results && key !in next.registered;
    forall w | w in next.workers && next.workers[w].key == key
      ensures !next.workers[w].phase.Checked? && !next.workers[w].phase.Made? && !Active(next, w)
    {
      assert w in s.workers && s.workers[w].key == key;
    }
  }

  /** A blocked key without a worker stays without one until its entry is forgotten. */
  lemma {:induction false} BlockedStaysIdle(s: State, events: seq<Event>, t: State, key: Key)
    requires Inv(s) && Reaches(s, events, t) && Blocked(s, key) && Idle(s, key) && Forget(key) !in events
    ensures Blocked(t, key) && Idle(t, key)
    decreases |events|
  {
    hide Blocked, Idle, Inv;
    if events != [] {
      var next := Next(s, events[0]);
      StepKeepsInv(s, events[0]);
      assert events[0] in events;
      StepStaysBlocked(s, events[0], key);
      BlockedStaysIdle(next, events[1..], t, key);
    }
  }

  lemma {:induction false} UnusedId(workers: map<Id, Worker>) returns (id: Id)
    ensures forall w :: w in workers ==> w < id
    decreases |workers|
  {
    if workers == map[] {
      id := 0;
    } else {
      var w :| w in workers;
      var rest := workers - {w};
      assert |rest| < |workers| by { assert rest.Keys == workers.Keys - {w}; assert |rest.Keys| == |workers.Keys| - 1; }
      var below := UnusedId(rest);
      id := if w < below then below else w + 1;
      forall v | v in workers ensures v < id {
        if v != w { assert v in rest; }
      }
    }
  }

  /** The run gives the key a worker without its entry being forgotten. */
  ghost predicate Revives(s: State, key: Key, events: seq<Event>, t: State) {
    Reaches(s, events, t) && Forget(key) !in events && key in t.registered
  }

  /** A key without a worker, and with no Add under way, can be given one without its entry being forgotten exactly when
      it has no entry. */
  lemma RevivableIff(s: State, key: Key)
    requires Inv(s) && Idle(s, key) && NoAdd(s, key)
    ensures (exists events: seq<Event>, t: State :: Revives(s, key, events, t)) <==> key !in s.results
  {
    if key !in s.results {
      var w := UnusedId(s.workers);
      var t := AfterBring(s, w, key);
      assert Revives(s, key, Bring(w, key), t);
    } else {
      forall events: seq<Event>, t: State | Reaches(s, events, t) && Forget(key) !in events
        ensures key !in t.registered
      {
        BlockedStaysIdle(s, events, t, key);
      }
    }
  }

  /** A record that lands after a deletion blocks its key in this way. */
  lemma LateRecordBlocks(key: Key) returns (events: seq<Event>, s: State)
    ensures Reaches(START, events, s) && Blocked(s, key) && Idle(s, key)
  {
    var s1 := AfterBring(START, 0, key);
    var tail := [Forget(key), Take(key), Record(0), Stop(0)];
    var s2 := Next(s1, tail[0]);
    var s3 := Next(s2, tail[1]);
    var s4 := Next(s3, tail[2]);
    s := Next(s4, tail[3]);
    assert tail[1..][1..] == tail[2..] && tail[2..][1..] == tail[3..] && tail[3..][1..] == [];
    assert Reaches(s4, tail[3..], s);
    assert Reaches(s3, tail[2..], s);
    assert Reaches(s2, tail[1..], s);
    events := Bring(0, key) + tail;
    RunsJoin(START, Bring(0, key), s1, tail, s);
  }
}
