/** The generation gate of the PodNetworkChaos reconciler (controllers/podnetworkchaos/controller.go).
    Reconciles of one object run one after another; edits of the spec happen at any time. */
module GenerationGate {

  /** One version of the object on the API server. A failed message is kept as whether it is empty. */
  datatype Version = Version(generation: nat, observed: nat, failed: bool)

  /** What is in the pod's network namespace: nothing, the complete spec of a generation, or anything else. */
  datatype Pod = Untouched | Holding(generation: nat) | Broken

  /** `seen` is the newest version the reconciler has read, `wrote` its last successful status write. */
  datatype State = State(history: seq<Version>, seen: nat, wrote: nat, pod: Pod)

  function Latest(s: State): Version
    requires s.history != []
  {
    s.history[|s.history| - 1]
  }

  predicate UpToDate(v: Version) {
    v.generation <= v.observed && !v.failed
  }

  /** How an attempt ended: the spec fully applied; refused before touching the pod; or stopped part way. */
  datatype Attempt = Complete | Refused | Partial

  /** An attempt is made from version `read`. The status write reads the object again: `last` is the newest version the
      pass has read when it ends, and only from the latest version can the write succeed. */
  datatype Event =
    | Edit
    | Skip(read: nat)
    | PodMissing(read: nat)
    | Reconcile(read: nat, attempt: Attempt, last: nat, written: bool)

  /** Reads are monotone: none goes back behind an earlier one. */
  predicate MayRead(s: State, r: nat) {
    s.seen <= r < |s.history|
  }

  predicate Enabled(s: State, e: Event) {
    match e
    case Edit => s.history != []
    case Skip(r) => MayRead(s, r) && UpToDate(s.history[r])
    case PodMissing(r) => MayRead(s, r) && !UpToDate(s.history[r])
    case Reconcile(r, _, last, written) =>
      && MayRead(s, r) && !UpToDate(s.history[r])
      && r <= last < |s.history| && (written ==> last == |s.history| - 1)
  }

  function Next(s: State, e: Event): State
    requires Enabled(s, e)
  {
    match e
    case Edit => s.(history := s.history + [Latest(s).(generation := Latest(s).generation + 1)])
    case Skip(r) => s.(seen := r)
    case PodMissing(r) => s.(seen := r)
    case Reconcile(r, attempt, last, written) =>
      var generation := s.history[r].generation;
      var pod := match attempt
                 case Complete => Holding(generation)
                 case Refused => s.pod
                 case Partial => Broken;
      var after := s.(seen := last, pod := pod);
      if written then
        after.(history := s.history + [Version(Latest(s).generation, generation, !attempt.Complete?)],
               wrote := |s.history|)
      else after
  }

  /** A fresh object: generation 1, nothing observed, nothing in the pod. */
  const START := State([Version(1, 0, false)], 0, 0, Untouched)

  predicate Run(states: seq<State>, events: seq<Event>) {
    && |states| == |events| + 1 && states[0] == START
    && forall i :: 0 <= i < |events| ==> Enabled(states[i], events[i]) && states[i + 1] == Next(states[i], events[i])
  }

  /** Skipping is sound: the generation that was read is completely in the pod and nothing was applied since. */
  predicate SoundSkip(s: State, e: Event) {
    e.Skip? ==> e.read < |s.history| && s.pod == Holding(s.history[e.read].generation)
  }

  /** Whatever version the next read returns, a skip on the strength of it is sound. */
  ghost predicate Safe(s: State) {
    forall r: nat :: Enabled(s, Skip(r)) ==> SoundSkip(s, Skip(r))
  }

  // ---------- what every run keeps ----------

  predicate Ordered(s: State) {
    && s.seen < |s.history|
    && (forall i, j :: 0 <= i <= j < |s.history| ==> s.history[i].generation <= s.history[j].generation)
  }

  /** No status speaks of a generation newer than the object or than what the reconciler has read. */
  predicate Observed(s: State) {
    && s.seen < |s.history|
    && (forall i :: 0 <= i < |s.history| ==> s.history[i].observed <= s.history[i].generation)
    && (forall i :: 0 <= i < |s.history| ==> s.history[i].observed <= s.history[s.seen].generation)
  }

  /** Since the last status write only the generation has changed. */
  predicate Unwritten(s: State) {
    && s.wrote < |s.history|
    && forall i :: s.wrote <= i < |s.history| ==>
         s.history[i].observed == s.history[s.wrote].observed && s.history[i].failed == s.history[s.wrote].failed
  }

  predicate Inv(s: State) {
    Ordered(s) && Observed(s) && Unwritten(s)
  }

  lemma StepKeepsInv(s: State, e: Event)
    requires Inv(s) && Enabled(s, e)
    ensures Inv(Next(s, e))
  {
    if !e.Edit? {
      assert s.history[s.seen].generation <= s.history[e.read].generation;
    }
  }

  lemma {:induction false} RunKeepsInv(states: seq<State>, events: seq<Event>, n: nat)
    requires Run(states, events) && n <= |events|
    ensures Inv(states[n])
  {
    if n > 0 {
      RunKeepsInv(states, events, n - 1);
      StepKeepsInv(states[n - 1], events[n - 1]);
    }
  }

  // ---------- when the gate is sound ----------

  /** An attempt that stops part way although a version the next read may return says up to date. */
  predicate Hazard(s: State, e: Event) {
    e.Reconcile? && e.attempt.Partial? && exists i :: e.last <= i < |s.history| && UpToDate(s.history[i])
  }

  /** A step from a safe state leads to a safe state exactly when it is no such attempt. A complete attempt is harmless
      however stale: a status that says up to date speaks of the generation just applied. */
  lemma StepStaysSafeIff(s: State, e: Event)
    requires Inv(s) && Safe(s) && Enabled(s, e)
    ensures Safe(Next(s, e)) <==> !Hazard(s, e)
  {
    var t := Next(s, e);
    if Hazard(s, e) {
      var i :| e.last <= i < |s.history| && UpToDate(s.history[i]);
      assert t.history[i] == s.history[i] && Enabled(t, Skip(i)) && !SoundSkip(t, Skip(i));
    } else {
      forall r: nat | Enabled(t, Skip(r)) ensures SoundSkip(t, Skip(r)) {
        if r < |s.history| {
          assert t.history[r] == s.history[r] && Enabled(s, Skip(r)) && SoundSkip(s, Skip(r));
          if e.Reconcile? { SameGeneration(s, e.read, r); }
        }
      }
    }
  }

  /** A version that says up to date has the generation of every version that may be read before it. */
  lemma SameGeneration(s: State, r: nat, i: nat)
    requires Inv(s) && MayRead(s, r) && r <= i < |s.history| && UpToDate(s.history[i])
    ensures s.history[i].generation == s.history[r].generation == s.history[i].observed
  {
    assert s.history[s.seen].generation <= s.history[r].generation <= s.history[i].generation;
  }

  /** The exact condition, over all runs with monotone reads and any loss of status writes: every skip that is possible
      at any time is sound if and only if no attempt stops part way while a version that may still be read says up to
      date. */
  lemma SoundExactlyWithoutHazards(states: seq<State>, events: seq<Event>)
    requires Run(states, events)
    ensures (forall n :: 0 <= n <= |events| ==> Safe(states[n])) <==>
            (forall n :: 0 <= n < |events| ==> !Hazard(states[n], events[n]))
  {
    hide Hazard, Safe, Inv;
    if forall n :: 0 <= n < |events| ==> !Hazard(states[n], events[n]) {
      forall n | 0 <= n <= |events| ensures Safe(states[n]) {
        SafeUntil(states, events, n);
      }
    } else {
      var n :| 0 <= n < |events| && Hazard(states[n], events[n]);
      RunKeepsInv(states, events, n);
      if Safe(states[n]) {
        StepStaysSafeIff(states[n], events[n]);
        assert !Safe(states[n + 1]);
      }
    }
  }

  lemma {:induction false} SafeUntil(states: seq<State>, events: seq<Event>, n: nat)
    requires Run(states, events) && n <= |events|
    requires forall i :: 0 <= i < n ==> !Hazard(states[i], events[i])
    ensures Safe(states[n])
  {
    hide Hazard, Inv;
    if n > 0 {
      SafeUntil(states, events, n - 1);
      RunKeepsInv(states, events, n - 1);
      StepStaysSafeIff(states[n - 1], events[n - 1]);
    }
  }

  /** The attempt is made from a version at or after the reconciler's own last status write. */
  predicate SeesOwnWrite(s: State, e: Event) {
    e.Reconcile? ==> s.wrote <= e.read
  }

  /** Gate soundness: if every attempt sees the reconciler's own last write, an object is skipped only if the spec of
      its generation is completely in the pod. Skips and reads that apply nothing may be as stale as they like. */
  lemma GateIsSound(states: seq<State>, events: seq<Event>, n: nat)
    requires Run(states, events) && n < |events|
    requires forall i :: 0 <= i < n ==> SeesOwnWrite(states[i], events[i])
    ensures SoundSkip(states[n], events[n])
  {
    forall i | 0 <= i < n ensures !Hazard(states[i], events[i]) {
      RunKeepsInv(states, events, i);
      if events[i].Reconcile? { NothingUpToDateBehind(states[i], events[i].read); }
    }
    SafeUntil(states, events, n);
    if events[n].Skip? { assert SoundSkip(states[n], Skip(events[n].read)); }
  }

  lemma NothingUpToDateBehind(s: State, r: nat)
    requires Inv(s) && s.wrote <= r < |s.history| && !UpToDate(s.history[r])
    ensures forall i :: r <= i < |s.history| ==> !UpToDate(s.history[i])
  {
    forall i | r <= i < |s.history| ensures !UpToDate(s.history[i]) {
      assert s.history[r].generation <= s.history[i].generation;
    }
  }

  /** Quiescence: once the newest generation is completely applied and that is recorded, every pass that sees this
      record skips the object, until the next edit. */
  lemma {:induction false} AppliedIsSkipped(states: seq<State>, events: seq<Event>, n: nat, m: nat)
    requires Run(states, events) && n < m <= |events|
    requires events[n].Reconcile? && events[n].attempt.Complete? && events[n].written
    requires states[n].history[events[n].read].generation == Latest(states[n]).generation
    requires forall j :: n < j < m ==> !events[j].Edit? && states[j].wrote <= events[j].read
    ensures forall j :: n < j < m ==> events[j].Skip?
    ensures states[m].history == states[n + 1].history && states[m].wrote == |states[n].history|
    ensures states[m].pod == Holding(Latest(states[n]).generation)
  {
    RunKeepsInv(states, events, n);
    if n + 1 < m { AppliedIsSkipped(states, events, n, m - 1); }
  }

  /** Monotone reads alone are not enough: applied and recorded; applied again from the old version, part way,
      with the status write lost; then skipped on the strength of the first record. */
  lemma MonotoneReadsAreNotEnough() returns (states: seq<State>, events: seq<Event>)
    ensures Run(states, events) && |events| == 3 && !SoundSkip(states[2], events[2])
  {
    events := [Reconcile(0, Complete, 0, true), Reconcile(0, Partial, 0, false), Skip(1)];
    var s1 := Next(START, events[0]);
    var s2 := Next(s1, events[1]);
    states := [START, s1, s2, Next(s2, events[2])];
  }
}
