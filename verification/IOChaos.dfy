/** ApplyIOChaos as a client of the background process manager (pkg/chaosdaemon/iochaos_server.go): replace the
    toda process of a container while other calls, exits and the manager itself go on in any interleaving. */
module IOChaos {
  import opened Text
  import PM = ProcessManager

  // ---------- what the client may rely on, in every interleaving ----------

  /** StartProcess has returned a process: its waiter is running, or has been. */
  predicate Returned(phase: PM.Phase) {
    phase.Watched? || phase.Sending? || phase.Queued? || PM.InConsumer(phase) || phase.Gone?
  }

  lemma ReturnedStays(s: PM.State, e: PM.Event, u: PM.Uid)
    requires PM.Enabled(s, e) && u in s.tokens && Returned(s.tokens[u].phase)
    ensures u in PM.Next(s, e).tokens && Returned(PM.Next(s, e).tokens[u].phase)
    ensures PM.Next(s, e).tokens[u].ident == s.tokens[u].ident && PM.Next(s, e).tokens[u].pair == s.tokens[u].pair
  {
    PM.StepMovesOneToken(s, e);
    hide PM.FreshPair, PM.ChannelEmpty, PM.ConsumerIdle, PM.NextIdentifiers, PM.NextProcesses, PM.NextPairs;
  }

  lemma {:induction false} ReturnedForEver(states: seq<PM.State>, events: seq<PM.Event>, from: nat, n: nat, u: PM.Uid)
    requires PM.Run(states, events) && from <= n <= |events|
    requires u in states[from].tokens && Returned(states[from].tokens[u].phase)
    ensures u in states[n].tokens && Returned(states[n].tokens[u].phase)
    ensures states[n].tokens[u].ident == states[from].tokens[u].ident
    ensures states[n].tokens[u].pair == states[from].tokens[u].pair
  {
    hide Returned, PM.Enabled, PM.Next;
    if from < n {
      ReturnedForEver(states, events, from, n - 1, u);
      ReturnedStays(states[n - 1], events[n - 1], u);
    }
  }

  /** From the moment StartProcess returns and for as long as the process lives, it is the only one registered under
      its identifier, and the pid and start time reported for it lead back to it. */
  lemma StartedProcessResolves(states: seq<PM.State>, events: seq<PM.Event>, from: nat, n: nat, u: PM.Uid)
    requires PM.Run(states, events) && from <= n <= |events|
    requires u in states[from].tokens && Returned(states[from].tokens[u].phase)
    requires u in states[n].tokens && states[n].tokens[u].alive
    ensures var s := states[n];
      && u in s.processes
      && Some(s.processes[u].pair) == states[from].tokens[u].pair
      && s.processes[u].pair in s.pairs && s.pairs[s.processes[u].pair] == u
      && (forall v :: v in s.processes && s.processes[v].ident.Some? && s.processes[v].ident == s.processes[u].ident ==>
          v == u)
  {
    ReturnedForEver(states, events, from, n, u);
    PM.RunKeepsInv(states, events, n);
    var s := states[n];
    hide PM.Enabled, PM.Next, PM.IdentifiersOwned, PM.IndexPaired, PM.PairsDistinct, PM.OneAtATime, PM.WaitGroupCounts;
    assert PM.MayLive(s.tokens[u].phase);
    assert s.tokens[u].phase.Watched?;
    assert PM.Listed(s.tokens[u].phase);
    PM.RegisteredOnce(states, events, n, u);
  }

  lemma FinishedStays(s: PM.State, e: PM.Event, u: PM.Uid)
    requires PM.Enabled(s, e) && Finished(s, u)
    ensures Finished(PM.Next(s, e), u)
  {
    PM.StepMovesOneToken(s, e);
    hide PM.FreshPair, PM.ChannelEmpty, PM.ConsumerIdle, PM.NextIdentifiers, PM.NextProcesses, PM.NextPairs;
  }

  /** The consumer has announced the end of the process. */
  predicate Finished(s: PM.State, u: PM.Uid) {
    u in s.tokens && (s.tokens[u].phase.Stopped? || s.tokens[u].phase.Gone?)
  }

  lemma AnnouncedIsFinished(s: PM.State, e: PM.Event)
    requires PM.Enabled(s, e) && (e.Stop? || e.Finish? || e.Release?)
    ensures Finished(PM.Next(s, e), e.u)
  {
    PM.StepMovesOneToken(s, e);
    hide PM.FreshPair, PM.ChannelEmpty, PM.ConsumerIdle, PM.NextIdentifiers, PM.NextProcesses, PM.NextPairs;
  }

  /** Once a kill has returned without error, the process stays in none of the tables. */
  lemma {:induction false} KilledForEver(states: seq<PM.State>, events: seq<PM.Event>, from: nat, n: nat, u: PM.Uid)
    requires PM.Run(states, events) && from <= n <= |events| && Finished(states[from], u)
    ensures Finished(states[n], u) && PM.Released(states[n], u)
  {
    hide PM.Enabled, PM.Next, PM.Released;
    if from < n {
      KilledForEver(states, events, from, n - 1, u);
      FinishedStays(states[n - 1], events[n - 1], u);
    }
    PM.KilledIsGone(states, events, n, u);
  }

  // ---------- the client ----------

  datatype Request = Request(container: string, instanceUid: Option<PM.Uid>, instance: int, startTime: int,
                             actions: Option<seq<string>>)

  datatype Response = Response(instance: int, startTime: int, instanceUid: Option<PM.Uid>)

  datatype Result = Ok(response: Response) | Err

  datatype Start = Start(at: nat, uid: PM.Uid, pair: PM.Pair)

  /** What one call meets. Moments are positions in the run of the manager: `lookedUp` is that of GetUID, `killed` that
      of a kill that returned without error, `started` that of a start that returned a process. */
  datatype Call = Call(lookedUp: nat, killed: Option<nat>, pidFound: bool, started: Option<Start>, updated: bool,
                       ready: bool)

  /** The process the request refers to: named outright, or found by its pid and start time. */
  function Referred(s: PM.State, req: Request): Option<PM.Uid> {
    var pair := PM.Pair(req.instance, req.startTime);
    if req.instanceUid.Some? then req.instanceUid else if pair in s.pairs then Some(s.pairs[pair]) else None
  }

  predicate Refers(s: PM.State, req: Request, u: PM.Uid) {
    || req.instanceUid == Some(u)
    || (req.instanceUid.None? && PM.Pair(req.instance, req.startTime) in s.pairs
        && s.pairs[PM.Pair(req.instance, req.startTime)] == u)
  }

  /** The call's observations are those of the run: a kill returns without error only after the stop signal, a start
      returns a process that was begun by this call. */
  predicate Meets(states: seq<PM.State>, events: seq<PM.Event>, req: Request, call: Call) {
    && PM.Run(states, events) && call.lookedUp <= |events|
    && (call.killed.Some? ==>
          && call.lookedUp <= call.killed.value <= |events|
          && (Referred(states[call.lookedUp], req).Some? ==>
                Finished(states[call.killed.value], Referred(states[call.lookedUp], req).value)))
    && (call.started.Some? ==>
          var Start(at, uid, pair) := call.started.value;
          var before := if call.killed.Some? then call.killed.value else call.lookedUp;
          && before <= at <= |events|
          && uid !in states[before].tokens && uid in states[at].tokens
          && Returned(states[at].tokens[uid].phase)
          && states[at].tokens[uid].ident == Some("toda-" + req.container)
          && states[at].tokens[uid].pair == Some(pair))
  }

  /** The process is registered, alone under the identifier, and the pair leads back to it. */
  predicate Resolves(s: PM.State, uid: PM.Uid, ident: string, pair: PM.Pair) {
    && uid in s.processes && s.processes[uid] == PM.Proc(pair, Some(ident))
    && pair in s.pairs && s.pairs[pair] == uid
    && (forall v :: v in s.processes && s.processes[v].ident == Some(ident) ==> v == uid)
  }

  predicate Succeeds(s: PM.State, req: Request, call: Call) {
    && (Referred(s, req).Some? ==> call.killed.Some?)
    && req.actions.Some?
    && (req.actions.value != [] ==> call.pidFound && call.started.Some? && call.updated && call.ready)
  }

  /** Replaces the container's toda. Success: the process referred to is in none of the tables from then on and, with
      actions, the new one is alone under the container's identifier and is what the response leads to, at any
      later moment of any run for as long as it lives. No other process is sent a signal, and a new one that did
      not come up is. `kills` lists the processes sent a signal. */
  method ApplyIOChaos(states: seq<PM.State>, events: seq<PM.Event>, req: Request, call: Call)
    returns (r: Result, kills: seq<PM.Uid>)
    requires Meets(states, events, req, call)
    ensures r.Ok? <==> Succeeds(states[call.lookedUp], req, call)
    ensures call.killed.Some? && Referred(states[call.lookedUp], req).Some? ==>
      var u := Referred(states[call.lookedUp], req).value;
      u in kills && forall n :: call.killed.value <= n <= |events| ==> PM.Released(states[n], u)
    ensures r.Ok? && req.actions.value == [] ==> r.response == Response(0, 0, None)
    ensures r.Ok? && req.actions.value != [] ==>
      var Start(at, v, pair) := call.started.value;
      && r.response == Response(pair.pid, pair.createTime, Some(v)) && v !in kills
      && forall n :: at <= n <= |events| && v in states[n].tokens && states[n].tokens[v].alive ==>
           Resolves(states[n], v, "toda-" + req.container, pair)
    ensures forall u :: Refers(states[call.lookedUp], req, u) ==> u in kills
    ensures |kills| <= 2 && (|kills| == 2 ==> Refers(states[call.lookedUp], req, kills[0]))
    ensures forall u :: u in kills ==>
      Refers(states[call.lookedUp], req, u) || (call.started.Some? && u == call.started.value.uid)
    ensures r.Err? && Succeeds(states[call.lookedUp], req, call.(updated := true, ready := true)) ==>
      call.started.value.uid in kills
  {
    assert |states| == |events| + 1;
    hide PM.Run, PM.Released, Finished, Returned, Resolves;
    kills := [];
    var instance := req.instanceUid;
    if instance.None? {
      var pair := PM.Pair(req.instance, req.startTime);
      if pair in states[call.lookedUp].pairs { instance := Some(states[call.lookedUp].pairs[pair]); }
    }
    if instance.Some? {
      kills := kills + [instance.value];
      if call.killed.None? { return Err, kills; }
      forall n | call.killed.value <= n <= |events| ensures PM.Released(states[n], instance.value) {
        KilledForEver(states, events, call.killed.value, n, instance.value);
      }
    }
    if req.actions.None? { return Err, kills; }
    if req.actions.value == [] { return Ok(Response(0, 0, None)), kills; }
    if !call.pidFound { return Err, kills; }
    if call.started.None? { return Err, kills; }
    var Start(at, uid, pair) := call.started.value;
    if !call.updated { return Err, kills + [uid]; }
    if !call.ready { return Err, kills + [uid]; }
    if instance.Some? { FinishedIsThere(states[call.killed.value], instance.value); }
    forall n | at <= n <= |events| && uid in states[n].tokens && states[n].tokens[uid].alive
      ensures Resolves(states[n], uid, "toda-" + req.container, pair)
    {
      StartedIsResolved(states, events, at, n, uid, "toda-" + req.container, pair);
    }
    r := Ok(Response(pair.pid, pair.createTime, Some(uid)));
  }

  lemma FinishedIsThere(s: PM.State, u: PM.Uid)
    requires Finished(s, u)
    ensures u in s.tokens
  {
  }

  lemma StartedIsResolved(states: seq<PM.State>, events: seq<PM.Event>, at: nat, n: nat, u: PM.Uid, ident: string,
                          pair: PM.Pair)
    requires PM.Run(states, events) && at <= n <= |events|
    requires u in states[at].tokens && Returned(states[at].tokens[u].phase)
    requires states[at].tokens[u].ident == Some(ident) && states[at].tokens[u].pair == Some(pair)
    requires u in states[n].tokens && states[n].tokens[u].alive
    ensures Resolves(states[n], u, ident, pair)
  {
    StartedProcessResolves(states, events, at, n, u);
    ReturnedForEver(states, events, at, n, u);
    PM.RunKeepsInv(states, events, n);
    hide PM.Run, PM.IdentifiersOwned, PM.IndexPaired, PM.PairsDistinct, PM.OneAtATime, PM.WaitGroupCounts, Returned;
  }
}
