/** The background process manager as a transition system (pkg/bpm/bpm.go): any number of StartProcess calls, one
    waiter per started process, one consumer of the death channel, and Shutdown, interleaved in every way.
    UIDs and (pid, create time) pairs are assumed never to repeat. */
module ProcessManager {
  import opened Text

  type Uid = nat

  datatype Pair = Pair(pid: int, createTime: int)

  /** How far one start has come. The first line is the call itself, the second its failure, the third the
      waiter, the death channel and the consumer. */
  datatype Phase =
    | Reserved | Spawned | Ready | Stored | Indexed | Counted
    | Reaping | Failed
    | Watched | Sending | Queued | Received | Unlisted | Unpaired | Unnamed | Stopped
    | Gone

  datatype Token = Token(ident: Option<string>, phase: Phase, pair: Option<Pair>, alive: bool)

  /** A process record, as kept in the process table. */
  datatype Proc = Proc(pair: Pair, ident: Option<string>)

  /** Shutdown waits for the wait group, and then, in a step of its own, closes the death channel. */
  datatype Shutdown = Off | Waiting | Awaited | Closed

  datatype State = State(
    tokens: map<Uid, Token>,
    identifiers: set<string>,
    processes: map<Uid, Proc>,
    pairs: map<Pair, Uid>,
    wg: int,
    held: Option<Proc>,
    shutdown: Shutdown,
    panicked: bool)

  const START := State(map[], {}, map[], map[], 0, None, Off, false)

  datatype Event =
    | Begin(u: Uid, ident: Option<string>)
    | CannotStart(u: Uid) | Spawn(u: Uid) | MetadataFails(u: Uid) | MetadataRead(u: Uid, pair: Pair)
    | Reap(u: Uid) | Release(u: Uid)
    | Store(u: Uid) | Index(u: Uid) | Count(u: Uid) | Watch(u: Uid)
    | Die(u: Uid)
    | WaitReturns(u: Uid) | Send(u: Uid) | Receive(u: Uid)
    | Unlist(u: Uid) | Unpair(u: Uid) | Unname(u: Uid) | Stop(u: Uid) | Finish(u: Uid)
    | ShutDown | WaitDone | Close

  predicate At(s: State, u: Uid, phase: Phase) {
    u in s.tokens && s.tokens[u].phase == phase
  }

  /** The consumer works on one received UID at a time. */
  predicate InConsumer(phase: Phase) {
    phase.Received? || phase.Unlisted? || phase.Unpaired? || phase.Unnamed? || phase.Stopped?
  }

  predicate ChannelEmpty(s: State) {
    forall u :: u in s.tokens ==> !s.tokens[u].phase.Queued?
  }

  predicate ConsumerIdle(s: State) {
    forall u :: u in s.tokens ==> !InConsumer(s.tokens[u].phase)
  }

  predicate FreshPair(s: State, pair: Pair) {
    forall u :: u in s.tokens ==> s.tokens[u].pair != Some(pair)
  }

  /** The token a step is about. */
  function Subject(e: Event): Option<Uid> {
    match e
    case ShutDown => None
    case WaitDone => None
    case Close => None
    case _ => Some(e.u)
  }

  /** The phase a step starts from, where it needs a particular one. */
  function From(e: Event): Option<Phase> {
    match e
    case CannotStart(_) => Some(Reserved)
    case Spawn(_) => Some(Reserved)
    case MetadataFails(_) => Some(Spawned)
    case MetadataRead(_, _) => Some(Spawned)
    case Reap(_) => Some(Reaping)
    case Release(_) => Some(Failed)
    case Store(_) => Some(Ready)
    case Index(_) => Some(Stored)
    case Count(_) => Some(Indexed)
    case Watch(_) => Some(Counted)
    case WaitReturns(_) => Some(Watched)
    case Send(_) => Some(Sending)
    case Receive(_) => Some(Queued)
    case Unlist(_) => Some(Received)
    case Unpair(_) => Some(Unlisted)
    case Unname(_) => Some(Unpaired)
    case Stop(_) => Some(Unnamed)
    case Finish(_) => Some(Stopped)
    case _ => None
  }

  /** What else a step waits for: a free identifier, the death of the process, room in the channel, an idle
      consumer, a wait group at zero. */
  predicate Guard(s: State, e: Event) {
    match e
    case Begin(u, ident) => u !in s.tokens && (ident.Some? ==> ident.value !in s.identifiers)
    case MetadataRead(_, pair) => FreshPair(s, pair)
    case Store(u) => u in s.tokens && s.tokens[u].pair.Some?
    case Index(u) => u in s.tokens && s.tokens[u].pair.Some?
    case Die(u) => u in s.tokens && s.tokens[u].alive
    case WaitReturns(u) => u in s.tokens && !s.tokens[u].alive
    case Send(_) => ChannelEmpty(s) || s.shutdown.Closed?
    case Receive(_) => ConsumerIdle(s)
    case Unpair(_) => s.held.Some?
    case Unname(_) => s.held.Some?
    case ShutDown => s.shutdown.Off?
    case WaitDone => s.shutdown.Waiting? && s.wg == 0
    case Close => s.shutdown.Awaited?
    case _ => true
  }

  predicate Enabled(s: State, e: Event) {
    Guard(s, e) && (From(e).Some? ==> At(s, e.u, From(e).value))
  }

  /** The subject's token after a step. */
  function NextToken(s: State, e: Event): Token
    requires Enabled(s, e) && Subject(e).Some?
  {
    match e
    case Begin(_, ident) => Token(ident, Reserved, None, false)
    case Spawn(u) => s.tokens[u].(phase := Spawned, alive := true)
    case MetadataRead(u, pair) => s.tokens[u].(phase := Ready, pair := Some(pair))
    case Reap(u) => s.tokens[u].(phase := Failed, alive := false)
    case Die(u) => s.tokens[u].(alive := false)
    case CannotStart(u) => s.tokens[u].(phase := Failed)
    case MetadataFails(u) => s.tokens[u].(phase := Reaping)
    case Release(u) => s.tokens[u].(phase := Gone)
    case Store(u) => s.tokens[u].(phase := Stored)
    case Index(u) => s.tokens[u].(phase := Indexed)
    case Count(u) => s.tokens[u].(phase := Counted)
    case Watch(u) => s.tokens[u].(phase := Watched)
    case WaitReturns(u) => s.tokens[u].(phase := Sending)
    case Send(u) => if s.shutdown.Closed? then s.tokens[u] else s.tokens[u].(phase := Queued)
    case Receive(u) => s.tokens[u].(phase := Received)
    case Unlist(u) => s.tokens[u].(phase := if u in s.processes then Unlisted else Stopped)
    case Unpair(u) => s.tokens[u].(phase := Unpaired)
    case Unname(u) => s.tokens[u].(phase := Unnamed)
    case Stop(u) => s.tokens[u].(phase := Stopped)
    case Finish(u) => s.tokens[u].(phase := Gone)
  }

  function Without(ids: set<string>, ident: Option<string>): set<string> {
    if ident.Some? then ids - {ident.value} else ids
  }

  function NextIdentifiers(s: State, e: Event): set<string>
    requires Enabled(s, e)
  {
    match e
    case Begin(_, ident) => if ident.Some? then s.identifiers + {ident.value} else s.identifiers
    case Release(u) => Without(s.identifiers, s.tokens[u].ident)
    case Unname(_) => Without(s.identifiers, s.held.value.ident)
    case _ => s.identifiers
  }

  function NextProcesses(s: State, e: Event): map<Uid, Proc>
    requires Enabled(s, e)
  {
    match e
    case Store(u) => s.processes[u := Proc(s.tokens[u].pair.value, s.tokens[u].ident)]
    case Unlist(u) => s.processes - {u}
    case _ => s.processes
  }

  function NextPairs(s: State, e: Event): map<Pair, Uid>
    requires Enabled(s, e)
  {
    match e
    case Index(u) => s.pairs[s.tokens[u].pair.value := u]
    case Unpair(_) => s.pairs - {s.held.value.pair}
    case _ => s.pairs
  }

  function NextHeld(s: State, e: Event): Option<Proc> {
    match e
    case Unlist(u) => if u in s.processes then Some(s.processes[u]) else s.held
    case Finish(_) => None
    case _ => s.held
  }

  function NextCount(s: State, e: Event): int {
    match e
    case Count(_) => s.wg + 1
    case Finish(_) => s.wg - 1
    case _ => s.wg
  }

  function NextShutdown(s: State, e: Event): Shutdown {
    match e
    case ShutDown => Waiting
    case WaitDone => Awaited
    case Close => Closed
    case _ => s.shutdown
  }

  /** One atomic step. A refused start (its identifier is taken) changes nothing and is not an event. A send on
      the closed channel panics. */
  function Next(s: State, e: Event): State
    requires Enabled(s, e)
  {
    State(if Subject(e).Some? then s.tokens[e.u := NextToken(s, e)] else s.tokens,
          NextIdentifiers(s, e), NextProcesses(s, e), NextPairs(s, e), NextCount(s, e), NextHeld(s, e),
          NextShutdown(s, e),
          s.panicked || (e.Send? && s.shutdown.Closed?))
  }

  // ---------- invariants ----------

  /** From the reservation until the identifier is deleted. */
  predicate OwnsIdent(token: Token) {
    token.ident.Some? && !token.phase.Unnamed? && !token.phase.Stopped? && !token.phase.Gone?
  }

  predicate Listed(phase: Phase) {
    phase.Stored? || phase.Indexed? || phase.Counted? || phase.Watched? || phase.Sending? || phase.Queued?
      || phase.Received?
  }

  predicate Paired(phase: Phase) {
    (Listed(phase) && !phase.Stored?) || phase.Unlisted?
  }

  predicate Counts(phase: Phase) {
    phase.Counted? || phase.Watched? || phase.Sending? || phase.Queued? || InConsumer(phase)
  }

  predicate HasPair(phase: Phase) {
    phase.Ready? || phase.Stored? || phase.Indexed? || Counts(phase)
  }

  predicate MayLive(phase: Phase) {
    phase.Spawned? || phase.Reaping? || phase.Ready? || phase.Stored? || phase.Indexed? || phase.Counted?
      || phase.Watched?
  }

  /** The identifier set holds exactly the identifiers owned by some start, and each has one owner. */
  predicate IdentifiersOwned(s: State) {
    && (forall u, v | u in s.tokens && v in s.tokens && OwnsIdent(s.tokens[u]) && OwnsIdent(s.tokens[v]) ::
          s.tokens[u].ident == s.tokens[v].ident ==> u == v)
    && (forall u :: u in s.tokens && OwnsIdent(s.tokens[u]) ==> s.tokens[u].ident.value in s.identifiers)
    && (forall i :: i in s.identifiers ==>
        exists u :: u in s.tokens && OwnsIdent(s.tokens[u]) && s.tokens[u].ident.value == i)
  }

  predicate TableListed(s: State) {
    && (forall u :: u in s.processes ==> u in s.tokens && Listed(s.tokens[u].phase))
    && (forall u :: u in s.tokens && Listed(s.tokens[u].phase) ==> u in s.processes)
    && (forall u :: u in s.processes ==>
        s.tokens[u].pair == Some(s.processes[u].pair) && s.tokens[u].ident == s.processes[u].ident)
  }

  predicate IndexPaired(s: State) {
    && (forall pair :: pair in s.pairs ==>
          && s.pairs[pair] in s.tokens && Paired(s.tokens[s.pairs[pair]].phase)
          && s.tokens[s.pairs[pair]].pair == Some(pair))
    && (forall u :: u in s.tokens && Paired(s.tokens[u].phase) && s.tokens[u].pair.Some? ==>
          s.tokens[u].pair.value in s.pairs && s.pairs[s.tokens[u].pair.value] == u)
  }

  predicate PairsDistinct(s: State) {
    && (forall u :: u in s.tokens && HasPair(s.tokens[u].phase) ==> s.tokens[u].pair.Some?)
    && (forall u, v ::
        u in s.tokens && v in s.tokens && s.tokens[u].pair.Some? && s.tokens[u].pair == s.tokens[v].pair ==> u == v)
  }

  predicate LiveOwned(s: State) {
    forall u :: u in s.tokens && s.tokens[u].alive ==> MayLive(s.tokens[u].phase)
  }

  /** One UID in the channel, one in the consumer, which holds that one's record once it has unlisted it. */
  predicate OneAtATime(s: State) {
    && (forall u, v :: u in s.tokens && v in s.tokens && s.tokens[u].phase.Queued? && s.tokens[v].phase.Queued? ==>
        u == v)
    && (forall u, v ::
        u in s.tokens && v in s.tokens && InConsumer(s.tokens[u].phase) && InConsumer(s.tokens[v].phase) ==> u == v)
    && (forall u :: u in s.tokens && InConsumer(s.tokens[u].phase) && !s.tokens[u].phase.Received? ==>
          s.held.Some? && s.tokens[u].pair == Some(s.held.value.pair) && s.tokens[u].ident == s.held.value.ident)
  }

  function Running(s: State): set<Uid> {
    set u | u in s.tokens && Counts(s.tokens[u].phase)
  }

  predicate WaitGroupCounts(s: State) {
    s.wg == |Running(s)|
  }

  predicate Inv(s: State) {
    && IdentifiersOwned(s) && TableListed(s) && IndexPaired(s) && PairsDistinct(s)
    && LiveOwned(s) && OneAtATime(s) && WaitGroupCounts(s)
    && (s.panicked ==> s.shutdown.Closed?)
  }

  // ---------- preservation ----------

  /** From here on a step is the subject's token before and after; all other tokens stay as they are. */
  predicate Moved(s: State, e: Event, t: State) {
    if Subject(e).None? then t.tokens == s.tokens
    else e.u in t.tokens && t.tokens == s.tokens[e.u := t.tokens[e.u]]
  }

  lemma StepMovesOneToken(s: State, e: Event)
    requires Enabled(s, e)
    ensures Moved(s, e, Next(s, e))
  {
    hide Guard, NextToken, NextIdentifiers, NextProcesses, NextPairs, NextCount, NextHeld, NextShutdown;
  }

  lemma KeepsLive(s: State, e: Event)
    requires Enabled(s, e) && LiveOwned(s)
    ensures LiveOwned(Next(s, e))
  {
    hide FreshPair, ChannelEmpty, ConsumerIdle, NextIdentifiers, NextProcesses, NextPairs;
    StepMovesOneToken(s, e);
    if Subject(e).Some? {
      assert e.u in s.tokens && s.tokens[e.u].alive ==> MayLive(s.tokens[e.u].phase);
      assert NextToken(s, e).alive ==> MayLive(NextToken(s, e).phase);
    }
  }

  /** The subject gains its identifier at the beginning only, and loses it exactly when it is taken out of the set. */
  predicate IdentEffect(s: State, u: Uid, after: Token, ids: set<string>) {
    if u !in s.tokens then
      OwnsIdent(after) == after.ident.Some?
      && (if after.ident.Some? then after.ident.value !in s.identifiers && ids == s.identifiers + {after.ident.value}
          else ids == s.identifiers)
    else
      var before := s.tokens[u];
      && before.ident == after.ident && (OwnsIdent(after) ==> OwnsIdent(before))
      && ids == if OwnsIdent(before) && !OwnsIdent(after) then s.identifiers - {before.ident.value} else s.identifiers
  }

  lemma StepIdentEffect(s: State, e: Event)
    requires Enabled(s, e) && Subject(e).Some?
    requires e.Unlist? ==> e.u in s.processes
    requires e.Unname? ==> s.tokens[e.u].ident == s.held.value.ident
    ensures IdentEffect(s, e.u, NextToken(s, e), NextIdentifiers(s, e))
  {
    hide FreshPair, ChannelEmpty, ConsumerIdle;
  }

  lemma IdentEffectKeeps(s: State, t: State, u: Uid)
    requires IdentifiersOwned(s) && u in t.tokens && t.tokens == s.tokens[u := t.tokens[u]]
    requires IdentEffect(s, u, t.tokens[u], t.identifiers)
    ensures IdentifiersOwned(t)
  {
    forall i | i in t.identifiers
      ensures exists v :: v in t.tokens && OwnsIdent(t.tokens[v]) && t.tokens[v].ident.value == i
    {
      if i in s.identifiers {
        var v :| v in s.tokens && OwnsIdent(s.tokens[v]) && s.tokens[v].ident.value == i;
        assert OwnsIdent(t.tokens[v]) && t.tokens[v].ident.value == i;
      } else {
        assert OwnsIdent(t.tokens[u]);
      }
    }
  }

  lemma KeepsIdentifiers(s: State, e: Event)
    requires Enabled(s, e) && IdentifiersOwned(s) && TableListed(s) && OneAtATime(s)
    ensures IdentifiersOwned(Next(s, e))
  {
    StepMovesOneToken(s, e);
    if Subject(e).Some? {
      assert e.Unname? ==> InConsumer(s.tokens[e.u].phase);
      StepIdentEffect(s, e);
      hide Enabled, Guard, NextToken, NextIdentifiers, NextProcesses, NextPairs, NextHeld, TableListed, OneAtATime;
      hide IdentEffect, IdentifiersOwned;
      IdentEffectKeeps(s, Next(s, e), e.u);
    }
  }

  predicate TableEffect(s: State, u: Uid, after: Token, table: map<Uid, Proc>) {
    var was := u in s.tokens && Listed(s.tokens[u].phase);
    if Listed(after.phase) then
      && after.pair.Some?
      && if was then table == s.processes && s.tokens[u].pair == after.pair && s.tokens[u].ident == after.ident
         else table == s.processes[u := Proc(after.pair.value, after.ident)]
    else if was then table == s.processes - {u}
    else table == s.processes
  }

  lemma StepTableEffect(s: State, e: Event)
    requires Enabled(s, e) && Subject(e).Some?
    requires e.u in s.processes <==> (e.u in s.tokens && Listed(s.tokens[e.u].phase))
    requires e.u in s.processes ==> s.tokens[e.u].pair.Some?
    ensures TableEffect(s, e.u, NextToken(s, e), NextProcesses(s, e))
  {
    hide FreshPair, ChannelEmpty, ConsumerIdle;
  }

  lemma TableEffectKeeps(s: State, t: State, u: Uid)
    requires TableListed(s) && u in t.tokens && t.tokens == s.tokens[u := t.tokens[u]]
    requires TableEffect(s, u, t.tokens[u], t.processes)
    ensures TableListed(t)
  {
    hide Listed;
  }

  lemma KeepsTable(s: State, e: Event)
    requires Enabled(s, e) && TableListed(s)
    ensures TableListed(Next(s, e))
  {
    StepMovesOneToken(s, e);
    if Subject(e).Some? {
      assert e.u in s.processes <==> (e.u in s.tokens && Listed(s.tokens[e.u].phase));
      StepTableEffect(s, e);
      hide Enabled, Guard, NextToken, NextIdentifiers, NextProcesses, NextPairs, NextHeld, TableListed, TableEffect;
      TableEffectKeeps(s, Next(s, e), e.u);
    }
  }

  /** A pair is fresh when it is first recorded, and stays. */
  predicate PairEffect(s: State, u: Uid, after: Token) {
    && (HasPair(after.phase) ==> after.pair.Some?)
    && ((u in s.tokens && after.pair == s.tokens[u].pair) || after.pair.None? || FreshPair(s, after.pair.value))
  }

  lemma StepPairEffect(s: State, e: Event)
    requires Enabled(s, e) && Subject(e).Some?
    requires e.u in s.tokens && HasPair(s.tokens[e.u].phase) ==> s.tokens[e.u].pair.Some?
    ensures PairEffect(s, e.u, NextToken(s, e))
  {
    hide FreshPair, ChannelEmpty, ConsumerIdle;
  }

  lemma PairEffectKeeps(s: State, t: State, u: Uid)
    requires PairsDistinct(s) && u in t.tokens && t.tokens == s.tokens[u := t.tokens[u]]
    requires PairEffect(s, u, t.tokens[u])
    ensures PairsDistinct(t)
  {
    hide HasPair;
  }

  lemma KeepsPairs(s: State, e: Event)
    requires Enabled(s, e) && PairsDistinct(s)
    ensures PairsDistinct(Next(s, e))
  {
    StepMovesOneToken(s, e);
    if Subject(e).Some? {
      assert e.u in s.tokens && HasPair(s.tokens[e.u].phase) ==> s.tokens[e.u].pair.Some?;
      hide PairsDistinct, PairEffect;
      StepPairEffect(s, e);
      hide Enabled, Guard, NextToken, NextIdentifiers, NextProcesses, NextPairs, NextHeld;
      PairEffectKeeps(s, Next(s, e), e.u);
    }
  }

  predicate IndexEffect(s: State, u: Uid, after: Token, index: map<Pair, Uid>) {
    var was := u in s.tokens && Paired(s.tokens[u].phase);
    if Paired(after.phase) then
      && after.pair.Some?
      && if was then index == s.pairs && s.tokens[u].pair == after.pair else index == s.pairs[after.pair.value := u]
    else if was then s.tokens[u].pair.Some? && index == s.pairs - {s.tokens[u].pair.value}
    else index == s.pairs
  }

  lemma StepIndexEffect(s: State, e: Event)
    requires Enabled(s, e) && Subject(e).Some?
    requires e.u in s.tokens && HasPair(s.tokens[e.u].phase) ==> s.tokens[e.u].pair.Some?
    requires e.Unlist? ==> e.u in s.processes
    requires e.Unpair? ==> s.tokens[e.u].pair == Some(s.held.value.pair)
    ensures IndexEffect(s, e.u, NextToken(s, e), NextPairs(s, e))
  {
    hide FreshPair, ChannelEmpty, ConsumerIdle;
  }

  lemma IndexEffectKeeps(s: State, t: State, u: Uid)
    requires IndexPaired(s) && PairsDistinct(t) && u in t.tokens && t.tokens == s.tokens[u := t.tokens[u]]
    requires IndexEffect(s, u, t.tokens[u], t.pairs)
    ensures IndexPaired(t)
  {
    hide Paired, HasPair;
  }

  lemma KeepsIndex(s: State, e: Event)
    requires Enabled(s, e) && IndexPaired(s) && PairsDistinct(s) && TableListed(s) && OneAtATime(s)
    ensures IndexPaired(Next(s, e))
  {
    StepMovesOneToken(s, e);
    KeepsPairs(s, e);
    if Subject(e).Some? {
      assert e.Unpair? ==> InConsumer(s.tokens[e.u].phase);
      assert e.Unlist? ==> Listed(s.tokens[e.u].phase);
      assert e.u in s.tokens && HasPair(s.tokens[e.u].phase) ==> s.tokens[e.u].pair.Some?;
      StepIndexEffect(s, e);
      hide Enabled, Guard, NextToken, NextIdentifiers, NextProcesses, NextPairs, NextHeld, TableListed, OneAtATime;
      hide IndexEffect, IndexPaired, PairsDistinct;
      IndexEffectKeeps(s, Next(s, e), e.u);
    }
  }

  predicate QueueEffect(s: State, u: Uid, after: Token, held: Option<Proc>) {
    && (after.phase.Queued? ==> ChannelEmpty(s) || (u in s.tokens && s.tokens[u].phase.Queued?))
    && (InConsumer(after.phase) ==> ConsumerIdle(s) || (u in s.tokens && InConsumer(s.tokens[u].phase)))
    && (InConsumer(after.phase) && !after.phase.Received? ==>
          held.Some? && after.pair == Some(held.value.pair) && after.ident == held.value.ident)
    && (held != s.held ==> u in s.tokens && InConsumer(s.tokens[u].phase))
  }

  lemma StepQueueEffect(s: State, e: Event)
    requires Enabled(s, e) && Subject(e).Some?
    requires e.Unlist? ==>
      && e.u in s.processes
      && s.tokens[e.u].pair == Some(s.processes[e.u].pair) && s.tokens[e.u].ident == s.processes[e.u].ident
    requires e.u in s.tokens && InConsumer(s.tokens[e.u].phase) && !s.tokens[e.u].phase.Received? ==>
      s.held.Some? && s.tokens[e.u].pair == Some(s.held.value.pair) && s.tokens[e.u].ident == s.held.value.ident
    ensures QueueEffect(s, e.u, NextToken(s, e), NextHeld(s, e))
  {
    hide FreshPair, ChannelEmpty, ConsumerIdle;
  }

  lemma QueueEffectKeeps(s: State, t: State, u: Uid)
    requires OneAtATime(s) && u in t.tokens && t.tokens == s.tokens[u := t.tokens[u]]
    requires QueueEffect(s, u, t.tokens[u], t.held)
    ensures OneAtATime(t)
  {
    hide InConsumer;
  }

  lemma KeepsOne(s: State, e: Event)
    requires Enabled(s, e) && OneAtATime(s) && TableListed(s)
    ensures OneAtATime(Next(s, e))
  {
    StepMovesOneToken(s, e);
    if Subject(e).Some? {
      assert e.Unlist? ==> Listed(s.tokens[e.u].phase);
      StepQueueEffect(s, e);
      hide Enabled, Guard, NextToken, NextIdentifiers, NextProcesses, NextPairs, NextHeld, TableListed, OneAtATime;
      hide QueueEffect;
      QueueEffectKeeps(s, Next(s, e), e.u);
    }
  }

  predicate CountEffect(s: State, u: Uid, after: Token, wg: int) {
    var was := u in s.tokens && Counts(s.tokens[u].phase);
    var now := Counts(after.phase);
    wg == s.wg + (if now && !was then 1 else if was && !now then -1 else 0)
  }

  lemma CountEffectKeeps(s: State, t: State, u: Uid)
    requires WaitGroupCounts(s) && u in t.tokens && t.tokens == s.tokens[u := t.tokens[u]]
    requires CountEffect(s, u, t.tokens[u], t.wg)
    ensures WaitGroupCounts(t)
  {
    hide Counts;
    var before, after := Running(s), Running(t);
    var expected := if Counts(t.tokens[u].phase) then before + {u} else before - {u};
    RunningAfter(s, t, u);
    hide Running;
    assert after == expected;
    SizeOfOneMore(before, u);
  }

  lemma RunningAfter(s: State, t: State, u: Uid)
    requires u in t.tokens && t.tokens == s.tokens[u := t.tokens[u]]
    ensures forall v ::
      v in Running(t) <==> v in (if Counts(t.tokens[u].phase) then Running(s) + {u} else Running(s) - {u})
    ensures u in Running(s) <==> u in s.tokens && Counts(s.tokens[u].phase)
  {
    hide Counts;
  }

  lemma KeepsCount(s: State, e: Event)
    requires Enabled(s, e) && WaitGroupCounts(s)
    ensures WaitGroupCounts(Next(s, e))
  {
    StepMovesOneToken(s, e);
    if Subject(e).None? {
      assert Running(Next(s, e)) == Running(s);
    } else {
      hide WaitGroupCounts, CountEffect;
      StepCountEffect(s, e);
      hide Enabled, Guard, NextToken, NextIdentifiers, NextProcesses, NextPairs, NextHeld, NextCount;
      CountEffectKeeps(s, Next(s, e), e.u);
    }
  }

  lemma SizeOfOneMore(us: set<Uid>, u: Uid)
    ensures |us + {u}| == |us| + (if u in us then 0 else 1)
    ensures |us - {u}| == |us| - (if u in us then 1 else 0)
  {
    if u in us { assert us + {u} == us; } else { assert us - {u} == us; }
  }

  lemma StepCountEffect(s: State, e: Event)
    requires Enabled(s, e) && Subject(e).Some?
    ensures CountEffect(s, e.u, NextToken(s, e), NextCount(s, e))
  {
    hide FreshPair, ChannelEmpty, ConsumerIdle;
  }

  lemma StepKeepsInv(s: State, e: Event)
    requires Inv(s) && Enabled(s, e)
    ensures Inv(Next(s, e))
  {
    hide IdentifiersOwned, TableListed, IndexPaired, PairsDistinct, LiveOwned, OneAtATime, WaitGroupCounts, Next;
    hide Enabled;
    KeepsIdentifiers(s, e);
    KeepsTable(s, e);
    KeepsPairs(s, e);
    KeepsIndex(s, e);
    KeepsLive(s, e);
    KeepsOne(s, e);
    KeepsCount(s, e);
    PanicsWhenClosed(s, e);
  }

  /** Only a send on the closed channel panics, and the channel stays closed. */
  lemma PanicsWhenClosed(s: State, e: Event)
    requires Enabled(s, e) && (s.panicked ==> s.shutdown.Closed?)
    ensures Next(s, e).panicked ==> Next(s, e).shutdown.Closed?
  {
  }

  // ---------- runs ----------

  predicate Run(states: seq<State>, events: seq<Event>) {
    && |states| == |events| + 1 && states[0] == START
    && forall i :: 0 <= i < |events| ==> Enabled(states[i], events[i]) && states[i + 1] == Next(states[i], events[i])
  }

  lemma {:induction false} RunKeepsInv(states: seq<State>, events: seq<Event>, n: nat)
    requires Run(states, events) && n <= |events|
    ensures Inv(states[n])
  {
    if n == 0 {
      assert Running(START) == {};
    } else {
      RunKeepsInv(states, events, n - 1);
      hide Inv, Enabled, Next;
      StepKeepsInv(states[n - 1], events[n - 1]);
    }
  }

  /** Spawned at some step before, and not ended since. */
  ghost predicate HasSpawned(events: seq<Event>, n: nat, u: Uid)
    requires n <= |events|
  {
    exists i :: 0 <= i < n && events[i] == Spawn(u) && NotEnded(events, i + 1, n, u)
  }

  predicate NotEnded(events: seq<Event>, from: nat, n: nat, u: Uid)
    requires n <= |events|
  {
    forall j :: from <= j < n ==> events[j] != Die(u) && events[j] != Reap(u)
  }

  lemma SpawnedNext(events: seq<Event>, n: nat, u: Uid)
    requires n < |events|
    ensures HasSpawned(events, n + 1, u) <==>
      events[n] == Spawn(u) || (HasSpawned(events, n, u) && events[n] != Die(u) && events[n] != Reap(u))
  {
    if events[n] == Spawn(u) {
      assert NotEnded(events, n + 1, n + 1, u);
    } else if HasSpawned(events, n + 1, u) {
      var i :| 0 <= i < n + 1 && events[i] == Spawn(u) && NotEnded(events, i + 1, n + 1, u);
      assert NotEnded(events, i + 1, n, u);
    } else if HasSpawned(events, n, u) {
      var i :| 0 <= i < n && events[i] == Spawn(u) && NotEnded(events, i + 1, n, u);
      assert !NotEnded(events, i + 1, n + 1, u);
    }
  }

  lemma StepOfLife(s: State, e: Event, u: Uid)
    requires Enabled(s, e)
    ensures var t := Next(s, e);
            u in t.tokens && t.tokens[u].alive <==>
              e == Spawn(u) || (u in s.tokens && s.tokens[u].alive && e != Die(u) && e != Reap(u))
  {
    StepMovesOneToken(s, e);
    hide FreshPair, ChannelEmpty, ConsumerIdle, NextIdentifiers, NextProcesses, NextPairs;
  }

  /** A process is alive exactly from the step that spawned it to its death or the reaping of its failed start. */
  lemma {:induction false} AliveIffSpawned(states: seq<State>, events: seq<Event>, n: nat, u: Uid)
    requires Run(states, events) && n <= |events|
    ensures u in states[n].tokens && states[n].tokens[u].alive <==> HasSpawned(events, n, u)
  {
    hide Enabled, Next, HasSpawned;
    if n == 0 {
      NoneSpawned(events, u);
    } else {
      AliveIffSpawned(states, events, n - 1, u);
      SpawnedNext(events, n - 1, u);
      StepOfLife(states[n - 1], events[n - 1], u);
    }
  }

  lemma NoneSpawned(events: seq<Event>, u: Uid)
    ensures !HasSpawned(events, 0, u)
  {
  }

  /** In every interleaving, two processes with the same identifier are never alive at once, whether they are
      registered, being started, or being killed because their start failed. */
  lemma NeverTwoAlive(states: seq<State>, events: seq<Event>, n: nat, u: Uid, v: Uid)
    requires Run(states, events) && n <= |events|
    requires u in states[n].tokens && v in states[n].tokens && states[n].tokens[u].alive && states[n].tokens[v].alive
    requires states[n].tokens[u].ident.Some? && states[n].tokens[u].ident == states[n].tokens[v].ident
    ensures u == v
  {
    hide TableListed, IndexPaired, PairsDistinct, OneAtATime, WaitGroupCounts, Enabled, Next;
    RunKeepsInv(states, events, n);
    var s := states[n];
    assert MayLive(s.tokens[u].phase) && MayLive(s.tokens[v].phase);
    assert OwnsIdent(s.tokens[u]) && OwnsIdent(s.tokens[v]);
  }

  /** A start that is still in the middle of registering, or one the consumer is in the middle of recycling. */
  predicate Unsettled(phase: Phase) {
    !(phase.Watched? || phase.Sending? || phase.Queued? || phase.Gone?)
  }

  predicate Quiescent(s: State) {
    forall u :: u in s.tokens ==> !Unsettled(s.tokens[u].phase)
  }

  /** The identifier set and the pair index agree with the process table up to entries of unsettled starts: an
      identifier or pair of a registered process is there and is its own, and any other belongs to an unsettled one. */
  lemma TablesAgree(states: seq<State>, events: seq<Event>, n: nat)
    requires Run(states, events) && n <= |events|
    ensures var s := states[n];
      && (forall u :: u in s.processes && s.processes[u].ident.Some? ==> s.processes[u].ident.value in s.identifiers)
      && (forall i :: i in s.identifiers ==>
            (exists u :: u in s.processes && s.processes[u].ident == Some(i))
            || (exists u :: u in s.tokens && s.tokens[u].ident == Some(i) && Unsettled(s.tokens[u].phase)))
      && (forall u :: u in s.processes && u in s.tokens && !Unsettled(s.tokens[u].phase) ==>
            s.processes[u].pair in s.pairs && s.pairs[s.processes[u].pair] == u)
      && (forall pair :: pair in s.pairs ==>
            (s.pairs[pair] in s.processes && s.processes[s.pairs[pair]].pair == pair)
            || (s.pairs[pair] in s.tokens && Unsettled(s.tokens[s.pairs[pair]].phase)))
  {
    RunKeepsInv(states, events, n);
    hide Run, WaitGroupCounts, OneAtATime, LiveOwned;
    var s := states[n];
    forall i | i in s.identifiers
      ensures (exists u :: u in s.processes && s.processes[u].ident == Some(i))
        || (exists u :: u in s.tokens && s.tokens[u].ident == Some(i) && Unsettled(s.tokens[u].phase))
    {
      var u :| u in s.tokens && OwnsIdent(s.tokens[u]) && s.tokens[u].ident.value == i;
      assert s.tokens[u].ident == Some(i);
      if !Unsettled(s.tokens[u].phase) { assert Listed(s.tokens[u].phase); }
    }
    forall u | u in s.processes && u in s.tokens && !Unsettled(s.tokens[u].phase)
      ensures s.processes[u].pair in s.pairs && s.pairs[s.processes[u].pair] == u
    {
      assert Paired(s.tokens[u].phase);
    }
    forall u | u in s.processes && s.processes[u].ident.Some? ensures s.processes[u].ident.value in s.identifiers {
      assert OwnsIdent(s.tokens[u]);
    }
  }

  /** In quiescent states the three tables agree exactly. */
  lemma TablesAgreeExactly(states: seq<State>, events: seq<Event>, n: nat)
    requires Run(states, events) && n <= |events| && Quiescent(states[n])
    ensures var s := states[n];
      && s.identifiers == (set u | u in s.processes && s.processes[u].ident.Some? :: s.processes[u].ident.value)
      && s.pairs.Keys == (set u | u in s.processes :: s.processes[u].pair)
      && (forall u :: u in s.processes ==> s.pairs[s.processes[u].pair] == u)
  {
    TablesAgree(states, events, n);
    RunKeepsInv(states, events, n);
    hide Run, WaitGroupCounts, OneAtATime, LiveOwned, IdentifiersOwned, IndexPaired, PairsDistinct, Unsettled, Listed;
    var s := states[n];
    forall i | i in s.identifiers ensures exists u :: u in s.processes && s.processes[u].ident == Some(i) {
    }
    forall pair | pair in s.pairs ensures exists u :: u in s.processes && s.processes[u].pair == pair {
      assert s.pairs[pair] in s.processes;
    }
  }

  predicate Owns(s: State, v: Uid, ident: string) {
    v in s.tokens && OwnsIdent(s.tokens[v]) && s.tokens[v].ident == Some(ident)
  }

  /** In none of the tables, and every identifier still taken is owned by another start. */
  predicate Released(s: State, u: Uid) {
    && u !in s.processes
    && (forall pair :: pair in s.pairs ==> s.pairs[pair] != u)
    && (forall i :: i in s.identifiers ==> exists v :: v in s.tokens && v != u && Owns(s, v, i))
  }

  /** A kill that returned without error saw the stop signal: the process is in none of the tables, and a later
      start with its identifier can only be refused on account of another start that owns it. */
  lemma KilledIsGone(states: seq<State>, events: seq<Event>, n: nat, u: Uid)
    requires Run(states, events) && n <= |events|
    requires u in states[n].tokens && (states[n].tokens[u].phase.Stopped? || states[n].tokens[u].phase.Gone?)
    ensures Released(states[n], u)
  {
    RunKeepsInv(states, events, n);
    hide Run, WaitGroupCounts, OneAtATime, LiveOwned;
    var s := states[n];
    forall i | i in s.identifiers ensures exists v :: v != u && Owns(s, v, i) {
      var v :| v in s.tokens && OwnsIdent(s.tokens[v]) && s.tokens[v].ident.value == i;
      assert v != u && Owns(s, v, i);
    }
  }

  /** In every run a start is admitted exactly when no other start owns its identifier; one without an identifier is
      always admitted. */
  lemma StartAdmittedIff(states: seq<State>, events: seq<Event>, n: nat, u: Uid, ident: string)
    requires Run(states, events) && n <= |events| && u !in states[n].tokens
    ensures Enabled(states[n], Begin(u, Some(ident))) <==>
      forall v :: v in states[n].tokens ==> !Owns(states[n], v, ident)
    ensures Enabled(states[n], Begin(u, None))
  {
    RunKeepsInv(states, events, n);
    hide Run, WaitGroupCounts, OneAtATime, LiveOwned, TableListed, IndexPaired, PairsDistinct;
    var s := states[n];
    if ident in s.identifiers {
      var v :| v in s.tokens && OwnsIdent(s.tokens[v]) && s.tokens[v].ident.value == ident;
      assert Owns(s, v, ident);
    } else {
      forall v | v in s.tokens ensures !Owns(s, v, ident) {}
    }
  }

  /** After a kill that returned without error, a start with the identifier of that process is refused exactly when a
      start other than the killed one owns it. */
  lemma RestartRefusedIff(states: seq<State>, events: seq<Event>, n: nat, killed: Uid, u: Uid, ident: string)
    requires Run(states, events) && n <= |events| && u !in states[n].tokens
    requires killed in states[n].tokens && states[n].tokens[killed].ident == Some(ident)
    requires states[n].tokens[killed].phase.Stopped? || states[n].tokens[killed].phase.Gone?
    ensures !Enabled(states[n], Begin(u, Some(ident))) <==>
      exists v :: v in states[n].tokens && v != killed && Owns(states[n], v, ident)
  {
    hide Run, Enabled;
    StartAdmittedIff(states, events, n, u, ident);
  }

  /** A start that fails, before or after its command began, runs to its end whatever else goes on, and then no longer
      owns its identifier. */
  lemma FailingStartEnds(s: State, u: Uid) returns (states: seq<State>, events: seq<Event>)
    requires Inv(s) && u in s.tokens && (s.tokens[u].phase.Reserved? || s.tokens[u].phase.Spawned?)
    ensures Path(states, events) && states[0] == s
    ensures var t := states[|events|];
            && Inv(t) && u in t.tokens && t.tokens[u].phase.Gone? && !t.tokens[u].alive
            && t.tokens == s.tokens[u := t.tokens[u]] && t.processes == s.processes
            && (s.tokens[u].ident.Some? ==> t.identifiers == s.identifiers - {s.tokens[u].ident.value})
  {
    hide Inv, Enabled, Next, NextToken;
    if s.tokens[u].phase.Reserved? {
      NotAliveYet(s, u);
      var a := FailingStep(s, CannotStart(u));
      var b := FailingStep(a, Release(u));
      states, events := [s, a, b], [CannotStart(u), Release(u)];
    } else {
      var a := FailingStep(s, MetadataFails(u));
      var b := FailingStep(a, Reap(u));
      var c := FailingStep(b, Release(u));
      states, events := [s, a, b, c], [MetadataFails(u), Reap(u), Release(u)];
    }
  }

  lemma FailingStep(s: State, e: Event) returns (t: State)
    requires Inv(s) && (e.CannotStart? || e.MetadataFails? || e.Reap? || e.Release?) && At(s, e.u, From(e).value)
    ensures Enabled(s, e) && t == Next(s, e) && Inv(t) && t.processes == s.processes
    ensures e.u in t.tokens && t.tokens == s.tokens[e.u := t.tokens[e.u]] && t.tokens[e.u].ident == s.tokens[e.u].ident
    ensures t.tokens[e.u].phase == if e.MetadataFails? then Reaping else if e.Release? then Gone else Failed
    ensures t.tokens[e.u].alive == (s.tokens[e.u].alive && !e.Reap?)
    ensures t.identifiers ==
      if e.Release? && s.tokens[e.u].ident.Some? then s.identifiers - {s.tokens[e.u].ident.value} else s.identifiers
  {
    hide Inv;
    StepKeepsInv(s, e);
    t := Next(s, e);
  }

  lemma NotAliveYet(s: State, u: Uid)
    requires Inv(s) && u in s.tokens && s.tokens[u].phase.Reserved?
    ensures !s.tokens[u].alive
  {
    hide IdentifiersOwned, TableListed, IndexPaired, PairsDistinct, OneAtATime, WaitGroupCounts;
  }

  /** The only process registered under an identifier, and the pair handed out for it leads back to it. */
  lemma RegisteredOnce(states: seq<State>, events: seq<Event>, n: nat, u: Uid)
    requires Run(states, events) && n <= |events| && u in states[n].processes
    ensures var s := states[n];
      && u in s.tokens
      && (forall v :: v in s.processes && s.processes[v].ident.Some? && s.processes[v].ident == s.processes[u].ident ==>
          v == u)
      && (!s.tokens[u].phase.Stored? ==> s.processes[u].pair in s.pairs && s.pairs[s.processes[u].pair] == u)
  {
    RunKeepsInv(states, events, n);
    hide Run, WaitGroupCounts, OneAtATime, LiveOwned;
    var s := states[n];
    forall v | v in s.processes && s.processes[v].ident.Some? && s.processes[v].ident == s.processes[u].ident
      ensures v == u
    {
      assert OwnsIdent(s.tokens[v]) && OwnsIdent(s.tokens[u]);
    }
    if !s.tokens[u].phase.Stored? { assert Paired(s.tokens[u].phase); }
  }

  // ---------- conservation and shutdown ----------

  function Started(events: seq<Event>): nat {
    if events == [] then 0 else Started(events[..|events| - 1]) + if events[|events| - 1].Count? then 1 else 0
  }

  function Recycled(events: seq<Event>): nat {
    if events == [] then 0 else Recycled(events[..|events| - 1]) + if events[|events| - 1].Finish? then 1 else 0
  }

  lemma CountStep(s: State, e: Event)
    requires Enabled(s, e)
    ensures Next(s, e).wg == s.wg + (if e.Count? then 1 else 0) - (if e.Finish? then 1 else 0)
  {
    hide Guard, NextToken, NextIdentifiers, NextProcesses, NextPairs, NextHeld, NextShutdown;
  }

  /** The wait group counts the processes started and not yet recycled, and those are the ones with a waiter, a
      place in the channel or the consumer's attention. */
  lemma {:induction false} Conservation(states: seq<State>, events: seq<Event>, n: nat)
    requires Run(states, events) && n <= |events|
    ensures states[n].wg == Started(events[..n]) - Recycled(events[..n]) == |Running(states[n])|
  {
    hide IdentifiersOwned, TableListed, IndexPaired, PairsDistinct, LiveOwned, OneAtATime, Running, Enabled, Next;
    RunKeepsInv(states, events, n);
    if n > 0 {
      Conservation(states, events, n - 1);
      CountStep(states[n - 1], events[n - 1]);
      assert events[..n][..n - 1] == events[..n - 1];
    }
  }

  /** A start that may yet put a process under the manager's care. */
  predicate MayRun(phase: Phase) {
    phase.Reserved? || phase.Spawned? || phase.Ready? || phase.Stored? || phase.Indexed?
  }

  predicate StartInFlight(s: State) {
    exists u :: u in s.tokens && MayRun(s.tokens[u].phase)
  }

  /** Steps from any state in which no new start begins. */
  predicate Path(states: seq<State>, events: seq<Event>) {
    && |states| == |events| + 1
    && forall i :: 0 <= i < |events| ==>
         !events[i].Begin? && Enabled(states[i], events[i]) && states[i + 1] == Next(states[i], events[i])
  }

  /** Nothing is left that could send on the death channel. */
  predicate Settled(s: State) {
    forall u :: u in s.tokens ==> s.tokens[u].phase.Reaping? || s.tokens[u].phase.Failed? || s.tokens[u].phase.Gone?
  }

  lemma SettledStays(s: State, e: Event)
    requires Enabled(s, e) && Settled(s) && !e.Begin?
    ensures Settled(Next(s, e)) && Next(s, e).panicked == s.panicked
  {
    hide FreshPair, ChannelEmpty, ConsumerIdle, NextIdentifiers, NextProcesses, NextPairs;
    StepMovesOneToken(s, e);
    if Subject(e).Some? {
      assert e.u in s.tokens;
      var after := NextToken(s, e);
      assert after.phase.Reaping? || after.phase.Failed? || after.phase.Gone?;
    }
  }

  lemma {:induction false} SettledPath(states: seq<State>, events: seq<Event>, n: nat)
    requires Path(states, events) && Settled(states[0]) && n <= |events|
    ensures Settled(states[n]) && states[n].panicked == states[0].panicked
  {
    if n > 0 {
      SettledPath(states, events, n - 1);
      hide Settled, Enabled, Next;
      SettledStays(states[n - 1], events[n - 1]);
    }
  }

  /** With the wait group at zero and no start in flight, nothing is registered and nothing is left to send. */
  lemma ZeroMeansSettled(s: State)
    requires Inv(s) && s.wg == 0
    ensures !StartInFlight(s) ==> Settled(s) && s.processes == map[] && s.pairs == map[]
    ensures !StartInFlight(s) && (forall u :: u in s.tokens ==> s.tokens[u].phase.Gone?) ==> s.identifiers == {}
  {
    hide OneAtATime, LiveOwned, PairsDistinct;
    assert Running(s) == {};
    forall u | u in s.tokens ensures !Counts(s.tokens[u].phase) { assert u !in Running(s); }
    if !StartInFlight(s) {
      forall u | u in s.tokens
        ensures s.tokens[u].phase.Reaping? || s.tokens[u].phase.Failed? || s.tokens[u].phase.Gone?
      {
        assert !MayRun(s.tokens[u].phase);
      }
      assert s.processes.Keys == {};
      assert s.pairs.Keys == {};
    }
  }

  /** No StartProcess call is under way, not even one that is failing. */
  predicate NoCall(s: State) {
    forall u :: u in s.tokens ==>
      !MayRun(s.tokens[u].phase) && !s.tokens[u].phase.Reaping? && !s.tokens[u].phase.Failed?
  }

  lemma NoCallStays(s: State, e: Event)
    requires Enabled(s, e) && NoCall(s) && !e.Begin?
    ensures NoCall(Next(s, e))
  {
    hide FreshPair, ChannelEmpty, ConsumerIdle, NextIdentifiers, NextProcesses, NextPairs;
    StepMovesOneToken(s, e);
    if Subject(e).Some? {
      assert e.u in s.tokens;
      var after := NextToken(s, e);
      assert !MayRun(after.phase) && !after.phase.Reaping? && !after.phase.Failed?;
    }
  }

  predicate TablesEmpty(s: State) {
    s.identifiers == {} && s.processes == map[] && s.pairs == map[]
  }

  lemma {:induction false} NoCallBetween(states: seq<State>, events: seq<Event>, from: nat, n: nat)
    requires Run(states, events) && from <= n <= |events| && NoCall(states[from])
    requires forall i :: from <= i < n ==> !events[i].Begin?
    ensures NoCall(states[n])
  {
    hide NoCall, Enabled, Next;
    if from < n {
      NoCallBetween(states, events, from, n - 1);
      NoCallStays(states[n - 1], events[n - 1]);
    }
  }

  lemma {:induction false} SettledBetween(states: seq<State>, events: seq<Event>, from: nat, n: nat)
    requires Run(states, events) && from <= n <= |events| && Settled(states[from])
    requires forall i :: from <= i < n ==> !events[i].Begin?
    ensures Settled(states[n]) && states[n].panicked == states[from].panicked
  {
    hide Settled, Enabled, Next;
    if from < n {
      SettledBetween(states, events, from, n - 1);
      SettledStays(states[n - 1], events[n - 1]);
    }
  }

  lemma SettledWithoutCalls(s: State)
    requires Inv(s) && Settled(s) && NoCall(s)
    ensures TablesEmpty(s)
  {
    hide IdentifiersOwned, TableListed, IndexPaired, PairsDistinct, LiveOwned, OneAtATime, WaitGroupCounts;
    NothingRunning(s);
    ZeroMeansSettled(s);
    assert !StartInFlight(s);
  }

  lemma NothingRunning(s: State)
    requires Inv(s) && Settled(s)
    ensures s.wg == 0
  {
    hide IdentifiersOwned, TableListed, IndexPaired, PairsDistinct, LiveOwned, OneAtATime;
    assert Running(s) == {};
  }

  /** Without calls the count stays zero from the end of the wait on. */
  lemma {:induction false} SettledOnceAwaited(states: seq<State>, events: seq<Event>, begun: nat, n: nat)
    requires Run(states, events) && begun <= n <= |events| && NoCall(states[begun])
    requires states[begun].shutdown.Off? || states[begun].shutdown.Waiting?
    requires forall i :: begun <= i < n ==> !events[i].Begin?
    ensures states[n].shutdown.Awaited? || states[n].shutdown.Closed? ==>
      Settled(states[n]) && states[n].wg == 0 && !states[n].panicked
  {
    hide Enabled, Next, Inv, NoCall, Settled;
    if begun < n {
      var s, e := states[n - 1], events[n - 1];
      SettledOnceAwaited(states, events, begun, n - 1);
      NoCallBetween(states, events, begun, n - 1);
      RunKeepsInv(states, events, n - 1);
      RunKeepsInv(states, events, n);
      AwaitedStep(s, e);
    }
  }

  lemma AwaitedStep(s: State, e: Event)
    requires Inv(s) && Enabled(s, e) && Inv(Next(s, e)) && NoCall(s) && !e.Begin?
    requires s.shutdown.Awaited? || s.shutdown.Closed? ==> Settled(s) && s.wg == 0 && !s.panicked
    ensures var t := Next(s, e);
            t.shutdown.Awaited? || t.shutdown.Closed? ==> Settled(t) && t.wg == 0 && !t.panicked
  {
    ShutdownStep(s, e);
    hide Enabled, Next, Inv, Settled;
    var t := Next(s, e);
    if t.shutdown.Awaited? || t.shutdown.Closed? {
      assert !StartInFlight(s);
      ZeroMeansSettled(s);
      SettledStays(s, e);
      NothingRunning(t);
    }
  }

  /** The wait ends only with the count at zero, and the close comes only after it. */
  lemma ShutdownStep(s: State, e: Event)
    requires Enabled(s, e) && Inv(s)
    ensures var t := Next(s, e);
            t.shutdown.Awaited? || t.shutdown.Closed? ==>
              if s.shutdown.Awaited? || s.shutdown.Closed? then true else s.wg == 0 && !s.panicked
  {
    hide NextToken, NextIdentifiers, NextProcesses, NextPairs, NextHeld;
  }

  /** Safe shutdown: if no start overlaps Shutdown, then when the death channel is closed all three tables are
      empty, and from then on nothing sends on the closed channel. */
  lemma ShutdownIsClean(states: seq<State>, events: seq<Event>, begun: nat, closed: nat, n: nat)
    requires Run(states, events) && begun < closed < n <= |events|
    requires events[begun] == ShutDown && events[closed] == Close && NoCall(states[begun])
    requires forall i :: begun <= i < n ==> !events[i].Begin?
    ensures TablesEmpty(states[closed]) && TablesEmpty(states[n]) && !states[n].panicked && Settled(states[n])
  {
    assert states[begun].shutdown.Off? && states[closed].shutdown.Awaited?;
    SettledOnceAwaited(states, events, begun, closed);
    NoCallBetween(states, events, begun, closed);
    RunKeepsInv(states, events, closed);
    hide Enabled, Next, Inv;
    SettledWithoutCalls(states[closed]);
    SettledBetween(states, events, closed, n);
    NoCallBetween(states, events, closed, n);
    RunKeepsInv(states, events, n);
    SettledWithoutCalls(states[n]);
  }

  // ---------- exactly when closing is unsafe ----------

  lemma {:induction false} FreshPidExists(tokens: map<Uid, Token>) returns (pid: int)
    ensures forall u :: u in tokens && tokens[u].pair.Some? ==> tokens[u].pair.value.pid < pid
    decreases |tokens|
  {
    if tokens == map[] {
      pid := 0;
    } else {
      var u :| u in tokens;
      var rest := tokens - {u};
      assert |rest| < |tokens| by { assert rest.Keys == tokens.Keys - {u}; assert |rest.Keys| == |tokens.Keys| - 1; }
      var p := FreshPidExists(rest);
      pid := if tokens[u].pair.Some? && tokens[u].pair.value.pid >= p then tokens[u].pair.value.pid + 1 else p;
      forall v | v in tokens && tokens[v].pair.Some? ensures tokens[v].pair.value.pid < pid {
        if v != u { assert rest[v] == tokens[v]; }
      }
    }
  }

  /** Steps left until a start's waiter sends. */
  function StepsToSend(token: Token): nat {
    match token.phase
    case Reserved => 9
    case Spawned => 8
    case Ready => 7
    case Stored => 6
    case Indexed => 5
    case Counted => 4
    case Watched => if token.alive then 3 else 2
    case Sending => 1
    case _ => 0
  }

  /** The next step of a start that goes well until its process exits. */
  lemma NextTowardsSend(s: State, u: Uid) returns (e: Event)
    requires u in s.tokens && StepsToSend(s.tokens[u]) > 1 && s.shutdown.Closed?
    requires s.tokens[u].phase.Ready? || s.tokens[u].phase.Stored? ==> s.tokens[u].pair.Some?
    ensures Enabled(s, e) && !e.Begin?
    ensures u in Next(s, e).tokens && 0 < StepsToSend(Next(s, e).tokens[u]) < StepsToSend(s.tokens[u])
    ensures Next(s, e).shutdown.Closed?
    ensures var after := Next(s, e).tokens[u]; after.phase.Ready? || after.phase.Stored? ==> after.pair.Some?
  {
    var pid := FreshPidExists(s.tokens);
    var token := s.tokens[u];
    e := if token.phase.Reserved? then Spawn(u)
         else if token.phase.Spawned? then MetadataRead(u, Pair(pid, 0))
         else if token.phase.Ready? then Store(u)
         else if token.phase.Stored? then Index(u)
         else if token.phase.Indexed? then Count(u)
         else if token.phase.Counted? then Watch(u)
         else if token.alive then Die(u) else WaitReturns(u);
    hide NextIdentifiers, NextProcesses, NextPairs, NextHeld, ChannelEmpty, ConsumerIdle;
  }

  lemma SendPanics(s: State, u: Uid)
    requires At(s, u, Sending) && s.shutdown.Closed?
    ensures Enabled(s, Send(u)) && Next(s, Send(u)).panicked
  {
  }

  lemma {:induction false} CanPanic(s: State, u: Uid) returns (states: seq<State>, events: seq<Event>)
    requires u in s.tokens && StepsToSend(s.tokens[u]) > 0 && s.shutdown.Closed?
    requires s.tokens[u].phase.Ready? || s.tokens[u].phase.Stored? ==> s.tokens[u].pair.Some?
    ensures Path(states, events) && states[0] == s && states[|events|].panicked
    decreases StepsToSend(s.tokens[u])
  {
    hide Next, Enabled;
    if s.tokens[u].phase.Sending? {
      SendPanics(s, u);
      events := [Send(u)];
      states := [s, Next(s, Send(u))];
    } else {
      var e := NextTowardsSend(s, u);
      var more, rest := CanPanic(Next(s, e), u);
      states, events := [s] + more, [e] + rest;
    }
  }

  predicate PanicsFrom(s: State, states: seq<State>, events: seq<Event>) {
    Path(states, events) && states[0] == s && states[|events|].panicked
  }

  /** Nothing in a start, and no waiter, that could still send. */
  predicate Silent(s: State) {
    forall u :: u in s.tokens ==> StepsToSend(s.tokens[u]) == 0
  }

  lemma SilentStays(s: State, e: Event)
    requires Enabled(s, e) && Silent(s) && !e.Begin?
    ensures Silent(Next(s, e)) && Next(s, e).panicked == s.panicked
  {
    hide FreshPair, ChannelEmpty, ConsumerIdle, NextIdentifiers, NextProcesses, NextPairs;
    StepMovesOneToken(s, e);
    if Subject(e).Some? {
      assert e.u in s.tokens;
      assert StepsToSend(NextToken(s, e)) == 0;
    }
  }

  lemma {:induction false} SilentPath(states: seq<State>, events: seq<Event>, n: nat)
    requires Path(states, events) && Silent(states[0]) && n <= |events|
    ensures Silent(states[n]) && states[n].panicked == states[0].panicked
  {
    if n > 0 {
      SilentPath(states, events, n - 1);
      hide Silent, Enabled, Next;
      SilentStays(states[n - 1], events[n - 1]);
    }
  }

  /** Once Shutdown has closed the channel, some continuation of the calls already made panics exactly when a start that
      may still succeed is in flight or a waiter has not sent yet. */
  lemma ClosingIsUnsafeIff(s: State)
    requires Inv(s) && s.shutdown.Closed? && !s.panicked
    ensures (exists states: seq<State>, events: seq<Event> :: PanicsFrom(s, states, events)) <==> !Silent(s)
  {
    if !Silent(s) {
      var u :| u in s.tokens && StepsToSend(s.tokens[u]) > 0;
      assert HasPair(s.tokens[u].phase) ==> s.tokens[u].pair.Some?;
      var states, events := CanPanic(s, u);
      assert PanicsFrom(s, states, events);
    } else {
      forall states: seq<State>, events: seq<Event> | Path(states, events) && states[0] == s
        ensures !states[|events|].panicked
      {
        SilentPath(states, events, |events|);
      }
    }
  }

  // ---------- exactly when shutting down is unsafe ----------

  /** Steps left until a process under the manager's care is recycled. */
  function StepsToGone(token: Token): nat {
    match token.phase
    case Counted => 11
    case Watched => if token.alive then 10 else 9
    case Sending => 8
    case Queued => 7
    case Received => 6
    case Unlisted => 5
    case Unpaired => 4
    case Unnamed => 3
    case Stopped => 2
    case _ => 0
  }

  /** Nothing stands between this process and the end of its recycling: no other is in the consumer, and none in the
      channel before it. */
  predicate FirstInLine(s: State, v: Uid) {
    && v in s.tokens && Counts(s.tokens[v].phase)
    && (forall u :: u in s.tokens && u != v ==> !InConsumer(s.tokens[u].phase))
    && (InConsumer(s.tokens[v].phase) || forall u :: u in s.tokens && u != v ==> !s.tokens[u].phase.Queued?)
  }

  lemma SomeFirst(s: State) returns (v: Uid)
    requires Inv(s) && Running(s) != {}
    ensures FirstInLine(s, v)
  {
    hide IdentifiersOwned, TableListed, IndexPaired, PairsDistinct, LiveOwned, WaitGroupCounts;
    if u :| u in s.tokens && InConsumer(s.tokens[u].phase) {
      v := u;
    } else if u :| u in s.tokens && s.tokens[u].phase.Queued? {
      v := u;
    } else {
      v :| v in Running(s);
    }
  }

  /** The next step of a process on its way out. */
  function WayOut(s: State, v: Uid): Event
    requires v in s.tokens
  {
    match s.tokens[v].phase
    case Counted => Watch(v)
    case Watched => if s.tokens[v].alive then Die(v) else WaitReturns(v)
    case Sending => Send(v)
    case Queued => Receive(v)
    case Received => Unlist(v)
    case Unlisted => Unpair(v)
    case Unpaired => Unname(v)
    case Unnamed => Stop(v)
    case _ => Finish(v)
  }

  lemma WayOutIsOpen(s: State, v: Uid)
    requires Inv(s) && FirstInLine(s, v) && !s.shutdown.Closed?
    ensures var e := WayOut(s, v); Enabled(s, e) && !e.Begin? && Subject(e) == Some(v)
  {
    hide IdentifiersOwned, IndexPaired, PairsDistinct, LiveOwned, WaitGroupCounts, TableListed;
  }

  /** The step brings the process closer to its end and keeps it under care until then. */
  predicate Advances(before: Token, after: Token) {
    && StepsToGone(after) < StepsToGone(before)
    && (Counts(after.phase) || after.phase.Gone?)
    && (InConsumer(before.phase) ==> InConsumer(after.phase) || after.phase.Gone?)
  }

  lemma WayOutAdvances(s: State, v: Uid)
    requires FirstInLine(s, v) && !s.shutdown.Closed? && (s.tokens[v].phase.Received? ==> v in s.processes)
    requires Enabled(s, WayOut(s, v))
    ensures Advances(s.tokens[v], NextToken(s, WayOut(s, v)))
    ensures NextShutdown(s, WayOut(s, v)) == s.shutdown && !(WayOut(s, v).Send? && s.shutdown.Closed?)
  {
    hide FirstInLine, ChannelEmpty, ConsumerIdle, FreshPair;
  }

  lemma WayOutStep(s: State, v: Uid) returns (next: State)
    requires Inv(s) && FirstInLine(s, v) && !s.shutdown.Closed?
    ensures var e := WayOut(s, v); Enabled(s, e) && !e.Begin? && next == Next(s, e)
    ensures Inv(next) && next.shutdown == s.shutdown && next.panicked == s.panicked
    ensures v in next.tokens && next.tokens == s.tokens[v := next.tokens[v]] && Advances(s.tokens[v], next.tokens[v])
  {
    hide IdentifiersOwned, IndexPaired, PairsDistinct, LiveOwned, WaitGroupCounts, OneAtATime;
    WayOutIsOpen(s, v);
    var e := WayOut(s, v);
    next := Next(s, e);
    StepKeepsInv(s, e);
    StepMovesOneToken(s, e);
    hide Guard, From, NextToken, NextIdentifiers, NextProcesses, NextPairs, NextHeld, NextCount, NextShutdown, Advances;
    WayOutAdvances(s, v);
  }

  /** One process can be recycled while nothing else happens. */
  lemma {:induction false} Recycle(s: State, v: Uid) returns (states: seq<State>, events: seq<Event>)
    requires Inv(s) && FirstInLine(s, v) && !s.shutdown.Closed?
    ensures Path(states, events) && states[0] == s
    ensures var t := states[|events|];
            && Inv(t) && t.shutdown == s.shutdown && t.panicked == s.panicked
            && v in t.tokens && t.tokens[v].phase.Gone? && t.tokens == s.tokens[v := t.tokens[v]]
    decreases if v in s.tokens then StepsToGone(s.tokens[v]) else 0
  {
    hide Inv, Enabled, Next;
    var e := WayOut(s, v);
    var next := WayOutStep(s, v);
    if next.tokens[v].phase.Gone? {
      states, events := [s, next], [e];
    } else {
      StillFirst(s, next, v);
      hide FirstInLine;
      var more, rest := Recycle(next, v);
      states, events := [s] + more, [e] + rest;
    }
  }

  lemma StillFirst(s: State, next: State, v: Uid)
    requires FirstInLine(s, v) && v in next.tokens && next.tokens == s.tokens[v := next.tokens[v]]
    requires Advances(s.tokens[v], next.tokens[v]) && !next.tokens[v].phase.Gone?
    ensures FirstInLine(next, v)
  {
  }

  /** All processes under care can be recycled while starts in flight stand still. */
  lemma {:induction false} RecycleAll(s: State) returns (states: seq<State>, events: seq<Event>)
    requires Inv(s) && !s.shutdown.Closed?
    ensures Path(states, events) && states[0] == s
    ensures var t := states[|events|];
            && Inv(t) && t.shutdown == s.shutdown && t.panicked == s.panicked && t.wg == 0
            && forall u :: u in s.tokens && MayRun(s.tokens[u].phase) ==> u in t.tokens && t.tokens[u] == s.tokens[u]
    decreases |Running(s)|
  {
    if Running(s) == {} {
      states, events := [s], [];
    } else {
      hide Inv, Enabled, Next;
      var v := SomeFirst(s);
      var one, first := Recycle(s, v);
      var t := one[|first|];
      OneLess(s, t, v);
      hide FirstInLine, Running, MayRun;
      var more, rest := RecycleAll(t);
      states, events := one[..|first|] + more, first + rest;
      PathsJoin(one, first, more, rest);
    }
  }

  lemma OneLess(s: State, t: State, v: Uid)
    requires FirstInLine(s, v) && v in t.tokens && t.tokens == s.tokens[v := t.tokens[v]] && t.tokens[v].phase.Gone?
    ensures |Running(t)| < |Running(s)|
    ensures forall u :: u in s.tokens && MayRun(s.tokens[u].phase) ==> u in t.tokens && t.tokens[u] == s.tokens[u]
  {
    assert v in Running(s);
    assert Running(t) == Running(s) - {v};
  }

  lemma PathsJoin(a: seq<State>, x: seq<Event>, b: seq<State>, y: seq<Event>)
    requires Path(a, x) && Path(b, y) && a[|x|] == b[0]
    ensures Path(a[..|x|] + b, x + y)
  {
    hide Enabled, Next;
    var states, events := a[..|x|] + b, x + y;
    forall i | 0 <= i < |events|
      ensures !events[i].Begin? && Enabled(states[i], events[i]) && states[i + 1] == Next(states[i], events[i])
    {
      if i < |x| { assert states[i + 1] == a[i + 1]; }
    }
  }

  predicate NoStart(s: State) {
    (s.shutdown.Waiting? || Silent(s)) && forall u :: u in s.tokens ==> !MayRun(s.tokens[u].phase)
  }

  lemma NoneMayRun(s: State, e: Event)
    requires Enabled(s, e) && !e.Begin? && forall u :: u in s.tokens ==> !MayRun(s.tokens[u].phase)
    ensures forall u :: u in Next(s, e).tokens ==> !MayRun(Next(s, e).tokens[u].phase)
  {
    hide FreshPair, ChannelEmpty, ConsumerIdle, NextIdentifiers, NextProcesses, NextPairs;
    StepMovesOneToken(s, e);
    if Subject(e).Some? {
      assert e.u in s.tokens;
      assert !MayRun(NextToken(s, e).phase);
    }
  }

  lemma WaitingStep(s: State, e: Event)
    requires Inv(s) && Enabled(s, e) && s.shutdown.Waiting?
    ensures !Next(s, e).panicked
    ensures Next(s, e).shutdown.Waiting? || (e.WaitDone? && s.wg == 0 && Next(s, e).tokens == s.tokens)
    ensures !Next(s, e).shutdown.Off?
  {
    hide IdentifiersOwned, TableListed, IndexPaired, PairsDistinct, LiveOwned, OneAtATime, WaitGroupCounts;
    hide NextToken, NextIdentifiers, NextProcesses, NextPairs, NextHeld;
  }

  lemma SettledIsSilent(s: State, t: State)
    requires Settled(s) && t.tokens == s.tokens
    ensures Silent(t)
  {
  }

  lemma NoStartStays(s: State, e: Event)
    requires Inv(s) && Enabled(s, e) && NoStart(s) && !s.shutdown.Off? && !s.panicked && !e.Begin?
    ensures NoStart(Next(s, e)) && !Next(s, e).shutdown.Off? && !Next(s, e).panicked
  {
    NoneMayRun(s, e);
    if s.shutdown.Waiting? {
      hide Inv, Enabled, Next, Silent, Settled;
      WaitingStep(s, e);
      if e.WaitDone? && s.wg == 0 {
        ZeroMeansSettled(s);
        if Next(s, e).tokens == s.tokens { SettledIsSilent(s, Next(s, e)); }
      }
    } else {
      hide Inv, Silent, MayRun;
      SilentStays(s, e);
      NeverBackOff(s, e);
    }
  }

  lemma NeverBackOff(s: State, e: Event)
    requires Enabled(s, e) && !s.shutdown.Off?
    ensures !Next(s, e).shutdown.Off?
  {
    hide NextToken, NextIdentifiers, NextProcesses, NextPairs, NextHeld;
  }

  lemma {:induction false} NoStartPath(states: seq<State>, events: seq<Event>, n: nat)
    requires Path(states, events) && n <= |events|
    requires Inv(states[0]) && NoStart(states[0]) && !states[0].shutdown.Off? && !states[0].panicked
    ensures Inv(states[n]) && NoStart(states[n]) && !states[n].shutdown.Off? && !states[n].panicked
  {
    hide Inv, NoStart, Enabled, Next;
    if n > 0 {
      NoStartPath(states, events, n - 1);
      StepKeepsInv(states[n - 1], events[n - 1]);
      NoStartStays(states[n - 1], events[n - 1]);
    }
  }

  /** While Shutdown waits, some continuation of the calls already made panics exactly when a start that may still
      succeed is in flight: it can register after the wait has ended. */
  lemma ShuttingDownIsUnsafeIff(s: State)
    requires Inv(s) && s.shutdown.Waiting?
    ensures (exists states: seq<State>, events: seq<Event> :: PanicsFrom(s, states, events)) <==> StartInFlight(s)
  {
    if StartInFlight(s) {
      var states, events := OvertakenShutdown(s);
      assert PanicsFrom(s, states, events);
    } else {
      forall states: seq<State>, events: seq<Event> | Path(states, events) && states[0] == s
        ensures !states[|events|].panicked
      {
        NoStartPath(states, events, |events|);
      }
    }
  }

  lemma OvertakenShutdown(s: State) returns (states: seq<State>, events: seq<Event>)
    requires Inv(s) && s.shutdown.Waiting? && StartInFlight(s)
    ensures Path(states, events) && states[0] == s && states[|events|].panicked
  {
    var u := SomeStart(s);
    hide Inv, Enabled, Next, StartInFlight, MayRun, StepsToSend;
    var a, x := RecycleAll(s);
    var c := WaitEnds(a[|x|]);
    var b, y := CanPanic(c[2], u);
    var z := [WaitDone, Close];
    PathsJoin(c, z, b, y);
    PathsJoin(a, x, c[..2] + b, z + y);
    states, events := a[..|x|] + (c[..2] + b), x + (z + y);
  }

  lemma SomeStart(s: State) returns (u: Uid)
    requires Inv(s) && StartInFlight(s)
    ensures u in s.tokens && MayRun(s.tokens[u].phase) && StepsToSend(s.tokens[u]) > 0
    ensures s.tokens[u].phase.Ready? || s.tokens[u].phase.Stored? ==> s.tokens[u].pair.Some?
  {
    hide IdentifiersOwned, TableListed, IndexPaired, LiveOwned, OneAtATime, WaitGroupCounts;
    u :| u in s.tokens && MayRun(s.tokens[u].phase);
    assert HasPair(s.tokens[u].phase) ==> s.tokens[u].pair.Some?;
  }

  lemma WaitEnds(t: State) returns (states: seq<State>)
    requires t.shutdown.Waiting? && t.wg == 0
    ensures Path(states, [WaitDone, Close]) && states[0] == t
    ensures states[2].shutdown.Closed? && states[2].tokens == t.tokens
  {
    var awaited := Next(t, WaitDone);
    states := [t, awaited, Next(awaited, Close)];
  }
}
