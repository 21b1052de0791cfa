/** What installed chains do to a packet, and the partition verdicts a PodNetworkChaos asks for
    (controllers/podnetworkchaos/controller.go, pkg/chaosdaemon/iptables_server.go). */
module Partition {
  import opened Text
  import opened Iptables
  import opened ChainLinks

  /** A packet as seen at one hook: its direction and device, its protocol, the ip sets it is in, and the ports and
      flags written in requests that it meets. */
  datatype Packet = Packet(direction: Direction, device: string, protocol: string, sets: set<string>, ports: set<Ports>)

  predicate MeetsPorts(ports: Ports, p: Packet) {
    ports == ANY_PORT || ports in p.ports
  }

  /** A packet is stopped by a verdict, or goes on carrying the class last set on it. */
  datatype Outcome = Stopped(verdict: Target) | Goes(mark: Option<(nat, nat)>)

  predicate Matches(e: Entry, p: Packet)
    requires e.Rule?
  {
    && e.direction == p.direction && e.device == p.device
    && (e.ipset.Some? ==> e.ipset.value in p.sets)
    && (e.protocol != "" ==> e.protocol == p.protocol) && MeetsPorts(e.ports, p)
  }

  /** Reads rules top down. A matching CLASSIFY sets the class and reading goes on; any other matching target
      ends it. The daemon writes no jumps into the chains it jumps to. */
  function RunRules(rules: seq<Entry>, p: Packet, mark: Option<(nat, nat)>): Outcome {
    if rules == [] then Goes(mark)
    else if rules[0].Rule? && Matches(rules[0], p) then
      if rules[0].target.Classify? then RunRules(rules[1..], p, Some((rules[0].target.major, rules[0].target.minor)))
      else Stopped(rules[0].target)
    else RunRules(rules[1..], p, mark)
  }

  /** Follows the jumps of a hook in order. */
  function RunHook(t: Table, entries: seq<Entry>, p: Packet, mark: Option<(nat, nat)>): Outcome
    decreases |entries|
  {
    if entries == [] then Goes(mark)
    else
      var first := if entries[0].Link? && entries[0].chain in t then RunRules(t[entries[0].chain], p, mark)
        else Goes(mark);
      if first.Stopped? then first else RunHook(t, entries[1..], p, first.mark)
  }

  function AtHook(t: Table, p: Packet): Outcome {
    if Hook(p.direction) in t then RunHook(t, t[Hook(p.direction)], p, None) else Goes(None)
  }

  // ---------- the meaning of one chain ----------

  predicate Hits(c: Chain, p: Packet) {
    && c.direction == p.direction && Device(c) == p.device
    && (c.ipsets == [] || exists s :: s in c.ipsets && s in p.sets)
  }

  /** What one chain request asks to happen to a packet, without reference to rules. */
  function Wanted(c: Chain, p: Packet, mark: Option<(nat, nat)>): Outcome {
    if !Hits(c, p) then Goes(mark)
    else if c.protocol == "" || (c.protocol == p.protocol && MeetsPorts(c.ports, p)) then
      if c.target.Classify? then Goes(Some((c.target.major, c.target.minor))) else Stopped(c.target)
    else if c.fallback.Some? then Stopped(c.fallback.value)
    else Goes(mark)
  }

  /** The chains the system generates: a classifying chain has no fallback, a fallback never classifies. */
  predicate Simple(c: Chain) {
    c.fallback.Some? ==> !c.target.Classify? && !c.fallback.value.Classify?
  }

  lemma RunAppended(a: seq<Entry>, b: seq<Entry>, p: Packet, mark: Option<(nat, nat)>)
    ensures RunRules(a + b, p, mark) ==
              (var first := RunRules(a, p, mark); if first.Stopped? then first else RunRules(b, p, first.mark))
  {
    if a == [] {
      assert a + b == b;
    } else {
      assert (a + b)[1..] == a[1..] + b;
      var next := if a[0].Rule? && Matches(a[0], p) && a[0].target.Classify?
        then Some((a[0].target.major, a[0].target.minor)) else mark;
      RunAppended(a[1..], b, p, next);
    }
  }

  /** The rules for one ip set do what a chain with that single ip set asks for. */
  lemma RunIPSetRules(c: Chain, ipset: Option<string>, p: Packet, mark: Option<(nat, nat)>)
    requires Simple(c)
    ensures RunRules(IPSetRules(c, ipset), p, mark)
         == Wanted(c.(ipsets := if ipset.Some? then [ipset.value] else []), p, mark)
  {
    var rules := IPSetRules(c, ipset);
    var one := c.(ipsets := if ipset.Some? then [ipset.value] else []);
    assert ipset.Some? ==> ipset.value in one.ipsets;
    var first := Rule(c.direction, Device(c), ipset, c.protocol, PortsOf(c), c.target);
    assert rules[0] == first;
    assert Matches(first, p) <==>
      Hits(one, p) && (c.protocol == "" || (c.protocol == p.protocol && MeetsPorts(c.ports, p)));
    if c.fallback.Some? {
      var second := Rule(c.direction, Device(c), ipset, "", ANY_PORT, c.fallback.value);
      assert rules[1..] == [second] && [second][1..] == [];
      assert Matches(second, p) <==> Hits(one, p);
      assert RunRules([second], p, mark) == if Hits(one, p) then Stopped(c.fallback.value) else Goes(mark);
    } else {
      assert rules[1..] == [];
    }
  }

  lemma {:induction false} RunRulesFor(c: Chain, ipsets: seq<string>, p: Packet, mark: Option<(nat, nat)>)
    requires Simple(c) && ipsets != []
    ensures RunRules(RulesFor(c, ipsets), p, mark) == Wanted(c.(ipsets := ipsets), p, mark)
    decreases |ipsets|
  {
    hide RunRules, IPSetRules;
    var first, rest := ipsets[0], ipsets[1..];
    RunIPSetRules(c, Some(first), p, mark);
    RunAppended(IPSetRules(c, Some(first)), RulesFor(c, rest), p, mark);
    var one := Wanted(c.(ipsets := [first]), p, mark);
    assert first in [first];
    if rest != [] {
      if one.Goes? { RunRulesFor(c, rest, p, one.mark); }
      assert ipsets == [first] + rest;
    } else {
      assert ipsets == [first];
      assert IPSetRules(c, Some(first)) + RulesFor(c, []) == IPSetRules(c, Some(first));
    }
  }

  /** First match over the generated rules is the chain's meaning, for every packet. */
  lemma RulesMean(c: Chain, p: Packet, mark: Option<(nat, nat)>)
    requires Simple(c)
    ensures RunRules(Rules(c), p, mark) == Wanted(c, p, mark)
  {
    if c.ipsets == [] {
      RunIPSetRules(c, None, p, mark);
    } else {
      RunRulesFor(c, c.ipsets, p, mark);
    }
  }

  // ---------- the meaning of an installed request ----------

  /** Chains taken in request order: the first that stops the packet decides, the last that classifies it sets its
      class. */
  function WantedAll(chains: seq<Chain>, p: Packet): Outcome {
    if chains == [] then Goes(None) else
      var before := WantedAll(chains[..|chains| - 1], p);
      if before.Stopped? then before else Wanted(chains[|chains| - 1], p, before.mark)
  }

  lemma {:induction false} RunHookAppended(t: Table, a: seq<Entry>, b: seq<Entry>, p: Packet, mark: Option<(nat, nat)>)
    ensures RunHook(t, a + b, p, mark) ==
              (var first := RunHook(t, a, p, mark); if first.Stopped? then first else RunHook(t, b, p, first.mark))
    decreases |a|
  {
    if a == [] {
      assert a + b == b;
    } else {
      assert (a + b)[1..] == a[1..] + b;
      var first := if a[0].Link? && a[0].chain in t then RunRules(t[a[0].chain], p, mark) else Goes(mark);
      if first.Goes? { RunHookAppended(t, a[1..], b, p, first.mark); }
    }
  }

  lemma {:induction false} RunLinks(t: Table, chains: seq<Chain>, p: Packet)
    requires forall i :: 0 <= i < |chains| ==>
      chains[i].name in t && t[chains[i].name] == Rules(chains[i]) && Simple(chains[i])
    ensures RunHook(t, Links(InDirection(chains, p.direction)), p, None) == WantedAll(chains, p)
  {
    hide RunRules, Rules, Simple;
    if chains != [] {
      var n := |chains| - 1;
      var c := chains[n];
      RunLinks(t, chains[..n], p);
      var before, all := InDirection(chains[..n], p.direction), InDirection(chains, p.direction);
      var so := RunHook(t, Links(before), p, None);
      if c.direction == p.direction {
        assert Links(all) == Links(before) + [Link(c.name)];
        RunHookAppended(t, Links(before), [Link(c.name)], p, None);
        if so.Goes? {
          RulesMean(c, p, so.mark);
          assert [Link(c.name)][1..] == [];
        }
      } else {
        assert all == before;
      }
    }
  }

  predicate Fit(chains: seq<Chain>) {
    Requestable(chains) && Unshadowed(chains) && forall i :: 0 <= i < |chains| ==> Simple(chains[i])
  }

  /** Compilation of chains preserves meaning: once installed, every packet fares at its hook as the request says. */
  lemma InstalledMeans(t: Table, chains: seq<Chain>, p: Packet)
    requires Fit(chains) && Holds(t, chains) && !p.direction.Unknown?
    ensures AtHook(t, p) == WantedAll(chains, p)
  {
    UnshadowedAreLinked(chains, p.direction);
    RunLinks(t, chains, p);
  }

  /** History independence: from any kernel whose CHAOS chains were just emptied, the outcome for every packet
      depends on the request alone. */
  lemma HistoryIndependent(t: Table, u: Table, chains: seq<Chain>, p: Packet)
    requires Holds(t, []) && Holds(u, []) && Fit(chains) && !p.direction.Unknown?
    ensures AtHook(InstalledAll(t, chains), p) == AtHook(InstalledAll(u, chains), p) == WantedAll(chains, p)
  {
    assert [] + chains == chains;
    InstallationHolds(t, [], chains);
    InstallationHolds(u, [], chains);
    InstalledMeans(InstalledAll(t, chains), chains, p);
    InstalledMeans(InstalledAll(u, chains), chains, p);
  }

  // ---------- partitions ----------

  /** A partition as the PodNetworkChaos states it. */
  datatype RawIptables = RawIptables(name: string, ipsets: seq<string>, direction: string, behavior: string,
                                     device: string)

  function BuildIptablesChain(raw: RawIptables): Option<Chain> {
    if raw.direction != "input" && raw.direction != "output" then None else
      var d := if raw.direction == "input" then Input else Output;
      if raw.behavior == "" || raw.behavior == "drop" then
        Some(Chain(raw.name, d, raw.ipsets, Drop, "", raw.device, None, ANY_PORT))
      else if raw.behavior == "reject" then
        Some(Chain(raw.name, d, raw.ipsets, RejectWithReset, "tcp", raw.device, Some(Reject), ANY_PORT))
      else None
  }

  predicate Valid(raw: RawIptables) {
    && (raw.direction == "input" || raw.direction == "output")
    && (raw.behavior == "" || raw.behavior == "drop" || raw.behavior == "reject")
  }

  predicate Partitioned(raw: RawIptables, p: Packet) {
    && (if raw.direction == "input" then p.direction.Input? else p.direction.Output?)
    && p.device == (if raw.device == "" then "eth0" else raw.device)
    && (raw.ipsets == [] || exists s :: s in raw.ipsets && s in p.sets)
  }

  function PartitionVerdict(raw: RawIptables, p: Packet): Target {
    if raw.behavior != "reject" then Drop
    else if p.protocol == "tcp" then RejectWithReset
    else Reject
  }

  /** A chain is built for exactly the valid partitions, and its rules stop exactly the partitioned packets,
      with the verdict the behaviour asks for; every other packet falls through. */
  lemma PartitionRules(raw: RawIptables, p: Packet, mark: Option<(nat, nat)>)
    ensures BuildIptablesChain(raw).Some? <==> Valid(raw)
    ensures Valid(raw) ==>
      RunRules(Rules(BuildIptablesChain(raw).value), p, mark)
        == if Partitioned(raw, p) then Stopped(PartitionVerdict(raw, p)) else Goes(mark)
  {
    if Valid(raw) {
      RulesMean(BuildIptablesChain(raw).value, p, mark);
    }
  }

  /** The verdict of the first partition, in spec order, that covers the packet. */
  function FirstVerdict(raws: seq<RawIptables>, p: Packet): Outcome {
    if raws == [] then Goes(None) else
      var before := FirstVerdict(raws[..|raws| - 1], p);
      var raw := raws[|raws| - 1];
      if before.Stopped? then before
      else if Partitioned(raw, p) then Stopped(PartitionVerdict(raw, p)) else Goes(None)
  }

  predicate Builds(raws: seq<RawIptables>, chains: seq<Chain>) {
    |raws| == |chains| && forall i :: 0 <= i < |raws| ==> BuildIptablesChain(raws[i]) == Some(chains[i])
  }

  method BuildIptablesChains(raws: seq<RawIptables>) returns (r: Option<seq<Chain>>)
    ensures r.Some? ==> Builds(raws, r.value)
    ensures r.Some? <==> forall i :: 0 <= i < |raws| ==> Valid(raws[i])
  {
    var chains: seq<Chain> := [];
    for n := 0 to |raws|
      invariant |chains| == n
      invariant forall i :: 0 <= i < n ==> BuildIptablesChain(raws[i]) == Some(chains[i]) && Valid(raws[i])
    {
      var c := BuildIptablesChain(raws[n]);
      if c.None? { return None; }
      chains := chains + [c.value];
    }
    r := Some(chains);
  }

  lemma {:induction false} PartitionsMean(raws: seq<RawIptables>, chains: seq<Chain>, p: Packet)
    requires Builds(raws, chains)
    ensures WantedAll(chains, p) == FirstVerdict(raws, p)
    ensures forall i :: 0 <= i < |chains| ==> Simple(chains[i])
  {
    if raws != [] {
      PartitionsMean(raws[..|raws| - 1], chains[..|raws| - 1], p);
    }
  }

  /** From any kernel state: after the CHAOS chains are reset and the partitions installed, the packet's fate
      is the verdict of the first partition covering it. */
  lemma PartitionsEnforced(t: Table, raws: seq<RawIptables>, chains: seq<Chain>, p: Packet)
    requires Builds(raws, chains) && Requestable(chains) && Unshadowed(chains) && !p.direction.Unknown?
    requires Holds(t, [])
    ensures AtHook(InstalledAll(t, chains), p) == FirstVerdict(raws, p)
  {
    PartitionsMean(raws, chains, p);
    HistoryIndependent(t, t, chains, p);
  }
}
