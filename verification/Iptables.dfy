/** iptables chains: the rules generated for a chain, the commands that install them, and what the installed
    chains do to a packet (pkg/chaosdaemon/iptables_server.go, controllers/podnetworkchaos/controller.go). */
module Iptables {
  import opened Text

  const DEFAULT_DEVICE := "eth0"
  const CHAOS_INPUT := "CHAOS-INPUT"
  const CHAOS_OUTPUT := "CHAOS-OUTPUT"

  datatype Direction = Input | Output | Unknown

  datatype Target = Drop | RejectWithReset | Reject | Classify(major: nat, minor: nat)

  /** Ports and TCP flags, as written in a request: an empty field stands for any. They count only beside a protocol. */
  datatype Ports = Ports(source: string, destination: string, flags: seq<string>)

  const ANY_PORT := Ports("", "", [])

  /** The request for one chain. An empty device means the default one, an empty protocol means any. */
  datatype Chain = Chain(name: string, direction: Direction, ipsets: seq<string>, target: Target,
                         protocol: string, device: string, fallback: Option<Target>, ports: Ports)

  /** What a kernel chain holds: a jump to another chain, or a rule with matches and a target. */
  datatype Entry =
    | Link(chain: string)
    | Rule(direction: Direction, device: string, ipset: Option<string>, protocol: string, ports: Ports, target: Target)

  type Table = map<string, seq<Entry>>

  function Device(c: Chain): string {
    if c.device == "" then DEFAULT_DEVICE else c.device
  }

  function PortsOf(c: Chain): Ports {
    if c.protocol != "" then c.ports else ANY_PORT
  }

  function Hook(d: Direction): string {
    if d.Input? then CHAOS_INPUT else CHAOS_OUTPUT
  }

  // ---------- text of commands and listings ----------

  function Join(words: seq<string>): string {
    if words == [] then "" else if |words| == 1 then words[0] else words[0] + " " + Join(words[1..])
  }

  function TargetWords(t: Target): seq<string> {
    match t
    case Drop => ["DROP"]
    case RejectWithReset => ["REJECT", "--reject-with", "tcp-reset"]
    case Reject => ["REJECT"]
    case Classify(major, minor) => ["CLASSIFY", "--set-class", Decimal(major) + ":" + Decimal(minor)]
  }

  /** A list of ports needs the multiport match, a single one does not. */
  function PortWords(ports: string, single: string, several: string): seq<string> {
    if ports == "" then []
    else if Contains(ports, ",") then ["-m", "multiport", several, ports]
    else [single, ports]
  }

  function ProtocolWords(protocol: string, ports: Ports): seq<string> {
    if protocol == "" then []
    else
      ["--protocol", protocol]
      + PortWords(ports.source, "--source-port", "--source-ports")
      + PortWords(ports.destination, "--destination-port", "--destination-ports")
      + if ports.flags != [] then ["--tcp-flags"] + ports.flags else []
  }

  function Words(chain: string, e: Entry): seq<string> {
    match e
    case Link(to) => ["-A", chain, "-j", to]
    case Rule(d, device, ipset, protocol, ports, target) =>
      ["-A", chain, if d.Input? then "-i" else "-o", device]
      + (if ipset.None? then []
         else ["-m", "set", "--match-set", ipset.value, if d.Input? then "src,dst" else "dst,dst"])
      + ProtocolWords(protocol, ports)
      + ["-j"] + TargetWords(target)
  }

  function Line(chain: string, e: Entry): string {
    Join(Words(chain, e))
  }

  /** The text handed to `ensureRule`: rules carry the wait option, jumps do not. */
  function Command(chain: string, e: Entry): string {
    if e.Link? then Line(chain, e) else Line(chain, e) + " -w 5"
  }

  function Lines(chain: string, entries: seq<Entry>): seq<string> {
    seq(|entries|, i requires 0 <= i < |entries| => Line(chain, entries[i]))
  }

  /** The output of `iptables -S`: one line declares the chain, one line prints each entry. The wait option is
      not part of a rule and is not printed. */
  function Listing(chain: string, entries: seq<Entry>): string {
    Unlines([Join(["-N", chain])] + Lines(chain, entries))
  }

  // ---------- the kernel ----------

  datatype Created = New | AlreadyExists | Failed

  /** The kernel's chains. Every command may fail for reasons of its own; `faults` counts those that did. */
  class Kernel {
    var chains: Table
    ghost var faults: nat

    method NewChain(name: string) returns (r: Created)
      modifies this
      ensures r.New? ==> name !in old(chains) && chains == old(chains)[name := []]
      ensures r.AlreadyExists? ==> name in old(chains)
      ensures !r.New? ==> chains == old(chains)
      ensures faults == old(faults) + if r.Failed? then 1 else 0
    {
      var fault: bool := *;
      if fault {
        faults, r := faults + 1, Failed;
      } else if name in chains {
        r := AlreadyExists;
      } else {
        chains, r := chains[name := []], New;
      }
    }

    method Flush(name: string) returns (ok: bool)
      modifies this
      ensures ok ==> name in old(chains) && chains == old(chains)[name := []]
      ensures !ok ==> chains == old(chains)
      ensures faults == old(faults) + if ok then 0 else 1
    {
      var fault: bool := *;
      ok := !fault && name in chains;
      if ok { chains := chains[name := []]; } else { faults := faults + 1; }
    }

    method List(name: string) returns (out: Option<string>)
      modifies this`faults
      ensures faults == old(faults) + if out.None? then 1 else 0
      ensures out.Some? ==> name in chains && out.value == Listing(name, chains[name])
    {
      var fault: bool := *;
      out := if !fault && name in chains then Some(Listing(name, chains[name])) else None;
      if out.None? { faults := faults + 1; }
    }

    method Append(name: string, e: Entry) returns (ok: bool)
      modifies this
      ensures ok ==> name in old(chains) && chains == old(chains)[name := old(chains)[name] + [e]]
      ensures !ok ==> chains == old(chains)
      ensures faults == old(faults) + if ok then 0 else 1
    {
      var fault: bool := *;
      ok := !fault && name in chains;
      if ok { chains := chains[name := chains[name] + [e]]; } else { faults := faults + 1; }
    }
  }

  // ---------- the client ----------

  function IPSetRules(c: Chain, ipset: Option<string>): seq<Entry> {
    [Rule(c.direction, Device(c), ipset, c.protocol, PortsOf(c), c.target)]
    + if c.fallback.Some? then [Rule(c.direction, Device(c), ipset, "", ANY_PORT, c.fallback.value)] else []
  }

  function RulesFor(c: Chain, ipsets: seq<string>): seq<Entry> {
    if ipsets == [] then [] else IPSetRules(c, Some(ipsets[0])) + RulesFor(c, ipsets[1..])
  }

  function Rules(c: Chain): seq<Entry> {
    if c.ipsets == [] then IPSetRules(c, None) else RulesFor(c, c.ipsets)
  }

  lemma RulesForNext(c: Chain, n: nat)
    requires n <= |c.ipsets|
    ensures n == |c.ipsets| ==> RulesFor(c, c.ipsets[n..]) == []
    ensures n < |c.ipsets| ==>
      RulesFor(c, c.ipsets[n..]) == IPSetRules(c, Some(c.ipsets[n])) + RulesFor(c, c.ipsets[n + 1..])
  {
    if n < |c.ipsets| {
      assert c.ipsets[n..][1..] == c.ipsets[n + 1..];
    }
  }

  /** The rules for one ip set, or for none, behind those already there. */
  method AppendRules(c: Chain, ipset: Option<string>, rules: seq<Entry>) returns (r: seq<Entry>)
    ensures r == rules + IPSetRules(c, ipset)
  {
    var device := if c.device == "" then DEFAULT_DEVICE else c.device;
    var ports := if c.protocol != "" then c.ports else ANY_PORT;
    r := rules + [Rule(c.direction, device, ipset, c.protocol, ports, c.target)];
    if c.fallback.Some? {
      r := r + [Rule(c.direction, device, ipset, "", ANY_PORT, c.fallback.value)];
    }
  }

  method BuildIptablesRules(c: Chain) returns (r: Option<seq<Entry>>)
    ensures r == if c.direction.Unknown? then None else Some(Rules(c))
  {
    hide RulesFor, IPSetRules;
    if c.direction.Unknown? { return None; }
    var rules: seq<Entry> := [];
    if |c.ipsets| == 0 {
      rules := AppendRules(c, None, rules);
      assert rules == Rules(c);
    }
    RulesForNext(c, 0);
    assert c.ipsets[0..] == c.ipsets;
    for n := 0 to |c.ipsets|
      invariant rules + RulesFor(c, c.ipsets[n..]) == Rules(c)
    {
      RulesForNext(c, n);
      rules := AppendRules(c, Some(c.ipsets[n]), rules);
    }
    RulesForNext(c, |c.ipsets|);
    assert rules + [] == rules;
    r := Some(rules);
  }

  function Ensured(t: Table, chain: string, e: Entry): Table {
    if chain !in t || Contains(Listing(chain, t[chain]), Command(chain, e)) then t
    else t[chain := t[chain] + [e]]
  }

  function EnsuredAll(t: Table, chain: string, es: seq<Entry>): Table
    decreases |es|
  {
    if es == [] then t else EnsuredAll(Ensured(t, chain, es[0]), chain, es[1..])
  }

  method EnsureRule(k: Kernel, chain: string, e: Entry) returns (ok: bool)
    modifies k
    ensures (ok <==> k.faults == old(k.faults)) && k.faults >= old(k.faults)
    ensures ok ==> chain in old(k.chains) && k.chains == Ensured(old(k.chains), chain, e)
    ensures !ok ==> k.chains == old(k.chains)
  {
    var out := k.List(chain);
    if out.None? { return false; }
    if Contains(out.value, Command(chain, e)) { return true; }
    ok := k.Append(chain, e);
  }

  /** Creates the chain if need be, empties it, and writes the rules one by one. */
  method CreateNewChain(k: Kernel, name: string, rules: seq<Entry>) returns (ok: bool)
    modifies k
    ensures (ok <==> k.faults == old(k.faults)) && k.faults >= old(k.faults)
    ensures ok ==> k.chains == EnsuredAll(old(k.chains)[name := []], name, rules)
    ensures forall other :: other != name ==> (other in k.chains <==> other in old(k.chains))
    ensures forall other :: other != name && other in old(k.chains) ==> k.chains[other] == old(k.chains)[other]
  {
    var r := k.NewChain(name);
    if r.Failed? { return false; }
    ok := k.Flush(name);
    if !ok { return; }
    ghost var emptied := k.chains;
    assert emptied == old(k.chains)[name := []];
    for n := 0 to |rules|
      invariant k.faults == old(k.faults)
      invariant EnsuredAll(k.chains, name, rules[n..]) == EnsuredAll(emptied, name, rules)
      invariant forall other :: other != name ==> (other in k.chains <==> other in old(k.chains))
      invariant forall other :: other != name && other in old(k.chains) ==> k.chains[other] == old(k.chains)[other]
    {
      assert rules[n..][1..] == rules[n + 1..];
      ok := EnsureRule(k, name, rules[n]);
      if !ok { return; }
    }
    ok := true;
  }

  function Installed(t: Table, c: Chain): Table {
    Ensured(EnsuredAll(t[c.name := []], c.name, Rules(c)), Hook(c.direction), Link(c.name))
  }

  function InstalledAll(t: Table, chains: seq<Chain>): Table
    decreases |chains|
  {
    if chains == [] then t else InstalledAll(Installed(t, chains[0]), chains[1..])
  }

  method SetIptablesChain(k: Kernel, c: Chain) returns (ok: bool)
    modifies k
    ensures (ok <==> !c.direction.Unknown? && k.faults == old(k.faults)) && k.faults >= old(k.faults)
    ensures ok ==> !c.direction.Unknown? && Hook(c.direction) in k.chains
    ensures ok ==> k.chains == Installed(old(k.chains), c)
  {
    var rules := BuildIptablesRules(c);
    if rules.None? { return false; }
    ok := CreateNewChain(k, c.name, rules.value);
    if !ok { return; }
    match c.direction {
      case Input => ok := EnsureRule(k, CHAOS_INPUT, Link(c.name));
      case Output => ok := EnsureRule(k, CHAOS_OUTPUT, Link(c.name));
    }
  }

  method SetIptablesChains(k: Kernel, chains: seq<Chain>) returns (ok: bool)
    modifies k
    ensures (ok <==> k.faults == old(k.faults) && forall i :: 0 <= i < |chains| ==> !chains[i].direction.Unknown?)
    ensures k.faults >= old(k.faults)
    ensures ok ==> k.chains == InstalledAll(old(k.chains), chains)
  {
    for n := 0 to |chains|
      invariant k.faults == old(k.faults)
      invariant InstalledAll(k.chains, chains[n..]) == InstalledAll(old(k.chains), chains)
      invariant forall i :: 0 <= i < n ==> !chains[i].direction.Unknown?
    {
      assert chains[n..][1..] == chains[n + 1..];
      ok := SetIptablesChain(k, chains[n]);
      if !ok { return; }
    }
    ok := true;
  }

  /** Both CHAOS chains exist and are empty, and nothing else has changed but the two built-in chains. */
  predicate Reset(before: Table, after: Table) {
    && CHAOS_INPUT in after && after[CHAOS_INPUT] == []
    && CHAOS_OUTPUT in after && after[CHAOS_OUTPUT] == []
    && forall n :: n in before.Keys + after.Keys && n !in {"INPUT", "OUTPUT", CHAOS_INPUT, CHAOS_OUTPUT} ==>
         n in before && n in after && before[n] == after[n]
  }

  /** The built-in chain jumps to the CHAOS chain, unless a jump with that text was listed already. */
  predicate Hooked(before: Table, after: Table, builtin: string, chain: string) {
    builtin in before && builtin in after && after[builtin] == Ensured(before, builtin, Link(chain))[builtin]
  }

  /** Empties a CHAOS chain and hangs it off its built-in chain. A failure to do the latter is not reported. */
  method InitializeHook(k: Kernel, builtin: string, chain: string) returns (ok: bool)
    requires builtin != chain
    modifies k
    ensures k.faults >= old(k.faults) && (!ok ==> k.faults > old(k.faults))
    ensures ok ==> chain in k.chains && k.chains[chain] == []
    ensures forall n :: n in k.chains.Keys + old(k.chains).Keys && n !in {builtin, chain} ==>
      n in k.chains && n in old(k.chains) && k.chains[n] == old(k.chains)[n]
    ensures k.faults == old(k.faults) ==> Hooked(old(k.chains), k.chains, builtin, chain)
  {
    hide Contains, Listing, Command;
    ok := CreateNewChain(k, chain, []);
    if !ok { return; }
    var _ := EnsureRule(k, builtin, Link(chain));
  }

  /** Without a failure both CHAOS chains hang off their built-in chains. */
  method InitializeEnv(k: Kernel) returns (ok: bool)
    modifies k
    ensures ok ==> Reset(old(k.chains), k.chains)
    ensures k.faults >= old(k.faults) && (!ok ==> k.faults > old(k.faults))
    ensures k.faults == old(k.faults) ==>
      && Hooked(old(k.chains), k.chains, "INPUT", CHAOS_INPUT)
      && Hooked(old(k.chains), k.chains, "OUTPUT", CHAOS_OUTPUT)
  {
    hide Contains, Listing, Command;
    ok := InitializeHook(k, "INPUT", CHAOS_INPUT);
    if !ok { return; }
    ok := InitializeHook(k, "OUTPUT", CHAOS_OUTPUT);
  }
}
