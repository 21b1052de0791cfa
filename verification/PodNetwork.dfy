/** A whole PodNetworkChaos spec applied to a pod: ip sets, then partition chains, then traffic control
    (controllers/podnetworkchaos/controller.go). */
module PodNetwork {
  import opened Text
  import IPSets
  import Iptables
  import ChainLinks
  import opened Partition
  import Qdiscs
  import opened TrafficControl
  import opened TcMeaning

  datatype Spec = Spec(ipsets: seq<IPSets.Request>, partitions: seq<RawIptables>, tcs: seq<Qdiscs.Tc>)

  lemma ResetHolds(before: Iptables.Table, after: Iptables.Table)
    requires Iptables.Reset(before, after)
    ensures ChainLinks.Holds(after, [])
  {
  }

  /** The partition chains on freshly emptied CHAOS chains. An unknown direction or behaviour changes nothing. */
  method SetIptables(k: Iptables.Kernel, raws: seq<RawIptables>)
    returns (ok: bool, ghost chains: seq<Iptables.Chain>, ghost start: Iptables.Table)
    modifies k
    ensures ok ==>
      Builds(raws, chains) && ChainLinks.Holds(start, []) && k.chains == Iptables.InstalledAll(start, chains)
    ensures (exists i :: 0 <= i < |raws| && !Valid(raws[i])) ==> !ok && k.chains == old(k.chains)
    ensures k.faults >= old(k.faults)
    ensures !ok ==> k.faults > old(k.faults) || exists i :: 0 <= i < |raws| && !Valid(raws[i])
  {
    hide Iptables.InstalledAll;
    chains, start := [], k.chains;
    var built := BuildIptablesChains(raws);
    if built.None? { return false, chains, start; }
    chains := built.value;
    ok := Iptables.InitializeEnv(k);
    if !ok { return; }
    ResetHolds(old(k.chains), k.chains);
    start := k.chains;
    ok := Iptables.SetIptablesChains(k, built.value);
  }

  /** What is left of one application. `sets0` are the ip sets before it, `start` the chain table after the reset,
      `plans` the order in which devices and filters were visited, `unflushed` the interfaces whose flush failed. */
  datatype Trace = Trace(sets0: IPSets.Table, sets: IPSets.Table, table: Iptables.Table,
                         qdiscs: map<string, Qdiscs.Tree>,
                         chains: seq<Iptables.Chain>, plans: seq<Plan>, start: Iptables.Table, unflushed: set<string>)

  /** The device was listed and its flush succeeded. */
  predicate Flushed(a: Trace, ifaces: seq<string>, device: string) {
    device in a.qdiscs && device in ifaces && device !in a.unflushed
  }

  /** What a successful application of a spec leaves in the kernel. */
  ghost predicate Applied(spec: Spec, ifaces: seq<string>, a: Trace) {
    && a.sets == IPSets.ReplacedAll(a.sets0, spec.ipsets)
    && Builds(spec.partitions, a.chains)
    && ChainLinks.Holds(a.start, [])
    && Ran(spec.tcs, a.plans, a.qdiscs)
    && a.table == Iptables.InstalledAll(Iptables.InstalledAll(a.start, a.chains), AllChains(spec.tcs, a.plans))
    && (forall d :: Flushed(a, ifaces, d) && d !in Devices(spec.tcs) ==> a.qdiscs[d] == [])
  }

  /** What is refused without any command failing: a set or partition of unknown kind, a rule that cannot be rendered,
      a device the pod does not have. */
  ghost predicate Unacceptable(spec: Spec, devices: set<string>, ifaces: seq<string>) {
    || (exists i :: 0 <= i < |spec.ipsets| && IPSets.Values(spec.ipsets[i]).None?)
    || (exists i :: 0 <= i < |spec.partitions| && !Valid(spec.partitions[i]))
    || !Qdiscs.AllBuildable(spec.tcs)
    || (exists d :: d in Devices(spec.tcs) && (d !in devices || d !in ifaces))
  }

  /** An application fails only if the spec is unacceptable for this pod or a command failed. */
  method Apply(ks: IPSets.Kernel, ki: Iptables.Kernel, kt: Qdiscs.Kernel, ifaces: seq<string>, spec: Spec)
    returns (ok: bool, ghost a: Trace)
    requires kt.Valid()
    modifies ks, ki, kt
    ensures kt.Valid()
    ensures ok ==> Applied(spec, ifaces, a) && a.sets0 == old(ks.sets)
    ensures ok ==> a.sets == ks.sets && a.table == ki.chains && a.qdiscs == kt.qdiscs
    ensures kt.faults == old(kt.faults) ==> a.unflushed == {}
    ensures !ok ==> Unacceptable(spec, old(kt.qdiscs).Keys, ifaces)
                    || ks.faults > old(ks.faults) || ki.faults > old(ki.faults) || kt.faults > old(kt.faults)
  {
    hide IPSets.ReplacedAll, Iptables.InstalledAll, Builds, ChainLinks.Holds, Schedule, Built, AllChains;
    a := Trace(ks.sets, ks.sets, ki.chains, kt.qdiscs, [], [], ki.chains, {});
    ok := IPSets.FlushIPSets(ks, spec.ipsets);
    if !ok { return; }
    ghost var chains, plans, start, unflushed;
    ok, chains, start := SetIptables(ki, spec.partitions);
    if !ok { return; }
    var r;
    r, plans, unflushed := SetTcs(kt, ki, ifaces, spec.tcs);
    ok := r.Success?;
    a := Trace(old(ks.sets), ks.sets, ki.chains, kt.qdiscs, chains, plans, start, unflushed);
  }

  // ---------- what an applied spec means ----------

  /** The conditions under which a spec compiles faithfully. */
  ghost predicate Clean(spec: Spec, chains: seq<Iptables.Chain>) {
    && ChainLinks.Requestable(chains) && ChainLinks.Unshadowed(chains)
    && (forall i :: 0 <= i < |chains| ==> !("TC-TABLES-" <= chains[i].name))
    && Faithful(spec.tcs) && OneFilteredDevice(spec.tcs) && AllWordy(spec.tcs)
  }

  /** The rules a packet passes on its way out. */
  function PathOf(a: Trace, p: Packet, priority: nat): seq<Qdiscs.Tc>
    requires p.device in a.qdiscs
  {
    var out := AtHook(a.table, p);
    Walk(a.qdiscs[p.device], Qdiscs.Root, if out.Goes? then out.mark else None, priority).0
  }

  /** The fate of a packet as the spec states it: the verdict of the first partition that covers it; otherwise it goes
      on. If it leaves a device with rules it takes a rightful way through them; otherwise it carries no class and,
      on a flushed device, passes no rule at all. */
  ghost predicate FaresAsSpecified(spec: Spec, ifaces: seq<string>, a: Trace, p: Packet, priority: nat) {
    var out := AtHook(a.table, p);
    if FirstVerdict(spec.partitions, p).Stopped? then out == FirstVerdict(spec.partitions, p)
    else if p.direction.Output? && p.device in Devices(spec.tcs) then
      out.Goes? && p.device in a.qdiscs && Rightful(spec.tcs, p, PathOf(a, p, priority))
    else
      out == Goes(None)
        && (Flushed(a, ifaces, p.device) && p.device !in Devices(spec.tcs) ==> PathOf(a, p, priority) == [])
  }

  lemma {:induction false} NeverMarked(raws: seq<RawIptables>, p: Packet)
    ensures FirstVerdict(raws, p).Goes? ==> FirstVerdict(raws, p) == Goes(None)
  {
    if raws != [] { NeverMarked(raws[..|raws| - 1], p); }
  }

  lemma PartitionsFit(spec: Spec, chains: seq<Iptables.Chain>, start: Iptables.Table, p: Packet)
    requires Builds(spec.partitions, chains) && Clean(spec, chains) && ChainLinks.Holds(start, [])
    ensures GoodParts(chains) && ChainLinks.Holds(Iptables.InstalledAll(start, chains), chains)
    ensures WantedAll(chains, p) == FirstVerdict(spec.partitions, p)
  {
    PartitionsMean(spec.partitions, chains, p);
    assert [] + chains == chains;
    ChainLinks.InstallationHolds(start, [], chains);
  }

  /** Whatever the kernel held before, after a successful application every packet fares as the spec says, and every ip
      set of the request that no later request overwrites holds the requested elements; with the requested type, if
      the sets that were there had it. */
  lemma AppliedMeans(spec: Spec, ifaces: seq<string>, a: Trace, p: Packet, priority: nat)
    requires Applied(spec, ifaces, a) && Clean(spec, a.chains) && !p.direction.Unknown?
    ensures FaresAsSpecified(spec, ifaces, a, p, priority)
    ensures forall i: nat :: i < |spec.ipsets| && IPSets.Lasting(spec.ipsets, i) ==>
      IPSets.Holds(a.sets, spec.ipsets[i])
    ensures IPSets.TypesAgree(spec.ipsets) && IPSets.TypesKept(a.sets0, spec.ipsets) ==>
      forall i: nat :: i < |spec.ipsets| && IPSets.Lasting(spec.ipsets, i) ==>
        spec.ipsets[i].name in a.sets && a.sets[spec.ipsets[i].name].typ == spec.ipsets[i].typ
  {
    hide Applied, Clean, FaresAsSpecified, IPSets.ReplacedAll, IPSets.Lasting, IPSets.Holds, IPSets.TypesAgree;
    hide IPSets.TypesKept;
    PacketFares(spec, ifaces, a, p, priority);
    SetsAre(spec, ifaces, a);
    forall i: nat | i < |spec.ipsets| && IPSets.Lasting(spec.ipsets, i) ensures IPSets.Holds(a.sets, spec.ipsets[i]) {
      IPSets.LastingRequestsHold(a.sets0, spec.ipsets, i);
    }
    if IPSets.TypesAgree(spec.ipsets) && IPSets.TypesKept(a.sets0, spec.ipsets) {
      forall i: nat | i < |spec.ipsets| && IPSets.Lasting(spec.ipsets, i)
        ensures spec.ipsets[i].name in a.sets && a.sets[spec.ipsets[i].name].typ == spec.ipsets[i].typ
      {
        IPSets.RequestedTypesHold(a.sets0, spec.ipsets, i);
      }
    }
  }

  lemma SetsAre(spec: Spec, ifaces: seq<string>, a: Trace)
    requires Applied(spec, ifaces, a)
    ensures a.sets == IPSets.ReplacedAll(a.sets0, spec.ipsets)
  {
    hide IPSets.ReplacedAll;
  }

  lemma PacketFares(spec: Spec, ifaces: seq<string>, a: Trace, p: Packet, priority: nat)
    requires Applied(spec, ifaces, a) && Clean(spec, a.chains) && !p.direction.Unknown?
    ensures FaresAsSpecified(spec, ifaces, a, p, priority)
  {
    PartitionsFit(spec, a.chains, a.start, p);
    NeverMarked(spec.partitions, p);
    var t := Iptables.InstalledAll(a.start, a.chains);
    hide IPSets.ReplacedAll, Iptables.InstalledAll, AtHook, Rightful, AllChains, GoodParts;
    hide Faithful, OneFilteredDevice, AllWordy, Builds, ChainLinks.Holds, WantedAll, FirstVerdict;
    if FirstVerdict(spec.partitions, p).Goes? && p.direction.Output? && p.device in Devices(spec.tcs) {
      hide Walk;
      CompilationPreservesMeaning(spec.tcs, a.plans, a.qdiscs, a.chains, t, p, priority);
    } else {
      TablesKeepVerdicts(spec.tcs, a.plans, a.qdiscs, a.chains, t, p);
    }
  }

  // ---------- two applications ----------

  /** All filters of the spec that match the packet are the same. */
  predicate OneFilter(spec: Spec, p: Packet) {
    forall i, j | 0 <= i < |spec.tcs| && 0 <= j < |spec.tcs| ::
      Candidate(spec.tcs[i], p) && Candidate(spec.tcs[j], p) ==> SameFilter(spec.tcs[i], spec.tcs[j])
  }

  /** The packet meets the same verdict after both, and if it goes on it passes the same rules in the same order. */
  predicate SameFate(spec: Spec, ifaces: seq<string>, a: Trace, b: Trace, p: Packet, priority: nat) {
    var x, y := AtHook(a.table, p), AtHook(b.table, p);
    && (x.Stopped? <==> y.Stopped?) && (x.Stopped? ==> x == y)
    && (x.Goes? && p.direction.Output? && p.device in Devices(spec.tcs) && OneFilter(spec, p) ==>
          p.device in a.qdiscs && p.device in b.qdiscs && PathOf(a, p, priority) == PathOf(b, p, priority))
    && (x.Goes? && !(p.direction.Output? && p.device in Devices(spec.tcs)) ==>
          x == y && (Flushed(a, ifaces, p.device) && Flushed(b, ifaces, p.device) && p.device !in Devices(spec.tcs) ==>
                       PathOf(a, p, priority) == PathOf(b, p, priority)))
  }

  /** History independence: two applications of one spec, from any two kernels and in any two orders of visiting, give
      every packet the same fate. Applying again to what an application left is a case of this. */
  lemma HistoryDoesNotMatter(spec: Spec, ifaces: seq<string>, a: Trace, b: Trace, p: Packet, priority: nat)
    requires Applied(spec, ifaces, a) && Applied(spec, ifaces, b) && Clean(spec, a.chains) && !p.direction.Unknown?
    ensures SameFate(spec, ifaces, a, b, p, priority)
    ensures forall i: nat :: i < |spec.ipsets| && IPSets.Lasting(spec.ipsets, i) ==>
      && spec.ipsets[i].name in a.sets && spec.ipsets[i].name in b.sets
      && a.sets[spec.ipsets[i].name].members == b.sets[spec.ipsets[i].name].members
  {
    hide Clean, FaresAsSpecified, SameFate, IPSets.Lasting, IPSets.Holds, IPSets.TypesKept, IPSets.TypesAgree;
    assert a.chains == b.chains by { SameChains(spec.partitions, a.chains, b.chains); }
    hide Applied;
    AppliedMeans(spec, ifaces, a, p, priority);
    AppliedMeans(spec, ifaces, b, p, priority);
    SameFateFollows(spec, ifaces, a, b, p, priority);
    forall i: nat | i < |spec.ipsets| && IPSets.Lasting(spec.ipsets, i)
      ensures && spec.ipsets[i].name in a.sets && spec.ipsets[i].name in b.sets
              && a.sets[spec.ipsets[i].name].members == b.sets[spec.ipsets[i].name].members
    {
      SameMembers(a.sets, b.sets, spec.ipsets[i]);
    }
  }

  lemma SameMembers(a: IPSets.Table, b: IPSets.Table, req: IPSets.Request)
    requires IPSets.Holds(a, req) && IPSets.Holds(b, req)
    ensures req.name in a && req.name in b && a[req.name].members == b[req.name].members
  {
  }

  lemma SameFateFollows(spec: Spec, ifaces: seq<string>, a: Trace, b: Trace, p: Packet, priority: nat)
    requires FaresAsSpecified(spec, ifaces, a, p, priority) && FaresAsSpecified(spec, ifaces, b, p, priority)
    ensures SameFate(spec, ifaces, a, b, p, priority)
  {
    hide AtHook, Rightful, FirstVerdict, Devices, PathOf, Candidate;
    if OneFilter(spec, p) && AtHook(a.table, p).Goes? && p.direction.Output? && p.device in Devices(spec.tcs) {
      RightfulIsUnique(spec.tcs, p, PathOf(a, p, priority), PathOf(b, p, priority));
    }
  }

  lemma SameChains(raws: seq<RawIptables>, a: seq<Iptables.Chain>, b: seq<Iptables.Chain>)
    requires Builds(raws, a) && Builds(raws, b)
    ensures a == b
  {
  }

  /** Applying twice is applying once. */
  method ApplyTwice(ks: IPSets.Kernel, ki: Iptables.Kernel, kt: Qdiscs.Kernel, ifaces: seq<string>, spec: Spec)
    returns (ok: bool, ghost a: Trace, ghost b: Trace)
    requires kt.Valid()
    modifies ks, ki, kt
    ensures ok ==> Applied(spec, ifaces, a) && Applied(spec, ifaces, b) && b.sets0 == a.sets
    ensures ok ==> b.sets == ks.sets && b.table == ki.chains && b.qdiscs == kt.qdiscs
    ensures ok && Clean(spec, a.chains) ==>
      forall p: Packet, priority: nat :: !p.direction.Unknown? ==> SameFate(spec, ifaces, a, b, p, priority)
  {
    hide Applied, Clean, SameFate;
    ok, a := Apply(ks, ki, kt, ifaces, spec);
    b := a;
    if !ok { return; }
    ok, b := Apply(ks, ki, kt, ifaces, spec);
    if ok && Clean(spec, a.chains) {
      forall p: Packet, priority: nat | !p.direction.Unknown? ensures SameFate(spec, ifaces, a, b, p, priority) {
        HistoryDoesNotMatter(spec, ifaces, a, b, p, priority);
      }
    }
  }
}
