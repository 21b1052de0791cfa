/** A traffic-control request compiled into one qdisc tree per device and CLASSIFY chains
    (pkg/chaosdaemon/tc_server.go). */
module TrafficControl {
  import opened Qdiscs
  import Iptables

  // ---------- the request as a flat list ----------

  /** The traffic a rule is for: what leaves the device it names, or eth0 if it names none. */
  predicate IsFor(tc: Tc, device: string) {
    if tc.device == "" then device == "eth0" else device == tc.device
  }

  function DeviceOf(tc: Tc): string {
    if tc.device == "" then Iptables.DEFAULT_DEVICE else tc.device
  }

  lemma DeviceIsNamed(tc: Tc, device: string)
    ensures DeviceOf(tc) == device <==> IsFor(tc, device)
  {
  }

  /** The filter key: ip set and protocol joined by a dash, empty for a rule without a filter. */
  function FilterKey(tc: Tc): string {
    tc.ipset + KeySuffix(tc.protocol)
  }

  function Devices(tcs: seq<Tc>): set<string> {
    set i | 0 <= i < |tcs| :: if tcs[i].device == "" then "eth0" else tcs[i].device
  }

  /** The rules of one device, in request order, with the default device filled in. */
  function OnDevice(tcs: seq<Tc>, device: string): (rules: seq<Tc>)
    ensures forall i :: 0 <= i < |rules| ==> rules[i].device == device
  {
    if tcs == [] then [] else
      var tc := tcs[|tcs| - 1];
      OnDevice(tcs[..|tcs| - 1], device) + if IsFor(tc, device) then [tc.(device := device)] else []
  }

  /** The rules with a given key, in order; the empty key selects the unfiltered ones. */
  function WithKey(rules: seq<Tc>, key: string): (group: seq<Tc>)
    ensures forall i :: 0 <= i < |group| ==> group[i] in rules && FilterKey(group[i]) == key
  {
    if rules == [] then [] else
      var tc := rules[|rules| - 1];
      WithKey(rules[..|rules| - 1], key) + if FilterKey(tc) == key then [tc] else []
  }

  function Keys(rules: seq<Tc>): set<string> {
    set i | 0 <= i < |rules| && FilterKey(rules[i]) != "" :: FilterKey(rules[i])
  }

  lemma {:induction false} KeyHasRules(rules: seq<Tc>, key: string)
    ensures WithKey(rules, key) != [] <==> exists i :: 0 <= i < |rules| && FilterKey(rules[i]) == key
  {
    hide FilterKey;
    if i :| 0 <= i < |rules| && FilterKey(rules[i]) == key { KeyOfRule(rules, i); }
    if WithKey(rules, key) != [] {
      assert WithKey(rules, key)[0] in rules;
    }
  }

  lemma {:induction false} KeyOfRule(rules: seq<Tc>, i: nat)
    requires i < |rules|
    ensures WithKey(rules, FilterKey(rules[i])) != []
  {
    hide FilterKey;
    var n := |rules| - 1;
    if i < n {
      assert rules[..n][i] == rules[i];
      KeyOfRule(rules[..n], i);
    }
  }

  predicate SameFilter(a: Tc, b: Tc) {
    a.ipset == b.ipset && a.protocol == b.protocol
  }

  function KeySuffix(protocol: string): string {
    if protocol != "" then "-" + protocol else ""
  }

  /** The name of one rule's ip set goes on where the other's ends, with a dash and the beginning of its protocol. */
  predicate RunsInto(a: Tc, b: Tc) {
    && b.protocol != "" && |b.ipset| < |a.ipset| && a.ipset[..|b.ipset|] == b.ipset && a.ipset[|b.ipset|] == '-'
    && b.protocol == a.ipset[|b.ipset| + 1..] + KeySuffix(a.protocol)
  }

  /** Two different filters have the same key exactly when one runs into the other. */
  lemma KeysCollideIff(a: Tc, b: Tc)
    ensures FilterKey(a) == FilterKey(b) && !SameFilter(a, b) <==> RunsInto(a, b) || RunsInto(b, a)
  {
    if RunsInto(a, b) { RunningIntoCollides(a, b); }
    if RunsInto(b, a) { RunningIntoCollides(b, a); }
    if FilterKey(a) == FilterKey(b) && !SameFilter(a, b) {
      if |a.ipset| > |b.ipset| {
        CollidingRunsInto(a, b);
      } else if |a.ipset| < |b.ipset| {
        CollidingRunsInto(b, a);
      } else {
        SameLengthSameFilter(a, b);
      }
    }
  }

  lemma SameLengthSameFilter(a: Tc, b: Tc)
    requires FilterKey(a) == FilterKey(b) && |a.ipset| == |b.ipset|
    ensures SameFilter(a, b)
  {
    var x, y := FilterKey(a)[|a.ipset|..], FilterKey(b)[|b.ipset|..];
    assert x == KeySuffix(a.protocol) && y == KeySuffix(b.protocol);
    assert FilterKey(a)[..|a.ipset|] == a.ipset && FilterKey(b)[..|b.ipset|] == b.ipset;
    if x != [] { assert x[1..] == y[1..]; }
  }

  lemma RunningIntoCollides(a: Tc, b: Tc)
    requires RunsInto(a, b)
    ensures FilterKey(a) == FilterKey(b) && !SameFilter(a, b)
  {
    var q := a.ipset[|b.ipset| + 1..];
    assert a.ipset == b.ipset + ("-" + q);
    assert b.ipset + ("-" + q) + KeySuffix(a.protocol) == b.ipset + ("-" + (q + KeySuffix(a.protocol)));
  }

  lemma CollidingRunsInto(a: Tc, b: Tc)
    requires FilterKey(a) == FilterKey(b) && |a.ipset| > |b.ipset|
    ensures RunsInto(a, b)
  {
    var key := FilterKey(a);
    assert key[..|a.ipset|] == a.ipset && key[|a.ipset|..] == KeySuffix(a.protocol);
    assert key[..|b.ipset|] == b.ipset && key[|b.ipset|..] == KeySuffix(b.protocol);
    assert key[|b.ipset|..][0] == a.ipset[|b.ipset|];
    assert key[|b.ipset|..][1..] == key[|b.ipset| + 1..] == a.ipset[|b.ipset| + 1..] + KeySuffix(a.protocol);
  }

  lemma NextOnDevice(tcs: seq<Tc>, n: nat)
    requires n < |tcs|
    ensures Devices(tcs[..n + 1]) == Devices(tcs[..n]) + {DeviceOf(tcs[n])}
    ensures forall d ::
      OnDevice(tcs[..n + 1], d) ==
      if DeviceOf(tcs[n]) == d then OnDevice(tcs[..n], d) + [tcs[n].(device := d)] else OnDevice(tcs[..n], d)
  {
    var longer := tcs[..n + 1];
    assert longer[..n] == tcs[..n] && longer[n] == tcs[n];
    assert forall i :: 0 <= i < n ==> longer[i] == tcs[..n][i];
  }

  lemma NextWithKey(rules: seq<Tc>, n: nat)
    requires n < |rules|
    ensures Keys(rules[..n + 1]) == Keys(rules[..n]) + if FilterKey(rules[n]) != "" then {FilterKey(rules[n])} else {}
    ensures forall key ::
      WithKey(rules[..n + 1], key) ==
      if FilterKey(rules[n]) == key then WithKey(rules[..n], key) + [rules[n]] else WithKey(rules[..n], key)
  {
    hide FilterKey;
    var longer := rules[..n + 1];
    assert longer[..n] == rules[..n] && longer[n] == rules[n];
    assert forall i :: 0 <= i < n ==> longer[i] == rules[..n][i];
  }

  method GroupRulesAccordingToDevices(tcs: seq<Tc>) returns (rules: map<string, seq<Tc>>)
    ensures rules.Keys == Devices(tcs)
    ensures forall d :: d in rules ==> rules[d] == OnDevice(tcs, d) && rules[d] != []
  {
    hide OnDevice, Devices, WithKey, Keys, FilterKey;
    rules := map[];
    NothingAsked(tcs);
    for n := 0 to |tcs|
      invariant rules.Keys == Devices(tcs[..n])
      invariant forall d :: d in rules ==> rules[d] == OnDevice(tcs[..n], d) && rules[d] != []
      invariant forall d :: d !in rules ==> OnDevice(tcs[..n], d) == []
    {
      var tc := tcs[n];
      var device := if tc.device == "" then Iptables.DEFAULT_DEVICE else tc.device;
      NextOnDevice(tcs, n);
      rules := rules[device := (if device in rules then rules[device] else []) + [tc.(device := device)]];
    }
    assert tcs[..|tcs|] == tcs;
  }

  lemma NothingAsked(tcs: seq<Tc>)
    ensures Devices(tcs[..0]) == {} && Keys(tcs[..0]) == {}
    ensures forall d :: OnDevice(tcs[..0], d) == []
    ensures forall key :: WithKey(tcs[..0], key) == []
  {
  }

  /** Splits one device's rules into the unfiltered ones and one list per filter key. */
  method SplitByFilter(rules: seq<Tc>) returns (globals: seq<Tc>, filters: map<string, seq<Tc>>)
    ensures globals == WithKey(rules, "")
    ensures filters.Keys == Keys(rules) && IsFilterMap(filters)
    ensures forall key :: key in filters ==> filters[key] == WithKey(rules, key)
  {
    hide OnDevice, Devices, WithKey, Keys, FilterKey, DeviceOf;
    globals, filters := [], map[];
    NothingAsked(rules);
    for n := 0 to |rules|
      invariant globals == WithKey(rules[..n], "")
      invariant filters.Keys == Keys(rules[..n]) && IsFilterMap(filters) && "" !in filters
      invariant forall key :: key in filters ==> filters[key] == WithKey(rules[..n], key)
    {
      var tc := rules[n];
      var filter := FilterKey(tc);
      NextWithKey(rules, n);
      if |filter| > 0 {
        if filter !in filters { NoSuchKey(rules[..n], filter); }
        filters := filters[filter := (if filter in filters then filters[filter] else []) + [tc]];
      } else {
        globals := globals + [tc];
      }
    }
    assert rules[..|rules|] == rules;
  }

  lemma NoSuchKey(rules: seq<Tc>, key: string)
    requires key != "" && key !in Keys(rules)
    ensures WithKey(rules, key) == []
  {
    KeyHasRules(rules, key);
    forall i | 0 <= i < |rules| && FilterKey(rules[i]) != "" ensures FilterKey(rules[i]) in Keys(rules) {}
  }

  // ---------- a whole run ----------

  /** How one run treated one device: the order in which it visited the filters. */
  datatype Plan = Plan(device: string, keys: seq<string>)

  function Groups(rules: seq<Tc>, keys: seq<string>): seq<seq<Tc>> {
    seq(|keys|, i requires 0 <= i < |keys| => WithKey(rules, keys[i]))
  }

  predicate Follows(tcs: seq<Tc>, plan: Plan) {
    Enumerates(plan.keys, Keys(OnDevice(tcs, plan.device)))
  }

  lemma GroupsNonEmpty(rules: seq<Tc>, keys: seq<string>)
    requires forall i :: 0 <= i < |keys| ==> keys[i] in Keys(rules)
    ensures NonEmpty(Groups(rules, keys))
  {
    forall i | 0 <= i < |keys| ensures Groups(rules, keys)[i] != [] { KeyHasRules(rules, keys[i]); }
  }

  function PlannedTree(tcs: seq<Tc>, plan: Plan): Tree {
    var rules := OnDevice(tcs, plan.device);
    Compiled(WithKey(rules, ""), Groups(rules, plan.keys))
  }

  function PlannedChains(tcs: seq<Tc>, plan: Plan): seq<Iptables.Chain>
    requires Follows(tcs, plan)
  {
    var rules := OnDevice(tcs, plan.device);
    GroupsNonEmpty(rules, plan.keys);
    TcChains(Groups(rules, plan.keys), |WithKey(rules, "")| + 1, plan.device)
  }

  /** The devices of the request, each once, in some order. */
  predicate Schedule(tcs: seq<Tc>, plans: seq<Plan>, devices: set<string>) {
    && (forall i :: 0 <= i < |plans| ==> plans[i].device in devices && Follows(tcs, plans[i]))
    && (forall i, j :: 0 <= i < j < |plans| ==> plans[i].device != plans[j].device)
    && (forall d :: d in devices ==> exists i :: 0 <= i < |plans| && plans[i].device == d)
  }

  function AllChains(tcs: seq<Tc>, plans: seq<Plan>): seq<Iptables.Chain>
    requires forall i :: 0 <= i < |plans| ==> Follows(tcs, plans[i])
  {
    if plans == [] then [] else AllChains(tcs, plans[..|plans| - 1]) + PlannedChains(tcs, plans[|plans| - 1])
  }

  /** One device: unfiltered rules first, then the filters. */
  method SetDeviceTcs(k: Kernel, ik: Iptables.Kernel, device: string, rules: seq<Tc>)
    returns (r: Result, ghost order: seq<string>)
    requires k.Valid() && rules != []
    modifies k, ik
    ensures r.Failed? ==> !AllBuildable(rules) || k.faults > old(k.faults) || ik.faults > old(ik.faults)
    ensures !r.Failed? ==> k.faults == old(k.faults) && ik.faults == old(ik.faults)
    ensures k.faults >= old(k.faults) && ik.faults >= old(ik.faults)
    ensures k.Valid() && OnlyDevice(k, device)
    ensures r.Success? ==> Enumerates(order, Keys(rules)) && device in k.qdiscs && NonEmpty(Groups(rules, order))
    ensures r.Success? ==> k.qdiscs[device] == Compiled(WithKey(rules, ""), Groups(rules, order))
    ensures r.Success? ==>
      ik.chains == Iptables.InstalledAll(old(ik.chains),
                                         TcChains(Groups(rules, order), |WithKey(rules, "")| + 1, device))
    ensures r.Rejected? ==> device !in old(k.qdiscs) || old(k.qdiscs)[device] != []
  {
    hide Stacked, Filtered, WithPrio, TcChains, Keys, WithKey, FilterKey, Buildable, AllRendered;
    var globals, filters := SplitByFilter(rules);
    order := [];
    SomeRules(rules);
    if |globals| > 0 {
      r := SetGlobalTcs(k, device, globals);
      if !r.Success? { return; }
    }
    if |filters| > 0 {
      r, order := SetFilterTcs(k, ik, filters, device, globals, |globals|);
      if r.Success? {
        GroupsNonEmpty(rules, order);
        assert Grouped(filters, order) == Groups(rules, order);
      }
    } else {
      r := Success;
      assert filters.Keys == {};
      NoChains(rules, |globals| + 1, device);
    }
  }

  lemma SomeRules(rules: seq<Tc>)
    requires rules != []
    ensures WithKey(rules, "") != [] || Keys(rules) != {}
  {
    KeyHasRules(rules, "");
    if FilterKey(rules[0]) != "" { assert FilterKey(rules[0]) in Keys(rules); }
  }

  lemma NoChains(rules: seq<Tc>, parent: nat, device: string)
    ensures Groups(rules, []) == [] && NonEmpty(Groups(rules, []))
    ensures TcChains(Groups(rules, []), parent, device) == []
  {
  }

  lemma {:induction false} InstalledConcat(t: Iptables.Table, a: seq<Iptables.Chain>, b: seq<Iptables.Chain>)
    ensures Iptables.InstalledAll(t, a + b) == Iptables.InstalledAll(Iptables.InstalledAll(t, a), b)
    decreases |a|
  {
    if a == [] {
      assert a + b == b;
    } else {
      assert (a + b)[1..] == a[1..] + b;
      InstalledConcat(Iptables.Installed(t, a[0]), a[1..], b);
    }
  }

  /** Deletes the qdiscs of every interface. A failure is reported only if it is the last interface's:
      the variable that holds it is overwritten by every later flush. */
  method FlushInterfaces(k: Kernel, ifaces: seq<string>) returns (err: bool, ghost unflushed: set<string>)
    requires k.Valid()
    modifies k
    ensures k.faults >= old(k.faults) && (k.faults == old(k.faults) ==> unflushed == {} && !err)
    ensures k.Valid() && k.qdiscs.Keys == old(k.qdiscs).Keys
    ensures forall d :: d in k.qdiscs && d in ifaces && d !in unflushed ==> k.qdiscs[d] == []
    ensures forall d :: d in k.qdiscs && d !in ifaces ==> k.qdiscs[d] == old(k.qdiscs)[d]
    ensures forall d :: d in k.qdiscs && d in unflushed ==> k.qdiscs[d] in {[], old(k.qdiscs)[d]}
    ensures err <==> ifaces != [] && ifaces[|ifaces| - 1] in unflushed
    ensures forall d :: d in unflushed ==> d in ifaces
  {
    hide AllRendered;
    err, unflushed := false, {};
    for n := 0 to |ifaces|
      invariant k.Valid() && k.qdiscs.Keys == old(k.qdiscs).Keys
      invariant forall d :: d in k.qdiscs && d in ifaces[..n] && d !in unflushed ==> k.qdiscs[d] == []
      invariant forall d :: d in k.qdiscs && d !in ifaces ==> k.qdiscs[d] == old(k.qdiscs)[d]
      invariant forall d :: d in k.qdiscs ==> k.qdiscs[d] in {[], old(k.qdiscs)[d]}
      invariant err <==> n > 0 && ifaces[n - 1] in unflushed
      invariant forall d :: d in unflushed ==> d in ifaces
      invariant k.faults >= old(k.faults) && (k.faults == old(k.faults) ==> unflushed == {})
    {
      assert ifaces[..n + 1] == ifaces[..n] + [ifaces[n]];
      var ok := k.Flush(ifaces[n]);
      err := !ok;
      unflushed := if ok then unflushed - {ifaces[n]} else unflushed + {ifaces[n]};
    }
    assert ifaces[..|ifaces|] == ifaces;
  }

  lemma OneMorePlan(tcs: seq<Tc>, plans: seq<Plan>, done: set<string>, plan: Plan)
    requires Schedule(tcs, plans, done) && plan.device !in done && Follows(tcs, plan)
    ensures Schedule(tcs, plans + [plan], done + {plan.device})
    ensures AllChains(tcs, plans + [plan]) == AllChains(tcs, plans) + PlannedChains(tcs, plan)
  {
    hide Follows, PlannedChains;
    var more := plans + [plan];
    assert more[..|plans|] == plans && more[|plans|] == plan;
    forall d | d in done + {plan.device} ensures exists i :: 0 <= i < |more| && more[i].device == d {
      if d in done {
        var i :| 0 <= i < |plans| && plans[i].device == d;
        assert more[i].device == d;
      }
    }
  }

  method SetPlannedDevice(k: Kernel, ik: Iptables.Kernel, ghost tcs: seq<Tc>, device: string, rules: seq<Tc>)
    returns (r: Result, ghost plan: Plan)
    requires k.Valid() && rules == OnDevice(tcs, device) && rules != []
    modifies k, ik
    ensures r.Failed? ==> !AllBuildable(rules) || k.faults > old(k.faults) || ik.faults > old(ik.faults)
    ensures !r.Failed? ==> k.faults == old(k.faults) && ik.faults == old(ik.faults)
    ensures k.faults >= old(k.faults) && ik.faults >= old(ik.faults)
    ensures k.Valid() && OnlyDevice(k, device)
    ensures r.Success? ==> plan.device == device && Follows(tcs, plan) && device in k.qdiscs
    ensures r.Success? ==> k.qdiscs[device] == PlannedTree(tcs, plan)
    ensures r.Success? ==> ik.chains == Iptables.InstalledAll(old(ik.chains), PlannedChains(tcs, plan))
    ensures r.Rejected? ==> device !in old(k.qdiscs) || old(k.qdiscs)[device] != []
  {
    hide Iptables.InstalledAll, Compiled, TcChains, Groups, WithKey, Keys, OnDevice, AllRendered;
    ghost var order;
    r, order := SetDeviceTcs(k, ik, device, rules);
    plan := Plan(device, order);
    PlanOf(tcs, plan);
  }

  /** Every planned device holds its planned tree. */
  predicate Built(tcs: seq<Tc>, plans: seq<Plan>, qdiscs: map<string, Tree>) {
    forall i :: 0 <= i < |plans| ==> plans[i].device in qdiscs && qdiscs[plans[i].device] == PlannedTree(tcs, plans[i])
  }

  predicate SameOutside(before: map<string, Tree>, after: map<string, Tree>, devices: set<string>) {
    before.Keys == after.Keys && forall d :: d in after && d !in devices ==> after[d] == before[d]
  }

  lemma BuiltNext(tcs: seq<Tc>, plans: seq<Plan>, done: set<string>, plan: Plan, start: map<string, Tree>,
                  before: map<string, Tree>, after: map<string, Tree>)
    requires Schedule(tcs, plans, done) && plan.device !in done
    requires Built(tcs, plans, before) && SameOutside(start, before, done)
    requires before.Keys == after.Keys && forall d :: d in after && d != plan.device ==> after[d] == before[d]
    requires plan.device in after && after[plan.device] == PlannedTree(tcs, plan)
    ensures Built(tcs, plans + [plan], after) && SameOutside(start, after, done + {plan.device})
  {
  }

  /** The loop over the devices, in any order. */
  method SetAllDevices(k: Kernel, ik: Iptables.Kernel, tcs: seq<Tc>, rules: map<string, seq<Tc>>)
    returns (r: Result, ghost plans: seq<Plan>)
    requires k.Valid() && forall d :: d in rules ==> rules[d] == OnDevice(tcs, d) && rules[d] != []
    modifies k, ik
    ensures r.Failed? ==> !AllFiltersBuildable(rules) || k.faults > old(k.faults) || ik.faults > old(ik.faults)
    ensures !r.Failed? ==> k.faults == old(k.faults) && ik.faults == old(ik.faults)
    ensures k.faults >= old(k.faults) && ik.faults >= old(ik.faults)
    ensures k.Valid() && SameOutside(old(k.qdiscs), k.qdiscs, rules.Keys)
    ensures r.Success? ==> Schedule(tcs, plans, rules.Keys) && Built(tcs, plans, k.qdiscs)
    ensures r.Success? ==> ik.chains == Iptables.InstalledAll(old(ik.chains), AllChains(tcs, plans))
    ensures r.Rejected? ==> exists d :: d in rules && (d !in old(k.qdiscs) || old(k.qdiscs)[d] != [])
  {
    hide PlannedTree, PlannedChains, Follows, OnDevice, Iptables.InstalledAll, AllChains, Built, AllRendered,
      WithKey, Keys;
    plans := [];
    var rest := rules.Keys;
    NothingPlanned(tcs, ik.chains, k.qdiscs);
    assert rules.Keys - rest == {};
    while rest != {}
      invariant k.Valid() && rest <= rules.Keys && k.faults == old(k.faults) && ik.faults == old(ik.faults)
      invariant Schedule(tcs, plans, rules.Keys - rest) && Built(tcs, plans, k.qdiscs)
      invariant SameOutside(old(k.qdiscs), k.qdiscs, rules.Keys - rest)
      invariant ik.chains == Iptables.InstalledAll(old(ik.chains), AllChains(tcs, plans))
      decreases rest
    {
      var device :| device in rest;
      ghost var plan;
      ghost var done, before := rules.Keys - rest, k.qdiscs;
      r, plan := SetPlannedDevice(k, ik, tcs, device, rules[device]);
      if !r.Success? { return; }
      OneMorePlan(tcs, plans, done, plan);
      BuiltNext(tcs, plans, done, plan, old(k.qdiscs), before, k.qdiscs);
      InstalledConcat(old(ik.chains), AllChains(tcs, plans), PlannedChains(tcs, plan));
      plans, rest := plans + [plan], rest - {device};
      assert rules.Keys - rest == done + {device};
    }
    assert rules.Keys - rest == rules.Keys;
    r := Success;
  }

  lemma {:induction false} BuildableOnDevice(tcs: seq<Tc>, device: string)
    requires AllBuildable(tcs)
    ensures AllBuildable(OnDevice(tcs, device))
  {
    if tcs != [] { BuildableOnDevice(tcs[..|tcs| - 1], device); }
  }

  lemma BuildableOnDevices(tcs: seq<Tc>, rules: map<string, seq<Tc>>)
    requires AllBuildable(tcs) && forall d :: d in rules ==> rules[d] == OnDevice(tcs, d)
    ensures AllFiltersBuildable(rules)
  {
    hide OnDevice, AllBuildable;
    forall d | d in rules ensures AllBuildable(rules[d]) {
      BuildableOnDevice(tcs, d);
    }
  }

  /** The whole request, devices and filters visited in any order. Success means that every device of the
      request holds exactly the tree of some plan for it, whatever it held before, and that the chains of
      those plans were installed in that order. A command is rejected as invalid only on a device that does
      not exist or whose flush failed. */
  method SetTcs(k: Kernel, ik: Iptables.Kernel, ifaces: seq<string>, tcs: seq<Tc>)
    returns (r: Result, ghost plans: seq<Plan>, ghost unflushed: set<string>)
    requires k.Valid()
    modifies k, ik
    ensures r.Failed? ==> !AllBuildable(tcs) || k.faults > old(k.faults) || ik.faults > old(ik.faults)
    ensures !r.Failed? ==> ik.faults == old(ik.faults)
    ensures k.faults >= old(k.faults) && ik.faults >= old(ik.faults)
    ensures k.faults == old(k.faults) ==> unflushed == {}
    ensures k.Valid() && k.qdiscs.Keys == old(k.qdiscs).Keys
    ensures r.Success? ==> Schedule(tcs, plans, Devices(tcs)) && Built(tcs, plans, k.qdiscs)
    ensures r.Success? ==> ik.chains == Iptables.InstalledAll(old(ik.chains), AllChains(tcs, plans))
    ensures r.Success? ==> forall d :: d in k.qdiscs && d in ifaces && d !in unflushed && d !in Devices(tcs) ==>
      k.qdiscs[d] == []
    ensures r.Rejected? ==> exists d :: d in Devices(tcs) && (d !in old(k.qdiscs) || d !in ifaces || d in unflushed)
  {
    hide Built, Schedule, OnDevice, Devices, Iptables.InstalledAll, AllChains, AllRendered;
    plans := [];
    var err;
    err, unflushed := FlushInterfaces(k, ifaces);
    if err { return Failed, plans, unflushed; }
    var rules := GroupRulesAccordingToDevices(tcs);
    if AllBuildable(tcs) { BuildableOnDevices(tcs, rules); }
    r, plans := SetAllDevices(k, ik, tcs, rules);
  }

  lemma NothingPlanned(tcs: seq<Tc>, t: Iptables.Table, qdiscs: map<string, Tree>)
    ensures Iptables.InstalledAll(t, AllChains(tcs, [])) == t
    ensures Schedule(tcs, [], {}) && Built(tcs, [], qdiscs)
  {
  }

  lemma PlanOf(tcs: seq<Tc>, plan: Plan)
    ensures Follows(tcs, plan) <==> Enumerates(plan.keys, Keys(OnDevice(tcs, plan.device)))
    ensures PlannedTree(tcs, plan)
      == Compiled(WithKey(OnDevice(tcs, plan.device), ""), Groups(OnDevice(tcs, plan.device), plan.keys))
    ensures Follows(tcs, plan) ==>
      NonEmpty(Groups(OnDevice(tcs, plan.device), plan.keys)) &&
      PlannedChains(tcs, plan)
        == TcChains(Groups(OnDevice(tcs, plan.device), plan.keys), |WithKey(OnDevice(tcs, plan.device), "")| + 1,
                    plan.device)
  {
    if Follows(tcs, plan) { GroupsNonEmpty(OnDevice(tcs, plan.device), plan.keys); }
  }
}
