/** The numbering of the classifying chains restarts at 0 for every device: what that means for requests that
    filter traffic on several devices (pkg/chaosdaemon/tc_server.go). */
module TcConflicts {
  import opened Text
  import opened Qdiscs
  import opened TrafficControl
  import opened TcMeaning
  import opened Iptables
  import opened ChainLinks
  import opened Partition

  // ---------- chains that leave a packet alone ----------

  predicate NoMatch(rules: seq<Entry>, p: Packet) {
    forall i :: 0 <= i < |rules| ==> rules[i].Rule? && !Matches(rules[i], p)
  }

  /** Of the chains CHAOS-OUTPUT jumps to, only the excepted one may hold a rule that matches the packet. */
  predicate Quiet(t: Table, p: Packet, except: Option<string>) {
    && CHAOS_OUTPUT in t
    && forall k :: 0 <= k < |t[CHAOS_OUTPUT]| ==>
         var e := t[CHAOS_OUTPUT][k];
         e.Link? && e.chain in t && (Some(e.chain) == except || NoMatch(t[e.chain], p))
  }

  lemma {:induction false} NoMatchGoes(rules: seq<Entry>, p: Packet, mark: Option<(nat, nat)>)
    requires NoMatch(rules, p)
    ensures RunRules(rules, p, mark) == Goes(mark)
  {
    if rules != [] { NoMatchGoes(rules[1..], p, mark); }
  }

  lemma {:induction false} QuietGoes(t: Table, entries: seq<Entry>, p: Packet)
    requires forall k :: 0 <= k < |entries| ==>
      entries[k].Link? && entries[k].chain in t && NoMatch(t[entries[k].chain], p)
    ensures RunHook(t, entries, p, None) == Goes(None)
    decreases |entries|
  {
    if entries != [] {
      NoMatchGoes(t[entries[0].chain], p, None);
      QuietGoes(t, entries[1..], p);
    }
  }

  lemma {:induction false} MissedRulesFor(c: Chain, ipsets: seq<string>, p: Packet)
    requires c.direction != p.direction || Device(c) != p.device || forall s :: s in ipsets ==> s !in p.sets
    ensures NoMatch(RulesFor(c, ipsets), p)
  {
    if ipsets != [] {
      MissedRulesFor(c, ipsets[1..], p);
      assert ipsets[0] in ipsets;
    }
  }

  lemma MissedRules(c: Chain, p: Packet)
    requires !Hits(c, p)
    ensures NoMatch(Rules(c), p)
  {
    if c.ipsets != [] { MissedRulesFor(c, c.ipsets, p); }
  }

  /** Writing a chain replaces its rules and at most adds a jump to it. */
  lemma InstalledForm(t: Table, c: Chain)
    requires Named(c) && Hook(c.direction) in t
    ensures Installed(t, c) == t[c.name := Rules(c)]
         || Installed(t, c) == t[c.name := Rules(c)][Hook(c.direction) := t[Hook(c.direction)] + [Link(c.name)]]
  {
    hide Contains, Listing, Command, Rules, EnsuredAll, Word, AllWords, NamedEntry;
    RulesAreNamed(c);
    RulesAreWritten(t[c.name := []], c.name, Rules(c));
    assert [] + Rules(c) == Rules(c);
    assert EnsuredAll(t[c.name := []], c.name, Rules(c)) == t[c.name := Rules(c)];
  }

  lemma InstallingQuietly(t: Table, c: Chain, p: Packet, except: Option<string>)
    requires Named(c) && c.direction.Output? && Quiet(t, p, except)
    ensures Some(c.name) == except || NoMatch(Rules(c), p) ==> Quiet(Installed(t, c), p, except)
    ensures Some(c.name) == except && NoMatch(Rules(c), p) ==> Quiet(Installed(t, c), p, None)
  {
    InstalledForm(t, c);
    hide Installed, Rules, NoMatch, Named;
    var u := Installed(t, c);
    assert c.name != CHAOS_OUTPUT by { NotReserved(c); }
    assert forall k :: 0 <= k < |u[CHAOS_OUTPUT]| ==>
      u[CHAOS_OUTPUT][k] == Link(c.name) || (k < |t[CHAOS_OUTPUT]| && u[CHAOS_OUTPUT][k] == t[CHAOS_OUTPUT][k]);
  }

  lemma NotReserved(c: Chain)
    requires Named(c)
    ensures c.name != CHAOS_OUTPUT
  {
  }

  lemma {:induction false} InstallingAllQuietly(t: Table, chains: seq<Chain>, p: Packet, except: Option<string>)
    requires Quiet(t, p, except)
    requires forall i :: 0 <= i < |chains| ==> Named(chains[i]) && chains[i].direction.Output?
    requires forall i :: 0 <= i < |chains| ==> Some(chains[i].name) == except || NoMatch(Rules(chains[i]), p)
    ensures Quiet(InstalledAll(t, chains), p, except)
    decreases |chains|
  {
    hide Named, NoMatch, Rules, Installed, Quiet;
    if chains != [] {
      InstallingQuietly(t, chains[0], p, except);
      InstallingAllQuietly(Installed(t, chains[0]), chains[1..], p, except);
    }
  }

  // ---------- packets for one filter ----------

  /** A packet of a rule's device that is in the rule's ip set, if it has one, and in no other; its protocol is the
      rule's, or a given other one. */
  function Lone(tc: Tc, other: string): Packet {
    Packet(Output, DeviceOf(tc), if tc.protocol != "" then tc.protocol else other,
           if tc.ipset != "" then {tc.ipset} else {}, {})
  }

  /** A protocol that no rule names. */
  function Unnamed(tcs: seq<Tc>): string {
    if tcs == [] then "x" else Unnamed(tcs[..|tcs| - 1]) + tcs[|tcs| - 1].protocol
  }

  lemma {:induction false} UnnamedIsNew(tcs: seq<Tc>)
    ensures Unnamed(tcs) != "" && forall i :: 0 <= i < |tcs| ==> tcs[i].protocol != Unnamed(tcs)
  {
    UnnamedIsLong(tcs);
  }

  lemma {:induction false} UnnamedIsLong(tcs: seq<Tc>)
    ensures |Unnamed(tcs)| > 0 && forall i :: 0 <= i < |tcs| ==> |tcs[i].protocol| < |Unnamed(tcs)|
  {
    if tcs != [] { UnnamedIsLong(tcs[..|tcs| - 1]); }
  }

  /** Partition chains that have nothing to do with the rules' traffic: those on their devices list ip sets, and none
      that a rule filters by. */
  predicate Aside(parts: seq<Chain>, tcs: seq<Tc>) {
    forall k :: 0 <= k < |parts| && parts[k].direction.Output? && Device(parts[k]) in Devices(tcs) ==>
      parts[k].ipsets != [] && forall i :: 0 <= i < |tcs| ==> tcs[i].ipset !in parts[k].ipsets
  }

  predicate Misses(parts: seq<Chain>, p: Packet) {
    forall k :: 0 <= k < |parts| ==> !Hits(parts[k], p)
  }

  lemma LoneIsMissed(parts: seq<Chain>, tcs: seq<Tc>, i: nat, other: string)
    requires Aside(parts, tcs) && i < |tcs|
    ensures Misses(parts, Lone(tcs[i], other)) && WantedAll(parts, Lone(tcs[i], other)) == Goes(None)
  {
    var p := Lone(tcs[i], other);
    assert p.device in Devices(tcs);
    MissedAll(parts, p);
  }

  lemma {:induction false} MissedAll(parts: seq<Chain>, p: Packet)
    requires Misses(parts, p)
    ensures WantedAll(parts, p) == Goes(None)
  {
    if parts != [] { MissedAll(parts[..|parts| - 1], p); }
  }

  lemma PartsAreQuiet(t: Table, parts: seq<Chain>, p: Packet, except: Option<string>)
    requires Holds(t, parts) && Misses(parts, p)
    ensures Quiet(t, p, except)
  {
    LinkedCovers(parts, Output);
    forall k | 0 <= k < |t[CHAOS_OUTPUT]|
      ensures var e := t[CHAOS_OUTPUT][k]; e.Link? && e.chain in t && NoMatch(t[e.chain], p)
    {
      var name := Linked(parts, Output)[k];
      assert t[CHAOS_OUTPUT][k] == Link(name) && Seen(parts, Output, name);
      var i :| 0 <= i < |parts| && parts[i].direction == Output && parts[i].name == name;
      MissedRules(parts[i], p);
    }
  }

  // ---------- chains of one plan ----------

  /** The rule that supplies the match of one of a plan's filters. */
  function FirstOf(tcs: seq<Tc>, plan: Plan, f: nat): Tc
    requires Follows(tcs, plan) && f < |plan.keys|
  {
    GroupsNonEmpty(OnDevice(tcs, plan.device), plan.keys);
    Groups(OnDevice(tcs, plan.device), plan.keys)[f][0]
  }

  lemma PlannedChain(tcs: seq<Tc>, plan: Plan, f: nat, p: Packet)
    requires AllWordy(tcs) && Follows(tcs, plan) && plan.device in Devices(tcs) && f < |plan.keys|
    ensures |PlannedChains(tcs, plan)| == |plan.keys|
    ensures var c := PlannedChains(tcs, plan)[f];
            && Named(c) && c.direction.Output? && c.name == TableName(f)
            && (p.device != plan.device || !FilterMatches(FirstOf(tcs, plan, f), p) ==> NoMatch(Rules(c), p))
  {
    PlanOf(tcs, plan);
    GroupsWordy(tcs, plan);
    var parent := |WithKey(OnDevice(tcs, plan.device), "")| + 1;
    hide OnDevice, WithKey, Keys, Devices, Groups, Enumerates;
    var first := FirstOf(tcs, plan, f);
    TcChainNamed(f, parent, first, plan.device);
    TcChainMisses(f, parent, first, plan.device, p);
  }

  lemma TcChainMisses(f: nat, parent: nat, first: Tc, device: string, p: Packet)
    requires device != ""
    ensures p.device != device || !FilterMatches(first, p) ==> NoMatch(Rules(TcChain(f, parent, first, device)), p)
  {
    var c := TcChain(f, parent, first, device);
    if first.ipset != "" { assert RulesFor(c, c.ipsets[1..]) == []; }
  }

  /** Of the filters of a plan only the first visited may match the packet. */
  predicate OnlyFirst(tcs: seq<Tc>, plan: Plan, p: Packet)
    requires Follows(tcs, plan)
  {
    p.device == plan.device && forall f :: 0 < f < |plan.keys| ==> !FilterMatches(FirstOf(tcs, plan, f), p)
  }

  predicate FilteredBetween(plans: seq<Plan>, a: nat, n: nat)
    requires n <= |plans|
  {
    exists b :: a < b < n && plans[b].keys != []
  }

  /** Installing plan after plan: once a later device has filters too, nothing classifies the packet any more. */
  lemma {:induction false} PacketIsLost(tcs: seq<Tc>, plans: seq<Plan>, devices: set<string>, t: Table, a: nat, n: nat,
                                        p: Packet)
    requires AllWordy(tcs) && Schedule(tcs, plans, devices) && devices <= Devices(tcs)
    requires a < |plans| && n <= |plans| && OnlyFirst(tcs, plans[a], p) && Quiet(t, p, None)
    ensures Quiet(InstalledAll(t, AllChains(tcs, plans[..n])), p, Some(TableName(0)))
    ensures FilteredBetween(plans, a, n) ==> Quiet(InstalledAll(t, AllChains(tcs, plans[..n])), p, None)
  {
    hide PlannedChains, Follows, AllWordy, InstalledAll, AllChains, Devices, FirstOf, FilterMatches, NoMatch;
    if n == 0 {
      NothingYet(tcs, plans, t);
    } else {
      var plan := plans[n - 1];
      PacketIsLost(tcs, plans, devices, t, a, n - 1, p);
      var earlier, chains := AllChains(tcs, plans[..n - 1]), PlannedChains(tcs, plan);
      NextPlan(tcs, plans, n);
      InstalledConcat(t, earlier, chains);
      hide Quiet;
      PlanQuietly(tcs, plan, p, InstalledAll(t, earlier), n - 1 == a, FilteredBetween(plans, a, n - 1));
    }
  }

  lemma NothingYet(tcs: seq<Tc>, plans: seq<Plan>, t: Table)
    requires forall i :: 0 <= i < |plans| ==> Follows(tcs, plans[i])
    ensures InstalledAll(t, AllChains(tcs, plans[..0])) == t
  {
    assert plans[..0] == [];
  }

  lemma NextPlan(tcs: seq<Tc>, plans: seq<Plan>, n: nat)
    requires 0 < n <= |plans| && forall i :: 0 <= i < |plans| ==> Follows(tcs, plans[i])
    ensures AllChains(tcs, plans[..n]) == AllChains(tcs, plans[..n - 1]) + PlannedChains(tcs, plans[n - 1])
  {
    assert plans[..n][..n - 1] == plans[..n - 1];
  }

  lemma PlanQuietly(tcs: seq<Tc>, plan: Plan, p: Packet, t: Table, same: bool, lost: bool)
    requires AllWordy(tcs) && Follows(tcs, plan) && plan.device in Devices(tcs)
    requires if same then OnlyFirst(tcs, plan, p) else plan.device != p.device
    requires Quiet(t, p, Some(TableName(0))) && (lost ==> !same && Quiet(t, p, None))
    ensures Quiet(InstalledAll(t, PlannedChains(tcs, plan)), p, Some(TableName(0)))
    ensures lost || (!same && plan.keys != []) ==> Quiet(InstalledAll(t, PlannedChains(tcs, plan)), p, None)
  {
    hide Named, NoMatch, Rules, Installed, Quiet, PlannedChains, Follows, AllWordy, OnlyFirst, InstalledAll;
    var chains := PlannedChains(tcs, plan);
    PlannedLength(tcs, plan);
    PlanMisses(tcs, plan, p, same);
    InstallingAllQuietly(t, chains, p, Some(TableName(0)));
    if lost {
      InstallingAllQuietly(t, chains, p, None);
    } else if !same && plan.keys != [] {
      OverwritingQuietly(t, chains, p);
    }
  }

  lemma PlanMisses(tcs: seq<Tc>, plan: Plan, p: Packet, same: bool)
    requires AllWordy(tcs) && Follows(tcs, plan) && plan.device in Devices(tcs)
    requires if same then OnlyFirst(tcs, plan, p) else plan.device != p.device
    ensures var chains := PlannedChains(tcs, plan);
            forall f :: 0 <= f < |chains| ==>
              && Named(chains[f]) && chains[f].direction.Output? && chains[f].name == TableName(f)
              && (!same || f > 0 ==> NoMatch(Rules(chains[f]), p))
  {
    hide Named, NoMatch, Rules, PlannedChains, Follows, AllWordy, FilterMatches, FirstOf;
    PlannedLength(tcs, plan);
    forall f | 0 <= f < |plan.keys|
      ensures var c := PlannedChains(tcs, plan)[f];
              && Named(c) && c.direction.Output? && c.name == TableName(f)
              && (!same || f > 0 ==> NoMatch(Rules(c), p))
    {
      PlannedChain(tcs, plan, f, p);
    }
  }

  /** The first chain written replaces the one that could match. */
  lemma OverwritingQuietly(t: Table, chains: seq<Chain>, p: Packet)
    requires chains != [] && Quiet(t, p, Some(chains[0].name))
    requires forall i :: 0 <= i < |chains| ==>
      Named(chains[i]) && chains[i].direction.Output? && NoMatch(Rules(chains[i]), p)
    ensures Quiet(InstalledAll(t, chains), p, None)
  {
    hide Named, NoMatch, Rules, Installed, Quiet;
    InstallingQuietly(t, chains[0], p, Some(chains[0].name));
    InstallingAllQuietly(Installed(t, chains[0]), chains[1..], p, None);
  }

  lemma PlannedLength(tcs: seq<Tc>, plan: Plan)
    requires Follows(tcs, plan)
    ensures |PlannedChains(tcs, plan)| == |plan.keys|
  {
  }

  // ---------- exactly when a run is right ----------

  predicate TakesRightfulWay(tcs: seq<Tc>, plans: seq<Plan>, qdiscs: map<string, Tree>, t: Table, p: Packet,
                             priority: nat)
    requires Ran(tcs, plans, qdiscs)
  {
    var out := AtHook(InstalledAll(t, AllChains(tcs, plans)), p);
    out.Goes? && p.device in qdiscs && Rightful(tcs, p, Walk(qdiscs[p.device], Root, out.mark, priority).0)
  }

  /** Packets that leave by a device with rules and that the partitions let through. */
  predicate InScope(tcs: seq<Tc>, parts: seq<Chain>, p: Packet) {
    p.direction.Output? && p.device in Devices(tcs) && WantedAll(parts, p) == Goes(None)
  }

  lemma {:induction false} SelectedIsThere(tcs: seq<Tc>, i: nat)
    requires i < |tcs|
    ensures Select(tcs, DeviceOf(tcs[i]), tcs[i].ipset, tcs[i].protocol) != []
  {
    var n := |tcs| - 1;
    if i < n {
      assert tcs[..n][i] == tcs[i];
      SelectedIsThere(tcs[..n], i);
    }
  }

  lemma OnlyUnfilteredIsWrong(tcs: seq<Tc>, p: Packet, i: nat)
    requires i < |tcs| && Candidate(tcs[i], p)
    ensures !Rightful(tcs, p, Select(tcs, p.device, "", ""))
  {
    var path := Select(tcs, p.device, "", "");
    forall j | 0 <= j < |tcs| && Candidate(tcs[j], p)
      ensures path != path + Select(tcs, p.device, tcs[j].ipset, tcs[j].protocol)
    {
      SelectedIsThere(tcs, j);
    }
  }

  /** A packet that no chain classifies although a rule is meant for it takes a wrong way. */
  lemma UnmarkedIsWrong(tcs: seq<Tc>, plans: seq<Plan>, qdiscs: map<string, Tree>, t: Table, p: Packet, i: nat,
                        priority: nat)
    requires Ran(tcs, plans, qdiscs) && i < |tcs| && Candidate(tcs[i], p)
    requires AtHook(InstalledAll(t, AllChains(tcs, plans)), p) == Goes(None)
    ensures !TakesRightfulWay(tcs, plans, qdiscs, t, p, priority)
  {
    hide AtHook, InstalledAll, Walk, PlannedTree, Select, AllChains, OnDevice, Keys, WithKey, Groups, Rightful, Follows;
    assert DeviceOf(tcs[i]) in Devices(tcs);
    var a :| 0 <= a < |plans| && plans[a].device == p.device;
    assert qdiscs[p.device] == PlannedTree(tcs, plans[a]);
    PlannedPath(tcs, plans[a], None, priority);
    var path := Select(tcs, p.device, "", "");
    assert path + [] == path;
    OnlyUnfilteredIsWrong(tcs, p, i);
  }

  /** A packet for the filter visited first on one device misses its rules once another device with filters is
      visited later. */
  lemma PacketGoesAstray(tcs: seq<Tc>, plans: seq<Plan>, qdiscs: map<string, Tree>, t: Table, a: nat, b: nat, p: Packet,
                         i: nat, priority: nat)
    requires AllWordy(tcs) && Ran(tcs, plans, qdiscs) && a < b < |plans| && plans[b].keys != []
    requires OnlyFirst(tcs, plans[a], p) && p.direction.Output? && Quiet(t, p, None)
    requires i < |tcs| && Candidate(tcs[i], p)
    ensures !TakesRightfulWay(tcs, plans, qdiscs, t, p, priority)
  {
    hide InstalledAll, AllChains, Follows, AllWordy, NoMatch, Candidate, Built, FirstOf, FilterMatches;
    hide TakesRightfulWay;
    PacketIsLost(tcs, plans, Devices(tcs), t, a, |plans|, p);
    assert plans[..|plans|] == plans;
    var u := InstalledAll(t, AllChains(tcs, plans));
    QuietGoes(u, u[CHAOS_OUTPUT], p);
    UnmarkedIsWrong(tcs, plans, qdiscs, t, p, i, priority);
  }

  // ---------- requests as the controller sends them ----------

  /** The controller never sets a protocol on a traffic-control rule. */
  predicate NoProtocols(tcs: seq<Tc>) {
    forall i :: 0 <= i < |tcs| ==> tcs[i].protocol == ""
  }

  lemma KeyIsIPSet(tc: Tc)
    requires tc.protocol == ""
    ensures FilterKey(tc) == tc.ipset
  {
    assert tc.ipset + "" == tc.ipset;
  }

  lemma NoProtocolsIsFaithful(tcs: seq<Tc>)
    requires NoProtocols(tcs)
    ensures Faithful(tcs)
  {
    forall i | 0 <= i < |tcs| ensures FilterKey(tcs[i]) == tcs[i].ipset { KeyIsIPSet(tcs[i]); }
  }

  /** The first rule of a filter comes from the request and has the filter's key. */
  lemma FirstIsRequested(tcs: seq<Tc>, plan: Plan, f: nat) returns (i: nat)
    requires Follows(tcs, plan) && f < |plan.keys|
    ensures i < |tcs| && HasFilter(tcs[i]) && DeviceOf(tcs[i]) == plan.device
    ensures SameFilter(tcs[i], FirstOf(tcs, plan, f)) && FilterKey(tcs[i]) == plan.keys[f]
  {
    var rules := OnDevice(tcs, plan.device);
    var first := FirstOf(tcs, plan, f);
    GroupsNonEmpty(rules, plan.keys);
    var group := Groups(rules, plan.keys)[f];
    assert group == WithKey(rules, plan.keys[f]) && first == group[0];
    assert first in rules;
    hide OnDevice, WithKey, FilterKey;
    var k :| 0 <= k < |rules| && rules[k] == first;
    i := FromRequest(tcs, plan.device, k);
    SameKey(tcs[i], first);
    EmptyKey(tcs[i]);
  }

  lemma LoneOfFirst(tcs: seq<Tc>, plan: Plan, i: nat)
    requires NoProtocols(tcs) && Follows(tcs, plan) && plan.keys != [] && i < |tcs|
    requires DeviceOf(tcs[i]) == plan.device && FilterKey(tcs[i]) == plan.keys[0]
    ensures OnlyFirst(tcs, plan, Lone(tcs[i], Unnamed(tcs)))
  {
    KeyIsIPSet(tcs[i]);
    forall f | 0 < f < |plan.keys| ensures !FilterMatches(FirstOf(tcs, plan, f), Lone(tcs[i], Unnamed(tcs))) {
      var j := FirstIsRequested(tcs, plan, f);
      KeyIsIPSet(tcs[j]);
      EmptyKey(tcs[j]);
      assert plan.keys[0] != plan.keys[f];
    }
  }

  lemma FilteredPlan(tcs: seq<Tc>, plans: seq<Plan>, qdiscs: map<string, Tree>, i: nat) returns (a: nat)
    requires Ran(tcs, plans, qdiscs) && i < |tcs| && HasFilter(tcs[i])
    ensures a < |plans| && plans[a].keys != [] && plans[a].device == DeviceOf(tcs[i])
  {
    assert DeviceOf(tcs[i]) in Devices(tcs);
    a :| 0 <= a < |plans| && plans[a].device == DeviceOf(tcs[i]);
    KeysFromRequest(tcs, plans[a].device);
    assert FilterKey(tcs[i]) in Keys(OnDevice(tcs, plans[a].device));
  }

  /** Two filtered devices: in every run some packet goes astray. */
  lemma TwoFilteredDevicesGoWrong(tcs: seq<Tc>, plans: seq<Plan>, qdiscs: map<string, Tree>, parts: seq<Chain>,
                                  t: Table)
    returns (p: Packet)
    requires NoProtocols(tcs) && AllWordy(tcs) && Ran(tcs, plans, qdiscs) && !OneFilteredDevice(tcs)
    requires Holds(t, parts) && Aside(parts, tcs)
    ensures InScope(tcs, parts, p) && !TakesRightfulWay(tcs, plans, qdiscs, t, p, 0)
  {
    hide TakesRightfulWay, AllWordy, HasFilter, Built, Follows, Holds, Linked, Aside, FilterMatches, Quiet, FirstOf;
    var i, j :| 0 <= i < |tcs| && 0 <= j < |tcs| && HasFilter(tcs[i]) && HasFilter(tcs[j])
      && DeviceOf(tcs[i]) != DeviceOf(tcs[j]);
    var a := FilteredPlan(tcs, plans, qdiscs, i);
    var b := FilteredPlan(tcs, plans, qdiscs, j);
    var x, y := if a < b then a else b, if a < b then b else a;
    p := AstrayWithLater(tcs, plans, qdiscs, parts, t, x, y);
  }

  lemma AstrayWithLater(tcs: seq<Tc>, plans: seq<Plan>, qdiscs: map<string, Tree>, parts: seq<Chain>, t: Table, x: nat,
                        y: nat)
    returns (p: Packet)
    requires NoProtocols(tcs) && AllWordy(tcs) && Ran(tcs, plans, qdiscs)
    requires x < y < |plans| && plans[x].keys != [] && plans[y].keys != []
    requires Holds(t, parts) && Aside(parts, tcs)
    ensures InScope(tcs, parts, p) && !TakesRightfulWay(tcs, plans, qdiscs, t, p, 0)
  {
    hide TakesRightfulWay, AllWordy, HasFilter, Built, Follows, Holds, Linked, Aside, FilterMatches, Quiet, FirstOf;
    hide Candidate, NoProtocols, OnlyFirst, Misses, WantedAll, Unnamed;
    var k := FirstIsRequested(tcs, plans[x], 0);
    p := Lone(tcs[k], Unnamed(tcs));
    LoneOfFirst(tcs, plans[x], k);
    LoneIsMissed(parts, tcs, k, Unnamed(tcs));
    PartsAreQuiet(t, parts, p, None);
    LoneIsWanted(tcs[k], Unnamed(tcs));
    assert DeviceOf(tcs[k]) in Devices(tcs);
    PacketGoesAstray(tcs, plans, qdiscs, t, x, y, p, k, 0);
  }

  lemma LoneIsWanted(tc: Tc, other: string)
    ensures HasFilter(tc) ==> Candidate(tc, Lone(tc, other))
    ensures FilterMatches(tc, Lone(tc, other))
  {
  }

  /** For requests as the controller sends them, and for every run: all packets that the partitions let through take a
      rightful way exactly when at most one device has filtered rules. */
  lemma RightExactlyWithOneFilteredDevice(tcs: seq<Tc>, plans: seq<Plan>, qdiscs: map<string, Tree>, parts: seq<Chain>,
                                          t: Table)
    requires NoProtocols(tcs) && AllWordy(tcs) && Ran(tcs, plans, qdiscs)
    requires GoodParts(parts) && Holds(t, parts) && Aside(parts, tcs)
    ensures (forall p: Packet, priority: nat :: InScope(tcs, parts, p) ==>
             TakesRightfulWay(tcs, plans, qdiscs, t, p, priority))
       <==> OneFilteredDevice(tcs)
  {
    hide TakesRightfulWay, NoProtocols, AllWordy, OneFilteredDevice, Ran, Holds, Aside, GoodParts, InScope;
    if OneFilteredDevice(tcs) {
      NoProtocolsIsFaithful(tcs);
      forall p: Packet, priority: nat | InScope(tcs, parts, p)
        ensures TakesRightfulWay(tcs, plans, qdiscs, t, p, priority)
      {
        FaithfulIsRight(tcs, plans, qdiscs, parts, t, p, priority);
      }
    } else {
      var p := TwoFilteredDevicesGoWrong(tcs, plans, qdiscs, parts, t);
    }
  }

  lemma FaithfulIsRight(tcs: seq<Tc>, plans: seq<Plan>, qdiscs: map<string, Tree>, parts: seq<Chain>, t: Table,
                        p: Packet, priority: nat)
    requires Faithful(tcs) && AllWordy(tcs) && Ran(tcs, plans, qdiscs) && OneFilteredDevice(tcs)
    requires GoodParts(parts) && Holds(t, parts) && InScope(tcs, parts, p)
    ensures TakesRightfulWay(tcs, plans, qdiscs, t, p, priority)
  {
    hide AtHook, InstalledAll, Walk, AllChains, Rightful, AllWordy, Built, OneFilteredDevice, Schedule, GoodParts;
    hide Holds;
    hide Faithful, WantedAll;
    CompilationPreservesMeaning(tcs, plans, qdiscs, parts, t, p, priority);
  }
}
