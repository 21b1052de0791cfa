/** Filters are told apart by a key that joins ip set and protocol with a dash, and only the first rule of a key
    supplies the match (pkg/chaosdaemon/tc_server.go). When this loses a filter, and when a request is right in every
    order. */
module TcKeys {
  import opened Text
  import opened Qdiscs
  import opened TrafficControl
  import opened TcMeaning
  import opened TcConflicts
  import opened Iptables
  import opened ChainLinks
  import opened Partition

  // ---------- a group that mixes two filters ----------

  /** Every selected rule has the filter it was selected by. */
  lemma {:induction false} SelectedHasFilter(tcs: seq<Tc>, device: string, ipset: string, protocol: string, x: Tc)
    requires x in Select(tcs, device, ipset, protocol)
    ensures x.ipset == ipset && x.protocol == protocol
  {
    var n := |tcs| - 1;
    if x in Select(tcs[..n], device, ipset, protocol) { SelectedHasFilter(tcs[..n], device, ipset, protocol, x); }
  }

  lemma MixtureIsWrong(tcs: seq<Tc>, p: Packet, group: seq<Tc>, x: Tc, y: Tc)
    requires x in group && y in group && !SameFilter(x, y)
    ensures !Rightful(tcs, p, Select(tcs, p.device, "", "") + group)
  {
    hide Select;
    var unfiltered := Select(tcs, p.device, "", "");
    forall ipset, protocol ensures unfiltered + group != unfiltered + Select(tcs, p.device, ipset, protocol) {
      NotSelected(tcs, p.device, ipset, protocol, group, x, y);
      SameTail(unfiltered, group, Select(tcs, p.device, ipset, protocol));
    }
    assert |unfiltered + group| > |unfiltered|;
  }

  lemma NotSelected(tcs: seq<Tc>, device: string, ipset: string, protocol: string, group: seq<Tc>, x: Tc, y: Tc)
    requires x in group && y in group && !SameFilter(x, y)
    ensures group != Select(tcs, device, ipset, protocol)
  {
    hide Select;
    if group == Select(tcs, device, ipset, protocol) {
      SelectedHasFilter(tcs, device, ipset, protocol, x);
      SelectedHasFilter(tcs, device, ipset, protocol, y);
    }
  }

  lemma SameTail(a: seq<Tc>, b: seq<Tc>, c: seq<Tc>)
    ensures a + b == a + c ==> b == c
  {
    assert (a + b)[|a|..] == b && (a + c)[|a|..] == c;
  }

  /** Rule k shares the key of a plan's filter f but not the filter of its first rule. */
  predicate Mixed(tcs: seq<Tc>, plan: Plan, f: nat, k: nat)
    requires Follows(tcs, plan) && f < |plan.keys| && k < |tcs|
  {
    && DeviceOf(tcs[k]) == plan.device && FilterKey(tcs[k]) == plan.keys[f]
    && !SameFilter(tcs[k], FirstOf(tcs, plan, f))
  }

  lemma {:induction false} InItsGroup(rules: seq<Tc>, x: Tc)
    requires x in rules
    ensures x in WithKey(rules, FilterKey(x))
  {
    var n := |rules| - 1;
    if x in rules[..n] { InItsGroup(rules[..n], x); }
  }

  /** An unfaithful request has a mixed group in every plan of the device concerned. */
  lemma MixedGroup(tcs: seq<Tc>, plans: seq<Plan>, qdiscs: map<string, Tree>) returns (a: nat, f: nat, k: nat)
    requires Ran(tcs, plans, qdiscs) && !Faithful(tcs)
    ensures a < |plans| && f < |plans[a].keys| && k < |tcs| && Mixed(tcs, plans[a], f, k)
  {
    var i, j :| 0 <= i < |tcs| && 0 <= j < |tcs| && DeviceOf(tcs[i]) == DeviceOf(tcs[j])
                && FilterKey(tcs[i]) == FilterKey(tcs[j]) && !SameFilter(tcs[i], tcs[j]);
    EmptyKey(tcs[i]);
    EmptyKey(tcs[j]);
    hide FilterKey, FirstOf, Built;
    assert DeviceOf(tcs[i]) in Devices(tcs);
    a :| 0 <= a < |plans| && plans[a].device == DeviceOf(tcs[i]);
    KeysFromRequest(tcs, plans[a].device);
    assert FilterKey(tcs[i]) in Keys(OnDevice(tcs, plans[a].device));
    f :| 0 <= f < |plans[a].keys| && plans[a].keys[f] == FilterKey(tcs[i]);
    k := if SameFilter(tcs[i], FirstOf(tcs, plans[a], f)) then j else i;
  }

  /** A packet sent to a mixed group takes a wrong way. */
  lemma SentToMixture(tcs: seq<Tc>, plan: Plan, f: nat, k: nat, p: Packet, priority: nat)
    requires Follows(tcs, plan) && f < |plan.keys| && k < |tcs| && Mixed(tcs, plan, f, k) && p.device == plan.device
    ensures var mark := Some((|WithKey(OnDevice(tcs, plan.device), "")| + 1, f + 4));
            !Rightful(tcs, p, Walk(PlannedTree(tcs, plan), Root, mark, priority).0)
  {
    hide Rightful, Walk, PlannedTree, Select, OnDevice, WithKey, Mixed, Follows, Groups;
    var rules := OnDevice(tcs, plan.device);
    var x, y := TwoInMixture(tcs, plan, f, k);
    FollowedGroups(tcs, plan);
    PlannedPath(tcs, plan, Some((|WithKey(rules, "")| + 1, f + 4)), priority);
    MixtureIsWrong(tcs, p, Groups(rules, plan.keys)[f], x, y);
  }

  lemma TwoInMixture(tcs: seq<Tc>, plan: Plan, f: nat, k: nat) returns (x: Tc, y: Tc)
    requires Follows(tcs, plan) && f < |plan.keys| && k < |tcs| && Mixed(tcs, plan, f, k)
    ensures var group := Groups(OnDevice(tcs, plan.device), plan.keys)[f];
            x in group && y in group && !SameFilter(x, y)
  {
    var rules := OnDevice(tcs, plan.device);
    GroupsNonEmpty(rules, plan.keys);
    var at := OnItsDevice(tcs, k);
    x, y := rules[at], FirstOf(tcs, plan, f);
    hide OnDevice, FilterKey, Keys, WithKey;
    SameKey(tcs[k], x);
    InItsGroup(rules, x);
    assert y == Groups(rules, plan.keys)[f][0];
  }

  // ---------- the outcome on the one filtered device ----------

  /** With one filtered device, a packet carries the class of its last matching filter on it, whether or not the
      request is faithful. */
  lemma OutcomeOnFiltered(tcs: seq<Tc>, plans: seq<Plan>, qdiscs: map<string, Tree>, parts: seq<Chain>, t: Table,
                          p: Packet, a: nat)
    requires Ran(tcs, plans, qdiscs) && OneFilteredDevice(tcs) && AllWordy(tcs) && GoodParts(parts) && Holds(t, parts)
    requires a < |plans| && plans[a].keys != [] && p.direction.Output? && WantedAll(parts, p) == Goes(None)
    ensures var rules := OnDevice(tcs, plans[a].device);
            NonEmpty(Groups(rules, plans[a].keys)) &&
            AtHook(InstalledAll(t, AllChains(tcs, plans)), p)
              == Goes(Mark(Groups(rules, plans[a].keys), |WithKey(rules, "")| + 1, plans[a].device, p))
  {
    hide AtHook, InstalledAll, GoodParts, Holds, AllWordy, OnDevice, WithKey, Groups, Built, Mark, NonEmpty;
    hide Follows, OneFilteredDevice, PlannedChains, WantedAll, AllChains;
    forall i | 0 <= i < |plans| && i != a ensures plans[i].keys == [] { OthersUnfiltered(tcs, plans, a, i); }
    OnlyFilteredPlan(tcs, plans, a);
    OutcomeOfTables(tcs, plans[a], parts, t, p);
  }

  /** Filter f of the plan is the last that matches the packet. */
  predicate MatchesLast(tcs: seq<Tc>, plan: Plan, f: nat, p: Packet)
    requires Follows(tcs, plan) && f < |plan.keys|
  {
    && FilterMatches(FirstOf(tcs, plan, f), p)
    && forall g :: f < g < |plan.keys| ==> !FilterMatches(FirstOf(tcs, plan, g), p)
  }

  lemma {:induction false} LastMatchIs(groups: seq<seq<Tc>>, p: Packet, f: nat)
    requires NonEmpty(groups) && f < |groups| && FilterMatches(groups[f][0], p)
    requires forall g :: f < g < |groups| ==> !FilterMatches(groups[g][0], p)
    ensures LastMatch(groups, p) == Some(f)
  {
    if f < |groups| - 1 { LastMatchIs(groups[..|groups| - 1], p, f); }
  }

  lemma MixtureCaught(tcs: seq<Tc>, plans: seq<Plan>, qdiscs: map<string, Tree>, parts: seq<Chain>, t: Table, p: Packet,
                      a: nat, f: nat, k: nat, priority: nat)
    requires Ran(tcs, plans, qdiscs) && OneFilteredDevice(tcs) && AllWordy(tcs) && GoodParts(parts) && Holds(t, parts)
    requires a < |plans| && f < |plans[a].keys| && k < |tcs| && Mixed(tcs, plans[a], f, k)
    requires p.device == plans[a].device && p.direction.Output? && WantedAll(parts, p) == Goes(None)
    requires MatchesLast(tcs, plans[a], f, p)
    ensures !TakesRightfulWay(tcs, plans, qdiscs, t, p, priority)
  {
    MarkIs(tcs, plans[a], f, p);
    BuiltAt(tcs, plans, qdiscs, a);
    hide AtHook, InstalledAll, GoodParts, Holds, AllWordy, OnDevice, WithKey, Groups, Ran, Mark, MatchesLast;
    hide OneFilteredDevice, WantedAll, AllChains, Rightful, Walk, PlannedTree, Mixed, Follows, NonEmpty;
    OutcomeOnFiltered(tcs, plans, qdiscs, parts, t, p, a);
    SentToMixture(tcs, plans[a], f, k, p, priority);
  }

  lemma BuiltAt(tcs: seq<Tc>, plans: seq<Plan>, qdiscs: map<string, Tree>, a: nat)
    requires Ran(tcs, plans, qdiscs) && a < |plans|
    ensures plans[a].device in qdiscs && qdiscs[plans[a].device] == PlannedTree(tcs, plans[a]) && Follows(tcs, plans[a])
  {
    hide PlannedTree, Follows;
  }

  lemma FollowedGroups(tcs: seq<Tc>, plan: Plan)
    requires Follows(tcs, plan)
    ensures var groups := Groups(OnDevice(tcs, plan.device), plan.keys);
            && |groups| == |plan.keys| && NonEmpty(groups)
            && forall f :: 0 <= f < |groups| ==> groups[f] != [] && groups[f][0] == FirstOf(tcs, plan, f)
  {
    GroupsNonEmpty(OnDevice(tcs, plan.device), plan.keys);
  }

  lemma MarkIs(tcs: seq<Tc>, plan: Plan, f: nat, p: Packet)
    requires Follows(tcs, plan) && f < |plan.keys| && MatchesLast(tcs, plan, f, p) && p.device == plan.device
    ensures var rules := OnDevice(tcs, plan.device);
            NonEmpty(Groups(rules, plan.keys)) &&
            Mark(Groups(rules, plan.keys), |WithKey(rules, "")| + 1, plan.device, p)
              == Some((|WithKey(rules, "")| + 1, f + 4))
  {
    hide OnDevice, WithKey, FilterMatches, Follows, FirstOf, Groups, NonEmpty, LastMatch;
    FollowedGroups(tcs, plan);
    LastMatchIs(Groups(OnDevice(tcs, plan.device), plan.keys), p, f);
  }

  lemma NoMark(tcs: seq<Tc>, plan: Plan, p: Packet)
    requires Follows(tcs, plan) && forall g :: 0 <= g < |plan.keys| ==> !FilterMatches(FirstOf(tcs, plan, g), p)
    ensures var rules := OnDevice(tcs, plan.device);
            NonEmpty(Groups(rules, plan.keys)) &&
            Mark(Groups(rules, plan.keys), |WithKey(rules, "")| + 1, plan.device, p) == None
  {
    hide OnDevice, WithKey, FilterMatches, Follows, FirstOf, Groups, NonEmpty, LastMatch;
    FollowedGroups(tcs, plan);
    LastMatchIsOne(Groups(OnDevice(tcs, plan.device), plan.keys), p);
  }

  lemma NothingCaught(tcs: seq<Tc>, plans: seq<Plan>, qdiscs: map<string, Tree>, parts: seq<Chain>, t: Table, p: Packet,
                      a: nat, k: nat, priority: nat)
    requires Ran(tcs, plans, qdiscs) && OneFilteredDevice(tcs) && AllWordy(tcs) && GoodParts(parts) && Holds(t, parts)
    requires a < |plans| && plans[a].keys != [] && k < |tcs| && Candidate(tcs[k], p)
    requires p.device == plans[a].device && p.direction.Output? && WantedAll(parts, p) == Goes(None)
    requires forall g :: 0 <= g < |plans[a].keys| ==> !FilterMatches(FirstOf(tcs, plans[a], g), p)
    ensures !TakesRightfulWay(tcs, plans, qdiscs, t, p, priority)
  {
    NoMark(tcs, plans[a], p);
    hide AtHook, InstalledAll, GoodParts, Holds, AllWordy, OnDevice, WithKey, Groups, Ran, Mark, FilterMatches;
    hide OneFilteredDevice, WantedAll, AllChains, Candidate, TakesRightfulWay, NonEmpty;
    OutcomeOnFiltered(tcs, plans, qdiscs, parts, t, p, a);
    UnmarkedIsWrong(tcs, plans, qdiscs, t, p, k, priority);
  }

  // ---------- in every single run ----------

  predicate EndsIn(s: string, tail: string) {
    |tail| <= |s| && s[|s| - |tail|..] == tail
  }

  /** No protocol of the request is another one behind a dash, as `ipv6-icmp` would be beside `icmp`. */
  predicate Unrelated(tcs: seq<Tc>) {
    forall i, j :: 0 <= i < |tcs| && 0 <= j < |tcs| && tcs[i].protocol != "" ==>
      !EndsIn(tcs[j].protocol, "-" + tcs[i].protocol)
  }

  /** Then of two filters with the same key one has no protocol, and the key is its ip set. */
  lemma OneWithoutProtocol(tcs: seq<Tc>, i: nat, j: nat)
    requires Unrelated(tcs) && i < |tcs| && j < |tcs|
    requires FilterKey(tcs[i]) == FilterKey(tcs[j]) && !SameFilter(tcs[i], tcs[j])
    ensures tcs[i].protocol == "" || tcs[j].protocol == ""
  {
    KeysCollideIff(tcs[i], tcs[j]);
    RunsIntoEnds(tcs[i], tcs[j]);
    RunsIntoEnds(tcs[j], tcs[i]);
  }

  lemma RunsIntoEnds(a: Tc, b: Tc)
    ensures RunsInto(a, b) && a.protocol != "" ==> EndsIn(b.protocol, "-" + a.protocol)
  {
    if RunsInto(a, b) && a.protocol != "" {
      var tail := "-" + a.protocol;
      var head := a.ipset[|b.ipset| + 1..];
      assert b.protocol == head + tail && (head + tail)[|head|..] == tail;
    }
  }

  /** The packet for a filter without protocol matches no filter that has another key. */
  lemma BareIsAlone(tcs: seq<Tc>, plan: Plan, k: nat, g: nat)
    requires Follows(tcs, plan) && g < |plan.keys| && k < |tcs| && tcs[k].protocol == "" && HasFilter(tcs[k])
    requires FilterMatches(FirstOf(tcs, plan, g), Lone(tcs[k], Unnamed(tcs)))
    ensures SameFilter(FirstOf(tcs, plan, g), tcs[k]) && plan.keys[g] == FilterKey(tcs[k])
  {
    var i := FirstIsRequested(tcs, plan, g);
    hide FirstOf, FilterKey;
    UnnamedIsNew(tcs);
    assert SameFilter(tcs[i], tcs[k]);
    SameKey(tcs[i], tcs[k]);
  }

  lemma UnfaithfulGoesWrong(tcs: seq<Tc>, plans: seq<Plan>, qdiscs: map<string, Tree>, parts: seq<Chain>, t: Table)
    returns (p: Packet)
    requires Ran(tcs, plans, qdiscs) && OneFilteredDevice(tcs) && AllWordy(tcs) && Unrelated(tcs) && !Faithful(tcs)
    requires GoodParts(parts) && Holds(t, parts) && Aside(parts, tcs)
    ensures InScope(tcs, parts, p) && !TakesRightfulWay(tcs, plans, qdiscs, t, p, 0)
  {
    hide TakesRightfulWay, AllWordy, Built, Holds, Aside, FilterMatches, FirstOf, GoodParts, WantedAll;
    hide OneFilteredDevice;
    hide Unrelated, FilterKey, Unnamed, Follows, Candidate, Faithful;
    var a, f, k := MixedGroup(tcs, plans, qdiscs);
    var i := FirstIsRequested(tcs, plans[a], f);
    OneWithoutProtocol(tcs, i, k);
    EmptyKey(tcs[i]);
    EmptyKey(tcs[k]);
    var j := if tcs[i].protocol == "" then i else k;
    p := Lone(tcs[j], Unnamed(tcs));
    assert DeviceOf(tcs[j]) in Devices(tcs);
    LoneIsMissed(parts, tcs, j, Unnamed(tcs));
    LoneIsWanted(tcs[j], Unnamed(tcs));
    forall g | 0 <= g < |plans[a].keys| && FilterMatches(FirstOf(tcs, plans[a], g), p)
      ensures g == f && SameFilter(FirstOf(tcs, plans[a], g), tcs[j])
    {
      BareIsAlone(tcs, plans[a], j, g);
      KeysDiffer(tcs, plans[a], f, g);
    }
    if j == i {
      SameMatch(tcs[i], FirstOf(tcs, plans[a], f), p);
      MixtureCaught(tcs, plans, qdiscs, parts, t, p, a, f, k, 0);
    } else {
      NothingCaught(tcs, plans, qdiscs, parts, t, p, a, k, 0);
    }
  }

  lemma KeysDiffer(tcs: seq<Tc>, plan: Plan, f: nat, g: nat)
    requires Follows(tcs, plan) && f < |plan.keys| && g < |plan.keys| && plan.keys[f] == plan.keys[g]
    ensures f == g
  {
  }

  /** In every run over one filtered device, unless a protocol is another one behind a dash: all packets that the
      partitions let through take a rightful way exactly when no two filters of a device share a key. */
  lemma RightExactlyWhenFaithful(tcs: seq<Tc>, plans: seq<Plan>, qdiscs: map<string, Tree>, parts: seq<Chain>, t: Table)
    requires Ran(tcs, plans, qdiscs) && OneFilteredDevice(tcs) && AllWordy(tcs) && Unrelated(tcs)
    requires GoodParts(parts) && Holds(t, parts) && Aside(parts, tcs)
    ensures (forall p: Packet, priority: nat :: InScope(tcs, parts, p) ==>
             TakesRightfulWay(tcs, plans, qdiscs, t, p, priority))
       <==> Faithful(tcs)
  {
    hide TakesRightfulWay, AllWordy, OneFilteredDevice, Ran, Holds, Aside, GoodParts, InScope, Unrelated, Faithful;
    if Faithful(tcs) {
      forall p: Packet, priority: nat | InScope(tcs, parts, p)
        ensures TakesRightfulWay(tcs, plans, qdiscs, t, p, priority)
      {
        FaithfulIsRight(tcs, plans, qdiscs, parts, t, p, priority);
      }
    } else {
      var p := UnfaithfulGoesWrong(tcs, plans, qdiscs, parts, t);
    }
  }

  // ---------- some run for every order ----------

  lemma {:induction false} AnyOrder(keys: set<string>) returns (order: seq<string>)
    ensures Enumerates(order, keys)
    decreases |keys|
  {
    if keys == {} {
      order := [];
    } else {
      var key :| key in keys;
      var rest := AnyOrder(keys - {key});
      order := rest + [key];
    }
  }

  lemma OrderEnding(keys: set<string>, key: string) returns (order: seq<string>)
    requires key in keys
    ensures Enumerates(order, keys) && order[|order| - 1] == key
  {
    var rest := AnyOrder(keys - {key});
    order := rest + [key];
  }

  lemma OrderBeginning(keys: set<string>, key: string) returns (order: seq<string>)
    requires key in keys
    ensures Enumerates(order, keys) && order[0] == key
  {
    var rest := AnyOrder(keys - {key});
    order := [key] + rest;
    forall k | k in keys ensures k in order {
      if k != key { assert k in rest; }
    }
  }

  lemma {:induction false} AnySchedule(tcs: seq<Tc>, devices: set<string>) returns (plans: seq<Plan>)
    ensures Schedule(tcs, plans, devices)
    decreases |devices|
  {
    if devices == {} {
      plans := [];
    } else {
      var device :| device in devices;
      var rest := AnySchedule(tcs, devices - {device});
      var keys := AnyOrder(Keys(OnDevice(tcs, device)));
      plans := rest + [Plan(device, keys)];
      OneMorePlan(tcs, rest, devices - {device}, Plan(device, keys));
      assert devices - {device} + {device} == devices;
    }
  }

  lemma ScheduleFrom(tcs: seq<Tc>, first: Plan, devices: set<string>) returns (plans: seq<Plan>)
    requires first.device in devices && Follows(tcs, first)
    ensures Schedule(tcs, plans, devices) && plans[0] == first
  {
    hide Follows;
    var rest := AnySchedule(tcs, devices - {first.device});
    plans := [first] + rest;
    forall i | 0 <= i < |plans| ensures plans[i].device in devices && Follows(tcs, plans[i]) {
      if i > 0 { assert plans[i] == rest[i - 1]; }
    }
    forall d | d in devices ensures exists i :: 0 <= i < |plans| && plans[i].device == d {
      if d == first.device {
        assert plans[0].device == d;
      } else {
        assert d in devices - {first.device};
        var i :| 0 <= i < |rest| && rest[i].device == d;
        assert plans[i + 1].device == d;
      }
    }
  }

  lemma {:induction false} TreesFor(tcs: seq<Tc>, plans: seq<Plan>) returns (qdiscs: map<string, Tree>)
    requires forall i, j :: 0 <= i < j < |plans| ==> plans[i].device != plans[j].device
    ensures Built(tcs, plans, qdiscs)
  {
    hide PlannedTree;
    if plans == [] {
      qdiscs := map[];
    } else {
      var n := |plans| - 1;
      var before := TreesFor(tcs, plans[..n]);
      qdiscs := before[plans[n].device := PlannedTree(tcs, plans[n])];
      forall i | 0 <= i < |plans|
        ensures plans[i].device in qdiscs && qdiscs[plans[i].device] == PlannedTree(tcs, plans[i])
      {
        if i < n { assert plans[..n][i] == plans[i]; }
      }
    }
  }

  lemma RunFrom(tcs: seq<Tc>, first: Plan) returns (plans: seq<Plan>, qdiscs: map<string, Tree>)
    requires first.device in Devices(tcs) && Follows(tcs, first)
    ensures Ran(tcs, plans, qdiscs) && |plans| > 0 && plans[0] == first
  {
    hide Built, Follows, Devices;
    plans := ScheduleFrom(tcs, first, Devices(tcs));
    qdiscs := TreesFor(tcs, plans);
  }

  // ---------- wrong in some order ----------

  /** With the mixed group visited last, the packets of its first rule are sent to it. */
  lemma UnfaithfulInSomeOrder(tcs: seq<Tc>, parts: seq<Chain>, t: Table)
    returns (plans: seq<Plan>, qdiscs: map<string, Tree>, p: Packet)
    requires OneFilteredDevice(tcs) && AllWordy(tcs) && !Faithful(tcs)
    requires GoodParts(parts) && Holds(t, parts) && Aside(parts, tcs)
    ensures Ran(tcs, plans, qdiscs) && InScope(tcs, parts, p) && !TakesRightfulWay(tcs, plans, qdiscs, t, p, 0)
  {
    hide TakesRightfulWay, AllWordy, Built, Holds, Aside, FirstOf, GoodParts, WantedAll, OneFilteredDevice, FilterKey;
    hide Unnamed;
    var i, j :| 0 <= i < |tcs| && 0 <= j < |tcs| && DeviceOf(tcs[i]) == DeviceOf(tcs[j])
                && FilterKey(tcs[i]) == FilterKey(tcs[j]) && !SameFilter(tcs[i], tcs[j]);
    EmptyKey(tcs[i]);
    EmptyKey(tcs[j]);
    var device := DeviceOf(tcs[i]);
    KeysFromRequest(tcs, device);
    var keys := OrderEnding(Keys(OnDevice(tcs, device)), FilterKey(tcs[i]));
    assert device in Devices(tcs);
    plans, qdiscs := RunFrom(tcs, Plan(device, keys));
    var f := |keys| - 1;
    var k := if SameFilter(tcs[i], FirstOf(tcs, plans[0], f)) then j else i;
    assert Mixed(tcs, plans[0], f, k);
    var first := FirstIsRequested(tcs, plans[0], f);
    p := Lone(tcs[first], Unnamed(tcs));
    LoneIsMissed(parts, tcs, first, Unnamed(tcs));
    LoneIsWanted(tcs[first], Unnamed(tcs));
    SameMatch(tcs[first], FirstOf(tcs, plans[0], f), p);
    hide Devices, Mixed, Ran;
    MixtureCaught(tcs, plans, qdiscs, parts, t, p, 0, f, k, 0) by { assert Ran(tcs, plans, qdiscs); }
  }

  /** Nothing but its own filter matches the packet of this rule: the rule has no protocol, or no ip set, or no rule of
      its device lacks either. */
  predicate Narrow(tcs: seq<Tc>, k: nat)
    requires k < |tcs|
  {
    && HasFilter(tcs[k])
    && (tcs[k].protocol != "" && tcs[k].ipset != "" ==>
          forall i :: 0 <= i < |tcs| && HasFilter(tcs[i]) && DeviceOf(tcs[i]) == DeviceOf(tcs[k]) ==>
            tcs[i].protocol != "" && tcs[i].ipset != "")
  }

  lemma SomeNarrow(tcs: seq<Tc>, i: nat) returns (k: nat)
    requires i < |tcs| && HasFilter(tcs[i])
    ensures k < |tcs| && Narrow(tcs, k) && DeviceOf(tcs[k]) == DeviceOf(tcs[i])
  {
    if j :| 0 <= j < |tcs| && HasFilter(tcs[j]) && DeviceOf(tcs[j]) == DeviceOf(tcs[i])
            && (tcs[j].protocol == "" || tcs[j].ipset == "") {
      k := j;
    } else {
      k := i;
    }
  }

  lemma NarrowIsAlone(tcs: seq<Tc>, k: nat, i: nat)
    requires k < |tcs| && i < |tcs| && Narrow(tcs, k) && HasFilter(tcs[i]) && DeviceOf(tcs[i]) == DeviceOf(tcs[k])
    requires FilterMatches(tcs[i], Lone(tcs[k], Unnamed(tcs)))
    ensures SameFilter(tcs[i], tcs[k])
  {
    UnnamedIsNew(tcs);
  }

  /** With two filtered devices, a narrow filter visited first on the first device is lost. */
  lemma TwoDevicesInSomeOrder(tcs: seq<Tc>, parts: seq<Chain>, t: Table)
    returns (plans: seq<Plan>, qdiscs: map<string, Tree>, p: Packet)
    requires !OneFilteredDevice(tcs) && AllWordy(tcs) && Holds(t, parts) && Aside(parts, tcs)
    ensures Ran(tcs, plans, qdiscs) && InScope(tcs, parts, p) && !TakesRightfulWay(tcs, plans, qdiscs, t, p, 0)
  {
    hide TakesRightfulWay, AllWordy, Built, Holds, Aside, FirstOf, WantedAll, FilterKey, Unnamed, FilterMatches;
    hide HasFilter;
    hide Narrow, Quiet, Candidate, Misses;
    var i, j :| 0 <= i < |tcs| && 0 <= j < |tcs| && HasFilter(tcs[i]) && HasFilter(tcs[j])
      && DeviceOf(tcs[i]) != DeviceOf(tcs[j]);
    var k := SomeNarrow(tcs, i);
    NarrowHasFilter(tcs, k);
    EmptyKey(tcs[k]);
    var device := DeviceOf(tcs[k]);
    KeysFromRequest(tcs, device);
    var keys := OrderBeginning(Keys(OnDevice(tcs, device)), FilterKey(tcs[k]));
    assert device in Devices(tcs);
    var first := Plan(device, keys);
    plans, qdiscs := RunFrom(tcs, first);
    var b := FilteredPlan(tcs, plans, qdiscs, j);
    p := Lone(tcs[k], Unnamed(tcs));
    NarrowIsFirst(tcs, first, k);
    LoneIsMissed(parts, tcs, k, Unnamed(tcs));
    PartsAreQuiet(t, parts, p, None);
    LoneIsWanted(tcs[k], Unnamed(tcs));
    hide Devices, OnlyFirst, Follows;
    PacketGoesAstray(tcs, plans, qdiscs, t, 0, b, p, k, 0);
  }

  lemma NarrowHasFilter(tcs: seq<Tc>, k: nat)
    requires k < |tcs| && Narrow(tcs, k)
    ensures HasFilter(tcs[k])
  {
  }

  lemma NarrowIsFirst(tcs: seq<Tc>, plan: Plan, k: nat)
    requires k < |tcs| && Narrow(tcs, k) && Follows(tcs, plan) && plan.keys != []
    requires plan.device == DeviceOf(tcs[k]) && plan.keys[0] == FilterKey(tcs[k])
    ensures OnlyFirst(tcs, plan, Lone(tcs[k], Unnamed(tcs)))
  {
    hide FirstOf, FilterKey, FilterMatches, Unnamed, Narrow;
    var p := Lone(tcs[k], Unnamed(tcs));
    forall f | 0 < f < |plan.keys| ensures !FilterMatches(FirstOf(tcs, plan, f), p) {
      var i := FirstIsRequested(tcs, plan, f);
      SameMatch(tcs[i], FirstOf(tcs, plan, f), p);
      assert plan.keys[f] != plan.keys[0];
      if FilterMatches(tcs[i], p) {
        NarrowIsAlone(tcs, k, i);
        SameKey(tcs[i], tcs[k]);
      }
    }
  }

  // ---------- the exact condition ----------

  ghost predicate RightInEveryOrder(tcs: seq<Tc>, parts: seq<Chain>, t: Table) {
    forall plans: seq<Plan>, qdiscs: map<string, Tree>, p: Packet, priority: nat ::
      Ran(tcs, plans, qdiscs) && InScope(tcs, parts, p) ==> TakesRightfulWay(tcs, plans, qdiscs, t, p, priority)
  }

  /** Whatever ip sets and protocols the rules filter by: in every order of visiting devices and filters all packets
      that the partitions let through take a rightful way, if and only if at most one device has filtered rules and no
      two different filters of a device share a key. */
  lemma RightInEveryOrderIff(tcs: seq<Tc>, parts: seq<Chain>, t: Table)
    requires AllWordy(tcs) && GoodParts(parts) && Holds(t, parts) && Aside(parts, tcs)
    ensures RightInEveryOrder(tcs, parts, t) <==> OneFilteredDevice(tcs) && Faithful(tcs)
  {
    hide TakesRightfulWay, AllWordy, OneFilteredDevice, Ran, Holds, Aside, GoodParts, InScope, Faithful;
    if !OneFilteredDevice(tcs) {
      var plans, qdiscs, p := TwoDevicesInSomeOrder(tcs, parts, t);
      assert !TakesRightfulWay(tcs, plans, qdiscs, t, p, 0);
    } else if !Faithful(tcs) {
      var plans, qdiscs, p := UnfaithfulInSomeOrder(tcs, parts, t);
      assert !TakesRightfulWay(tcs, plans, qdiscs, t, p, 0);
    } else {
      forall plans: seq<Plan>, qdiscs: map<string, Tree>, p: Packet, priority: nat
        | Ran(tcs, plans, qdiscs) && InScope(tcs, parts, p)
        ensures TakesRightfulWay(tcs, plans, qdiscs, t, p, priority)
      {
        FaithfulIsRight(tcs, plans, qdiscs, parts, t, p, priority);
      }
    }
  }
}
