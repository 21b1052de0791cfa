/** What a compiled traffic-control request does to a packet leaving a device, compared with the flat list of
    rules it was compiled from (pkg/chaosdaemon/tc_server.go). */
module TcMeaning {
  import opened Text
  import opened Qdiscs
  import opened TrafficControl
  import Iptables
  import opened ChainLinks
  import opened Partition

  // ---------- a packet's way through a tree ----------

  const PRIOMAP: seq<nat> := [1, 2, 2, 2, 1, 2, 0, 0, 1, 1, 1, 1, 1, 1, 1, 1]

  /** The class a prio qdisc picks: the one set on the packet if it names this qdisc and one of its bands,
      otherwise one of the first three, by priority. */
  function PickClass(h: nat, bands: nat, mark: Option<(nat, nat)>, priority: nat): nat {
    if mark.Some? && mark.value.0 == h then
      if 1 <= mark.value.1 <= bands then mark.value.1 else 1 + PRIOMAP[0]
    else
      1 + PRIOMAP[(if mark.Some? then mark.value.1 else priority) % 16]
  }

  /** The rules a packet passes through, in order, and the slot where its way ends. Parents come before
      children, so one pass over the tree is enough. */
  function Walk(q: Tree, at: Slot, mark: Option<(nat, nat)>, priority: nat): (seq<Tc>, Slot) {
    if q == [] then ([], at)
    else if q[0].slot != at then Walk(q[1..], at, mark, priority)
    else
      match q[0].discipline
      case Shape(tc) =>
        var (path, end) := Walk(q[1..], Below(q[0].handle), mark, priority);
        ([tc] + path, end)
      case Prio(bands) => Walk(q[1..], Class(q[0].handle, PickClass(q[0].handle, bands, mark, priority)), mark,
                               priority)
      case Sfq => Walk(q[1..], Below(q[0].handle), mark, priority)
  }

  lemma {:induction false} WalkConcat(a: Tree, b: Tree, at: Slot, mark: Option<(nat, nat)>, priority: nat)
    ensures var (path, end) := Walk(a, at, mark, priority);
            var (more, last) := Walk(b, end, mark, priority);
            Walk(a + b, at, mark, priority) == (path + more, last)
  {
    hide PickClass;
    if a == [] {
      assert a + b == b;
      assert [] + Walk(b, at, mark, priority).0 == Walk(b, at, mark, priority).0;
    } else {
      assert (a + b)[1..] == a[1..] + b && (a + b)[0] == a[0];
      var next := if a[0].slot != at then at
        else match a[0].discipline
             case Shape(_) => Below(a[0].handle)
             case Prio(bands) => Class(a[0].handle, PickClass(a[0].handle, bands, mark, priority))
             case Sfq => Below(a[0].handle);
      WalkConcat(a[1..], b, next, mark, priority);
      var (path, end) := Walk(a[1..], next, mark, priority);
      var more := Walk(b, end, mark, priority).0;
      if a[0].slot == at && a[0].discipline.Shape? {
        assert [a[0].discipline.tc] + (path + more) == [a[0].discipline.tc] + path + more;
      }
    }
  }

  /** The way through a tree never leads below a handle that is not there. */
  predicate EndsWithin(end: Slot, n: nat) {
    !end.Root? ==> end.handle <= n
  }

  /** Stacked rules are passed in order by a packet whose way ends at their slot, and missed by any other. */
  lemma {:induction false} WalkStacked(q: Tree, slot: Slot, tcs: seq<Tc>, at: Slot, mark: Option<(nat, nat)>,
                                       priority: nat)
    requires EndsWithin(Walk(q, at, mark, priority).1, |q|)
    ensures var (path, end) := Walk(q, at, mark, priority);
            var (all, last) := Walk(Stacked(q, slot, tcs), at, mark, priority);
            && (end == slot ==> all == path + tcs)
            && (end == slot && tcs != [] ==> last == Below(|q| + |tcs|))
            && (end == slot && tcs == [] ==> last == slot)
            && (end != slot ==> (all, last) == (path, end))
    decreases |tcs|
  {
    var (path, end) := Walk(q, at, mark, priority);
    if tcs == [] {
      assert path + tcs == path;
    } else {
      var x := Qdisc(slot, |q| + 1, Shape(tcs[0]));
      var next := q + [x];
      WalkConcat(q, [x], at, mark, priority);
      WalkOne(x, end, mark, priority);
      var step := if end == slot then [tcs[0]] else [];
      assert Walk(next, at, mark, priority).0 == path + step;
      WalkStacked(next, Below(|q| + 1), tcs[1..], at, mark, priority);
      if end == slot {
        assert path + [tcs[0]] + tcs[1..] == path + tcs;
      } else {
        assert path + [] == path;
      }
    }
  }

  lemma WalkOne(x: Qdisc, at: Slot, mark: Option<(nat, nat)>, priority: nat)
    requires x.discipline.Shape?
    ensures Walk([x], at, mark, priority) == if at == x.slot then ([x.discipline.tc], Below(x.handle)) else ([], at)
  {
    assert [x][1..] == [];
    assert Walk([], Below(x.handle), mark, priority) == ([], Below(x.handle));
    assert [x.discipline.tc] + [] == [x.discipline.tc];
  }

  lemma WalkGlobals(globals: seq<Tc>, mark: Option<(nat, nat)>, priority: nat)
    ensures Walk(Stacked([], Root, globals), Root, mark, priority)
         == (globals, if globals == [] then Root else Below(|globals|))
  {
    WalkStacked([], Root, globals, Root, mark, priority);
    assert [] + globals == globals;
  }

  /** Below the unfiltered rules a packet reaches the class picked for it, or an sfq below one of the first three. */
  lemma WalkPrio(globals: seq<Tc>, bands: nat, mark: Option<(nat, nat)>, priority: nat)
    requires bands >= 3
    ensures var base := Stacked([], Root, globals);
            var h := |globals| + 1;
            var m := PickClass(h, bands, mark, priority);
            |base| == |globals| &&
            Walk(WithPrio(base, bands), Root, mark, priority) == (globals, if m <= 3 then Below(h + m) else Class(h, m))
  {
    hide Stacked, PickClass, Walk;
    var base := Stacked([], Root, globals);
    var h := |globals| + 1;
    StackedShape([], Root, globals);
    WalkGlobals(globals, mark, priority);
    var m := PickClass(h, bands, mark, priority);
    ClassIsPositive(h, bands, mark, priority);
    var at := if base == [] then Root else Below(|base|);
    var tail := [Qdisc(at, h, Prio(bands)),
                 Qdisc(Class(h, 1), h + 1, Sfq), Qdisc(Class(h, 2), h + 2, Sfq), Qdisc(Class(h, 3), h + 3, Sfq)];
    assert WithPrio(base, bands) == base + tail;
    WalkConcat(base, tail, Root, mark, priority);
    WalkBelowPrio(tail, at, h, bands, mark, priority);
    WalkSfqs(h, tail[1..], m, mark, priority);
    assert globals + [] == globals;
  }

  lemma ClassIsPositive(h: nat, bands: nat, mark: Option<(nat, nat)>, priority: nat)
    ensures PickClass(h, bands, mark, priority) >= 1
  {
  }

  lemma WalkBelowPrio(q: Tree, at: Slot, h: nat, bands: nat, mark: Option<(nat, nat)>, priority: nat)
    requires q != [] && q[0] == Qdisc(at, h, Prio(bands))
    ensures Walk(q, at, mark, priority) == Walk(q[1..], Class(h, PickClass(h, bands, mark, priority)), mark, priority)
  {
  }

  lemma WalkSfqs(h: nat, sfqs: Tree, m: nat, mark: Option<(nat, nat)>, priority: nat)
    requires sfqs == [Qdisc(Class(h, 1), h + 1, Sfq), Qdisc(Class(h, 2), h + 2, Sfq), Qdisc(Class(h, 3), h + 3, Sfq)]
    requires m >= 1
    ensures Walk(sfqs, Class(h, m), mark, priority) == ([], if m <= 3 then Below(h + m) else Class(h, m))
  {
    assert sfqs[1..] == [Qdisc(Class(h, 2), h + 2, Sfq), Qdisc(Class(h, 3), h + 3, Sfq)];
    assert sfqs[1..][1..] == [Qdisc(Class(h, 3), h + 3, Sfq)];
    assert sfqs[1..][1..][1..] == [];
    var at := Class(h, m);
    var after1 := if m == 1 then Below(h + 1) else at;
    var after2 := if m == 2 then Below(h + 2) else after1;
    assert Walk(sfqs, at, mark, priority) == Walk(sfqs[1..], after1, mark, priority);
    assert Walk(sfqs[1..], after1, mark, priority) == Walk(sfqs[1..][1..], after2, mark, priority);
    var after3 := if m == 3 then Below(h + 3) else after2;
    assert Walk(sfqs[1..][1..], after2, mark, priority) == Walk([], after3, mark, priority);
  }

  /** The rules of the filter whose class the packet carries. */
  function FilterPath(mark: Option<(nat, nat)>, prio: nat, groups: seq<seq<Tc>>): seq<Tc> {
    if mark.Some? && mark.value.0 == prio && 4 <= mark.value.1 < 4 + |groups| then groups[mark.value.1 - 4] else []
  }

  lemma {:induction false} WalkFiltered(globals: seq<Tc>, bands: nat, groups: seq<seq<Tc>>, mark: Option<(nat, nat)>,
                                        priority: nat)
    requires |groups| + 3 <= bands
    ensures var h := |globals| + 1;
            var m := PickClass(h, bands, mark, priority);
            var q := Filtered(WithPrio(Stacked([], Root, globals), bands), h, groups);
            var (path, end) := Walk(q, Root, mark, priority);
            && path == globals + (if 4 <= m < 4 + |groups| then groups[m - 4] else [])
            && EndsWithin(end, |q|)
            && (m >= 4 + |groups| ==> end == Class(h, m))
            && (m < 4 + |groups| ==> end.Below? || (end.Class? && end.minor < 4 + |groups|))
  {
    var h := |globals| + 1;
    var m := PickClass(h, bands, mark, priority);
    var base := WithPrio(Stacked([], Root, globals), bands);
    hide PickClass, Stacked;
    if groups == [] {
      WalkPrio(globals, bands, mark, priority);
      assert globals + [] == globals;
      assert |base| == |globals| + 4;
    } else {
      var n := |groups| - 1;
      var before := Filtered(base, h, groups[..n]);
      WalkFiltered(globals, bands, groups[..n], mark, priority);
      WalkStacked(before, Class(h, n + 4), groups[n], Root, mark, priority);
      FilteredLength(globals, bands, groups[..n]);
      StackedShape(before, Class(h, n + 4), groups[n]);
      var path := Walk(before, Root, mark, priority).0;
      if m == n + 4 {
        assert globals + [] + groups[n] == globals + groups[n];
      } else if m < n + 4 {
        assert 4 <= m ==> groups[..n][m - 4] == groups[m - 4];
      }
    }
  }

  lemma FilteredLength(globals: seq<Tc>, bands: nat, groups: seq<seq<Tc>>)
    requires bands >= 3
    ensures var q := Filtered(WithPrio(Stacked([], Root, globals), bands), |globals| + 1, groups);
            Ordered(q) && |q| >= |globals| + 4
  {
    StackedShape([], Root, globals);
    WithPrioShape(Stacked([], Root, globals), bands);
    FilteredShape(WithPrio(Stacked([], Root, globals), bands), |globals| + 1, bands, groups);
  }

  /** The compiled tree: every packet passes the unfiltered rules in order, then the rules of the filter its
      class names, in order, or no filtered rule at all. */
  lemma TreeMeans(globals: seq<Tc>, groups: seq<seq<Tc>>, mark: Option<(nat, nat)>, priority: nat)
    ensures Walk(Compiled(globals, groups), Root, mark, priority).0 == globals + FilterPath(mark, |globals| + 1, groups)
  {
    if groups == [] {
      WalkGlobals(globals, mark, priority);
      assert globals + [] == globals;
    } else {
      WalkFiltered(globals, 3 + |groups|, groups, mark, priority);
    }
  }

  // ---------- which filter a packet is sent to ----------

  predicate FilterMatches(tc: Tc, p: Packet) {
    (tc.ipset == "" || tc.ipset in p.sets) && (tc.protocol == "" || tc.protocol == p.protocol)
  }

  lemma TcChainMeans(index: nat, parent: nat, tc: Tc, device: string, p: Packet, mark: Option<(nat, nat)>)
    requires device != "" && p.direction.Output?
    ensures Wanted(TcChain(index, parent, tc, device), p, mark)
         == Goes(if p.device == device && FilterMatches(tc, p) then Some((parent, index + 4)) else mark)
  {
    var c := TcChain(index, parent, tc, device);
    assert tc.ipset != "" ==> tc.ipset in c.ipsets;
  }

  /** The last filter, in the order visited, that matches the packet. */
  function LastMatch(groups: seq<seq<Tc>>, p: Packet): Option<nat>
    requires NonEmpty(groups)
  {
    if groups == [] then None
    else if FilterMatches(groups[|groups| - 1][0], p) then Some(|groups| - 1)
    else LastMatch(groups[..|groups| - 1], p)
  }

  lemma {:induction false} LastMatchIsOne(groups: seq<seq<Tc>>, p: Packet)
    requires NonEmpty(groups)
    ensures LastMatch(groups, p).Some? ==>
      LastMatch(groups, p).value < |groups| && FilterMatches(groups[LastMatch(groups, p).value][0], p)
    ensures LastMatch(groups, p).None? ==> forall f :: 0 <= f < |groups| ==> !FilterMatches(groups[f][0], p)
  {
    if groups != [] { LastMatchIsOne(groups[..|groups| - 1], p); }
  }

  function Mark(groups: seq<seq<Tc>>, parent: nat, device: string, p: Packet): Option<(nat, nat)>
    requires NonEmpty(groups)
  {
    if p.device == device && LastMatch(groups, p).Some? then Some((parent, LastMatch(groups, p).value + 4)) else None
  }

  /** Packets that the earlier chains let through unmarked carry the class of their last matching filter. */
  lemma {:induction false} TcChainsMark(parts: seq<Iptables.Chain>, groups: seq<seq<Tc>>, parent: nat, device: string,
                                        p: Packet)
    requires NonEmpty(groups) && device != "" && p.direction.Output? && WantedAll(parts, p) == Goes(None)
    ensures WantedAll(parts + TcChains(groups, parent, device), p) == Goes(Mark(groups, parent, device, p))
  {
    hide Wanted, TcChain, FilterMatches;
    var all := parts + TcChains(groups, parent, device);
    if groups == [] {
      assert all == parts;
    } else {
      var n := |groups| - 1;
      assert all[..|all| - 1] == parts + TcChains(groups[..n], parent, device);
      TcChainsMark(parts, groups[..n], parent, device, p);
      TcChainMeans(n, parent, groups[n][0], device, p, Mark(groups[..n], parent, device, p));
      assert all[|all| - 1] == TcChain(n, parent, groups[n][0], device);
    }
  }

  // ---------- requests that compile faithfully ----------

  /** Partition chains that can share CHAOS-OUTPUT with the classifying ones. */
  predicate GoodParts(parts: seq<Iptables.Chain>) {
    Fit(parts) && forall i :: 0 <= i < |parts| ==> !("TC-TABLES-" <= parts[i].name)
  }

  predicate Wordy(tc: Tc) {
    Word(DeviceOf(tc)) && (tc.ipset == "" || Word(tc.ipset)) && (tc.protocol == "" || Word(tc.protocol))
  }

  lemma TableNames(i: nat, j: nat)
    ensures TableName(j) <= TableName(i) ==> j <= i
    ensures "TC-TABLES-" <= TableName(i)
  {
    hide Decimal;
    var x, y, m, n := TableName(i), TableName(j), Decimal(i), Decimal(j);
    assert x[10..] == m && y[10..] == n;
    if y <= x {
      assert n == x[..|y|][10..] == m[..|n|];
      DecimalPrefix(j, i);
    }
  }

  lemma TableNameIsWord(i: nat)
    ensures Word(TableName(i))
    ensures TableName(i) !in {"INPUT", "OUTPUT", Iptables.CHAOS_INPUT, Iptables.CHAOS_OUTPUT}
  {
    var x, m := TableName(i), Decimal(i);
    hide Decimal;
    assert x[0] == 'T';
    forall k | 0 <= k < |x| ensures x[k] != ' ' && x[k] != '\n' {
      if k < 10 { assert x[k] == "TC-TABLES-"[k]; } else { assert x[k] == m[k - 10]; }
    }
  }

  lemma PrefixTransitive(a: string, b: string, c: string)
    ensures a <= b && b <= c ==> a <= c
  {
  }

  lemma TcChainNamed(index: nat, parent: nat, tc: Tc, device: string)
    requires Word(device) && (tc.ipset == "" || Word(tc.ipset)) && (tc.protocol == "" || Word(tc.protocol))
    ensures Named(TcChain(index, parent, tc, device)) && Simple(TcChain(index, parent, tc, device))
  {
    TableNameIsWord(index);
  }

  /** The chains TC-TABLES-0, 1, ... do not disturb one another nor the partition chains before them:
      a smaller number is never written after a larger one it is a prefix of. */
  lemma TcChainsFit(parts: seq<Iptables.Chain>, groups: seq<seq<Tc>>, parent: nat, device: string)
    requires GoodParts(parts) && NonEmpty(groups) && Word(device)
    requires forall f :: 0 <= f < |groups| ==> Wordy(groups[f][0])
    ensures Fit(parts + TcChains(groups, parent, device))
  {
    hide Named, Word;
    var tables := TcChains(groups, parent, device);
    var all := parts + tables;
    forall i | 0 <= i < |all| ensures Named(all[i]) && Simple(all[i]) {
      if i >= |parts| { TcChainNamed(i - |parts|, parent, groups[i - |parts|][0], device); }
    }
    forall i, j | 0 <= i < j < |all|
      ensures all[i].name != all[j].name
      ensures all[i].direction == all[j].direction ==> !(all[j].name <= all[i].name)
    {
      if j >= |parts| {
        assert all[j].name == TableName(j - |parts|);
        if i >= |parts| {
          TableNames(i - |parts|, j - |parts|);
        } else {
          TableNames(j - |parts|, j - |parts|);
          PrefixTransitive("TC-TABLES-", all[j].name, all[i].name);
        }
      }
    }
  }

  // ---------- the flat list as reference ----------

  /** The rules of the request for one device with exactly this filter, in request order. */
  function Select(tcs: seq<Tc>, device: string, ipset: string, protocol: string): seq<Tc> {
    if tcs == [] then [] else
      var tc := tcs[|tcs| - 1];
      Select(tcs[..|tcs| - 1], device, ipset, protocol)
      + if IsFor(tc, device) && tc.ipset == ipset && tc.protocol == protocol then [tc.(device := device)] else []
  }

  predicate HasFilter(tc: Tc) {
    tc.ipset != "" || tc.protocol != ""
  }

  /** Rules of one device with the same filter key have the same filter. */
  predicate Faithful(tcs: seq<Tc>) {
    forall i, j | 0 <= i < |tcs| && 0 <= j < |tcs| ::
      DeviceOf(tcs[i]) == DeviceOf(tcs[j]) && FilterKey(tcs[i]) == FilterKey(tcs[j]) ==> SameFilter(tcs[i], tcs[j])
  }

  predicate OneFilteredDevice(tcs: seq<Tc>) {
    forall i, j :: 0 <= i < |tcs| && 0 <= j < |tcs| && HasFilter(tcs[i]) && HasFilter(tcs[j]) ==>
      DeviceOf(tcs[i]) == DeviceOf(tcs[j])
  }

  predicate Candidate(tc: Tc, p: Packet) {
    HasFilter(tc) && IsFor(tc, p.device) && FilterMatches(tc, p)
  }

  /** The way a packet should take: the unfiltered rules of its device in request order, followed by exactly the
      rules of one filter that matches it, in request order, or by nothing when none does. */
  predicate Rightful(tcs: seq<Tc>, p: Packet, path: seq<Tc>) {
    var unfiltered := Select(tcs, p.device, "", "");
    if exists i :: 0 <= i < |tcs| && Candidate(tcs[i], p) then
      exists i :: 0 <= i < |tcs| && Candidate(tcs[i], p)
                  && path == unfiltered + Select(tcs, p.device, tcs[i].ipset, tcs[i].protocol)
    else path == unfiltered
  }

  lemma EmptyKey(tc: Tc)
    ensures FilterKey(tc) == "" <==> !HasFilter(tc)
  {
  }

  lemma {:induction false} SelectByKey(tcs: seq<Tc>, device: string, tc: Tc)
    requires forall i :: 0 <= i < |tcs| && DeviceOf(tcs[i]) == device && FilterKey(tcs[i]) == FilterKey(tc) ==>
      SameFilter(tcs[i], tc)
    ensures WithKey(OnDevice(tcs, device), FilterKey(tc)) == Select(tcs, device, tc.ipset, tc.protocol)
  {
    if tcs != [] {
      var n := |tcs| - 1;
      var last := tcs[n];
      SelectByKey(tcs[..n], device, tc);
      assert SameFilter(last, tc) ==> FilterKey(last) == FilterKey(tc);
      var before, after := OnDevice(tcs[..n], device), OnDevice(tcs, device);
      var norm := last.(device := device);
      SameKey(last, norm);
      hide FilterKey, OnDevice;
      if DeviceOf(last) == device {
        assert after == before + [norm] by { OneMoreOnDevice(tcs, device); }
        assert after[..|after| - 1] == before && after[|after| - 1] == norm;
        assert WithKey(after, FilterKey(tc))
            == WithKey(before, FilterKey(tc)) + if FilterKey(norm) == FilterKey(tc) then [norm] else [];
      } else {
        OneMoreOnDevice(tcs, device);
        assert after == before;
      }
    }
  }

  lemma OneMoreOnDevice(tcs: seq<Tc>, device: string)
    requires tcs != []
    ensures var n := |tcs| - 1;
            OnDevice(tcs, device)
              == OnDevice(tcs[..n], device) + if DeviceOf(tcs[n]) == device then [tcs[n].(device := device)] else []
  {
  }

  lemma SameKey(a: Tc, b: Tc)
    ensures SameFilter(a, b) ==> FilterKey(a) == FilterKey(b)
  {
  }

  /** A rule on a device's list comes from the request. */
  lemma {:induction false} FromRequest(tcs: seq<Tc>, device: string, k: nat) returns (i: nat)
    requires k < |OnDevice(tcs, device)|
    ensures i < |tcs| && DeviceOf(tcs[i]) == device && SameFilter(tcs[i], OnDevice(tcs, device)[k])
  {
    var n := |tcs| - 1;
    var before := OnDevice(tcs[..n], device);
    if k < |before| {
      i := FromRequest(tcs[..n], device, k);
    } else {
      i := n;
    }
  }

  lemma {:induction false} OnItsDevice(tcs: seq<Tc>, i: nat) returns (k: nat)
    requires i < |tcs|
    ensures k < |OnDevice(tcs, DeviceOf(tcs[i]))|
    ensures OnDevice(tcs, DeviceOf(tcs[i]))[k] == tcs[i].(device := DeviceOf(tcs[i]))
  {
    var n := |tcs| - 1;
    if i < n {
      assert tcs[..n][i] == tcs[i];
      k := OnItsDevice(tcs[..n], i);
    } else {
      k := |OnDevice(tcs[..n], DeviceOf(tcs[i]))|;
    }
  }

  lemma KeysFromRequest(tcs: seq<Tc>, device: string)
    ensures forall key :: key in Keys(OnDevice(tcs, device)) <==>
      (exists i :: 0 <= i < |tcs| && HasFilter(tcs[i]) && DeviceOf(tcs[i]) == device && FilterKey(tcs[i]) == key)
  {
    var rules := OnDevice(tcs, device);
    forall key | key in Keys(rules)
      ensures exists i :: 0 <= i < |tcs| && HasFilter(tcs[i]) && DeviceOf(tcs[i]) == device && FilterKey(tcs[i]) == key
    {
      var k :| 0 <= k < |rules| && FilterKey(rules[k]) != "" && FilterKey(rules[k]) == key;
      var i := FromRequest(tcs, device, k);
      SameKey(tcs[i], rules[k]);
      EmptyKey(tcs[i]);
    }
    forall i | 0 <= i < |tcs| && HasFilter(tcs[i]) && DeviceOf(tcs[i]) == device
      ensures FilterKey(tcs[i]) in Keys(rules)
    {
      var k := OnItsDevice(tcs, i);
      SameKey(tcs[i], rules[k]);
      EmptyKey(tcs[i]);
      assert FilterKey(rules[k]) in Keys(rules);
    }
  }

  // ---------- the theorem ----------

  lemma {:induction false} OnlyFilteredPlan(tcs: seq<Tc>, plans: seq<Plan>, star: nat)
    requires forall i :: 0 <= i < |plans| ==> Follows(tcs, plans[i])
    requires forall i :: 0 <= i < |plans| && i != star ==> plans[i].keys == []
    ensures AllChains(tcs, plans) == if star < |plans| then PlannedChains(tcs, plans[star]) else []
  {
    hide Follows, PlannedChains, OnDevice, Keys, WithKey, Groups, TcChains, Enumerates;
    if plans != [] {
      var n := |plans| - 1;
      var before := AllChains(tcs, plans[..n]);
      OnlyFilteredPlan(tcs, plans[..n], star);
      if n == star {
        assert before + PlannedChains(tcs, plans[n]) == PlannedChains(tcs, plans[n]);
      } else {
        UnfilteredHasNoChains(tcs, plans[n]);
        assert before + [] == before;
      }
    }
  }

  lemma UnfilteredHasNoChains(tcs: seq<Tc>, plan: Plan)
    requires Follows(tcs, plan) && plan.keys == []
    ensures PlannedChains(tcs, plan) == []
  {
  }

  lemma OthersUnfiltered(tcs: seq<Tc>, plans: seq<Plan>, star: nat, i: nat)
    requires OneFilteredDevice(tcs) && Schedule(tcs, plans, Devices(tcs))
    requires star < |plans| && i < |plans| && i != star && plans[star].keys != []
    ensures plans[i].keys == []
  {
    KeysFromRequest(tcs, plans[star].device);
    KeysFromRequest(tcs, plans[i].device);
    assert plans[star].keys[0] in Keys(OnDevice(tcs, plans[star].device));
    assert Keys(OnDevice(tcs, plans[i].device)) == {};
    EnumeratesAll(plans[i].keys, Keys(OnDevice(tcs, plans[i].device)));
  }

  lemma GlobalsSelected(tcs: seq<Tc>, device: string)
    ensures WithKey(OnDevice(tcs, device), "") == Select(tcs, device, "", "")
  {
    var none := Tc(UnknownKind, "", "", "");
    EmptyKey(none);
    forall i | 0 <= i < |tcs| ensures FilterKey(tcs[i]) == "" ==> SameFilter(tcs[i], none) { EmptyKey(tcs[i]); }
    SelectByKey(tcs, device, none);
  }

  /** The rule that supplies a filter's match comes from the request and selects exactly that filter's rules. */
  lemma GroupSelected(tcs: seq<Tc>, device: string, key: string) returns (i: nat)
    requires Faithful(tcs) && key in Keys(OnDevice(tcs, device))
    ensures i < |tcs| && HasFilter(tcs[i]) && DeviceOf(tcs[i]) == device && FilterKey(tcs[i]) == key
    ensures var group := WithKey(OnDevice(tcs, device), key);
            group != [] && SameFilter(group[0], tcs[i]) && group == Select(tcs, device, tcs[i].ipset, tcs[i].protocol)
  {
    var rules := OnDevice(tcs, device);
    KeyHasRules(rules, key);
    var group := WithKey(rules, key);
    assert group[0] in rules;
    var k :| 0 <= k < |rules| && rules[k] == group[0];
    i := FromRequest(tcs, device, k);
    SameKey(tcs[i], group[0]);
    EmptyKey(tcs[i]);
    SelectByKey(tcs, device, tcs[i]);
  }

  lemma NoneMatches(tcs: seq<Tc>, plan: Plan, p: Packet)
    requires Follows(tcs, plan) && Faithful(tcs) && p.device == plan.device
    requires var groups := Groups(OnDevice(tcs, plan.device), plan.keys);
             NonEmpty(groups) && forall f :: 0 <= f < |groups| ==> !FilterMatches(groups[f][0], p)
    ensures forall i :: 0 <= i < |tcs| ==> !Candidate(tcs[i], p)
  {
    KeysFromRequest(tcs, plan.device);
    hide FilterKey, OnDevice, WithKey, Select;
    forall i | 0 <= i < |tcs| ensures !Candidate(tcs[i], p) {
      if HasFilter(tcs[i]) && DeviceOf(tcs[i]) == plan.device {
        assert FilterKey(tcs[i]) in Keys(OnDevice(tcs, plan.device));
        var f :| 0 <= f < |plan.keys| && plan.keys[f] == FilterKey(tcs[i]);
        var j := GroupSelected(tcs, plan.device, plan.keys[f]);
        assert SameFilter(tcs[i], tcs[j]) && !FilterMatches(Groups(OnDevice(tcs, plan.device), plan.keys)[f][0], p);
      }
    }
  }

  lemma RightfulVia(tcs: seq<Tc>, p: Packet, i: nat, path: seq<Tc>)
    requires i < |tcs| && Candidate(tcs[i], p)
    requires path == Select(tcs, p.device, "", "") + Select(tcs, p.device, tcs[i].ipset, tcs[i].protocol)
    ensures Rightful(tcs, p, path)
  {
  }

  /** The way of a marked packet through a planned tree, in terms of the request. */
  lemma PlannedPath(tcs: seq<Tc>, plan: Plan, mark: Option<(nat, nat)>, priority: nat)
    ensures var rules := OnDevice(tcs, plan.device);
            Walk(PlannedTree(tcs, plan), Root, mark, priority).0
              == Select(tcs, plan.device, "", "") + FilterPath(mark, |WithKey(rules, "")| + 1, Groups(rules, plan.keys))
  {
    var rules := OnDevice(tcs, plan.device);
    TreeMeans(WithKey(rules, ""), Groups(rules, plan.keys), mark, priority);
    GlobalsSelected(tcs, plan.device);
  }

  lemma FilteredDeviceMeans(tcs: seq<Tc>, plan: Plan, p: Packet, priority: nat)
    requires Follows(tcs, plan) && Faithful(tcs) && p.device == plan.device
    ensures var rules := OnDevice(tcs, plan.device);
            var groups := Groups(rules, plan.keys);
            NonEmpty(groups) &&
            var mark := Mark(groups, |WithKey(rules, "")| + 1, plan.device, p);
            Rightful(tcs, p, Walk(PlannedTree(tcs, plan), Root, mark, priority).0)
  {
    hide FilterKey, OnDevice, WithKey, Select, PlannedTree, Walk, FilterMatches, LastMatch, Faithful, Keys, DeviceOf;
    var rules := OnDevice(tcs, plan.device);
    var groups := Groups(rules, plan.keys);
    GroupsNonEmpty(rules, plan.keys);
    var mark := Mark(groups, |WithKey(rules, "")| + 1, plan.device, p);
    PlannedPath(tcs, plan, mark, priority);
    LastMatchIsOne(groups, p);
    var path := Walk(PlannedTree(tcs, plan), Root, mark, priority).0;
    if LastMatch(groups, p).Some? {
      var f := LastMatch(groups, p).value;
      var i := GroupSelected(tcs, plan.device, plan.keys[f]);
      SameMatch(groups[f][0], tcs[i], p);
      DeviceIsNamed(tcs[i], p.device);
      RightfulVia(tcs, p, i, path);
    } else {
      NoneMatches(tcs, plan, p);
      assert path == Select(tcs, p.device, "", "");
    }
  }

  lemma SameMatch(a: Tc, b: Tc, p: Packet)
    requires SameFilter(a, b)
    ensures FilterMatches(a, p) == FilterMatches(b, p)
  {
  }

  lemma UnfilteredDeviceMeans(tcs: seq<Tc>, plan: Plan, p: Packet, mark: Option<(nat, nat)>, priority: nat)
    requires Follows(tcs, plan) && p.device == plan.device && plan.keys == []
    ensures Rightful(tcs, p, Walk(PlannedTree(tcs, plan), Root, mark, priority).0)
  {
    var rules := OnDevice(tcs, plan.device);
    TreeMeans(WithKey(rules, ""), Groups(rules, []), mark, priority);
    GlobalsSelected(tcs, plan.device);
    KeysFromRequest(tcs, plan.device);
    assert forall i :: 0 <= i < |tcs| && HasFilter(tcs[i]) && DeviceOf(tcs[i]) == plan.device ==>
      FilterKey(tcs[i]) in Keys(rules);
    assert WithKey(rules, "") + [] == WithKey(rules, "");
  }

  predicate AllWordy(tcs: seq<Tc>) {
    forall i :: 0 <= i < |tcs| ==> Wordy(tcs[i])
  }

  lemma GroupsWordy(tcs: seq<Tc>, plan: Plan)
    requires AllWordy(tcs) && Follows(tcs, plan) && plan.device in Devices(tcs)
    ensures NonEmpty(Groups(OnDevice(tcs, plan.device), plan.keys)) && Word(plan.device)
    ensures forall f :: 0 <= f < |plan.keys| ==> Wordy(Groups(OnDevice(tcs, plan.device), plan.keys)[f][0])
  {
    hide Word, FilterKey;
    var rules := OnDevice(tcs, plan.device);
    GroupsNonEmpty(rules, plan.keys);
    forall f | 0 <= f < |plan.keys| ensures Wordy(Groups(rules, plan.keys)[f][0]) {
      var first := WithKey(rules, plan.keys[f])[0];
      assert first in rules;
      var k :| 0 <= k < |rules| && rules[k] == first;
      var i := FromRequest(tcs, plan.device, k);
      assert DeviceOf(first) == plan.device by { assert first.device == plan.device; }
    }
  }

  /** Everything a successful run leaves behind, for any order in which devices and filters were visited. */
  predicate Ran(tcs: seq<Tc>, plans: seq<Plan>, qdiscs: map<string, Tree>) {
    Schedule(tcs, plans, Devices(tcs)) && Built(tcs, plans, qdiscs)
  }

  /** Compilation preserves meaning: for every order of visiting, a packet leaving a device that the partition
      chains let through takes a rightful way, and one they stop keeps its verdict. */
  lemma CompilationPreservesMeaning(tcs: seq<Tc>, plans: seq<Plan>, qdiscs: map<string, Tree>,
                                    parts: seq<Iptables.Chain>, t: Iptables.Table, p: Packet, priority: nat)
    requires Ran(tcs, plans, qdiscs) && Faithful(tcs) && OneFilteredDevice(tcs) && AllWordy(tcs)
    requires GoodParts(parts) && Holds(t, parts) && p.direction.Output? && p.device in Devices(tcs)
    requires WantedAll(parts, p) == Goes(None)
    ensures var out := AtHook(Iptables.InstalledAll(t, AllChains(tcs, plans)), p);
            && p.device in qdiscs && out.Goes?
            && Rightful(tcs, p, Walk(qdiscs[p.device], Root, out.mark, priority).0)
  {
    hide Rightful, Walk, PlannedTree, AtHook, Iptables.InstalledAll, GoodParts, Holds, Faithful, AllWordy, OnDevice;
    hide WithKey, Groups;
    hide Follows, OneFilteredDevice, PlannedChains, LastMatch, WantedAll, AllChains;
    var j :| 0 <= j < |plans| && plans[j].device == p.device;
    assert qdiscs[p.device] == PlannedTree(tcs, plans[j]);
    hide Built, Devices;
    if star :| 0 <= star < |plans| && plans[star].keys != [] {
      forall i | 0 <= i < |plans| && i != star ensures plans[i].keys == [] { OthersUnfiltered(tcs, plans, star, i); }
      OnlyFilteredPlan(tcs, plans, star);
      var plan := plans[star];
      OutcomeOfTables(tcs, plan, parts, t, p);
      if j == star {
        FilteredDeviceMeans(tcs, plan, p, priority);
      } else {
        UnfilteredDeviceMeans(tcs, plans[j], p, None, priority);
      }
    } else {
      OnlyFilteredPlan(tcs, plans, |plans|);
      UntouchedMeans(t, parts, p);
      UnfilteredDeviceMeans(tcs, plans[j], p, None, priority);
    }
  }

  lemma OutcomeOfTables(tcs: seq<Tc>, plan: Plan, parts: seq<Iptables.Chain>, t: Iptables.Table, p: Packet)
    requires AllWordy(tcs) && Follows(tcs, plan) && plan.device in Devices(tcs)
    requires GoodParts(parts) && Holds(t, parts) && p.direction.Output? && WantedAll(parts, p) == Goes(None)
    ensures var rules := OnDevice(tcs, plan.device);
            NonEmpty(Groups(rules, plan.keys)) &&
            AtHook(Iptables.InstalledAll(t, PlannedChains(tcs, plan)), p)
              == Goes(Mark(Groups(rules, plan.keys), |WithKey(rules, "")| + 1, plan.device, p))
  {
    var rules := OnDevice(tcs, plan.device);
    var groups, parent := Groups(rules, plan.keys), |WithKey(rules, "")| + 1;
    GroupsWordy(tcs, plan);
    PlanOf(tcs, plan);
    var tables := PlannedChains(tcs, plan);
    hide OnDevice, WithKey, Keys, Devices, AtHook, Iptables.InstalledAll, Holds;
    TcChainsFit(parts, groups, parent, plan.device);
    InstallationHolds(t, parts, tables);
    InstalledMeans(Iptables.InstalledAll(t, tables), parts + tables, p);
    TcChainsMark(parts, groups, parent, plan.device, p);
  }

  lemma {:induction false} TablesLeaveAlone(parts: seq<Iptables.Chain>, groups: seq<seq<Tc>>, parent: nat,
                                            device: string, p: Packet)
    requires NonEmpty(groups) && device != ""
    requires WantedAll(parts, p).Stopped?
      || (WantedAll(parts, p) == Goes(None) && (!p.direction.Output? || p.device != device))
    ensures WantedAll(parts + TcChains(groups, parent, device), p) == WantedAll(parts, p)
  {
    var all := parts + TcChains(groups, parent, device);
    if groups == [] {
      assert all == parts;
    } else {
      var n := |groups| - 1;
      assert all[..|all| - 1] == parts + TcChains(groups[..n], parent, device);
      TablesLeaveAlone(parts, groups[..n], parent, device, p);
      assert all[|all| - 1] == TcChain(n, parent, groups[n][0], device);
    }
  }

  /** The classifying chains change nothing for packets that a partition stops, that come in, or that leave
      through a device without rules. */
  lemma TablesKeepVerdicts(tcs: seq<Tc>, plans: seq<Plan>, qdiscs: map<string, Tree>, parts: seq<Iptables.Chain>,
                           t: Iptables.Table, p: Packet)
    requires Ran(tcs, plans, qdiscs) && OneFilteredDevice(tcs) && AllWordy(tcs)
    requires GoodParts(parts) && Holds(t, parts) && !p.direction.Unknown?
    requires WantedAll(parts, p).Stopped?
      || (WantedAll(parts, p) == Goes(None) && (!p.direction.Output? || p.device !in Devices(tcs)))
    ensures AtHook(Iptables.InstalledAll(t, AllChains(tcs, plans)), p) == WantedAll(parts, p)
  {
    hide AtHook, Iptables.InstalledAll, GoodParts, Holds, AllWordy, OnDevice, WithKey, Groups, Built;
    hide Follows, OneFilteredDevice, PlannedChains, WantedAll, AllChains;
    if star :| 0 <= star < |plans| && plans[star].keys != [] {
      forall i | 0 <= i < |plans| && i != star ensures plans[i].keys == [] { OthersUnfiltered(tcs, plans, star, i); }
      OnlyFilteredPlan(tcs, plans, star);
      TablesOf(tcs, plans[star], parts, t, p);
    } else {
      OnlyFilteredPlan(tcs, plans, |plans|);
      UntouchedMeans(t, parts, p);
    }
  }

  lemma UntouchedMeans(t: Iptables.Table, parts: seq<Iptables.Chain>, p: Packet)
    requires GoodParts(parts) && Holds(t, parts) && !p.direction.Unknown?
    ensures AtHook(Iptables.InstalledAll(t, []), p) == WantedAll(parts, p)
  {
    InstalledMeans(t, parts, p);
  }

  lemma TablesOf(tcs: seq<Tc>, plan: Plan, parts: seq<Iptables.Chain>, t: Iptables.Table, p: Packet)
    requires AllWordy(tcs) && Follows(tcs, plan) && plan.device in Devices(tcs)
    requires GoodParts(parts) && Holds(t, parts) && !p.direction.Unknown?
    requires WantedAll(parts, p).Stopped?
      || (WantedAll(parts, p) == Goes(None) && (!p.direction.Output? || p.device !in Devices(tcs)))
    ensures AtHook(Iptables.InstalledAll(t, PlannedChains(tcs, plan)), p) == WantedAll(parts, p)
  {
    var rules := OnDevice(tcs, plan.device);
    var groups, parent := Groups(rules, plan.keys), |WithKey(rules, "")| + 1;
    GroupsWordy(tcs, plan);
    PlanOf(tcs, plan);
    var tables := PlannedChains(tcs, plan);
    hide OnDevice, WithKey, Keys, AtHook, Iptables.InstalledAll, Holds;
    TcChainsFit(parts, groups, parent, plan.device);
    InstallationHolds(t, parts, tables);
    InstalledMeans(Iptables.InstalledAll(t, tables), parts + tables, p);
    TablesLeaveAlone(parts, groups, parent, plan.device, p);
  }

  /** When all the filters that match a packet are the same, its rightful way is unique: the order of visiting
      cannot show. */
  lemma RightfulIsUnique(tcs: seq<Tc>, p: Packet, a: seq<Tc>, b: seq<Tc>)
    requires Rightful(tcs, p, a) && Rightful(tcs, p, b)
    requires forall i, j :: 0 <= i < |tcs| && 0 <= j < |tcs| && Candidate(tcs[i], p) && Candidate(tcs[j], p) ==>
      SameFilter(tcs[i], tcs[j])
    ensures a == b
  {
  }
}
