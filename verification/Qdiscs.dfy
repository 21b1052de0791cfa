/** Qdisc trees: the commands that build them for one device and the shape of what they build
    (pkg/chaosdaemon/tc_server.go). */
module Qdiscs {
  import opened Text
  import Netem
  import Iptables

  datatype Kind = Bandwidth(tbf: Option<string>) | NetemKind(netem: Option<Netem.Netem>) | UnknownKind

  datatype Tc = Tc(kind: Kind, ipset: string, protocol: string, device: string)

  // ---------- qdisc trees ----------

  /** Where a qdisc hangs: at the device's root, below another qdisc, or at one class of a prio qdisc. */
  datatype Slot = Root | Below(handle: nat) | Class(handle: nat, minor: nat)

  datatype Discipline = Shape(tc: Tc) | Prio(bands: nat) | Sfq

  datatype Qdisc = Qdisc(slot: Slot, handle: nat, discipline: Discipline)

  /** The qdiscs of one device in the order they were added, so every parent comes before its children. */
  type Tree = seq<Qdisc>

  predicate SlotExists(q: Tree, slot: Slot) {
    match slot
    case Root => true
    case Below(h) => exists j :: 0 <= j < |q| && q[j].handle == h && q[j].discipline.Shape?
    case Class(h, m) => exists j ::
      0 <= j < |q| && q[j].handle == h && q[j].discipline.Prio? && 1 <= m <= q[j].discipline.bands
  }

  /** A valid `tc qdisc add`: the handle is unused, the parent exists and its slot is free. */
  predicate CanAdd(q: Tree, x: Qdisc) {
    && x.handle >= 1
    && (forall j :: 0 <= j < |q| ==> q[j].handle != x.handle && q[j].slot != x.slot)
    && SlotExists(q, x.slot)
  }

  datatype Reply = Done | Fault | Invalid

  /** What a `tc qdisc add` says of the qdisc beside its place. */
  datatype Args = TbfArgs(text: string) | NetemArgs(tokens: seq<Netem.Token>) | OwnArgs

  /** The arguments say what the rule asks for; netem's by what its own reader makes of them. */
  predicate Renders(args: Args, x: Qdisc) {
    x.discipline.Shape? ==>
      match x.discipline.tc.kind
      case Bandwidth(tbf) => tbf.Some? && args == TbfArgs(tbf.value)
      case NetemKind(netem) =>
        && netem.Some? && Netem.Readable(netem.value) && args.NetemArgs?
        && Netem.Decode(args.tokens) == Some(Netem.SettingsOf(netem.value))
      case UnknownKind => false
  }

  predicate Rendered(args: seq<Args>, q: Tree) {
    |args| == |q| && forall i :: 0 <= i < |q| ==> Renders(args[i], q[i])
  }

  predicate AllRendered(args: map<string, seq<Args>>, qdiscs: map<string, Tree>) {
    args.Keys == qdiscs.Keys && forall d :: d in qdiscs ==> Rendered(args[d], qdiscs[d])
  }

  /** The kernel's qdiscs and the arguments each was added with. Every command may fail for reasons of its own; `faults`
      counts those that did. */
  class Kernel {
    var qdiscs: map<string, Tree>
    var args: map<string, seq<Args>>
    ghost var faults: nat

    /** A device that has qdiscs has one at its root, and every rule's qdisc was added with that rule's arguments. */
    ghost predicate Valid()
      reads this
    {
      && (forall d :: d in qdiscs && qdiscs[d] != [] ==> qdiscs[d][0].slot == Root)
      && AllRendered(args, qdiscs)
    }

    method Flush(device: string) returns (ok: bool)
      requires Valid()
      modifies this
      ensures Valid()
      ensures ok ==> qdiscs == if device in old(qdiscs) then old(qdiscs)[device := []] else old(qdiscs)
      ensures !ok ==> qdiscs == old(qdiscs)
      ensures faults == old(faults) + if ok then 0 else 1
    {
      ok := *;
      if ok && device in qdiscs { qdiscs, args := qdiscs[device := []], args[device := []]; }
      if !ok { faults := faults + 1; }
    }

    method Add(device: string, x: Qdisc, a: Args) returns (r: Reply)
      requires Valid() && Renders(a, x)
      modifies this
      ensures Valid()
      ensures r.Done? ==> device in args && args[device] != [] && args[device][|args[device]| - 1] == a
      ensures r.Done? ==> device in old(qdiscs) && CanAdd(old(qdiscs)[device], x)
                          && qdiscs == old(qdiscs)[device := old(qdiscs)[device] + [x]]
      ensures r.Invalid? ==> device !in old(qdiscs) || !CanAdd(old(qdiscs)[device], x)
      ensures !r.Done? ==> qdiscs == old(qdiscs)
      ensures faults == old(faults) + if r.Fault? then 1 else 0
    {
      var fault: bool := *;
      if fault {
        faults, r := faults + 1, Fault;
      } else if device !in qdiscs || !CanAdd(qdiscs[device], x) {
        r := Invalid;
      } else {
        qdiscs, args, r := qdiscs[device := qdiscs[device] + [x]], args[device := args[device] + [a]], Done;
      }
    }
  }

  // ---------- the compiled tree ----------

  /** Rules one below the other, the first in the given slot; handles count up in the order of adding. */
  function Stacked(q: Tree, slot: Slot, tcs: seq<Tc>): Tree
    decreases |tcs|
  {
    if tcs == [] then q
    else Stacked(q + [Qdisc(slot, |q| + 1, Shape(tcs[0]))], Below(|q| + 1), tcs[1..])
  }

  function WithPrio(q: Tree, bands: nat): Tree {
    var h := |q| + 1;
    q + [Qdisc(if q == [] then Root else Below(|q|), h, Prio(bands)),
         Qdisc(Class(h, 1), h + 1, Sfq), Qdisc(Class(h, 2), h + 2, Sfq), Qdisc(Class(h, 3), h + 3, Sfq)]
  }

  function Filtered(q: Tree, prio: nat, groups: seq<seq<Tc>>): Tree {
    if groups == [] then q
    else Stacked(Filtered(q, prio, groups[..|groups| - 1]), Class(prio, |groups| + 3), groups[|groups| - 1])
  }

  function Compiled(globals: seq<Tc>, groups: seq<seq<Tc>>): Tree {
    var base := Stacked([], Root, globals);
    if groups == [] then base else Filtered(WithPrio(base, 3 + |groups|), |globals| + 1, groups)
  }

  // ---------- shape of the compiled tree ----------

  /** Handles are 1, 2, ... in order; only the first qdisc is at the root; every parent comes earlier. */
  predicate Ordered(q: Tree) {
    forall j :: 0 <= j < |q| ==>
      && q[j].handle == j + 1
      && (q[j].slot.Root? ==> j == 0)
      && (q[j].slot.Below? ==> 1 <= q[j].slot.handle <= j)
      && (q[j].slot.Class? ==> 1 <= q[j].slot.handle <= j)
  }

  /** The prio qdisc has this handle and number of bands, and only classes below `next` are taken. */
  predicate Banded(q: Tree, prio: nat, bands: nat, next: nat) {
    && 1 <= prio <= |q| && q[prio - 1].discipline == Prio(bands)
    && forall j :: 0 <= j < |q| && q[j].slot.Class? ==> q[j].slot.handle == prio && q[j].slot.minor < next
  }

  predicate Unbanded(q: Tree) {
    forall j :: 0 <= j < |q| ==> !q[j].slot.Class? && q[j].discipline.Shape?
  }

  lemma {:induction false} StackedShape(q: Tree, slot: Slot, tcs: seq<Tc>)
    requires Ordered(q) && (slot.Root? ==> q == []) && (slot.Root? || 1 <= slot.handle <= |q|)
    ensures Ordered(Stacked(q, slot, tcs)) && |Stacked(q, slot, tcs)| == |q| + |tcs|
    ensures Stacked(q, slot, tcs)[..|q|] == q
    ensures !slot.Class? && Unbanded(q) ==> Unbanded(Stacked(q, slot, tcs))
    decreases |tcs|
  {
    if tcs != [] {
      var next := q + [Qdisc(slot, |q| + 1, Shape(tcs[0]))];
      StackedShape(next, Below(|q| + 1), tcs[1..]);
      var all := Stacked(q, slot, tcs);
      assert all[..|q|] == all[..|next|][..|q|] == q;
    }
  }

  lemma {:induction false} StackedBanded(q: Tree, slot: Slot, tcs: seq<Tc>, prio: nat, bands: nat, next: nat)
    requires Ordered(q) && !slot.Root? && 1 <= slot.handle <= |q|
    requires Banded(q, prio, bands, next) && (slot.Class? ==> slot.handle == prio && slot.minor < next)
    ensures Banded(Stacked(q, slot, tcs), prio, bands, next)
    decreases |tcs|
  {
    if tcs != [] {
      StackedBanded(q + [Qdisc(slot, |q| + 1, Shape(tcs[0]))], Below(|q| + 1), tcs[1..], prio, bands, next);
    }
  }

  lemma WithPrioShape(q: Tree, bands: nat)
    requires Ordered(q) && Unbanded(q) && bands >= 3
    ensures Ordered(WithPrio(q, bands)) && Banded(WithPrio(q, bands), |q| + 1, bands, 4)
    ensures |WithPrio(q, bands)| == |q| + 4
  {
  }

  function Total(groups: seq<seq<Tc>>): nat {
    if groups == [] then 0 else Total(groups[..|groups| - 1]) + |groups[|groups| - 1]|
  }

  lemma {:induction false} FilteredShape(q: Tree, prio: nat, bands: nat, groups: seq<seq<Tc>>)
    requires Ordered(q) && Banded(q, prio, bands, 4)
    ensures Ordered(Filtered(q, prio, groups)) && Banded(Filtered(q, prio, groups), prio, bands, 4 + |groups|)
    ensures |Filtered(q, prio, groups)| == |q| + Total(groups)
  {
    if groups != [] {
      var n := |groups| - 1;
      FilteredShape(q, prio, bands, groups[..n]);
      var before := Filtered(q, prio, groups[..n]);
      assert Banded(before, prio, bands, 4 + |groups|);
      StackedShape(before, Class(prio, n + 4), groups[n]);
      StackedBanded(before, Class(prio, n + 4), groups[n], prio, bands, 4 + |groups|);
    }
  }

  /** The class slots in use, in the order of adding, and what hangs there. */
  function Classes(q: Tree): seq<(Slot, Discipline)> {
    if q == [] then []
    else
      var x := q[|q| - 1];
      Classes(q[..|q| - 1]) + if x.slot.Class? then [(x.slot, x.discipline)] else []
  }

  lemma OneMoreClass(q: Tree, x: Qdisc)
    ensures Classes(q + [x]) == Classes(q) + if x.slot.Class? then [(x.slot, x.discipline)] else []
  {
    assert (q + [x])[..|q|] == q;
  }

  lemma {:induction false} StackedClasses(q: Tree, slot: Slot, tcs: seq<Tc>)
    ensures Classes(Stacked(q, slot, tcs))
         == Classes(q) + if slot.Class? && tcs != [] then [(slot, Shape(tcs[0]))] else []
    decreases |tcs|
  {
    if tcs != [] {
      var x := Qdisc(slot, |q| + 1, Shape(tcs[0]));
      OneMoreClass(q, x);
      StackedClasses(q + [x], Below(|q| + 1), tcs[1..]);
    }
  }

  /** Filter f hangs at class f + 4, by its first rule. */
  function FilterClasses(prio: nat, groups: seq<seq<Tc>>): seq<(Slot, Discipline)>
    requires NonEmpty(groups)
  {
    seq(|groups|, f requires 0 <= f < |groups| => (Class(prio, f + 4), Shape(groups[f][0])))
  }

  lemma {:induction false} FilteredClasses(q: Tree, prio: nat, groups: seq<seq<Tc>>)
    requires NonEmpty(groups)
    ensures Classes(Filtered(q, prio, groups)) == Classes(q) + FilterClasses(prio, groups)
  {
    if groups != [] {
      var n := |groups| - 1;
      FilteredClasses(q, prio, groups[..n]);
      StackedClasses(Filtered(q, prio, groups[..n]), Class(prio, n + 4), groups[n]);
      assert FilterClasses(prio, groups) == FilterClasses(prio, groups[..n])
        + [(Class(prio, n + 4), Shape(groups[n][0]))];
    }
  }

  function SfqClasses(prio: nat): seq<(Slot, Discipline)> {
    [(Class(prio, 1), Sfq), (Class(prio, 2), Sfq), (Class(prio, 3), Sfq)]
  }

  lemma {:induction false} ClassesConcat(a: Tree, b: Tree)
    ensures Classes(a + b) == Classes(a) + Classes(b)
  {
    if b == [] {
      assert a + b == a;
    } else {
      var n := |b| - 1;
      ClassesConcat(a, b[..n]);
      OneMoreClass(a + b[..n], b[n]);
      assert a + b[..n] + [b[n]] == a + b;
    }
  }

  lemma ClassesOfFour(prio: Qdisc, a: Qdisc, b: Qdisc, c: Qdisc)
    requires !prio.slot.Class? && a.slot.Class? && b.slot.Class? && c.slot.Class?
    ensures Classes([prio, a, b, c]) == [(a.slot, a.discipline), (b.slot, b.discipline), (c.slot, c.discipline)]
  {
    assert [prio, a, b, c][..3] == [prio, a, b] && [prio, a, b][..2] == [prio, a] && [prio, a][..1] == [prio];
    assert Classes([prio]) == [] by { assert [prio][..0] == []; }
    assert Classes([prio, a]) == [(a.slot, a.discipline)];
    assert Classes([prio, a, b]) == [(a.slot, a.discipline), (b.slot, b.discipline)];
  }

  lemma PrioClasses(q: Tree, bands: nat)
    ensures Classes(WithPrio(q, bands)) == Classes(q) + SfqClasses(|q| + 1)
  {
    var h := |q| + 1;
    var prio := Qdisc(if q == [] then Root else Below(|q|), h, Prio(bands));
    var a, b, c := Qdisc(Class(h, 1), h + 1, Sfq), Qdisc(Class(h, 2), h + 2, Sfq), Qdisc(Class(h, 3), h + 3, Sfq);
    hide Classes;
    ClassesOfFour(prio, a, b, c);
    ClassesConcat(q, [prio, a, b, c]);
  }

  /** For n unfiltered rules, k > 0 filters and m filtered rules the handles used are exactly 1..n+4+m, in the order of
      adding; the classes used are exactly 1..3+k of the prio qdisc, once each and all within its bands: an sfq
      at each of the first three, and the first rule of filter f at f + 4. */
  lemma HandlesAndClasses(globals: seq<Tc>, groups: seq<seq<Tc>>)
    requires groups != [] && NonEmpty(groups)
    ensures var q, h := Compiled(globals, groups), |globals| + 1;
            && |q| == |globals| + 4 + Total(groups) && Ordered(q) && Banded(q, h, 3 + |groups|, 4 + |groups|)
            && Classes(q) == SfqClasses(h) + FilterClasses(h, groups)
  {
    hide Compiled, Ordered, Banded, Classes, SfqClasses, FilterClasses, Total;
    CompiledShape(globals, groups);
    CompiledClasses(globals, groups);
  }

  lemma CompiledShape(globals: seq<Tc>, groups: seq<seq<Tc>>)
    requires groups != []
    ensures var q, h := Compiled(globals, groups), |globals| + 1;
            |q| == |globals| + 4 + Total(groups) && Ordered(q) && Banded(q, h, 3 + |groups|, 4 + |groups|)
  {
    StackedShape([], Root, globals);
    WithPrioShape(Stacked([], Root, globals), 3 + |groups|);
    FilteredShape(WithPrio(Stacked([], Root, globals), 3 + |groups|), |globals| + 1, 3 + |groups|, groups);
  }

  lemma GlobalsHaveNoClasses(globals: seq<Tc>)
    ensures |Stacked([], Root, globals)| == |globals| && Classes(Stacked([], Root, globals)) == []
  {
    StackedShape([], Root, globals);
    StackedClasses([], Root, globals);
  }

  lemma CompiledClasses(globals: seq<Tc>, groups: seq<seq<Tc>>)
    requires groups != [] && NonEmpty(groups)
    ensures Classes(Compiled(globals, groups)) == SfqClasses(|globals| + 1) + FilterClasses(|globals| + 1, groups)
  {
    hide Classes, Stacked, Filtered, WithPrio, SfqClasses, FilterClasses;
    var base := Stacked([], Root, globals);
    GlobalsHaveNoClasses(globals);
    PrioClasses(base, 3 + |groups|);
    FilteredClasses(WithPrio(base, 3 + |groups|), |globals| + 1, groups);
    assert [] + SfqClasses(|globals| + 1) == SfqClasses(|globals| + 1);
  }

  // ---------- commands ----------

  datatype Result = Success | Failed | Rejected

  predicate Buildable(tc: Tc) {
    match tc.kind
    case Bandwidth(tbf) => tbf.Some?
    case NetemKind(netem) => netem.Some? && Netem.Readable(netem.value)
    case UnknownKind => false
  }

  method AddTc(k: Kernel, device: string, slot: Slot, handle: nat, tc: Tc) returns (r: Result)
    requires k.Valid()
    modifies k
    ensures r.Failed? <==> !Buildable(tc) || k.faults > old(k.faults)
    ensures k.faults >= old(k.faults)
    ensures k.Valid()
    ensures r.Success? ==>
      var x := Qdisc(slot, handle, Shape(tc));
      && Buildable(tc) && device in old(k.qdiscs) && CanAdd(old(k.qdiscs)[device], x)
      && k.qdiscs == old(k.qdiscs)[device := old(k.qdiscs)[device] + [x]]
    ensures r.Success? ==> device in k.args && k.args[device] != [] && var args := k.args[device][|k.args[device]| - 1];
      && (tc.kind.Bandwidth? ==> args == TbfArgs(tc.kind.tbf.value))
      && (tc.kind.NetemKind? ==> args.NetemArgs? && Netem.Acceptable(tc.kind.netem.value.time)
                                 && Netem.Decode(args.tokens) == Some(Netem.SettingsOf(tc.kind.netem.value)))
    ensures !r.Success? ==> k.qdiscs == old(k.qdiscs)
    ensures r.Rejected? ==> device !in old(k.qdiscs) || !CanAdd(old(k.qdiscs)[device], Qdisc(slot, handle, Shape(tc)))
  {
    hide Netem.Decode, Netem.SettingsOf, CanAdd;
    var args;
    if tc.kind.Bandwidth? {
      if tc.kind.tbf.None? { return Failed; }
      args := TbfArgs(tc.kind.tbf.value);
    } else if tc.kind.NetemKind? {
      if tc.kind.netem.None? { return Failed; }
      var tokens := Netem.ConvertNetemToArgs(tc.kind.netem.value);
      if tokens.None? { return Failed; }
      args := NetemArgs(tokens.value);
    } else {
      return Failed;
    }
    var reply := k.Add(device, Qdisc(slot, handle, Shape(tc)), args);
    r := if reply.Done? then Success else if reply.Fault? then Failed else Rejected;
  }

  /** Only this device's qdiscs differ. */
  twostate predicate OnlyDevice(k: Kernel, device: string)
    reads k
  {
    k.qdiscs.Keys == old(k.qdiscs).Keys && forall d :: d in k.qdiscs && d != device ==> k.qdiscs[d] == old(k.qdiscs)[d]
  }

  predicate AllBuildable(tcs: seq<Tc>) {
    forall i :: 0 <= i < |tcs| ==> Buildable(tcs[i])
  }

  predicate AllFiltersBuildable(filters: map<string, seq<Tc>>) {
    forall key :: key in filters ==> AllBuildable(filters[key])
  }

  lemma StackedNext(q: Tree, slot: Slot, tcs: seq<Tc>, n: nat)
    requires n <= |tcs|
    ensures n == |tcs| ==> Stacked(q, slot, tcs[n..]) == q
    ensures n < |tcs| ==>
      Stacked(q, slot, tcs[n..]) == Stacked(q + [Qdisc(slot, |q| + 1, Shape(tcs[n]))], Below(|q| + 1), tcs[n + 1..])
  {
    if n < |tcs| { assert tcs[n..][1..] == tcs[n + 1..]; }
  }

  /** The last qdisc is a rule, so another rule can go below it. */
  predicate Stackable(q: Tree) {
    Ordered(q) && q != [] && q[|q| - 1].discipline.Shape?
  }

  lemma CanStack(q: Tree, tc: Tc)
    ensures Stackable(q) ==> CanAdd(q, Qdisc(Below(|q|), |q| + 1, Shape(tc)))
    ensures Stackable(q) ==> Stackable(q + [Qdisc(Below(|q|), |q| + 1, Shape(tc))])
    ensures q == [] ==> CanAdd(q, Qdisc(Root, 1, Shape(tc))) && Stackable([Qdisc(Root, 1, Shape(tc))])
  {
    if Stackable(q) {
      assert q[|q| - 1].handle == |q|;
      assert SlotExists(q, Below(|q|));
    }
  }

  lemma RootWasFree(q: Tree, x: Qdisc)
    requires q != [] ==> q[0].slot == Root
    requires x.slot.Root? && CanAdd(q, x)
    ensures q == []
  {
  }

  /** Pipes the unfiltered rules one below the other from the root. On a flushed device every command is valid;
      and success means the device was free and now holds exactly these rules. */
  method SetGlobalTcs(k: Kernel, device: string, tcs: seq<Tc>) returns (r: Result)
    requires k.Valid() && tcs != []
    modifies k
    ensures r.Failed? ==> !AllBuildable(tcs) || k.faults > old(k.faults)
    ensures k.faults >= old(k.faults) && (!r.Failed? ==> k.faults == old(k.faults))
    ensures k.Valid() && OnlyDevice(k, device)
    ensures r.Success? ==> device in k.qdiscs && k.qdiscs[device] == Stacked([], Root, tcs) && AllBuildable(tcs)
    ensures r.Rejected? ==> device !in old(k.qdiscs) || old(k.qdiscs)[device] != []
  {
    hide Stacked, CanAdd, Buildable, Ordered, SlotExists, AllRendered;
    for index := 0 to |tcs|
      invariant k.Valid() && OnlyDevice(k, device) && k.faults == old(k.faults)
      invariant index == 0 ==> k.qdiscs == old(k.qdiscs)
      invariant index > 0 ==> device in k.qdiscs && |k.qdiscs[device]| == index && Stackable(k.qdiscs[device])
      invariant index > 0 ==> Stacked(k.qdiscs[device], Below(index), tcs[index..]) == Stacked([], Root, tcs)
      invariant AllBuildable(tcs[..index])
    {
      var slot := if index > 0 then Below(index) else Root;
      ghost var q := if device in k.qdiscs then k.qdiscs[device] else [];
      CanStack(q, tcs[index]);
      StackedNext(q, slot, tcs, index);
      assert index == 0 ==> tcs[index..] == tcs;
      r := AddTc(k, device, slot, index + 1, tcs[index]);
      if !r.Success? { return; }
      assert tcs[..index + 1] == tcs[..index] + [tcs[index]];
      if index == 0 {
        RootWasFree(q, Qdisc(slot, 1, Shape(tcs[0])));
        assert q + [Qdisc(slot, 1, Shape(tcs[0]))] == [Qdisc(slot, 1, Shape(tcs[0]))];
      }
    }
    StackedNext(k.qdiscs[device], Below(|tcs|), tcs, |tcs|);
    assert tcs[..|tcs|] == tcs;
    r := Success;
  }

  // ---------- filtered rules ----------

  lemma CanAddPrio(q: Tree, bands: nat)
    requires bands >= 3
    ensures Stackable(q) ==> CanAdd(q, Qdisc(Below(|q|), |q| + 1, Prio(bands)))
    ensures q == [] ==> CanAdd(q, Qdisc(Root, 1, Prio(bands)))
  {
    if Stackable(q) {
      assert q[|q| - 1].handle == |q|;
      assert SlotExists(q, Below(|q|));
    }
  }

  lemma CanAddSfq(q: Tree, bands: nat, i: nat)
    requires q == [] || (Stackable(q) && Unbanded(q))
    requires bands >= 3 && 1 <= i <= 3
    ensures |WithPrio(q, bands)| == |q| + 4
    ensures CanAdd(WithPrio(q, bands)[..|q| + i], Qdisc(Class(|q| + 1, i), |q| + 1 + i, Sfq))
    ensures WithPrio(q, bands)[..|q| + i] + [Qdisc(Class(|q| + 1, i), |q| + 1 + i, Sfq)]
      == WithPrio(q, bands)[..|q| + i + 1]
  {
    var part := WithPrio(q, bands)[..|q| + i];
    assert part[|q|].handle == |q| + 1 && part[|q|].discipline == Prio(bands);
    assert SlotExists(part, Class(|q| + 1, i));
    forall j | 0 <= j < |part| ensures part[j].handle == j + 1 && part[j].slot != Class(|q| + 1, i) {
      if j < |q| { assert part[j] == q[j]; }
    }
  }

  /** The device is ready for a prio qdisc below its `parent` unfiltered rules. */
  predicate Piped(qdiscs: map<string, Tree>, device: string, parent: nat) {
    parent > 0 ==>
      device in qdiscs && |qdiscs[device]| == parent && Stackable(qdiscs[device]) && Unbanded(qdiscs[device])
  }

  method AddPrio(k: Kernel, device: string, parent: nat, band: nat) returns (r: Result)
    requires k.Valid() && Piped(k.qdiscs, device, parent) && band >= 3
    modifies k
    ensures (r.Failed? <==> k.faults > old(k.faults)) && k.faults >= old(k.faults)
    ensures k.Valid() && OnlyDevice(k, device)
    ensures r.Success? ==> device in k.qdiscs && (parent == 0 ==> old(k.qdiscs)[device] == [])
                           && k.qdiscs[device] == WithPrio(old(k.qdiscs)[device], band)
    ensures r.Rejected? ==> parent == 0 && (device !in old(k.qdiscs) || old(k.qdiscs)[device] != [])
  {
    hide CanAdd, Stackable, Unbanded, AllRendered;
    ghost var q := if device in k.qdiscs then k.qdiscs[device] else [];
    CanAddPrio(q, band);
    var slot := if parent > 0 then Below(parent) else Root;
    var reply := k.Add(device, Qdisc(slot, parent + 1, Prio(band)), OwnArgs);
    if reply.Fault? { return Failed; }
    if reply.Invalid? { return Rejected; }
    if parent == 0 { RootWasFree(q, Qdisc(slot, 1, Prio(band))); }
    ghost var all := WithPrio(q, band);
    CanAddSfq(q, band, 1);
    assert q + [Qdisc(slot, parent + 1, Prio(band))] == all[..|q| + 1];
    for index := 1 to 4
      invariant k.Valid() && OnlyDevice(k, device) && k.faults == old(k.faults)
      invariant device in k.qdiscs && k.qdiscs[device] == all[..|q| + index]
    {
      CanAddSfq(q, band, index);
      reply := k.Add(device, Qdisc(Class(parent + 1, index), parent + 1 + index, Sfq), OwnArgs);
      if reply.Fault? { return Failed; }
      if reply.Invalid? { assert false; }
    }
    assert all[..|q| + 4] == all;
    r := Success;
  }

  lemma FilteredNext(q: Tree, prio: nat, groups: seq<seq<Tc>>, group: seq<Tc>)
    ensures Filtered(q, prio, groups + [group]) == Stacked(Filtered(q, prio, groups), Class(prio, |groups| + 4), group)
  {
    assert (groups + [group])[..|groups|] == groups;
  }

  lemma CanClass(q: Tree, prio: nat, bands: nat, next: nat, tc: Tc)
    requires Ordered(q) && Banded(q, prio, bands, next) && 4 <= next <= bands
    ensures CanAdd(q, Qdisc(Class(prio, next), |q| + 1, Shape(tc)))
    ensures Stackable(q + [Qdisc(Class(prio, next), |q| + 1, Shape(tc))])
  {
    assert q[prio - 1].handle == prio;
    assert SlotExists(q, Class(prio, next));
  }

  /** One filter's rules: the first at its class of the prio qdisc, the others one below the other. */
  method AddFilter(k: Kernel, device: string, parent: nat, index: nat, currentHandler: nat, tcs: seq<Tc>,
                   ghost bands: nat)
    returns (r: Result, handler: nat)
    requires k.Valid() && device in k.qdiscs && currentHandler == |k.qdiscs[device]|
    requires Ordered(k.qdiscs[device]) && Banded(k.qdiscs[device], parent, bands, index + 4) && index + 4 <= bands
    modifies k
    ensures r.Failed? ==> !AllBuildable(tcs) || k.faults > old(k.faults)
    ensures k.faults >= old(k.faults) && (!r.Failed? ==> k.faults == old(k.faults))
    ensures k.Valid() && OnlyDevice(k, device)
    ensures r.Success? ==> k.qdiscs[device] == Stacked(old(k.qdiscs)[device], Class(parent, index + 4), tcs)
    ensures r.Success? ==> AllBuildable(tcs) && handler == currentHandler + |tcs|
    ensures !r.Rejected?
  {
    hide CanAdd, Stacked, Buildable, Ordered, Banded, AllRendered;
    handler := currentHandler;
    ghost var q := k.qdiscs[device];
    assert tcs[0..] == tcs;
    for i := 0 to |tcs|
      invariant k.Valid() && OnlyDevice(k, device) && device in k.qdiscs && k.faults == old(k.faults)
      invariant handler == |k.qdiscs[device]| == currentHandler + i
      invariant i == 0 ==> k.qdiscs[device] == q
      invariant i > 0 ==> Stackable(k.qdiscs[device])
      invariant Stacked(k.qdiscs[device], if i > 0 then Below(handler) else Class(parent, index + 4), tcs[i..])
             == Stacked(q, Class(parent, index + 4), tcs)
      invariant AllBuildable(tcs[..i])
    {
      var slot := if i > 0 then Below(handler) else Class(parent, index + 4);
      CanStack(k.qdiscs[device], tcs[i]);
      CanClass(q, parent, bands, index + 4, tcs[i]);
      StackedNext(k.qdiscs[device], slot, tcs, i);
      handler := handler + 1;
      r := AddTc(k, device, slot, handler, tcs[i]);
      if !r.Success? { return; }
    }
    StackedNext(k.qdiscs[device], if |tcs| > 0 then Below(handler) else Class(parent, index + 4), tcs, |tcs|);
    assert tcs[..|tcs|] == tcs;
    r := Success;
  }

  function TableName(index: nat): string {
    "TC-TABLES-" + Decimal(index)
  }

  /** The chain that sends one filter's packets to its class; its first rule supplies the match. */
  function TcChain(index: nat, parent: nat, tc: Tc, device: string): Iptables.Chain {
    Iptables.Chain(TableName(index), Iptables.Output, if tc.ipset != "" then [tc.ipset] else [],
                   Iptables.Classify(parent, index + 4), tc.protocol, device, None, Iptables.ANY_PORT)
  }

  predicate NonEmpty(groups: seq<seq<Tc>>) {
    forall i :: 0 <= i < |groups| ==> groups[i] != []
  }

  function TcChains(groups: seq<seq<Tc>>, parent: nat, device: string): seq<Iptables.Chain>
    requires NonEmpty(groups)
  {
    seq(|groups|, i requires 0 <= i < |groups| => TcChain(i, parent, groups[i][0], device))
  }

  lemma ChainsHaveDirections(groups: seq<seq<Tc>>, parent: nat, device: string)
    requires NonEmpty(groups)
    ensures var chains := TcChains(groups, parent, device);
            forall i :: 0 <= i < |chains| ==> !chains[i].direction.Unknown?
  {
  }

  predicate Distinct(keys: seq<string>) {
    forall i, j :: 0 <= i < j < |keys| ==> keys[i] != keys[j]
  }

  predicate IsFilterMap(filters: map<string, seq<Tc>>) {
    forall key :: key in filters ==> filters[key] != []
  }

  function Grouped(filters: map<string, seq<Tc>>, keys: seq<string>): (groups: seq<seq<Tc>>)
    requires IsFilterMap(filters) && forall i :: 0 <= i < |keys| ==> keys[i] in filters
    ensures |groups| == |keys| && NonEmpty(groups)
  {
    seq(|keys|, i requires 0 <= i < |keys| => filters[keys[i]])
  }

  /** `keys` lists the keys of the map, each once, in some order. */
  predicate Enumerates(keys: seq<string>, filters: set<string>) {
    && Distinct(keys) && (forall i :: 0 <= i < |keys| ==> keys[i] in filters)
    && forall key :: key in filters ==> key in keys
  }

  lemma EnumeratesAll(keys: seq<string>, all: set<string>)
    requires Enumerates(keys, all)
    ensures |keys| == |all|
  {
    DistinctLength(keys);
    assert (set key | key in keys) == all;
  }

  lemma {:induction false} DistinctLength(keys: seq<string>)
    requires Distinct(keys)
    ensures |set key | key in keys| == |keys|
  {
    if keys != [] {
      var rest := keys[..|keys| - 1];
      DistinctLength(rest);
      assert (set key | key in keys) == (set key | key in rest) + {keys[|keys| - 1]};
    }
  }

  /** The tree before any filter: the unfiltered rules, then the prio qdisc with its three sfq bands. */
  function Base(globals: seq<Tc>, filters: nat): Tree {
    WithPrio(Stacked([], Root, globals), 3 + filters)
  }

  lemma BaseShape(globals: seq<Tc>, groups: seq<seq<Tc>>, filters: nat)
    ensures Ordered(Filtered(Base(globals, filters), |globals| + 1, groups))
    ensures Banded(Filtered(Base(globals, filters), |globals| + 1, groups), |globals| + 1, 3 + filters, 4 + |groups|)
    ensures |Base(globals, filters)| == |globals| + 4
  {
    hide Stacked, Filtered, Ordered, Banded;
    StackedShape([], Root, globals);
    WithPrioShape(Stacked([], Root, globals), 3 + filters);
    FilteredShape(Base(globals, filters), |globals| + 1, 3 + filters, groups);
  }

  lemma PipedGlobals(globals: seq<Tc>)
    requires globals != []
    ensures var q := Stacked([], Root, globals); |q| == |globals| && Stackable(q) && Unbanded(q)
  {
    StackedShape([], Root, globals);
  }

  lemma OneMoreFilter(filters: map<string, seq<Tc>>, order: seq<string>, done: set<string>, key: string, parent: nat,
                      device: string)
    requires IsFilterMap(filters) && done <= filters.Keys && key in filters && key !in done
    requires Enumerates(order, done)
    ensures Enumerates(order + [key], done + {key}) && |order| < |filters|
    ensures Grouped(filters, order + [key]) == Grouped(filters, order) + [filters[key]]
    ensures TcChains(Grouped(filters, order + [key]), parent, device)
         == TcChains(Grouped(filters, order), parent, device) + [TcChain(|order|, parent, filters[key][0], device)]
  {
    hide TcChain;
    EnumeratesAll(order, done);
    assert key in filters.Keys - done;
    SomeLeft(filters.Keys, filters.Keys - done);
    assert filters.Keys - (filters.Keys - done) == done;
  }

  /** The loop over the filters, in any order, starting below the prio qdisc. */
  method AddFilters(k: Kernel, filters: map<string, seq<Tc>>, device: string, ghost globals: seq<Tc>, parent: nat)
    returns (r: Result, chains: seq<Iptables.Chain>, ghost order: seq<string>)
    requires k.Valid() && IsFilterMap(filters) && parent == |globals| + 1
    requires device in k.qdiscs && k.qdiscs[device] == Base(globals, |filters|)
    modifies k
    ensures r.Failed? ==> !AllFiltersBuildable(filters) || k.faults > old(k.faults)
    ensures k.faults >= old(k.faults) && (!r.Failed? ==> k.faults == old(k.faults))
    ensures k.Valid() && OnlyDevice(k, device)
    ensures r.Success? ==> Enumerates(order, filters.Keys) && device in k.qdiscs
    ensures r.Success? ==> k.qdiscs[device] == Filtered(Base(globals, |filters|), parent, Grouped(filters, order))
    ensures r.Success? ==> chains == TcChains(Grouped(filters, order), parent, device)
    ensures !r.Rejected?
  {
    hide Stacked, Filtered, Ordered, Banded, WithPrio, Base, TcChains, TcChain, AllBuildable, AllRendered;
    chains, order := [], [];
    ghost var base := Base(globals, |filters|);
    StartFilters(filters, base, parent, device);
    BaseShape(globals, [], |filters|);
    var index := 0;
    var currentHandler := parent + 3;
    var rest := filters.Keys;
    while rest != {}
      invariant k.Valid() && OnlyDevice(k, device) && device in k.qdiscs && k.faults == old(k.faults)
      invariant rest <= filters.Keys && Enumerates(order, filters.Keys - rest) && index == |order|
      invariant k.qdiscs[device] == Filtered(base, parent, Grouped(filters, order))
      invariant currentHandler == |k.qdiscs[device]|
      invariant chains == TcChains(Grouped(filters, order), parent, device)
      decreases rest
    {
      var key :| key in rest;
      var tcs := filters[key];
      BaseShape(globals, Grouped(filters, order), |filters|);
      OneMoreFilter(filters, order, filters.Keys - rest, key, parent, device);
      FilteredNext(base, parent, Grouped(filters, order), tcs);
      InRange(Filtered(base, parent, Grouped(filters, order)), parent, 3 + |filters|, 4 + index);
      StackedLength(base, parent, Grouped(filters, order), tcs);
      r, currentHandler := AddFilter(k, device, parent, index, currentHandler, tcs, 3 + |filters|);
      if !r.Success? { return; }
      chains := chains + [TcChain(index, parent, tcs[0], device)];
      assert filters.Keys - (rest - {key}) == filters.Keys - rest + {key};
      rest, order, index := rest - {key}, order + [key], index + 1;
    }
    assert filters.Keys - rest == filters.Keys;
    r := Success;
  }

  lemma InRange(q: Tree, prio: nat, bands: nat, next: nat)
    requires Banded(q, prio, bands, next)
    ensures 1 <= prio <= |q|
  {
  }

  lemma StartFilters(filters: map<string, seq<Tc>>, base: Tree, parent: nat, device: string)
    requires IsFilterMap(filters)
    ensures Filtered(base, parent, Grouped(filters, [])) == base
    ensures TcChains(Grouped(filters, []), parent, device) == []
    ensures Enumerates([], filters.Keys - filters.Keys)
  {
    assert Grouped(filters, []) == [];
  }

  /** Hangs every filter off a class of a prio qdisc, visiting the filters in any order, and installs the chains
      that classify packets. `order` is the order this run took. */
  method SetFilterTcs(k: Kernel, ik: Iptables.Kernel, filters: map<string, seq<Tc>>, device: string,
                      ghost globals: seq<Tc>, baseIndex: nat) returns (r: Result, ghost order: seq<string>)
    requires k.Valid() && IsFilterMap(filters) && filters != map[] && baseIndex == |globals|
    requires baseIndex > 0 ==> device in k.qdiscs && k.qdiscs[device] == Stacked([], Root, globals)
    modifies k, ik
    ensures r.Failed? ==> !AllFiltersBuildable(filters) || k.faults > old(k.faults) || ik.faults > old(ik.faults)
    ensures !r.Failed? ==> k.faults == old(k.faults) && ik.faults == old(ik.faults)
    ensures k.faults >= old(k.faults) && ik.faults >= old(ik.faults)
    ensures k.Valid() && OnlyDevice(k, device)
    ensures r.Success? ==> Enumerates(order, filters.Keys) && device in k.qdiscs
    ensures r.Success? ==> k.qdiscs[device] == Compiled(globals, Grouped(filters, order))
    ensures r.Success? ==>
      ik.chains == Iptables.InstalledAll(old(ik.chains), TcChains(Grouped(filters, order), |globals| + 1, device))
    ensures r.Rejected? ==> baseIndex == 0 && (device !in old(k.qdiscs) || old(k.qdiscs)[device] != [])
  {
    hide Stacked, Filtered, WithPrio, Unbanded, Stackable, Iptables.InstalledAll, TcChains, AllRendered;
    order := [];
    if baseIndex > 0 { PipedGlobals(globals); } else { NoRules(globals); }
    r := AddPrio(k, device, baseIndex, 3 + |filters|);
    if !r.Success? { return; }
    var chains;
    r, chains, order := AddFilters(k, filters, device, globals, baseIndex + 1);
    if !r.Success? { return; }
    EnumeratesAll(order, filters.Keys);
    ChainsHaveDirections(Grouped(filters, order), baseIndex + 1, device);
    var ok := Iptables.SetIptablesChains(ik, chains);
    r := if ok then Success else Failed;
  }

  lemma SomeLeft(all: set<string>, rest: set<string>)
    requires rest <= all && rest != {}
    ensures |all - rest| < |all|
  {
    assert all == (all - rest) + rest;
  }

  lemma NoRules(globals: seq<Tc>)
    ensures globals == [] ==> Stacked([], Root, globals) == []
  {
  }

  lemma StackedLength(base: Tree, prio: nat, groups: seq<seq<Tc>>, group: seq<Tc>)
    requires Ordered(Filtered(base, prio, groups)) && 1 <= prio <= |Filtered(base, prio, groups)|
    ensures |Stacked(Filtered(base, prio, groups), Class(prio, |groups| + 4), group)|
         == |Filtered(base, prio, groups)| + |group|
  {
    StackedShape(Filtered(base, prio, groups), Class(prio, |groups| + 4), group);
  }
}
