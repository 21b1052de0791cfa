/** Named ip sets and their replacement by create, fill and rename-or-swap (pkg/chaosdaemon/ipset_server.go). */
module IPSets {
  import opened Text

  const SET_IPSET := "list:set"
  const NET_IPSET := "hash:net"
  const NET_PORT_IPSET := "hash:net,port"
  const MAX_NAME := 31

  datatype IPSet = IPSet(typ: string, members: set<string>)

  type Table = map<string, IPSet>

  datatype CidrAndPort = CidrAndPort(cidr: string, port: nat)

  datatype Request = Request(name: string, typ: string,
                             setNames: seq<string>, cidrs: seq<string>, cidrAndPorts: seq<CidrAndPort>)

  /** What an `ipset` command reports: success, the one error the caller tolerates, or any other error. */
  datatype Reply = Success | Tolerated | Error

  /** The kernel's ip sets. Every command may also fail for reasons of its own; `trace` records the table
      after each command that was run, `faults` counts the commands that failed. */
  class Kernel {
    var sets: Table
    ghost var trace: seq<Table>
    ghost var faults: nat

    method Create(name: string, typ: string) returns (r: Reply)
      modifies this
      ensures trace == old(trace) + [sets] && faults == old(faults) + if r.Error? then 1 else 0
      ensures r.Success? ==> |name| <= MAX_NAME && name !in old(sets) && sets == old(sets)[name := IPSet(typ, {})]
      ensures r.Tolerated? ==> name in old(sets)
      ensures !r.Success? ==> sets == old(sets)
    {
      var fault: bool := *;
      if fault || |name| > MAX_NAME {
        r := Error;
      } else if name in sets {
        r := Tolerated;
      } else {
        sets, r := sets[name := IPSet(typ, {})], Success;
      }
      trace := trace + [sets];
      if r.Error? { faults := faults + 1; }
    }

    method Flush(name: string) returns (ok: bool)
      modifies this
      ensures trace == old(trace) + [sets] && faults == old(faults) + if ok then 0 else 1
      ensures ok ==> name in old(sets) && sets == old(sets)[name := IPSet(old(sets)[name].typ, {})]
      ensures !ok ==> sets == old(sets)
    {
      var fault: bool := *;
      ok := !fault && name in sets;
      if ok { sets := sets[name := IPSet(sets[name].typ, {})]; }
      trace := trace + [sets];
      if !ok { faults := faults + 1; }
    }

    method Add(name: string, value: string) returns (r: Reply)
      modifies this
      ensures trace == old(trace) + [sets] && faults == old(faults) + if r.Error? then 1 else 0
      ensures !r.Error? ==> |name| <= MAX_NAME && name in old(sets)
      ensures r.Success? ==> sets == old(sets)[name := old(sets)[name].(members := old(sets)[name].members + {value})]
      ensures r.Tolerated? ==> value in old(sets)[name].members
      ensures !r.Success? ==> sets == old(sets)
    {
      var fault: bool := *;
      if fault || |name| > MAX_NAME || name !in sets {
        r := Error;
      } else if value in sets[name].members {
        r := Tolerated;
      } else {
        sets, r := sets[name := sets[name].(members := sets[name].members + {value})], Success;
      }
      trace := trace + [sets];
      if r.Error? { faults := faults + 1; }
    }

    method Rename(from: string, to: string) returns (r: Reply)
      modifies this
      ensures trace == old(trace) + [sets] && faults == old(faults) + if r.Error? then 1 else 0
      ensures !r.Error? ==> |from| <= MAX_NAME && from in old(sets)
      ensures r.Success? ==> to !in old(sets) && sets == (old(sets) - {from})[to := old(sets)[from]]
      ensures r.Tolerated? ==> to in old(sets)
      ensures !r.Success? ==> sets == old(sets)
    {
      var fault: bool := *;
      if fault || |from| > MAX_NAME || |to| > MAX_NAME || from !in sets {
        r := Error;
      } else if to in sets {
        r := Tolerated;
      } else {
        sets, r := (sets - {from})[to := sets[from]], Success;
      }
      trace := trace + [sets];
      if r.Error? { faults := faults + 1; }
    }

    /** Two sets can be swapped only when they have the same type. */
    method Swap(a: string, b: string) returns (ok: bool)
      modifies this
      ensures trace == old(trace) + [sets] && faults == old(faults) + if ok then 0 else 1
      ensures ok ==> a in old(sets) && b in old(sets) && old(sets)[a].typ == old(sets)[b].typ
      ensures ok ==> sets == old(sets)[a := old(sets)[b]][b := old(sets)[a]]
      ensures !ok ==> sets == old(sets)
    {
      var fault: bool := *;
      ok := !fault && a in sets && b in sets && sets[a].typ == sets[b].typ;
      if ok { sets := sets[a := sets[b]][b := sets[a]]; }
      trace := trace + [sets];
      if !ok { faults := faults + 1; }
    }
  }

  // ---------- the client ----------

  function Truncate(name: string): string {
    if |name| > MAX_NAME then name[..MAX_NAME] else name
  }

  function Temporary(name: string): string {
    name + "old"
  }

  /** The table once `createIPSet` has succeeded: an existing set is emptied but keeps its type. */
  function Prepared(sets: Table, name: string, typ: string): Table {
    var t := Truncate(name);
    sets[t := IPSet(if t in sets then sets[t].typ else typ, {})]
  }

  method CreateIPSet(k: Kernel, name: string, typ: string) returns (ok: bool)
    modifies k
    ensures (ok <==> k.faults == old(k.faults)) && k.faults >= old(k.faults)
    ensures ok ==> k.sets == Prepared(old(k.sets), name, typ)
    ensures !ok ==> k.sets == old(k.sets)
    ensures old(k.trace) <= k.trace
    ensures forall i :: |old(k.trace)| <= i < |k.trace| ==>
              k.trace[i] == old(k.sets) || k.trace[i] == Prepared(old(k.sets), name, typ)
  {
    var t := if |name| > MAX_NAME then name[..MAX_NAME] else name;
    var r := k.Create(t, typ);
    ok := r.Success?;
    if r.Tolerated? {
      ok := k.Flush(t);
    }
  }

  function CidrAndPortText(c: CidrAndPort): string {
    c.cidr + "," + Decimal(c.port)
  }

  /** The elements a request asks for, or nothing when its type is unknown. */
  function Values(req: Request): Option<seq<string>> {
    if req.typ == SET_IPSET then Some(req.setNames)
    else if req.typ == NET_IPSET then Some(req.cidrs)
    else if req.typ == NET_PORT_IPSET then
      Some(seq(|req.cidrAndPorts|, i requires 0 <= i < |req.cidrAndPorts| => CidrAndPortText(req.cidrAndPorts[i])))
    else None
  }

  method RequestedValues(req: Request) returns (r: Option<seq<string>>)
    ensures r == Values(req)
  {
    if req.typ == SET_IPSET {
      return Some(req.setNames);
    } else if req.typ == NET_IPSET {
      return Some(req.cidrs);
    } else if req.typ == NET_PORT_IPSET {
      var values: seq<string> := [];
      ghost var spec := Values(req).value;
      for i := 0 to |req.cidrAndPorts|
        invariant values == spec[..i]
      {
        values := values + [CidrAndPortText(req.cidrAndPorts[i])];
      }
      assert values == spec;
      return Some(values);
    }
    return None;
  }

  lemma DecimalHasNoComma(n: nat)
    ensures ',' !in Decimal(n)
  {
  }

  /** An element names its network and port: no two pairs are written alike. */
  lemma CidrAndPortReadsBack(c: CidrAndPort, d: CidrAndPort)
    requires CidrAndPortText(c) == CidrAndPortText(d)
    ensures c == d
  {
    var text, x, y := CidrAndPortText(c), Decimal(c.port), Decimal(d.port);
    DecimalHasNoComma(c.port);
    DecimalHasNoComma(d.port);
    ValueOfDecimal(c.port);
    ValueOfDecimal(d.port);
    hide Decimal, Value;
    assert text[|c.cidr|] == ',' && text[|d.cidr|] == ',';
    assert forall k :: |c.cidr| < k < |text| ==> text[k] == x[k - |c.cidr| - 1];
    assert forall k :: |d.cidr| < k < |text| ==> text[k] == y[k - |d.cidr| - 1];
    assert text[..|c.cidr|] == c.cidr && text[|c.cidr| + 1..] == x;
    assert text[..|d.cidr|] == d.cidr && text[|d.cidr| + 1..] == y;
  }

  /** The elements of a set of networks with ports are those pairs, each recoverable from its text. */
  lemma PortElements(req: Request, c: CidrAndPort)
    requires req.typ == "hash:net,port"
    ensures c.cidr + "," + Decimal(c.port) in Elements(req) <==> c in req.cidrAndPorts
  {
    var values := Values(req).value;
    hide CidrAndPortText;
    if CidrAndPortText(c) in Elements(req) {
      var i :| 0 <= i < |values| && values[i] == CidrAndPortText(c);
      CidrAndPortReadsBack(c, req.cidrAndPorts[i]);
    }
    if c in req.cidrAndPorts {
      var i :| 0 <= i < |req.cidrAndPorts| && req.cidrAndPorts[i] == c;
      assert values[i] == CidrAndPortText(c);
    }
  }

  /** What a set of each type is asked to hold, by the names of the types: other sets, networks, or networks with ports.
      Nothing is asked of an unknown type. */
  predicate Asked(req: Request, v: string) {
    || (req.typ == "list:set" && v in req.setNames)
    || (req.typ == "hash:net" && v in req.cidrs)
    || (req.typ == "hash:net,port" && exists c :: c in req.cidrAndPorts && v == c.cidr + "," + Decimal(c.port))
  }

  ghost predicate ExactlyAsked(members: set<string>, req: Request) {
    forall v :: v in members <==> Asked(req, v)
  }

  lemma ElementsAreAsked(req: Request)
    ensures ExactlyAsked(Elements(req), req)
  {
    hide Asked, Elements;
    forall v ensures v in Elements(req) <==> Asked(req, v) { ElementsAsAsked(req, v); }
  }

  lemma ElementsAsAsked(req: Request, v: string)
    ensures v in Elements(req) <==> Asked(req, v)
    ensures Values(req).Some? <==> req.typ in {"list:set", "hash:net", "hash:net,port"}
  {
    hide Decimal;
    if req.typ == "hash:net,port" {
      var values := Values(req).value;
      if v in values {
        var i :| 0 <= i < |values| && values[i] == v;
        assert req.cidrAndPorts[i] in req.cidrAndPorts;
      }
      if c :| c in req.cidrAndPorts && v == c.cidr + "," + Decimal(c.port) {
        var i :| 0 <= i < |req.cidrAndPorts| && req.cidrAndPorts[i] == c;
        assert values[i] == v;
      }
    }
  }

  function ToSet(values: seq<string>): set<string> {
    set v | v in values
  }

  function Elements(req: Request): set<string> {
    match Values(req)
    case None => {}
    case Some(values) => ToSet(values)
  }

  /** The table after a successful replacement. */
  function Replaced(sets: Table, req: Request): Table {
    var tmp := Temporary(req.name);
    var filled := IPSet(if tmp in sets then sets[tmp].typ else req.typ, Elements(req));
    if req.name in sets then sets[tmp := sets[req.name]][req.name := filled]
    else (sets - {tmp})[req.name := filled]
  }

  predicate SameAt(a: Table, b: Table, name: string) {
    (name in a <==> name in b) && (name in a ==> a[name] == b[name])
  }

  predicate SameExcept(a: Table, b: Table, changed: set<string>) {
    forall n :: n in a.Keys + b.Keys && n !in changed ==> SameAt(a, b, n)
  }

  /** The target holds its complete old contents or exactly the requested elements. */
  ghost predicate AllOrNothing(before: Table, now: Table, req: Request) {
    SameAt(before, now, req.name) || (req.name in now && ExactlyAsked(now[req.name].members, req))
  }

  /** What must be true of the table after every command of a replacement. */
  ghost predicate Intact(before: Table, now: Table, req: Request) {
    && SameExcept(before, now, {req.name, Truncate(Temporary(req.name))})
    && (|req.name| != 31 ==> AllOrNothing(before, now, req))
  }

  /** Every set keeps its type and members, except that `name` may have gained members. */
  predicate Filling(before: Table, now: Table, name: string) {
    || now == before
    || (&& |name| <= MAX_NAME && name in before && name in now && SameExcept(before, now, {name})
        && now[name].typ == before[name].typ && before[name].members <= now[name].members)
  }

  function Added(sets: Table, name: string, members: set<string>): Table {
    if name in sets then sets[name := sets[name].(members := sets[name].members + members)] else sets
  }

  lemma AddedNothing(sets: Table, name: string)
    ensures Added(sets, name, ToSet([])) == sets
  {
    if name in sets {
      assert sets[name].members + ToSet([]) == sets[name].members;
    }
  }

  lemma AddedOneMore(sets: Table, name: string, values: seq<string>, value: string)
    ensures Added(sets, name, ToSet(values + [value])) == Added(Added(sets, name, ToSet(values)), name, {value})
    ensures name in sets && value in Added(sets, name, ToSet(values))[name].members ==>
              Added(sets, name, ToSet(values + [value])) == Added(sets, name, ToSet(values))
  {
    assert ToSet(values + [value]) == ToSet(values) + {value};
    if name in sets {
      var m := sets[name].members;
      assert m + (ToSet(values) + {value}) == m + ToSet(values) + {value};
      if value in m + ToSet(values) {
        assert m + ToSet(values) + {value} == m + ToSet(values);
      }
    }
  }

  method AddToIPSet(k: Kernel, name: string, values: seq<string>) returns (ok: bool)
    modifies k
    ensures (ok <==> k.faults == old(k.faults)) && k.faults >= old(k.faults)
    ensures ok && values != [] ==> |name| <= MAX_NAME && name in old(k.sets)
    ensures ok ==> k.sets == Added(old(k.sets), name, ToSet(values))
    ensures old(k.trace) <= k.trace
    ensures forall i :: |old(k.trace)| <= i < |k.trace| ==> Filling(old(k.sets), k.trace[i], name)
  {
    ghost var before := k.sets;
    AddedNothing(before, name);
    assert values[..0] == [];
    for n := 0 to |values|
      invariant old(k.trace) <= k.trace && k.faults == old(k.faults)
      invariant forall i :: |old(k.trace)| <= i < |k.trace| ==> Filling(before, k.trace[i], name)
      invariant n > 0 ==> |name| <= MAX_NAME && name in before
      invariant k.sets == Added(before, name, ToSet(values[..n]))
    {
      var r := k.Add(name, values[n]);
      if r.Error? { return false; }
      assert values[..n + 1] == values[..n] + [values[n]];
      AddedOneMore(before, name, values[..n], values[n]);
    }
    assert values[..|values|] == values;
    ok := true;
  }

  function Renamed(sets: Table, from: string, to: string): Table
    requires from in sets
  {
    if to in sets then sets[from := sets[to]][to := sets[from]] else (sets - {from})[to := sets[from]]
  }

  method RenameIPSet(k: Kernel, from: string, to: string) returns (ok: bool)
    modifies k
    ensures (ok <==> k.faults == old(k.faults)) && k.faults >= old(k.faults)
    ensures ok ==> |from| <= MAX_NAME && from in old(k.sets) && k.sets == Renamed(old(k.sets), from, to)
    ensures ok && to in old(k.sets) ==> old(k.sets)[from].typ == old(k.sets)[to].typ
    ensures old(k.trace) <= k.trace
    ensures forall i :: |old(k.trace)| <= i < |k.trace| ==>
              k.trace[i] == old(k.sets)
                || (|from| <= MAX_NAME && from in old(k.sets) && k.trace[i] == Renamed(old(k.sets), from, to))
  {
    var r := k.Rename(from, to);
    ok := r.Success?;
    if r.Tolerated? {
      ok := k.Swap(from, to);
    }
  }

  lemma PreparingIsIntact(before: Table, req: Request)
    ensures Intact(before, before, req)
    ensures Intact(before, Prepared(before, Temporary(req.name), req.typ), req)
  {
    if |req.name| != MAX_NAME {
      assert |Truncate(Temporary(req.name))| != |req.name|
        || (|req.name| > MAX_NAME && |Truncate(Temporary(req.name))| == MAX_NAME);
    }
  }

  lemma FillingIsIntact(before: Table, now: Table, req: Request)
    requires Filling(Prepared(before, Temporary(req.name), req.typ), now, Temporary(req.name))
    ensures Intact(before, now, req)
  {
    PreparingIsIntact(before, req);
    var tmp := Temporary(req.name);
    var ready := Prepared(before, tmp, req.typ);
    if now != ready {
      assert tmp != req.name && Truncate(tmp) == tmp;
      forall n | n in before.Keys + now.Keys && n !in {req.name, tmp} ensures SameAt(before, now, n) {
        assert SameAt(before, ready, n);
        assert n in ready.Keys + now.Keys;
      }
      assert SameAt(ready, now, req.name) by {
        if req.name in ready.Keys + now.Keys {}
      }
    }
  }

  lemma RenamingIsIntact(before: Table, filled: Table, req: Request)
    requires |Temporary(req.name)| <= MAX_NAME
    requires filled == Filled(before, req)
    ensures Renamed(filled, Temporary(req.name), req.name) == Replaced(before, req)
    ensures Intact(before, Replaced(before, req), req)
  {
    var tmp := Temporary(req.name);
    assert tmp != req.name && Truncate(tmp) == tmp;
    ElementsAreAsked(req);
    hide Temporary, Truncate, Elements, ExactlyAsked;
  }

  /** The table just before the final rename: the temporary set holds exactly the requested elements. */
  function Filled(before: Table, req: Request): Table {
    var tmp := Temporary(req.name);
    var ready := Prepared(before, tmp, req.typ);
    if |tmp| <= MAX_NAME then ready[tmp := ready[tmp].(members := Elements(req))] else ready
  }

  lemma FilledIsIntact(before: Table, req: Request)
    ensures Intact(before, Filled(before, req), req)
  {
    PreparingIsIntact(before, req);
    assert Temporary(req.name) != req.name;
  }

  /** Atomic replacement: after every single command the target is all old or all new, and nothing but
      the target and its temporary twin has changed. A success means the replacement is complete. */
  method FlushIPSet(k: Kernel, req: Request) returns (ok: bool)
    modifies k
    ensures (ok <==> Values(req).Some? && k.faults == old(k.faults)) && k.faults >= old(k.faults)
    ensures ok ==> k.sets == Replaced(old(k.sets), req)
    ensures ok ==> req.typ in {"list:set", "hash:net", "hash:net,port"} && |req.name| <= 28
    ensures ok ==> req.name in k.sets && ExactlyAsked(k.sets[req.name].members, req)
    ensures ok && req.name in old(k.sets) ==> k.sets[req.name].typ == old(k.sets)[req.name].typ
    ensures old(k.trace) <= k.trace
    ensures forall i :: |old(k.trace)| <= i < |k.trace| ==> Intact(old(k.sets), k.trace[i], req)
  {
    var tmp := Temporary(req.name);
    var wanted := RequestedValues(req);
    if wanted.None? { return false; }
    ElementsAsAsked(req, "");
    ElementsAreAsked(req);
    hide Elements, ExactlyAsked, Values, Asked;
    ghost var before, ready := k.sets, Prepared(k.sets, tmp, req.typ);
    PreparingIsIntact(before, req);

    ok := CreateIPSet(k, tmp, req.typ);
    if !ok { return; }

    ghost var mark := |k.trace|;
    ok := AddToIPSet(k, tmp, wanted.value);
    forall i | mark <= i < |k.trace| ensures Intact(before, k.trace[i], req) {
      FillingIsIntact(before, k.trace[i], req);
    }
    if !ok { return; }

    ghost var filled := k.sets;
    assert filled == Filled(before, req) by {
      if |tmp| <= MAX_NAME {
        assert {} + Elements(req) == Elements(req);
      } else {
        AddedNothing(ready, tmp);
      }
    }
    mark := |k.trace|;
    ok := RenameIPSet(k, tmp, req.name);
    FilledIsIntact(before, req);
    forall i | mark <= i < |k.trace| ensures Intact(before, k.trace[i], req) {
      if k.trace[i] != filled {
        RenamingIsIntact(before, filled, req);
      }
    }
    if ok {
      RenamingIsIntact(before, filled, req);
    }
  }

  // ---------- exact conditions ----------

  /** The first command leaves the target alone, whatever the table, exactly when the name is not 31 bytes
      long: a 31-byte name is its own truncated temporary, and the live set is emptied. */
  lemma TargetSurvivesPreparation(name: string, typ: string)
    ensures (forall sets: Table :: SameAt(sets, Prepared(sets, Temporary(name), typ), name)) <==> |name| != 31
  {
    if |name| == MAX_NAME {
      var sets: Table := map[name := IPSet(typ, {"10.0.0.0/8"})];
      assert Truncate(Temporary(name)) == name;
      assert !SameAt(sets, Prepared(sets, Temporary(name), typ), name);
    } else {
      assert Truncate(Temporary(name)) != name;
    }
  }

  /** The type requested is the type installed exactly when the temporary set was absent or already had it. */
  lemma InstalledType(sets: Table, req: Request)
    ensures Replaced(sets, req)[req.name].typ == req.typ
       <==> (Temporary(req.name) !in sets || sets[Temporary(req.name)].typ == req.typ)
  {
  }

  // ---------- whole requests ----------

  function ReplacedAll(sets: Table, reqs: seq<Request>): Table
    decreases |reqs|
  {
    if reqs == [] then sets else ReplacedAll(Replaced(sets, reqs[0]), reqs[1..])
  }

  method FlushIPSets(k: Kernel, reqs: seq<Request>) returns (ok: bool)
    modifies k
    ensures (ok <==> k.faults == old(k.faults) && forall i :: 0 <= i < |reqs| ==> Values(reqs[i]).Some?)
    ensures k.faults >= old(k.faults)
    ensures ok ==> k.sets == ReplacedAll(old(k.sets), reqs)
    ensures ok ==> forall i :: 0 <= i < |reqs| ==> Values(reqs[i]).Some? && |reqs[i].name| + 3 <= MAX_NAME
  {
    for n := 0 to |reqs|
      invariant k.faults == old(k.faults)
      invariant ReplacedAll(k.sets, reqs[n..]) == ReplacedAll(old(k.sets), reqs)
      invariant forall i :: 0 <= i < n ==> Values(reqs[i]).Some? && |reqs[i].name| + 3 <= MAX_NAME
    {
      ok := FlushIPSet(k, reqs[n]);
      if !ok { return; }
      assert reqs[n..][1..] == reqs[n + 1..];
    }
    ok := true;
  }

  ghost predicate Holds(sets: Table, req: Request) {
    req.name in sets && ExactlyAsked(sets[req.name].members, req)
  }

  /** No later request overwrites this one: neither by name nor by using its name as a temporary. */
  predicate Lasting(reqs: seq<Request>, i: nat)
    requires i < |reqs|
  {
    forall j :: i < j < |reqs| ==> reqs[j].name != reqs[i].name && reqs[j].name + "old" != reqs[i].name
  }

  lemma {:induction false} HeldThroughRest(sets: Table, req: Request, rest: seq<Request>)
    requires Holds(sets, req)
    requires forall j :: 0 <= j < |rest| ==> rest[j].name != req.name && Temporary(rest[j].name) != req.name
    ensures Holds(ReplacedAll(sets, rest), req)
    decreases |rest|
  {
    if rest != [] {
      HeldThroughRest(Replaced(sets, rest[0]), req, rest[1..]);
    }
  }

  /** History independence of the sets: from every table, each request that no later one overwrites ends up
      installed, so the last request for a name decides its contents. */
  lemma {:induction false} LastingRequestsHold(sets: Table, reqs: seq<Request>, i: nat)
    requires i < |reqs| && Lasting(reqs, i)
    ensures Holds(ReplacedAll(sets, reqs), reqs[i])
    decreases |reqs|
  {
    if i == 0 {
      ElementsAreAsked(reqs[0]);
      hide ExactlyAsked, Elements;
      HeldThroughRest(Replaced(sets, reqs[0]), reqs[0], reqs[1..]);
    } else {
      assert reqs[1..][i - 1] == reqs[i];
      LastingRequestsHold(Replaced(sets, reqs[0]), reqs[1..], i - 1);
    }
  }

  /** The sets that stand under a requested name, or its temporary, have the requested type. */
  predicate TypesKept(sets: Table, reqs: seq<Request>) {
    forall i :: 0 <= i < |reqs| ==>
      && (reqs[i].name in sets ==> sets[reqs[i].name].typ == reqs[i].typ)
      && (Temporary(reqs[i].name) in sets ==> sets[Temporary(reqs[i].name)].typ == reqs[i].typ)
  }

  /** Requests for one name ask for one type, and so do a request and one that uses its name as a temporary. */
  predicate TypesAgree(reqs: seq<Request>) {
    forall i, j :: 0 <= i < |reqs| && 0 <= j < |reqs| && reqs[i].name in {reqs[j].name, Temporary(reqs[j].name)} ==>
      reqs[i].typ == reqs[j].typ
  }

  lemma TypesStayKept(sets: Table, reqs: seq<Request>)
    requires reqs != [] && TypesAgree(reqs) && TypesKept(sets, reqs)
    ensures TypesKept(Replaced(sets, reqs[0]), reqs[1..]) && TypesAgree(reqs[1..])
    ensures TypesKept(Replaced(sets, reqs[0]), reqs[..1])
  {
    hide Elements, Temporary;
    var first, next := reqs[0], Replaced(sets, reqs[0]);
    forall i | 0 <= i < |reqs|
      ensures reqs[i].name in next ==> next[reqs[i].name].typ == reqs[i].typ
      ensures Temporary(reqs[i].name) in next ==> next[Temporary(reqs[i].name)].typ == reqs[i].typ
    {
      SameTemporarySameName(reqs[i].name, first.name);
    }
  }

  lemma SameTemporarySameName(a: string, b: string)
    ensures Temporary(a) == Temporary(b) ==> a == b
  {
    assert Temporary(a)[..|a|] == a && Temporary(b)[..|b|] == b;
  }

  /** Then the whole list leaves every requested set with the requested type. */
  lemma {:induction false} RequestedTypesHold(sets: Table, reqs: seq<Request>, i: nat)
    requires i < |reqs| && Lasting(reqs, i) && TypesAgree(reqs) && TypesKept(sets, reqs)
    ensures reqs[i].name in ReplacedAll(sets, reqs) && ReplacedAll(sets, reqs)[reqs[i].name].typ == reqs[i].typ
    decreases |reqs|
  {
    TypesStayKept(sets, reqs);
    var next := Replaced(sets, reqs[0]);
    if i == 0 {
      assert reqs[..1][0] == reqs[0];
      UntouchedThroughRest(next, reqs[1..], reqs[0].name);
    } else {
      assert reqs[1..][i - 1] == reqs[i];
      RequestedTypesHold(next, reqs[1..], i - 1);
    }
  }

  lemma {:induction false} UntouchedThroughRest(sets: Table, rest: seq<Request>, name: string)
    requires forall j :: 0 <= j < |rest| ==> rest[j].name != name && Temporary(rest[j].name) != name
    ensures SameAt(sets, ReplacedAll(sets, rest), name)
    decreases |rest|
  {
    if rest != [] { UntouchedThroughRest(Replaced(sets, rest[0]), rest[1..], name); }
  }

  predicate DistinctNames(reqs: seq<Request>) {
    forall i, j :: 0 <= i < j < |reqs| ==> reqs[i].name != reqs[j].name
  }

  predicate Unrequested(sets: Table, reqs: seq<Request>) {
    forall i :: 0 <= i < |reqs| ==> reqs[i].name !in sets
  }

  /** When none of the requested sets exists yet, no temporary set is left behind. */
  lemma {:induction false} NothingElseAppears(sets: Table, reqs: seq<Request>, name: string)
    requires DistinctNames(reqs) && Unrequested(sets, reqs)
    requires name !in sets && forall i :: 0 <= i < |reqs| ==> reqs[i].name != name
    ensures name !in ReplacedAll(sets, reqs)
    decreases |reqs|
  {
    if reqs != [] {
      NothingElseAppears(Replaced(sets, reqs[0]), reqs[1..], name);
    }
  }

  /** A request that uses an earlier set's name as its temporary takes that set away: unless a still later request
      touches the name, it ends up with what stood under the request's own name, or gone if nothing did. */
  lemma {:induction false} ClashTakesAway(sets: Table, reqs: seq<Request>, j: nat, name: string)
    requires j < |reqs| && Temporary(reqs[j].name) == name
    requires forall i :: j < i < |reqs| ==> reqs[i].name != name && Temporary(reqs[i].name) != name
    ensures var before, after := ReplacedAll(sets, reqs[..j]), ReplacedAll(sets, reqs);
            if reqs[j].name in before then name in after && after[name] == before[reqs[j].name] else name !in after
    decreases |reqs|
  {
    var next := Replaced(sets, reqs[0]);
    if j == 0 {
      assert reqs[..0] == [];
      assert name != reqs[0].name;
      UntouchedThroughRest(next, reqs[1..], name);
    } else {
      assert reqs[1..][j - 1] == reqs[j] && reqs[..j][1..] == reqs[1..][..j - 1];
      ClashTakesAway(next, reqs[1..], j - 1, name);
    }
  }

  lemma OnlyOneTemporary(reqs: seq<Request>, j: nat, name: string)
    requires DistinctNames(reqs) && j < |reqs| && Temporary(reqs[j].name) == name
    ensures forall i :: j < i < |reqs| ==> Temporary(reqs[i].name) != name
  {
    forall i | j < i < |reqs| ensures Temporary(reqs[i].name) != name {
      SameTemporarySameName(reqs[i].name, reqs[j].name);
    }
  }

  /** For requests with distinct names the whole list is installed from every starting table
      exactly when no name is the temporary of a later one. */
  lemma AllHoldIff(reqs: seq<Request>)
    requires DistinctNames(reqs)
    ensures (forall sets: Table, i: nat :: i < |reqs| ==> Holds(ReplacedAll(sets, reqs), reqs[i]))
       <==> (forall i: nat :: i < |reqs| ==> Lasting(reqs, i))
  {
    hide ReplacedAll, ExactlyAsked, Lasting;
    if forall i: nat :: i < |reqs| ==> Lasting(reqs, i) {
      forall sets: Table, i: nat | i < |reqs| ensures Holds(ReplacedAll(sets, reqs), reqs[i]) {
        LastingRequestsHold(sets, reqs, i);
      }
    } else {
      var i: nat :| i < |reqs| && !Lasting(reqs, i);
      LostInTheEnd(reqs, i);
      assert !Holds(ReplacedAll(map[], reqs), reqs[i]);
    }
  }

  lemma LostInTheEnd(reqs: seq<Request>, i: nat)
    requires DistinctNames(reqs) && i < |reqs| && !Lasting(reqs, i)
    ensures reqs[i].name !in ReplacedAll(map[], reqs)
  {
    hide ReplacedAll;
    var j :| i < j < |reqs| && Temporary(reqs[j].name) == reqs[i].name;
    hide Temporary;
    OnlyOneTemporary(reqs, j, reqs[i].name);
    ClashTakesAway(map[], reqs, j, reqs[i].name);
    NothingElseAppears(map[], reqs[..j], reqs[j].name);
  }
}
