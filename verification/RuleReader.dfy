/** What the words of an iptables command mean, option by option, and that every generated entry is read back from its
    words (pkg/chaosdaemon/iptables_server.go). */
module RuleReader {
  import opened Text
  import opened Iptables

  // ---------- the options ----------

  /** `-m set --match-set NAME DIRECTIONS`: incoming packets by their source first, outgoing ones by their
      destination. */
  function ReadSet(ws: seq<string>, d: Direction): (Option<string>, seq<string>) {
    if |ws| >= 5 && ws[0] == "-m" && ws[1] == "set" && ws[2] == "--match-set" &&
       ws[4] == if d == Input then "src,dst" else "dst,dst"
    then (Some(ws[3]), ws[5..]) else (None, ws)
  }

  function ReadProtocol(ws: seq<string>): (string, seq<string>) {
    if |ws| >= 2 && ws[0] == "--protocol" then (ws[1], ws[2..]) else ("", ws)
  }

  /** One port behind its option, or `-m multiport` and several behind theirs. */
  function ReadPorts(ws: seq<string>, single: string, several: string): (string, seq<string>) {
    if |ws| >= 2 && ws[0] == single && !Contains(ws[1], ",") then (ws[1], ws[2..])
    else if |ws| >= 4 && ws[0] == "-m" && ws[1] == "multiport" && ws[2] == several && Contains(ws[3], ",")
    then (ws[3], ws[4..])
    else ("", ws)
  }

  function ReadSource(ws: seq<string>): (string, seq<string>) {
    ReadPorts(ws, "--source-port", "--source-ports")
  }

  function ReadDestination(ws: seq<string>): (string, seq<string>) {
    ReadPorts(ws, "--destination-port", "--destination-ports")
  }

  /** The words before the jump. */
  function ToJump(ws: seq<string>): (seq<string>, seq<string>) {
    if ws == [] || ws[0] == "-j" then ([], ws)
    else var (flags, rest) := ToJump(ws[1..]); ([ws[0]] + flags, rest)
  }

  function ReadFlags(ws: seq<string>): (seq<string>, seq<string>) {
    if |ws| >= 1 && ws[0] == "--tcp-flags" then ToJump(ws[1..]) else ([], ws)
  }

  /** The digits before the first other letter. */
  function Digits(s: string): nat {
    if s == "" || !('0' <= s[0] <= '9') then 0 else 1 + Digits(s[1..])
  }

  function ReadClassId(s: string): Option<(nat, nat)> {
    var n := Digits(s);
    if n < |s| && s[n] == ':' && AllDigits(s[..n]) && AllDigits(s[n + 1..])
    then Some((Value(s[..n]), Value(s[n + 1..]))) else None
  }

  function ReadTarget(ws: seq<string>): Option<Target> {
    if ws == ["DROP"] then Some(Drop)
    else if ws == ["REJECT"] then Some(Reject)
    else if ws == ["REJECT", "--reject-with", "tcp-reset"] then Some(RejectWithReset)
    else if |ws| == 3 && ws[0] == "CLASSIFY" && ws[1] == "--set-class" then
      var id := ReadClassId(ws[2]);
      if id.None? then None else Some(Classify(id.value.0, id.value.1))
    else None
  }

  function ReadMatches(ws: seq<string>, d: Direction, device: string): Option<Entry> {
    var (ipset, t0) := ReadSet(ws, d);
    var (protocol, t1) := ReadProtocol(t0);
    var (source, t2) := ReadSource(t1);
    var (destination, t3) := ReadDestination(t2);
    var (flags, t4) := ReadFlags(t3);
    if t4 == [] || t4[0] != "-j" then None
    else
      var target := ReadTarget(t4[1..]);
      if target.None? then None
      else Some(Rule(d, device, ipset, protocol, Ports(source, destination, flags), target.value))
  }

  function Read(ws: seq<string>): Option<(string, Entry)> {
    if |ws| < 4 || ws[0] != "-A" then None
    else if ws[2] == "-j" then if |ws| == 4 then Some((ws[1], Link(ws[3]))) else None
    else if ws[2] != "-i" && ws[2] != "-o" then None
    else
      var e := ReadMatches(ws[4..], if ws[2] == "-i" then Input else Output, ws[3]);
      if e.None? then None else Some((ws[1], e.value))
  }

  // ---------- reading back ----------

  lemma {:induction false} FlagsReadBack(flags: seq<string>, rest: seq<string>)
    requires "-j" !in flags && rest != [] && rest[0] == "-j"
    ensures ToJump(flags + rest) == (flags, rest)
  {
    if flags == [] {
      assert flags + rest == rest;
    } else {
      FlagsReadBack(flags[1..], rest);
      assert (flags + rest)[1..] == flags[1..] + rest;
      assert [flags[0]] + flags[1..] == flags;
    }
  }

  lemma {:induction false} DigitsOf(s: string, rest: string)
    requires AllDigits(s) && rest != "" && rest[0] == ':'
    ensures Digits(s + rest) == |s|
  {
    if s == "" {
      assert s + rest == rest;
    } else {
      DigitsOf(s[1..], rest);
      assert (s + rest)[1..] == s[1..] + rest;
    }
  }

  lemma TargetReadsBack(t: Target)
    ensures ReadTarget(TargetWords(t)) == Some(t)
  {
    if t.Classify? {
      var a, b := Decimal(t.major), Decimal(t.minor);
      var s := a + ":" + b;
      DigitsOf(a, ":" + b);
      assert a + (":" + b) == s;
      assert s[..|a|] == a && s[|a| + 1..] == b;
      ValueOfDecimal(t.major);
      ValueOfDecimal(t.minor);
    }
  }

  /** What may follow a clause: nothing that another reader takes for its own. */
  predicate Starts(ws: seq<string>, words: set<string>) {
    ws != [] && ws[0] in words
  }

  lemma SourceReadsBack(ports: string, rest: seq<string>)
    requires Starts(rest, {"-j", "--tcp-flags", "--destination-port"})
          || (|rest| >= 3 && rest[0] == "-m" && rest[1] == "multiport" && rest[2] == "--destination-ports")
    ensures ReadSource(PortWords(ports, "--source-port", "--source-ports") + rest) == (ports, rest)
  {
    hide Contains;
    var ws := PortWords(ports, "--source-port", "--source-ports");
    assert (ws + rest)[|ws|..] == rest;
    if ports == "" { assert ws + rest == rest; }
  }

  lemma DestinationReadsBack(ports: string, rest: seq<string>)
    requires Starts(rest, {"-j", "--tcp-flags"})
    ensures var ws := PortWords(ports, "--destination-port", "--destination-ports") + rest;
            && ReadDestination(ws) == (ports, rest)
            && (Starts(ws, {"-j", "--tcp-flags", "--destination-port"})
                || (|ws| >= 3 && ws[0] == "-m" && ws[1] == "multiport" && ws[2] == "--destination-ports"))
  {
    hide Contains;
    var ws := PortWords(ports, "--destination-port", "--destination-ports");
    assert (ws + rest)[|ws|..] == rest;
    if ports == "" { assert ws + rest == rest; }
  }

  /** The entry says nothing that its words cannot: a known direction, ports and flags only beside a protocol, and no
      flag that is the jump option itself. */
  predicate Sayable(e: Entry) {
    e.Rule? ==>
      !e.direction.Unknown? && (e.protocol == "" ==> e.ports == ANY_PORT) && "-j" !in e.ports.flags
  }

  function FlagWords(flags: seq<string>): seq<string> {
    if flags != [] then ["--tcp-flags"] + flags else []
  }

  lemma FlagWordsReadBack(flags: seq<string>, rest: seq<string>)
    requires Starts(rest, {"-j"}) && "-j" !in flags
    ensures var ws := FlagWords(flags) + rest; ReadFlags(ws) == (flags, rest) && Starts(ws, {"-j", "--tcp-flags"})
  {
    var ws := FlagWords(flags) + rest;
    if flags == [] {
      assert ws == rest;
    } else {
      FlagsReadBack(flags, rest);
      assert ws[1..] == flags + rest;
    }
  }

  function PortsAndFlags(ports: Ports): seq<string> {
    PortWords(ports.source, "--source-port", "--source-ports")
    + (PortWords(ports.destination, "--destination-port", "--destination-ports") + FlagWords(ports.flags))
  }

  lemma ProtocolThenPorts(protocol: string, ports: Ports)
    requires protocol != ""
    ensures ProtocolWords(protocol, ports) == ["--protocol", protocol] + PortsAndFlags(ports)
  {
    hide PortWords;
  }

  lemma PortsReadBack(ports: Ports, rest: seq<string>)
    requires Starts(rest, {"-j"}) && "-j" !in ports.flags
    ensures var (source, t2) := ReadSource(PortsAndFlags(ports) + rest);
            var (destination, t3) := ReadDestination(t2);
            var (flags, t4) := ReadFlags(t3);
            Ports(source, destination, flags) == ports && t4 == rest
  {
    hide PortWords, ReadSource, ReadDestination, ReadFlags, FlagWords;
    var t3 := FlagWords(ports.flags) + rest;
    FlagWordsReadBack(ports.flags, rest);
    var t2 := PortWords(ports.destination, "--destination-port", "--destination-ports") + t3;
    DestinationReadsBack(ports.destination, t3);
    SourceReadsBack(ports.source, t2);
    assert PortsAndFlags(ports) + rest == PortWords(ports.source, "--source-port", "--source-ports") + t2;
  }

  lemma NoPorts()
    ensures PortsAndFlags(ANY_PORT) == []
  {
    hide Contains;
  }

  lemma ProtocolIsRead(protocol: string, ports: Ports, rest: seq<string>)
    requires Starts(rest, {"-j"}) && (protocol == "" ==> ports == ANY_PORT)
    ensures var ws := ProtocolWords(protocol, ports) + rest;
            ReadProtocol(ws) == (protocol, PortsAndFlags(ports) + rest) && Starts(ws, {"--protocol", "-j"})
  {
    hide PortsAndFlags, PortWords, Contains;
    var ws := ProtocolWords(protocol, ports) + rest;
    if protocol == "" {
      NoPorts();
      assert ws == rest == PortsAndFlags(ports) + rest;
    } else {
      ProtocolThenPorts(protocol, ports);
      hide ProtocolWords;
      assert ws[2..] == PortsAndFlags(ports) + rest;
    }
  }

  /** Everything between the device and the jump but the set. */
  lemma ProtocolReadsBack(protocol: string, ports: Ports, rest: seq<string>)
    requires Starts(rest, {"-j"}) && (protocol == "" ==> ports == ANY_PORT) && "-j" !in ports.flags
    ensures var (p, t1) := ReadProtocol(ProtocolWords(protocol, ports) + rest);
            var (source, t2) := ReadSource(t1);
            var (destination, t3) := ReadDestination(t2);
            var (flags, t4) := ReadFlags(t3);
            p == protocol && Ports(source, destination, flags) == ports && t4 == rest
    ensures Starts(ProtocolWords(protocol, ports) + rest, {"--protocol", "-j"})
  {
    PortsReadBack(ports, rest);
    ProtocolIsRead(protocol, ports, rest);
    hide ReadProtocol, ProtocolWords, PortsAndFlags, ReadSource, ReadDestination, ReadFlags;
  }

  function SetWords(e: Entry): seq<string>
    requires e.Rule?
  {
    if e.ipset.None? then []
    else ["-m", "set", "--match-set", e.ipset.value, if e.direction == Input then "src,dst" else "dst,dst"]
  }

  function MatchWords(e: Entry): seq<string>
    requires e.Rule?
  {
    SetWords(e) + (ProtocolWords(e.protocol, e.ports) + (["-j"] + TargetWords(e.target)))
  }

  lemma MatchesReadBack(e: Entry)
    requires e.Rule? && Sayable(e)
    ensures ReadMatches(MatchWords(e), e.direction, e.device) == Some(e)
  {
    var rest := ["-j"] + TargetWords(e.target);
    TargetReadsBack(e.target);
    assert rest[1..] == TargetWords(e.target);
    ProtocolReadsBack(e.protocol, e.ports, rest);
    hide TargetWords, ReadTarget, ReadSource, ReadDestination, ReadFlags, ReadProtocol, ProtocolWords;
    var matches := ProtocolWords(e.protocol, e.ports) + rest;
    assert (SetWords(e) + matches)[|SetWords(e)|..] == matches;
    if e.ipset.None? { assert SetWords(e) + matches == matches; }
    assert ReadSet(MatchWords(e), e.direction) == (e.ipset, matches);
  }

  lemma RuleThenMatches(chain: string, e: Entry)
    requires e.Rule? && !e.direction.Unknown?
    ensures Words(chain, e) == ["-A", chain, if e.direction == Input then "-i" else "-o", e.device] + MatchWords(e)
  {
    hide TargetWords, ProtocolWords;
  }

  /** An entry is read back from the words of its command, so no option is lost or taken for another. */
  lemma WordsReadBack(chain: string, e: Entry)
    requires Sayable(e)
    ensures Read(Words(chain, e)) == Some((chain, e))
  {
    if e.Rule? {
      MatchesReadBack(e);
      RuleThenMatches(chain, e);
      hide ReadMatches, Words, MatchWords;
      assert Words(chain, e)[4..] == MatchWords(e);
    }
  }

  lemma {:induction false} RulesAreSayable(c: Chain, ipsets: seq<string>)
    requires !c.direction.Unknown? && "-j" !in c.ports.flags
    ensures forall e :: e in RulesFor(c, ipsets) || e in IPSetRules(c, None) ==> Sayable(e)
  {
    if ipsets != [] { RulesAreSayable(c, ipsets[1..]); }
  }

  /** Every rule generated for a chain is read back from its words, for every request in which no TCP flag is the jump
      option. */
  lemma GeneratedReadBack(c: Chain, i: nat)
    requires !c.direction.Unknown? && "-j" !in c.ports.flags && i < |Rules(c)|
    ensures Read(Words(c.name, Rules(c)[i])) == Some((c.name, Rules(c)[i]))
  {
    hide Read, Words, Sayable;
    RulesAreSayable(c, c.ipsets);
    WordsReadBack(c.name, Rules(c)[i]);
  }
}
