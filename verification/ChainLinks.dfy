/** What a run of chain installations leaves in the kernel: which rules each chain holds and which chains
    are reached from CHAOS-INPUT and CHAOS-OUTPUT. */
module ChainLinks {
  import opened Text
  import opened Iptables

  // ---------- the duplicate test, as text ----------

  /** A word that survives the splitting of a command at blanks and is not the wait option. */
  predicate Word(s: string) {
    s != "" && ' ' !in s && '\n' !in s && !WaitOption(s)
  }

  predicate WaitOption(s: string) {
    |s| >= 2 && s[0] == '-' && s[1] == 'w'
  }

  predicate AllWords(words: seq<string>) {
    forall i :: 0 <= i < |words| ==> Word(words[i])
  }

  lemma ContainsTransitive(a: string, b: string, c: string)
    requires Contains(a, b) && Contains(b, c)
    ensures Contains(a, c)
  {
    var i: nat :| i <= |a| && OccursAt(a, b, i);
    var j: nat :| j <= |b| && OccursAt(b, c, j);
    assert a == a[..i] + b + a[i + |b|..];
    OccursInside(a[..i], b, a[i + |b|..], c, j);
  }

  lemma WaitAt(s: string, i: nat)
    requires i + 3 <= |s|
    ensures OccursAt(s, " -w", i) <==> s[i] == ' ' && s[i + 1] == '-' && s[i + 2] == 'w'
  {
    var part := s[i..i + 3];
    assert s[i] == part[0] && s[i + 1] == part[1] && s[i + 2] == part[2];
  }

  lemma {:induction false} JoinHasNoWait(words: seq<string>)
    requires AllWords(words)
    ensures !Contains(Join(words), " -w") && '\n' !in Join(words)
    ensures words != [] ==> Join(words) != "" && !WaitOption(Join(words))
  {
    var s := Join(words);
    if |words| == 1 {
      forall i: nat | i + 3 <= |s| ensures !OccursAt(s, " -w", i) { WaitAt(s, i); }
    } else if |words| > 1 {
      var first, rest := words[0], Join(words[1..]);
      assert s == first + " " + rest;
      JoinHasNoWait(words[1..]);
      forall i: nat | i + 3 <= |s| ensures !OccursAt(s, " -w", i) {
        WaitAt(s, i);
        if i > |first| {
          var j := i - |first| - 1;
          assert !OccursAt(rest, " -w", j);
          WaitAt(rest, j);
        }
      }
    }
  }

  predicate NamedEntry(chain: string, e: Entry) {
    Word(chain) && AllWords(Words(chain, e))
  }

  lemma CommandMentionsWait(chain: string, e: Entry)
    requires e.Rule?
    ensures Contains(Command(chain, e), " -w") && Command(chain, e) != ""
  {
    var line := Line(chain, e);
    assert Command(chain, e)[|line|..|line| + 3] == " -w";
    assert OccursAt(Command(chain, e), " -w", |line|);
  }

  /** The listing never shows the wait option every generated rule is written with, so the duplicate test
      never holds a rule back: each one is appended, repeated or not. */
  lemma RuleIsAppended(t: Table, chain: string, e: Entry)
    requires chain in t && e.Rule? && NamedEntry(chain, e)
    requires forall i :: 0 <= i < |t[chain]| ==> NamedEntry(chain, t[chain][i])
    ensures Ensured(t, chain, e) == t[chain := t[chain] + [e]] && Command(chain, e) == Line(chain, e) + " -w 5"
  {
    var text := Command(chain, e);
    var header := Join(["-N", chain]);
    var lines := [header] + Lines(chain, t[chain]);
    CommandMentionsWait(chain, e);
    JoinHasNoWait(Words(chain, e));
    assert '\n' !in text;
    hide Contains, Join, Words, Command, Word, AllWords, Unlines, Lines, NamedEntry;
    if Contains(Listing(chain, t[chain]), text) {
      ContainsInUnlines(lines, text);
      var k: nat :| k < |lines| && Contains(lines[k], text);
      ContainsTransitive(lines[k], text, " -w");
      NoLineMentionsWait(chain, t[chain], k);
      assert false;
    }
  }

  lemma NoLineMentionsWait(chain: string, entries: seq<Entry>, k: nat)
    requires Word(chain) && k <= |entries| && forall i :: 0 <= i < |entries| ==> NamedEntry(chain, entries[i])
    ensures var lines := [Join(["-N", chain])] + Lines(chain, entries);
            k < |lines| && !Contains(lines[k], " -w")
  {
    hide Contains, Join, Words;
    if k == 0 { JoinHasNoWait(["-N", chain]); } else { JoinHasNoWait(Words(chain, entries[k - 1])); }
  }

  function LinkHead(hook: string): string {
    "-A " + hook + " -j "
  }

  lemma LinkLine(hook: string, to: string)
    ensures Line(hook, Link(to)) == LinkHead(hook) + to
  {
    var words := ["-A", hook, "-j", to];
    assert words[1..] == [hook, "-j", to] && words[1..][1..] == ["-j", to] && words[1..][1..][1..] == [to];
    assert Join(["-j", to]) == "-j" + " " + Join([to]);
    assert Join([hook, "-j", to]) == hook + " " + Join(["-j", to]);
  }

  /** One jump's text occurs in another's line exactly when the first chain name is a prefix of the second. */
  lemma LinkTextOccurs(hook: string, to: string, name: string)
    requires ' ' !in to
    ensures Contains(LinkHead(hook) + to, LinkHead(hook) + name) <==> name <= to
  {
    var head := LinkHead(hook);
    var line, text := head + to, head + name;
    if i: nat :| i <= |line| && OccursAt(line, text, i) {
      assert line[i..i + |text|] == text;
      assert text[|head| - 1] == ' ';
      if i == 0 {
        assert name == text[|head|..] == line[..|text|][|head|..] == to[..|name|];
      }
    }
    if name <= to {
      assert line[0..|text|] == text;
      assert OccursAt(line, text, 0);
    }
  }

  function Links(names: seq<string>): seq<Entry> {
    seq(|names|, i requires 0 <= i < |names| => Link(names[i]))
  }

  predicate Covered(names: seq<string>, name: string) {
    exists k :: 0 <= k < |names| && name <= names[k]
  }

  lemma DeclarationIsNoLink(hook: string, name: string)
    ensures !Contains(Join(["-N", hook]), LinkHead(hook) + name)
  {
    assert ["-N", hook][1..] == [hook];
    assert Join(["-N", hook]) == "-N" + " " + Join([hook]);
  }

  /** The duplicate test on jumps is a prefix test on chain names. */
  lemma LinkIsAppendedIff(t: Table, hook: string, names: seq<string>, name: string)
    requires hook in t && t[hook] == Links(names)
    requires Word(hook) && Word(name) && AllWords(names)
    ensures Ensured(t, hook, Link(name)) == if Covered(names, name) then t else t[hook := Links(names + [name])]
  {
    var text := Command(hook, Link(name));
    var lines := [Join(["-N", hook])] + Lines(hook, Links(names));
    LinkLine(hook, name);
    assert '\n' !in text by { assert forall c :: c in text ==> c in LinkHead(hook) || c in name; }
    ContainsInUnlines(lines, text);
    DeclarationIsNoLink(hook, name);
    hide Contains, Join, Words, Unlines, Word;
    forall k: nat | k < |lines| ensures Contains(lines[k], text) <==> k > 0 && name <= names[k - 1] {
      if k > 0 {
        LinkLine(hook, names[k - 1]);
        LinkTextOccurs(hook, names[k - 1], name);
      }
    }
    assert Links(names + [name]) == Links(names) + [Link(name)];
    if Covered(names, name) {
      var k :| 0 <= k < |names| && name <= names[k];
      assert Contains(lines[k + 1], text);
    }
  }

  // ---------- what an installation run leaves behind ----------

  predicate NamedPorts(ports: Ports) {
    && (ports.source == "" || Word(ports.source)) && (ports.destination == "" || Word(ports.destination))
    && AllWords(ports.flags)
  }

  predicate Named(c: Chain) {
    && Word(c.name) && c.name !in {"INPUT", "OUTPUT", CHAOS_INPUT, CHAOS_OUTPUT}
    && !c.direction.Unknown?
    && Word(Device(c)) && AllWords(c.ipsets) && (c.protocol == "" || Word(c.protocol)) && NamedPorts(c.ports)
  }

  /** What a request must look like for its chains not to overwrite one another. */
  predicate Requestable(chains: seq<Chain>) {
    && (forall i :: 0 <= i < |chains| ==> Named(chains[i]))
    && (forall i, j :: 0 <= i < j < |chains| ==> chains[i].name != chains[j].name)
  }

  /** The chains jumped to from one hook: a chain is skipped when its name is a prefix of one already there. */
  function Linked(chains: seq<Chain>, d: Direction): seq<string> {
    if chains == [] then [] else
      var before, c := Linked(chains[..|chains| - 1], d), chains[|chains| - 1];
      if c.direction != d || Covered(before, c.name) then before else before + [c.name]
  }

  lemma {:induction false} LinkedAreWords(chains: seq<Chain>, d: Direction)
    requires forall i :: 0 <= i < |chains| ==> Named(chains[i])
    ensures AllWords(Linked(chains, d))
  {
    if chains != [] { LinkedAreWords(chains[..|chains| - 1], d); }
  }

  /** The kernel holds exactly what the chains installed so far ask for. */
  predicate Holds(t: Table, chains: seq<Chain>) {
    && CHAOS_INPUT in t && t[CHAOS_INPUT] == Links(Linked(chains, Input))
    && CHAOS_OUTPUT in t && t[CHAOS_OUTPUT] == Links(Linked(chains, Output))
    && forall i :: 0 <= i < |chains| ==> chains[i].name in t && t[chains[i].name] == Rules(chains[i])
  }

  lemma TargetsAreWords(t: Target)
    ensures AllWords(TargetWords(t))
  {
    assert Word("DROP") && Word("REJECT") && Word("--reject-with") && Word("tcp-reset");
    if t.Classify? {
      assert Word("CLASSIFY") && Word("--set-class");
      ClassIsWord(t.major, t.minor);
    }
    hide Word;
  }

  lemma ClassIsWord(major: nat, minor: nat)
    ensures Word(Decimal(major) + ":" + Decimal(minor))
  {
    hide Decimal;
    var s := Decimal(major) + ":" + Decimal(minor);
    assert forall i :: 0 <= i < |s| ==> s[i] == ':' || '0' <= s[i] <= '9';
  }

  predicate NamedEntries(chain: string, es: seq<Entry>) {
    forall i :: 0 <= i < |es| ==> es[i].Rule? && NamedEntry(chain, es[i])
  }

  lemma AppendWords(a: seq<string>, b: seq<string>)
    requires AllWords(a) && AllWords(b)
    ensures AllWords(a + b)
  {
  }

  lemma PortsAreWords(ports: string, single: string, several: string)
    requires (ports == "" || Word(ports)) && Word(single) && Word(several)
    ensures AllWords(PortWords(ports, single, several))
  {
    assert Word("-m") && Word("multiport");
    hide Word, Contains;
  }

  lemma ProtocolsAreWords(protocol: string, ports: Ports)
    requires (protocol == "" || Word(protocol)) && NamedPorts(ports)
    ensures AllWords(ProtocolWords(protocol, ports))
  {
    if protocol == "" { return; }
    assert Word("--protocol") && Word("--tcp-flags") && Word("--source-port") && Word("--source-ports");
    assert Word("--destination-port") && Word("--destination-ports");
    hide Word, PortWords;
    PortsAreWords(ports.source, "--source-port", "--source-ports");
    PortsAreWords(ports.destination, "--destination-port", "--destination-ports");
    var a := ["--protocol", protocol] + PortWords(ports.source, "--source-port", "--source-ports");
    AppendWords(a, PortWords(ports.destination, "--destination-port", "--destination-ports"));
    if ports.flags != [] { AppendWords(["--tcp-flags"], ports.flags); }
  }

  lemma RuleIsNamed(chain: string, e: Entry)
    requires e.Rule? && Word(chain) && Word(e.device)
    requires (e.ipset.Some? ==> Word(e.ipset.value)) && (e.protocol == "" || Word(e.protocol)) && NamedPorts(e.ports)
    ensures NamedEntry(chain, e)
  {
    assert Word("-A") && Word("-i") && Word("-o") && Word("-m") && Word("set") && Word("--match-set");
    assert Word("src,dst") && Word("dst,dst") && Word("-j");
    TargetsAreWords(e.target);
    ProtocolsAreWords(e.protocol, e.ports);
    hide Word, TargetWords, ProtocolWords, NamedPorts;
    var a := ["-A", chain, if e.direction.Input? then "-i" else "-o", e.device];
    var b := if e.ipset.Some?
      then ["-m", "set", "--match-set", e.ipset.value, if e.direction.Input? then "src,dst" else "dst,dst"] else [];
    var c := ProtocolWords(e.protocol, e.ports);
    AppendWords(a, b);
    AppendWords(a + b, c);
    AppendWords(a + b + c, ["-j"]);
    AppendWords(a + b + c + ["-j"], TargetWords(e.target));
  }

  lemma IPSetRulesAreNamed(c: Chain, ipset: Option<string>)
    requires Named(c) && (ipset.Some? ==> Word(ipset.value))
    ensures NamedEntries(c.name, IPSetRules(c, ipset))
  {
    hide Word, NamedEntry;
    RuleIsNamed(c.name, Rule(c.direction, Device(c), ipset, c.protocol, PortsOf(c), c.target));
    if c.fallback.Some? {
      RuleIsNamed(c.name, Rule(c.direction, Device(c), ipset, "", ANY_PORT, c.fallback.value));
    }
  }

  lemma {:induction false} RulesForAreNamed(c: Chain, ipsets: seq<string>)
    requires Named(c) && AllWords(ipsets)
    ensures NamedEntries(c.name, RulesFor(c, ipsets))
  {
    if ipsets != [] {
      IPSetRulesAreNamed(c, Some(ipsets[0]));
      RulesForAreNamed(c, ipsets[1..]);
    }
  }

  lemma RulesAreNamed(c: Chain)
    requires Named(c)
    ensures NamedEntries(c.name, Rules(c))
  {
    IPSetRulesAreNamed(c, None);
    RulesForAreNamed(c, c.ipsets);
  }

  lemma {:induction false} RulesAreWritten(t: Table, chain: string, es: seq<Entry>)
    requires chain in t && NamedEntries(chain, t[chain]) && NamedEntries(chain, es)
    ensures EnsuredAll(t, chain, es) == t[chain := t[chain] + es]
    decreases |es|
  {
    hide NamedEntry, Ensured, Command, Line;
    if es == [] {
      assert t[chain] + [] == t[chain];
    } else {
      RuleIsAppended(t, chain, es[0]);
      var next := t[chain := t[chain] + [es[0]]];
      RulesAreWritten(next, chain, es[1..]);
      assert t[chain] + [es[0]] + es[1..] == t[chain] + es;
    }
  }

  lemma HookIsWord(d: Direction)
    ensures Word(Hook(d))
  {
  }

  lemma OneMoreHolds(t: Table, chains: seq<Chain>, c: Chain)
    requires Holds(t, chains) && Requestable(chains + [c])
    ensures Holds(Installed(t, c), chains + [c])
  {
    hide Ensured, EnsuredAll, NamedEntry, Word, Rules;
    var all := chains + [c];
    assert all[|chains|] == c && all[..|chains|] == chains;
    assert forall i :: 0 <= i < |chains| ==> all[i] == chains[i] && chains[i].name != c.name;
    RulesAreNamed(c);
    RulesAreWritten(t[c.name := []], c.name, Rules(c));
    assert [] + Rules(c) == Rules(c);
    var written := t[c.name := Rules(c)];
    assert EnsuredAll(t[c.name := []], c.name, Rules(c)) == written;
    LinkedAreWords(chains, c.direction);
    HookIsWord(c.direction);
    LinkIsAppendedIff(written, Hook(c.direction), Linked(chains, c.direction), c.name);
  }

  /** Whatever the kernel held before, installing more chains leaves exactly what all of them ask for. */
  lemma {:induction false} InstallationHolds(t: Table, done: seq<Chain>, rest: seq<Chain>)
    requires Holds(t, done) && Requestable(done + rest)
    ensures Holds(InstalledAll(t, rest), done + rest)
    decreases |rest|
  {
    hide Installed, Named, Holds;
    if rest == [] {
      assert done + [] == done;
    } else {
      var all := done + rest;
      assert done + [rest[0]] == all[..|done| + 1];
      OneMoreHolds(t, done, rest[0]);
      assert done + [rest[0]] + rest[1..] == all;
      InstallationHolds(Installed(t, rest[0]), done + [rest[0]], rest[1..]);
    }
  }

  // ---------- which chains are reached ----------

  function InDirection(chains: seq<Chain>, d: Direction): seq<string> {
    if chains == [] then [] else
      var c := chains[|chains| - 1];
      InDirection(chains[..|chains| - 1], d) + if c.direction == d then [c.name] else []
  }

  /** No chain's name is a prefix of an earlier one in the same direction. */
  predicate Unshadowed(chains: seq<Chain>) {
    forall i, j :: 0 <= i < j < |chains| && chains[i].direction == chains[j].direction ==>
      !(chains[j].name <= chains[i].name)
  }

  predicate Seen(chains: seq<Chain>, d: Direction, name: string) {
    exists i :: 0 <= i < |chains| && chains[i].direction == d && chains[i].name == name
  }

  /** Every chain seen so far is a prefix of a linked one, and every linked one was seen. */
  lemma {:induction false} LinkedCovers(chains: seq<Chain>, d: Direction)
    ensures forall i :: 0 <= i < |chains| && chains[i].direction == d ==> Covered(Linked(chains, d), chains[i].name)
    ensures forall name :: name in Linked(chains, d) ==> Seen(chains, d, name)
  {
    if chains != [] {
      var n := |chains| - 1;
      var before, after := Linked(chains[..n], d), Linked(chains, d);
      LinkedCovers(chains[..n], d);
      forall i | 0 <= i < |chains| && chains[i].direction == d ensures Covered(after, chains[i].name) {
        if i < n {
          assert chains[..n][i] == chains[i];
          var k :| 0 <= k < |before| && chains[i].name <= before[k];
          assert after[k] == before[k];
        } else if !Covered(before, chains[n].name) {
          assert after[|before|] == chains[n].name;
        }
      }
      forall name | name in after ensures Seen(chains, d, name) {
        if name in before {
          var i :| 0 <= i < |chains[..n]| && chains[..n][i].direction == d && chains[..n][i].name == name;
          assert chains[i].name == name;
        } else {
          assert chains[n].name == name;
        }
      }
    }
  }

  lemma {:induction false} UnshadowedAreLinked(chains: seq<Chain>, d: Direction)
    requires Unshadowed(chains)
    ensures Linked(chains, d) == InDirection(chains, d)
  {
    if chains != [] {
      var n := |chains| - 1;
      var c := chains[n];
      UnshadowedAreLinked(chains[..n], d);
      if c.direction == d { NotCoveredYet(chains); }
    }
  }

  lemma NotCoveredYet(chains: seq<Chain>)
    requires chains != [] && Unshadowed(chains)
    ensures var c := chains[|chains| - 1]; !Covered(Linked(chains[..|chains| - 1], c.direction), c.name)
  {
    hide Linked;
    var n := |chains| - 1;
    var c := chains[n];
    var before := Linked(chains[..n], c.direction);
    LinkedCovers(chains[..n], c.direction);
    forall k | 0 <= k < |before| ensures !(c.name <= before[k]) {
      assert before[k] in before;
      var i :| 0 <= i < n && chains[..n][i].direction == c.direction && chains[..n][i].name == before[k];
      assert chains[i] == chains[..n][i];
    }
  }

  lemma {:induction false} ShadowedIsNotLinked(chains: seq<Chain>, i: nat, j: nat, d: Direction)
    requires Requestable(chains)
    requires i < j < |chains| && chains[i].direction == chains[j].direction == d
    requires chains[j].name <= chains[i].name
    ensures chains[j].name !in Linked(chains, d)
  {
    hide Named;
    var n := |chains| - 1;
    if j == n {
      LinkedCovers(chains[..n], d);
      assert chains[..n][i] == chains[i];
      var before := Linked(chains[..n], d);
      var k :| 0 <= k < |before| && chains[i].name <= before[k];
      assert chains[j].name <= before[k];
      assert Linked(chains, d) == before;
      if chains[j].name in before {
        assert false;
      }
    } else {
      ShadowedIsNotLinked(chains[..n], i, j, d);
    }
  }

  /** Every requested chain is reached from its hook exactly when no name is a prefix of an earlier one in the
      same direction. */
  lemma AllReachedIff(chains: seq<Chain>)
    requires Requestable(chains)
    ensures (forall j :: 0 <= j < |chains| ==> chains[j].name in Linked(chains, chains[j].direction)) <==>
      Unshadowed(chains)
  {
    if Unshadowed(chains) {
      forall j | 0 <= j < |chains| ensures chains[j].name in Linked(chains, chains[j].direction) {
        UnshadowedAreLinked(chains, chains[j].direction);
        InDirectionHas(chains, j);
      }
    } else {
      var i, j :| 0 <= i < j < |chains| && chains[i].direction == chains[j].direction
        && chains[j].name <= chains[i].name;
      ShadowedIsNotLinked(chains, i, j, chains[j].direction);
    }
  }

  lemma {:induction false} InDirectionHas(chains: seq<Chain>, j: nat)
    requires j < |chains|
    ensures chains[j].name in InDirection(chains, chains[j].direction)
  {
    var n := |chains| - 1;
    if j < n {
      assert chains[..n][j] == chains[j];
      InDirectionHas(chains[..n], j);
    }
  }
}
