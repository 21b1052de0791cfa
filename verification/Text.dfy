/** Strings as the daemon handles them: substring search, line listings and decimal numbers. */
module Text {

  datatype Option<+T> = None | Some(value: T)

  predicate OccursAt(s: string, sub: string, i: nat) {
    i + |sub| <= |s| && s[i..i + |sub|] == sub
  }

  /** Go's `strings.Contains`. */
  predicate Contains(s: string, sub: string) {
    exists i: nat :: i <= |s| && OccursAt(s, sub, i)
  }

  /** The text of a listing: every line followed by a newline. */
  function Unlines(lines: seq<string>): string {
    if lines == [] then "" else lines[0] + "\n" + Unlines(lines[1..])
  }

  /** Text without a newline occurs in a listing exactly when it occurs inside one line. */
  lemma {:induction false} ContainsInUnlines(lines: seq<string>, sub: string)
    requires sub != "" && '\n' !in sub
    ensures Contains(Unlines(lines), sub) <==> exists k: nat :: k < |lines| && Contains(lines[k], sub)
  {
    if lines == [] {
      assert forall i: nat :: !OccursAt("", sub, i);
    } else {
      var head, tail := lines[0] + "\n", Unlines(lines[1..]);
      var s := Unlines(lines);
      assert s == head + tail;
      ContainsInUnlines(lines[1..], sub);
      if Contains(s, sub) {
        var i: nat :| OccursAt(s, sub, i);
        OccurrenceAvoidsNewline(lines[0], tail, sub, i);
        if i + |sub| <= |lines[0]| {
          assert OccursAt(lines[0], sub, i);
        } else {
          assert OccursAt(tail, sub, i - |head|);
          var k: nat :| k < |lines[1..]| && Contains(lines[1..][k], sub);
          assert lines[k + 1] == lines[1..][k];
        }
      }
      if k: nat :| k < |lines| && Contains(lines[k], sub) {
        if k == 0 {
          var i: nat :| OccursAt(lines[0], sub, i);
          OccursInside("", lines[0], "\n" + tail, sub, i);
          assert "" + lines[0] + ("\n" + tail) == s;
        } else {
          assert lines[1..][k - 1] == lines[k];
          var j: nat :| OccursAt(tail, sub, j);
          OccursInside(head, tail, "", sub, j);
          assert head + tail + "" == s;
        }
      }
    }
  }

  lemma OccursInside(before: string, s: string, after: string, sub: string, i: nat)
    requires OccursAt(s, sub, i)
    ensures OccursAt(before + s + after, sub, |before| + i)
  {
    var all := before + s + after;
    assert all[|before| + i..|before| + i + |sub|] == s[i..i + |sub|];
  }

  lemma OccurrenceAvoidsNewline(line: string, tail: string, sub: string, i: nat)
    requires '\n' !in sub && OccursAt(line + "\n" + tail, sub, i)
    ensures i + |sub| <= |line| ==> line[i..i + |sub|] == sub
    ensures i + |sub| > |line| && sub != "" ==> i > |line| && OccursAt(tail, sub, i - |line| - 1)
  {
    var s := line + "\n" + tail;
    if i + |sub| <= |line| {
      assert s[i..i + |sub|] == line[i..i + |sub|];
    } else if sub != "" {
      assert s[|line|] == '\n';
      assert forall j :: i <= j < i + |sub| ==> s[j] == sub[j - i];
      var j := i - |line| - 1;
      assert s[i..i + |sub|] == tail[j..j + |sub|];
    }
  }

  function Digit(d: nat): (c: char)
    requires d < 10
    ensures '0' <= c <= '9'
  {
    ('0' as int + d) as char
  }

  predicate AllDigits(s: string) {
    forall i :: 0 <= i < |s| ==> '0' <= s[i] <= '9'
  }

  /** The decimal text Go prints for `%d` of a non-negative number. */
  function Decimal(n: nat): (s: string)
    ensures s != "" && AllDigits(s)
  {
    if n < 10 then [Digit(n)] else Decimal(n / 10) + [Digit(n % 10)]
  }

  /** The number a decimal text stands for. */
  function Value(s: string): nat
    requires AllDigits(s)
  {
    if s == "" then 0 else Value(s[..|s| - 1]) * 10 + (s[|s| - 1] as int - '0' as int)
  }

  lemma {:induction false} ValueOfDecimal(n: nat)
    ensures Value(Decimal(n)) == n
  {
    if n >= 10 {
      ValueOfDecimal(n / 10);
      assert Decimal(n)[..|Decimal(n)| - 1] == Decimal(n / 10);
    }
  }

  lemma {:induction false} PrefixHasSmallerValue(p: string, s: string)
    requires AllDigits(s) && p <= s
    ensures AllDigits(p) && Value(p) <= Value(s)
  {
    if p != s {
      PrefixHasSmallerValue(p, s[..|s| - 1]);
    }
  }

  /** A numbered name can be a prefix of another only when its number is not larger:
      this is what makes linking `TC-TABLES-0, 1, 2, ...` in increasing order safe. */
  lemma DecimalPrefix(i: nat, j: nat)
    requires Decimal(i) <= Decimal(j)
    ensures i <= j
  {
    ValueOfDecimal(i);
    ValueOfDecimal(j);
    PrefixHasSmallerValue(Decimal(i), Decimal(j));
  }
}
