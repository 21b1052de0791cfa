/** The names the controller gives to ip sets and iptables chains
    (controllers/podnetworkchaos/netutils/len.go, ipset/ipset.go, iptable/iptable.go). */
module Names {

  /** Hexadecimal SHA-256: all the model needs is its length and that it holds no underscore. */
  ghost predicate IsHash(hash: string -> string) {
    forall s :: |hash(s)| == 64 && '_' !in hash(s)
  }

  function CompressName(hash: string -> string, original: string, target: nat, postfix: string): (name: string)
    requires IsHash(hash)
    requires 7 + |postfix| <= target <= 71 + |postfix|
    ensures |name| <= target && (|original| >= 6 ==> |name| == target)
    ensures |postfix| + 1 <= |name| && name[|name| - |postfix| - 1..] == "_" + postfix
  {
    if |original| < 6 then
      original + "_" + postfix
    else
      original[..5] + "_" + hash(original[5..])[..target - 7 - |postfix|] + "_" + postfix
  }

  function IPSetName(hash: string -> string, chaos: string, postfix: string): string
    requires IsHash(hash) && |postfix| <= 20
  {
    CompressName(hash, chaos, 27, postfix)
  }

  function ChainName(hash: string -> string, input: bool, chaos: string): string
    requires IsHash(hash)
  {
    if input then "INPUT/" + CompressName(hash, chaos, 21, "") else "OUTPUT/" + CompressName(hash, chaos, 20, "")
  }

  /** Every generated set name leaves room for the three letters of its temporary twin, and long ones are 27 long;
      no generated name is itself the temporary twin of a name in the same request. */
  lemma IPSetNamesAreSafe(hash: string -> string, chaos: string, postfix: string, other: string)
    requires IsHash(hash) && 3 <= |postfix| <= 20
    requires postfix[|postfix| - 3..] != "old"
    ensures |IPSetName(hash, chaos, postfix) + "old"| <= 30
    ensures |chaos| >= 6 ==> |IPSetName(hash, chaos, postfix)| == 27 && |ChainName(hash, true, chaos)| == 27
                             && |ChainName(hash, false, chaos)| == 27
    ensures IPSetName(hash, chaos, postfix) != other + "old"
  {
    var name := IPSetName(hash, chaos, postfix);
    var tail := name[|name| - |postfix| - 1..];
    assert tail[|tail| - 3..] == name[|name| - 3..];
    assert ("_" + postfix)[|postfix| - 2..] == postfix[|postfix| - 3..];
    assert (other + "old")[|other|..] == "old";
  }

  /** Two names with one postfix are the same exactly for the same chaos name, or for two of at least six letters that
      agree in the first five and in what is kept of the hash of the rest. */
  lemma SameNameIff(hash: string -> string, a: string, b: string, target: nat, postfix: string)
    requires IsHash(hash) && 7 + |postfix| <= target <= 71 + |postfix|
    ensures CompressName(hash, a, target, postfix) == CompressName(hash, b, target, postfix) <==>
      a == b || (|a| >= 6 && |b| >= 6 && a[..5] == b[..5] &&
                 hash(a[5..])[..target - 7 - |postfix|] == hash(b[5..])[..target - 7 - |postfix|])
  {
    var x, y := CompressName(hash, a, target, postfix), CompressName(hash, b, target, postfix);
    if |a| < 6 && |b| < 6 {
      assert x[..|x| - 1 - |postfix|] == a && y[..|y| - 1 - |postfix|] == b;
    } else if |a| >= 6 && |b| >= 6 {
      assert x[..5] == a[..5] && y[..5] == b[..5];
      assert x[6..target - 1 - |postfix|] == hash(a[5..])[..target - 7 - |postfix|];
      assert y[6..target - 1 - |postfix|] == hash(b[5..])[..target - 7 - |postfix|];
    }
  }

  /** One generated chain name is a proper prefix of another in exactly one family: a chaos whose name has
      five characters, and a longer one that begins with those five. */
  lemma ChainNamePrefix(hash: string -> string, input: bool, a: string, b: string)
    requires IsHash(hash)
    requires '_' !in a && '_' !in b
    ensures ChainName(hash, input, a) < ChainName(hash, input, b)
       <==> |a| == 5 && |b| >= 6 && b[..5] == a
  {
    var head := if input then "INPUT/" else "OUTPUT/";
    var target := if input then 21 else 20;
    var x, y := CompressName(hash, a, target, ""), CompressName(hash, b, target, "");
    var fx, fy := ChainName(hash, input, a), ChainName(hash, input, b);
    assert fx == head + x && fy == head + y;
    assert fx[|head|..] == x && fy[|head|..] == y;
    assert fx < fy <==> x < y by {
      if x < y { assert fy[..|fx|] == fx; }
      if fx < fy { assert y[..|x|] == fy[|head|..|fx|] == x; }
    }
    CompressedPrefix(hash, a, b, target);
  }

  lemma CompressedPrefix(hash: string -> string, a: string, b: string, target: nat)
    requires IsHash(hash) && 7 <= target <= 71
    requires '_' !in a && '_' !in b
    ensures CompressName(hash, a, target, "") < CompressName(hash, b, target, "")
       <==> |a| == 5 && |b| >= 6 && b[..5] == a
  {
    var x, y := CompressName(hash, a, target, ""), CompressName(hash, b, target, "");
    if |a| < 6 {
      assert x == a + "_";
      if x < y {
        assert y[|a|] == x[|a|] == '_';
        if |b| >= 6 {
          assert y[..5] == b[..5];
          assert |a| == 5 by { assert forall i :: 0 <= i < 5 ==> y[i] == b[i]; }
          assert y[..5] == x[..5] == a;
        }
      }
      if |a| == 5 && |b| >= 6 && b[..5] == a {
        assert y[..6] == x;
      }
    } else {
      assert |x| == target;
    }
  }
}
