// Words, balance maps, and the two finite sums the accounting arguments rest on.
module Basics {

  const TWO_256: nat := 0x1_0000000000000000_0000000000000000_0000000000000000_0000000000000000

  /** A uint256. */
  type Word = x: nat | x < TWO_256 witness 0

  type Address = nat

  const ZERO_ADDRESS: Address := 0

  /** A Solidity mapping reads as zero where nothing was written. */
  function Bal(m: map<Address, nat>, a: Address): nat {
    if a in m then m[a] else 0
  }

  ghost function Sum(m: map<Address, nat>): nat
    decreases |m|
  {
    if m == map[] then 0 else
      var a :| a in m;
      m[a] + Sum(m - {a})
  }

  lemma {:induction false} SumSplit(m: map<Address, nat>, a: Address)
    requires a in m
    ensures Sum(m) == m[a] + Sum(m - {a})
    decreases |m|
  {
    var b :| b in m && Sum(m) == m[b] + Sum(m - {b});
    if a != b {
      SumSplit(m - {b}, a);
      SumSplit(m - {a}, b);
      assert m - {a} - {b} == m - {b} - {a};
    }
  }

  lemma SumSet(m: map<Address, nat>, a: Address, v: nat)
    ensures Sum(m[a := v]) == Sum(m) - Bal(m, a) + v
    ensures Bal(m, a) <= Sum(m)
  {
    SumSplit(m[a := v], a);
    if a in m {
      SumSplit(m, a);
      assert m[a := v] - {a} == m - {a};
    } else {
      assert m[a := v] - {a} == m;
    }
  }

  function Total(s: seq<nat>): nat {
    if s == [] then 0 else Total(s[..|s| - 1]) + s[|s| - 1]
  }

  lemma TotalAppend(s: seq<nat>, x: nat)
    ensures Total(s + [x]) == Total(s) + x
  {
    assert (s + [x])[..|s|] == s;
  }

  lemma {:induction false} TotalSet(s: seq<nat>, i: nat, x: nat)
    requires i < |s|
    ensures Total(s[i := x]) == Total(s) - s[i] + x
    ensures s[i] <= Total(s)
  {
    var n := |s| - 1;
    if i == n {
      assert s[i := x][..n] == s[..n];
    } else {
      assert s[i := x][..n] == s[..n][i := x];
      TotalSet(s[..n], i, x);
    }
  }

  lemma {:induction false} TotalMonotone(s: seq<nat>, t: seq<nat>)
    requires |s| == |t| && forall i | 0 <= i < |s| :: s[i] <= t[i]
    ensures Total(s) <= Total(t)
  {
    if s != [] {
      TotalMonotone(s[..|s| - 1], t[..|t| - 1]);
    }
  }
}
