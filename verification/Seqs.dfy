// Facts about taking sequences apart.

module Seqs {

  lemma Regroup<T>(a: seq<T>, b: seq<T>, c: seq<T>)
    ensures (a + b) + c == a + (b + c)
  {
  }

  lemma Cut<T>(a: seq<T>, b: seq<T>)
    ensures (a + b)[..|a|] == a && (a + b)[|a|..] == b
  {
  }

  /** What is left after one and then some. */
  lemma CutAfter<T>(x: T, a: seq<T>, b: seq<T>)
    ensures ([x] + a + b)[1..] == a + b
    ensures ([x] + a + b)[1..1 + |a|] == a && ([x] + a + b)[1 + |a|..] == b
  {
  }

  lemma Rejoin<T>(s: seq<T>, i: nat, j: nat)
    requires i <= j <= |s|
    ensures s == s[..i] + s[i..j] + s[j..]
    ensures s[i..][..j - i] == s[i..j] && s[i..][j - i..] == s[j..]
  {
  }

  lemma Parts<T>(s: seq<T>, k: nat)
    requires 1 + k <= |s|
    ensures s == [s[0]] + s[1..1 + k] + s[1 + k..]
    ensures s[1..][..k] == s[1..1 + k] && s[1..][k..] == s[1 + k..]
  {
  }

  lemma SplitAt<T>(s: seq<T>, i: nat)
    requires i < |s|
    ensures s[i..][0] == s[i] && s[i..][1..] == s[i + 1..]
    ensures s[i..] == [s[i]] + s[i + 1..]
  {
  }

  lemma OneMore<T>(s: seq<T>, i: nat)
    requires i < |s|
    ensures s[..i + 1] == s[..i] + [s[i]]
  {
  }

  /** What comes after a path and one name more. */
  lemma SplitAfter<T>(p: seq<T>, n: T, q: seq<T>)
    requires p + [n] <= q
    ensures q == (p + [n]) + q[|p| + 1..]
  {
  }

  lemma UpToLast<T>(s: seq<T>)
    requires s != []
    ensures s[..|s| - 1] + [s[|s| - 1]] == s
  {
  }
}
