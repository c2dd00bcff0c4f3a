/** Facts about cutting and joining sequences, stated one at a time for the solver's sake. */
module Seqs {
  lemma Assoc<T>(a: seq<T>, b: seq<T>, c: seq<T>)
    ensures a + b + c == a + (b + c)
  {
  }

  lemma Snoc<T>(s: seq<T>)
    requires s != []
    ensures s[..|s|-1] + [s[|s|-1]] == s
  {
  }

  lemma Halves<T>(s: seq<T>, n: nat)
    requires n <= |s|
    ensures s[..n] + s[n..] == s
  {
  }

  lemma Joined<T>(a: seq<T>, b: seq<T>)
    ensures (a + b)[..|a|] == a && (a + b)[|a|..] == b
  {
  }

  lemma Behind<T>(s: seq<T>, b: seq<T>, n: nat)
    requires n <= |s|
    ensures (s + b)[n..] == s[n..] + b
  {
  }

  lemma Suffix<T>(s: seq<T>, pos: nat, n: nat)
    requires pos + n <= |s|
    ensures s[pos..][..n] == s[pos..pos+n] && s[pos..][n..] == s[pos+n..]
  {
  }
}
