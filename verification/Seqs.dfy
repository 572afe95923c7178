/** Facts about sequences that the verifier does not see on its own. */
module Seqs {

  lemma Assoc<T>(a: seq<T>, b: seq<T>, c: seq<T>)
    ensures a + b + c == a + (b + c)
  {
  }

  lemma SplitAt<T>(s: seq<T>, k: nat)
    requires k <= |s|
    ensures s == s[..k] + s[k..]
  {
  }

  lemma Regroup<T>(n: seq<T>, d: seq<T>, r: seq<T>, b: seq<T>)
    ensures n + d + r + (n + b) == n + (d + r + n + b)
    ensures n + d + r == n + (d + r)
  {
  }

  lemma TakeNext<T>(s: seq<T>, n: nat)
    requires n < |s|
    ensures s[..n+1] == s[..n] + [s[n]]
    ensures s[..n+1][..n] == s[..n]
  {
  }
}
