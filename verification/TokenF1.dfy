/** The token overlap score between a predicted and a reference answer, both already cut into tokens. */
module TokenF1 {

  /** The tokens two answers share, each as often as both have it. */
  function Shared(prediction: seq<string>, reference: seq<string>): multiset<string> {
    multiset(prediction) * multiset(reference)
  }

  /** Twice what is shared over what there is; nothing at all agrees with nothing. */
  function Overlap(prediction: seq<string>, reference: seq<string>): real {
    if prediction == [] && reference == [] then 1.0
    else 2.0 * |Shared(prediction, reference)| as real / (|prediction| + |reference|) as real
  }

  lemma OverlapIsProper(prediction: seq<string>, reference: seq<string>)
    ensures 0.0 <= Overlap(prediction, reference) <= 1.0
    ensures Overlap(prediction, reference) == Overlap(reference, prediction)
    ensures Overlap(prediction, reference) == 1.0 <==> multiset(prediction) == multiset(reference)
    ensures Overlap(prediction, reference) == 0.0 <==>
      prediction + reference != [] && forall t | t in prediction :: t !in reference
  {
    var p, r := multiset(prediction), multiset(reference);
    assert p * r == r * p;
    SharedIsPart(p, r);
    SharedIsPart(r, p);
    var s, n := |p * r|, |p| + |r|;
    if n > 0 {
      assert |prediction| == |p| && |reference| == |r|;
      QuotientBounds(s, n);
      NothingShared(prediction, reference);
    }
  }

  lemma QuotientBounds(s: nat, n: nat)
    requires n > 0 && 2 * s <= n
    ensures 0.0 <= 2.0 * s as real / n as real <= 1.0
    ensures 2.0 * s as real / n as real == 1.0 <==> 2 * s == n
    ensures 2.0 * s as real / n as real == 0.0 <==> s == 0
  {
    var q := 2.0 * s as real / n as real;
    assert q * n as real == 2.0 * s as real;
  }

  /** What is shared is no more than either side, and as much as both only when they agree. */
  lemma SharedIsPart(p: multiset<string>, r: multiset<string>)
    ensures |p * r| <= |p|
    ensures |p * r| == |p| == |r| ==> p == r
    ensures p == r ==> |p * r| == |p|
  {
    assert p == (p * r) + (p - r);
    assert r == (p * r) + (r - p);
    if p == r {
      assert p * r == p;
    }
  }

  lemma NothingShared(prediction: seq<string>, reference: seq<string>)
    ensures |Shared(prediction, reference)| == 0 <==> forall t | t in prediction :: t !in reference
  {
    forall t: string ensures t in Shared(prediction, reference) <==> t in prediction && t in reference {
      assert t in multiset(prediction) <==> t in prediction;
      assert t in multiset(reference) <==> t in reference;
    }
    if forall t | t in prediction :: t !in reference {
      assert Shared(prediction, reference) == multiset{};
    }
  }

  /** How often each token occurs. */
  ghost predicate IsCount(counts: map<string, nat>, tokens: seq<string>) {
    forall t: string :: (if t in counts then counts[t] else 0) == multiset(tokens)[t]
  }

  method CountTokens(tokens: seq<string>) returns (counts: map<string, nat>)
    ensures IsCount(counts, tokens)
  {
    counts := map[];
    for n := 0 to |tokens|
      invariant IsCount(counts, tokens[..n])
    {
      var t := tokens[n];
      assert tokens[..n+1] == tokens[..n] + [t];
      counts := counts[t := (if t in counts then counts[t] else 0) + 1];
    }
    assert tokens[..|tokens|] == tokens;
  }

  lemma HasElement(s: set<string>)
    ensures s == {} || exists t :: t in s
  {
    if forall t :: t !in s {
      assert s == {};
    }
  }

  method CountMatches(predCount: map<string, nat>, refCount: map<string, nat>,
                      ghost prediction: seq<string>, ghost reference: seq<string>) returns (matches: nat)
    requires IsCount(predCount, prediction) && IsCount(refCount, reference)
    ensures matches == |Shared(prediction, reference)|
  {
    matches := 0;
    var todo := predCount.Keys;
    ghost var left := Shared(prediction, reference);
    while todo != {}
      invariant todo <= predCount.Keys
      invariant matches + |left| == |Shared(prediction, reference)|
      invariant forall t :: left[t] == if t in todo then Shared(prediction, reference)[t] else 0
      decreases |todo|
    {
      HasElement(todo);
      var token :| token in todo;
      var pc := predCount[token];
      assert pc == multiset(prediction)[token];
      left := left[token := 0];
      if token in refCount {
        var rc := refCount[token];
        assert rc == multiset(reference)[token];
        matches := matches + if pc < rc then pc else rc;
      }
      todo := todo - {token};
    }
    assert left == multiset{};
  }

  lemma Distribute(b: real, c: real, x: real, y: real, a: real)
    requires b * x == a && c * y == a
    ensures (b + c) * (x * y) == a * (x + y)
  {
    assert b * (x * y) == a * y by { assert b * (x * y) == (b * x) * y; }
    assert c * (x * y) == a * x by { assert c * (x * y) == (c * y) * x; }
  }

  lemma Cancel(u: real, v: real, w: real)
    requires w != 0.0 && u * w == v * w
    ensures u == v
  {
  }

  lemma Substitute(f: real, s: real, d: real, q: real, a: real)
    requires f * s == 2.0 * q && d * q == a * s && q != 0.0
    ensures f * d == 2.0 * a
  {
    assert (f * d) * q == f * (a * s);
    assert f * (a * s) == a * (f * s);
    assert a * (2.0 * q) == (2.0 * a) * q;
    Cancel(f * d, 2.0 * a, q);
  }

  /** The harmonic mean of the two ratios of a to b and c. */
  lemma HarmonicMean(a: real, b: real, c: real)
    requires a > 0.0 && b > 0.0 && c > 0.0
    ensures a / b > 0.0 && a / c > 0.0
    ensures 2.0 * (a / b) * (a / c) / (a / b + a / c) == 2.0 * a / (b + c)
  {
    var x, y := a / b, a / c;
    assert x * b == a && y * c == a;
    assert x > 0.0 && y > 0.0;
    var q, s, d := x * y, x + y, b + c;
    var f := 2.0 * x * y / s;
    Quotient(2.0 * x * y, s);
    Distribute(b, c, x, y, a);
    Substitute(f, s, d, q, a);
    Quotient(2.0 * a, d);
    Cancel(f, 2.0 * a / d, d);
  }

  lemma Quotient(u: real, v: real)
    requires v != 0.0
    ensures (u / v) * v == u
  {
  }

  /** Precision and recall combine to the share of the tokens that is shared. */
  lemma CombinesToOverlap(m: nat, p: nat, r: nat)
    requires p > 0 && r > 0
    ensures var precision, recall := m as real / p as real, m as real / r as real;
      && (precision + recall == 0.0 <==> m == 0)
      && (m > 0 ==>
        2.0 * precision * recall / (precision + recall) == 2.0 * m as real / (p + r) as real)
  {
    if m > 0 {
      HarmonicMean(m as real, p as real, r as real);
    }
  }

  method TokenOverlapF1(predTokens: seq<string>, refTokens: seq<string>) returns (f1: real)
    ensures f1 == Overlap(predTokens, refTokens)
  {
    NothingShared(predTokens, refTokens);
    if |predTokens| == 0 && |refTokens| == 0 {
      return 1.0;
    }
    if |predTokens| == 0 || |refTokens| == 0 {
      return 0.0;
    }
    var refCount := CountTokens(refTokens);
    var predCount := CountTokens(predTokens);
    var matches := CountMatches(predCount, refCount, predTokens, refTokens);
    var precision := matches as real / |predTokens| as real;
    var recall := matches as real / |refTokens| as real;
    CombinesToOverlap(matches, |predTokens|, |refTokens|);
    if precision + recall == 0.0 {
      return 0.0;
    }
    f1 := 2.0 * precision * recall / (precision + recall);
  }
}
