/** The verbatim literals a rolling summary must not lose. */
module ExactFacts {
  import opened Seqs
  import opened Text

  const HEADING := "EXACT FACTS:"
  const MAX_EXACT_FACTS := 24

  /** A literal worth carrying forward; the label, empty for a bare identifier, lets a later statement supersede it. */
  datatype Fact = Fact(name: string, value: string)
  {
    function Render(): string {
      if name == "" then value else name + ": " + value
    }

    function Key(lower: string -> string): string {
      if name == "" then "=" + value else lower(name)
    }

    /** What extraction produces: a value without spaces, a trimmed label without a colon. */
    predicate Shaped() {
      && value != "" && (forall c | c in value :: !IsSpace(c))
      && Trimmed(name) && ':' !in name && '\n' !in name
    }
  }

  // ---------------------------------------------------------------- extraction

  /** The keys of the facts, in the order of their first mention. */
  function FirstMentions(fs: seq<Fact>, lower: string -> string): seq<string> {
    if fs == [] then []
    else
      var earlier, key := FirstMentions(fs[..|fs|-1], lower), fs[|fs|-1].Key(lower);
      if key in earlier then earlier else earlier + [key]
  }

  /** The last fact stated under a key. */
  function Latest(fs: seq<Fact>, key: string, lower: string -> string): (f: Fact)
    requires key in FirstMentions(fs, lower)
    ensures f.Key(lower) == key && f in fs
  {
    if fs[|fs|-1].Key(lower) == key then fs[|fs|-1] else Latest(fs[..|fs|-1], key, lower)
  }

  function LatestOf(fs: seq<Fact>, keys: seq<string>, lower: string -> string): (latest: seq<Fact>)
    requires forall k | k in keys :: k in FirstMentions(fs, lower)
    ensures |latest| == |keys| && forall i | 0 <= i < |keys| :: latest[i] == Latest(fs, keys[i], lower)
  {
    if keys == [] then [] else [Latest(fs, keys[0], lower)] + LatestOf(fs, keys[1..], lower)
  }

  function LabelledValues(fs: seq<Fact>): set<string> {
    set f | f in fs && f.name != "" :: f.value
  }

  function Uncovered(fs: seq<Fact>, covered: set<string>): seq<Fact> {
    if fs == [] then []
    else if fs[0].name == "" && fs[0].value in covered then Uncovered(fs[1..], covered)
    else [fs[0]] + Uncovered(fs[1..], covered)
  }

  function AtMost<T>(s: seq<T>, n: nat): seq<T> {
    if |s| <= n then s else s[..n]
  }

  function Accepted(candidates: seq<Fact>, acceptable: Fact -> bool): seq<Fact> {
    if candidates == [] then []
    else (if acceptable(candidates[0]) then [candidates[0]] else []) + Accepted(candidates[1..], acceptable)
  }

  /** The last value per key in order of first mention, minus bare values a labelled fact carries, first 24. */
  function Extracted(candidates: seq<Fact>, acceptable: Fact -> bool, lower: string -> string): seq<Fact> {
    var fs := Accepted(candidates, acceptable);
    var latest := LatestOf(fs, FirstMentions(fs, lower), lower);
    AtMost(Uncovered(latest, LabelledValues(latest)), MAX_EXACT_FACTS)
  }

  /** The table of facts by key after the given statements. */
  function Table(fs: seq<Fact>, lower: string -> string): map<string, Fact> {
    if fs == [] then map[] else Table(fs[..|fs|-1], lower)[fs[|fs|-1].Key(lower) := fs[|fs|-1]]
  }

  lemma {:induction false} TableHoldsLatest(fs: seq<Fact>, lower: string -> string)
    ensures Table(fs, lower).Keys == set k | k in FirstMentions(fs, lower)
    ensures forall k | k in Table(fs, lower) :: Table(fs, lower)[k] == Latest(fs, k, lower)
    decreases |fs|
  {
    if fs != [] {
      TableHoldsLatest(fs[..|fs|-1], lower);
    }
  }

  lemma MentionStep(fs: seq<Fact>, f: Fact, lower: string -> string)
    ensures FirstMentions(fs + [f], lower)
      == FirstMentions(fs, lower) + if f.Key(lower) in Table(fs, lower) then [] else [f.Key(lower)]
    ensures Table(fs + [f], lower) == Table(fs, lower)[f.Key(lower) := f]
  {
    var gs := fs + [f];
    assert gs[..|gs|-1] == fs && gs[|gs|-1] == f;
    TableHoldsLatest(fs, lower);
  }

  lemma AcceptedStep(fs: seq<Fact>, candidates: seq<Fact>, n: nat, acceptable: Fact -> bool)
    requires n < |candidates|
    ensures fs + Accepted(candidates[n..], acceptable) ==
      (if acceptable(candidates[n]) then fs + [candidates[n]] else fs) + Accepted(candidates[n+1..], acceptable)
  {
    assert candidates[n..][1..] == candidates[n+1..];
    Assoc(fs, [candidates[n]], Accepted(candidates[n+1..], acceptable));
  }

  method CollectFacts(candidates: seq<Fact>, acceptable: Fact -> bool, lower: string -> string)
    returns (ordered: seq<string>, byKey: map<string, Fact>)
    ensures ordered == FirstMentions(Accepted(candidates, acceptable), lower)
    ensures byKey == Table(Accepted(candidates, acceptable), lower)
  {
    ordered, byKey := [], map[];
    ghost var fs: seq<Fact> := [];
    for n := 0 to |candidates|
      invariant fs + Accepted(candidates[n..], acceptable) == Accepted(candidates, acceptable)
      invariant ordered == FirstMentions(fs, lower) && byKey == Table(fs, lower)
    {
      var fact := candidates[n];
      AcceptedStep(fs, candidates, n, acceptable);
      if acceptable(fact) {
        MentionStep(fs, fact, lower);
        if fact.Key(lower) !in byKey {
          ordered := ordered + [fact.Key(lower)];
        }
        byKey := byKey[fact.Key(lower) := fact];
        fs := fs + [fact];
      }
    }
    assert candidates[|candidates|..] == [] && fs + [] == fs;
  }

  method ExtractExactFacts(candidates: seq<Fact>, acceptable: Fact -> bool, lower: string -> string)
    returns (facts: seq<Fact>)
    ensures facts == Extracted(candidates, acceptable, lower)
  {
    var ordered, byKey := CollectFacts(candidates, acceptable, lower);
    TableHoldsLatest(Accepted(candidates, acceptable), lower);
    ghost var latest := LatestOf(Accepted(candidates, acceptable), ordered, lower);
    LabelledByKey(Accepted(candidates, acceptable), ordered, byKey, lower);
    var labelled := set k | k in byKey && byKey[k].name != "" :: byKey[k].value;
    facts := FirstUncovered(ordered, byKey, labelled, latest);
  }

  // ---------------------------------------------------------------- what extraction means

  /** No later fact has the key of the p-th. */
  predicate LastOfItsKey(fs: seq<Fact>, p: nat, lower: string -> string)
    requires p < |fs|
  {
    forall j | p < j < |fs| :: fs[j].Key(lower) != fs[p].Key(lower)
  }

  lemma {:induction false} LatestIsLast(fs: seq<Fact>, key: string, lower: string -> string) returns (p: nat)
    requires key in FirstMentions(fs, lower)
    ensures p < |fs| && fs[p] == Latest(fs, key, lower) && LastOfItsKey(fs, p, lower)
    decreases |fs|
  {
    var n := |fs| - 1;
    if fs[n].Key(lower) == key {
      p := n;
    } else {
      p := LatestIsLast(fs[..n], key, lower);
      LastInPrefix(fs, p, lower);
    }
  }

  lemma LastInPrefix(fs: seq<Fact>, p: nat, lower: string -> string)
    requires p < |fs| - 1 && LastOfItsKey(fs[..|fs|-1], p, lower) && fs[|fs|-1].Key(lower) != fs[p].Key(lower)
    ensures LastOfItsKey(fs, p, lower)
  {
    forall j | p < j < |fs| ensures fs[j].Key(lower) != fs[p].Key(lower) {
      assert j < |fs| - 1 ==> fs[..|fs|-1][j] == fs[j];
    }
  }

  predicate NoKeyTwice(fs: seq<Fact>, lower: string -> string) {
    forall i, j | 0 <= i < j < |fs| :: fs[i].Key(lower) != fs[j].Key(lower)
  }

  lemma {:induction false} MentionsAreDistinct(fs: seq<Fact>, lower: string -> string)
    ensures var keys := FirstMentions(fs, lower);
      && (forall i, j | 0 <= i < j < |keys| :: keys[i] != keys[j])
      && (forall f | f in fs :: f.Key(lower) in keys)
    decreases |fs|
  {
    if fs != [] {
      MentionsAreDistinct(fs[..|fs|-1], lower);
      assert fs == fs[..|fs|-1] + [fs[|fs|-1]];
    }
  }

  lemma {:induction false} UncoveredKeepsOrder(fs: seq<Fact>, covered: set<string>, lower: string -> string)
    requires NoKeyTwice(fs, lower)
    ensures NoKeyTwice(Uncovered(fs, covered), lower)
    ensures forall f :: f in Uncovered(fs, covered) <==> f in fs && !(f.name == "" && f.value in covered)
    decreases |fs|
  {
    if fs != [] {
      UncoveredKeepsOrder(fs[1..], covered, lower);
      forall f | f in fs[1..] ensures f.Key(lower) != fs[0].Key(lower) {
        var i :| 0 <= i < |fs| - 1 && fs[1..][i] == f;
        assert fs[i+1] == f;
      }
    }
  }

  lemma LatestHaveOwnKeys(fs: seq<Fact>, lower: string -> string)
    ensures NoKeyTwice(LatestOf(fs, FirstMentions(fs, lower), lower), lower)
  {
    MentionsAreDistinct(fs, lower);
  }

  /** The values of the accepted facts that have a label, as last stated. */
  function CoveredValues(fs: seq<Fact>, lower: string -> string): set<string> {
    LabelledValues(LatestOf(fs, FirstMentions(fs, lower), lower))
  }

  /** A bare value that a labelled fact carries says nothing new. */
  predicate IsCovered(fs: seq<Fact>, f: Fact, lower: string -> string) {
    f.name == "" && f.value in CoveredValues(fs, lower)
  }

  /** What extraction keeps before it is cut to size. */
  function AllLatest(fs: seq<Fact>, lower: string -> string): seq<Fact> {
    Uncovered(LatestOf(fs, FirstMentions(fs, lower), lower), CoveredValues(fs, lower))
  }

  lemma AllLatestAre(fs: seq<Fact>, lower: string -> string)
    ensures NoKeyTwice(AllLatest(fs, lower), lower)
    ensures forall f :: f in AllLatest(fs, lower) <==>
      f in LatestOf(fs, FirstMentions(fs, lower), lower) && !IsCovered(fs, f, lower)
  {
    LatestHaveOwnKeys(fs, lower);
    UncoveredKeepsOrder(LatestOf(fs, FirstMentions(fs, lower), lower), CoveredValues(fs, lower), lower);
  }

  /**
   * An extracted fact is the last accepted one of its key and not a bare value that a labelled fact carries; no key is
   * extracted twice, and no more than a block holds.
   */
  lemma ExtractedAreLatest(candidates: seq<Fact>, acceptable: Fact -> bool, lower: string -> string, f: Fact)
    returns (p: nat)
    requires f in Extracted(candidates, acceptable, lower)
    ensures var fs := Accepted(candidates, acceptable);
      p < |fs| && fs[p] == f && LastOfItsKey(fs, p, lower) && !IsCovered(fs, f, lower)
    ensures NoKeyTwice(Extracted(candidates, acceptable, lower), lower)
    ensures |Extracted(candidates, acceptable, lower)| <= MAX_EXACT_FACTS
  {
    var fs := Accepted(candidates, acceptable);
    var keys := FirstMentions(fs, lower);
    AllLatestAre(fs, lower);
    assert Extracted(candidates, acceptable, lower) == AtMost(AllLatest(fs, lower), MAX_EXACT_FACTS);
    assert f in AllLatest(fs, lower);
    var i :| 0 <= i < |keys| && LatestOf(fs, keys, lower)[i] == f;
    p := LatestIsLast(fs, keys[i], lower);
  }

  /** Nothing else is left out: the last fact of any key is extracted, is covered by a labelled one, or the block is full. */
  lemma LatestAreExtracted(candidates: seq<Fact>, acceptable: Fact -> bool, lower: string -> string, p: nat)
    requires p < |Accepted(candidates, acceptable)| && LastOfItsKey(Accepted(candidates, acceptable), p, lower)
    ensures var fs, facts := Accepted(candidates, acceptable), Extracted(candidates, acceptable, lower);
      |facts| == MAX_EXACT_FACTS || fs[p] in facts || IsCovered(fs, fs[p], lower)
  {
    var fs := Accepted(candidates, acceptable);
    var key := fs[p].Key(lower);
    MentionsAreDistinct(fs, lower);
    assert fs[p] in fs;
    var q := LatestIsLast(fs, key, lower);
    assert p == q;
    var keys := FirstMentions(fs, lower);
    var i :| 0 <= i < |keys| && keys[i] == key;
    assert LatestOf(fs, keys, lower)[i] == fs[p];
    AllLatestAre(fs, lower);
    assert Extracted(candidates, acceptable, lower) == AtMost(AllLatest(fs, lower), MAX_EXACT_FACTS);
  }

  method FirstUncovered(ordered: seq<string>, byKey: map<string, Fact>, labelled: set<string>, ghost latest: seq<Fact>)
    returns (facts: seq<Fact>)
    requires |latest| == |ordered|
    requires forall i | 0 <= i < |ordered| :: ordered[i] in byKey && byKey[ordered[i]] == latest[i]
    ensures facts == AtMost(Uncovered(latest, labelled), MAX_EXACT_FACTS)
  {
    facts := [];
    for n := 0 to |ordered|
      invariant |facts| < MAX_EXACT_FACTS
      invariant facts + Uncovered(latest[n..], labelled) == Uncovered(latest, labelled)
    {
      var fact := byKey[ordered[n]];
      assert latest[n..][0] == fact && latest[n..][1..] == latest[n+1..];
      if fact.name == "" && fact.value in labelled { continue; }
      Assoc(facts, [fact], Uncovered(latest[n+1..], labelled));
      facts := facts + [fact];
      if |facts| == MAX_EXACT_FACTS {
        return facts;
      }
    }
  }

  lemma LabelledByKey(fs: seq<Fact>, ordered: seq<string>, byKey: map<string, Fact>, lower: string -> string)
    requires ordered == FirstMentions(fs, lower) && byKey == Table(fs, lower)
    ensures (set k | k in byKey && byKey[k].name != "" :: byKey[k].value)
      == LabelledValues(LatestOf(fs, ordered, lower))
  {
    TableHoldsLatest(fs, lower);
    var latest := LatestOf(fs, ordered, lower);
    forall k | k in byKey && byKey[k].name != "" ensures byKey[k].value in LabelledValues(latest) {
      var i :| 0 <= i < |ordered| && ordered[i] == k;
      assert latest[i] in latest;
    }
  }

  // ---------------------------------------------------------------- the block in a summary

  /** The facts whose values a summary does not hold. */
  function Missing(summary: string, facts: seq<Fact>): seq<Fact> {
    if facts == [] then []
    else (if Contains(summary, facts[0].value) then [] else [facts[0]]) + Missing(summary, facts[1..])
  }

  function Entries(facts: seq<Fact>): string {
    if facts == [] then "" else "\n- " + facts[0].Render() + Entries(facts[1..])
  }

  /** What stands in front of the block. */
  function Lead(summary: string): string {
    var trimmed := TrimNewlines(summary);
    if trimmed == "" then "" else trimmed + "\n\n"
  }

  function Ensured(summary: string, facts: seq<Fact>): string {
    var missing := Missing(summary, facts);
    if missing == [] then summary else Lead(summary) + HEADING + Entries(missing)
  }

  lemma MissingStep(summary: string, facts: seq<Fact>, n: nat, missing: seq<Fact>)
    requires n < |facts|
    ensures missing + Missing(summary, facts[n..]) ==
      (if Contains(summary, facts[n].value) then missing else missing + [facts[n]]) + Missing(summary, facts[n+1..])
  {
    assert facts[n..][1..] == facts[n+1..];
    Assoc(missing, [facts[n]], Missing(summary, facts[n+1..]));
  }

  method CollectMissing(summary: string, facts: seq<Fact>) returns (missing: seq<Fact>)
    ensures missing == Missing(summary, facts)
  {
    missing := [];
    for n := 0 to |facts|
      invariant missing + Missing(summary, facts[n..]) == Missing(summary, facts)
    {
      MissingStep(summary, facts, n, missing);
      if !Contains(summary, facts[n].value) {
        missing := missing + [facts[n]];
      }
    }
    assert facts[|facts|..] == [] && missing + [] == missing;
  }

  lemma EntryStep(out: string, missing: seq<Fact>, n: nat)
    requires n < |missing|
    ensures out + Entries(missing[n..]) == out + ("\n- " + missing[n].Render()) + Entries(missing[n+1..])
  {
    assert missing[n..][1..] == missing[n+1..];
    Assoc(out, "\n- " + missing[n].Render(), Entries(missing[n+1..]));
  }

  method AppendEntries(start: string, missing: seq<Fact>) returns (out: string)
    ensures out == start + Entries(missing)
  {
    out := start;
    for n := 0 to |missing|
      invariant out + Entries(missing[n..]) == start + Entries(missing)
    {
      EntryStep(out, missing, n);
      out := out + ("\n- " + missing[n].Render());
    }
    assert missing[|missing|..] == [] && out + "" == out;
  }

  method EnsureExactFacts(summary: string, facts: seq<Fact>) returns (out: string)
    ensures out == Ensured(summary, facts)
  {
    if |facts| == 0 { return summary; }
    var missing := CollectMissing(summary, facts);
    if |missing| == 0 { return summary; }
    out := TrimNewlines(summary);
    if |out| > 0 {
      out := out + "\n\n";
    }
    out := out + HEADING;
    out := AppendEntries(out, missing);
  }

  // ---------------------------------------------------------------- reading a block

  /** A line without the space around it and without its bullet. */
  function EntryOf(line: string): string {
    var trimmed := TrimSpace(line);
    TrimSpace(if "- " <= trimmed then trimmed[2..] else trimmed)
  }

  function FactOf(entry: string): Fact {
    var cut := Index(entry, ": ");
    if cut < 0 then Fact("", entry) else Fact(TrimSpace(entry[..cut]), TrimSpace(entry[cut+2..]))
  }

  /** The fact a line states, if any. */
  function LineFacts(line: string): seq<Fact> {
    if EntryOf(line) == "" then [] else [FactOf(EntryOf(line))]
  }

  function Collected(lines: seq<string>, facts: string -> seq<Fact>): seq<Fact> {
    if lines == [] then [] else facts(lines[0]) + Collected(lines[1..], facts)
  }

  function Parsed(summary: string): seq<Fact> {
    var index := Index(summary, HEADING);
    if index < 0 then [] else Collected(Lines(summary[index+|HEADING|..]), LineFacts)
  }

  method ParseLine(line: string) returns (facts: seq<Fact>)
    ensures facts == LineFacts(line)
  {
    var entry := TrimSpace(line);
    if "- " <= entry {
      entry := entry[2..];
    }
    entry := TrimSpace(entry);
    if entry == "" { return []; }
    var cut := Index(entry, ": ");
    if cut < 0 {
      return [Fact("", entry)];
    }
    return [Fact(TrimSpace(entry[..cut]), TrimSpace(entry[cut+2..]))];
  }

  lemma CollectedNext(lines: seq<string>, n: nat, facts: seq<Fact>)
    requires n < |lines|
    ensures facts + Collected(lines[n..], LineFacts) == facts + LineFacts(lines[n]) + Collected(lines[n+1..], LineFacts)
  {
    assert lines[n..][1..] == lines[n+1..];
    Assoc(facts, LineFacts(lines[n]), Collected(lines[n+1..], LineFacts));
  }

  method CollectLines(lines: seq<string>) returns (facts: seq<Fact>)
    ensures facts == Collected(lines, LineFacts)
  {
    facts := [];
    for n := 0 to |lines|
      invariant facts + Collected(lines[n..], LineFacts) == Collected(lines, LineFacts)
    {
      var stated := ParseLine(lines[n]);
      CollectedNext(lines, n, facts);
      facts := facts + stated;
    }
    assert lines[|lines|..] == [] && facts + [] == facts;
  }

  method ParseExactFacts(summary: string) returns (facts: seq<Fact>)
    ensures facts == Parsed(summary)
  {
    var index := Index(summary, HEADING);
    if index < 0 { return []; }
    facts := CollectLines(Lines(summary[index+|HEADING|..]));
  }

  // ---------------------------------------------------------------- the round trip

  lemma ShapedTrims(f: Fact)
    requires f.Shaped()
    ensures f.Render() != "" && '\n' !in f.Render()
    ensures Trimmed(f.Render()) && Trimmed("- " + f.Render()) && Trimmed(f.value)
  {
    assert f.value[0] in f.value && f.value[|f.value|-1] in f.value;
    assert f.Render()[|f.Render()|-1] == f.value[|f.value|-1];
  }

  lemma EntryCut(f: Fact)
    requires f.Shaped()
    ensures Index(f.Render(), ": ") == if f.name == "" then -1 else |f.name|
  {
    var entry := f.Render();
    var cut := Index(entry, ": ");
    if f.name == "" {
      assert forall i | 0 <= i < |entry| :: entry[i] in f.value;
      if cut >= 0 {
        IndexOccurs(entry, ": ");
        OccursChar(entry, ": ", cut, 1);
      }
    } else {
      assert OccursAt(entry, ": ", |f.name|);
      IndexIsFirst(entry, ": ", |f.name|);
      IndexOccurs(entry, ": ");
      OccursChar(entry, ": ", cut, 0);
    }
  }

  lemma EntryOfRendered(f: Fact)
    requires f.Shaped()
    ensures EntryOf("- " + f.Render()) == f.Render()
  {
    ShapedTrims(f);
    TrimmedIsFixed("- " + f.Render());
    TrimmedIsFixed(f.Render());
    assert ("- " + f.Render())[2..] == f.Render();
  }

  /** An entry is read back as the fact it was written for. */
  lemma FactOfRendered(f: Fact)
    requires f.Shaped()
    ensures FactOf(f.Render()) == f
  {
    ShapedTrims(f);
    EntryCut(f);
    if f.name != "" {
      assert f.Render()[..|f.name|] == f.name && f.Render()[|f.name|+2..] == f.value;
      TrimmedIsFixed(f.value);
      TrimmedIsFixed(f.name);
    }
  }

  lemma LineRoundTrip(f: Fact)
    requires f.Shaped()
    ensures LineFacts("- " + f.Render()) == [f] && '\n' !in "- " + f.Render()
  {
    EntryOfRendered(f);
    FactOfRendered(f);
    ShapedTrims(f);
  }

  lemma CollectedStep(line: string, lines: seq<string>, facts: string -> seq<Fact>)
    ensures Collected([line] + lines, facts) == facts(line) + Collected(lines, facts)
  {
    assert ([line] + lines)[1..] == lines;
  }

  /** The lines of a non-empty block. */
  function Bullets(facts: seq<Fact>): string
    requires facts != []
  {
    var line := "- " + facts[0].Render();
    if |facts| == 1 then line else line + "\n" + Bullets(facts[1..])
  }

  lemma {:induction false} EntriesAreBullets(facts: seq<Fact>)
    requires facts != []
    ensures Entries(facts) == "\n" + Bullets(facts)
    decreases |facts|
  {
    var r := facts[0].Render();
    assert "\n- " == "\n" + "- ";
    if |facts| == 1 {
      assert Entries(facts) == "\n- " + r + "" == "\n- " + r;
      Regroup("\n", "- ", r, "");
    } else {
      EntriesAreBullets(facts[1..]);
      Regroup("\n", "- ", r, Bullets(facts[1..]));
    }
  }

  lemma LastBullet(f: Fact)
    requires f.Shaped()
    ensures Collected(Lines("- " + f.Render()), LineFacts) == [f]
  {
    var line := "- " + f.Render();
    LineRoundTrip(f);
    LinesOf(line, "");
    CollectedStep(line, [], LineFacts);
    assert [line] + [] == [line];
  }

  lemma BulletStep(f: Fact, block: string)
    requires f.Shaped()
    ensures Collected(Lines("- " + f.Render() + "\n" + block), LineFacts) == [f] + Collected(Lines(block), LineFacts)
  {
    var line := "- " + f.Render();
    LineRoundTrip(f);
    LinesOf(line, block);
    CollectedStep(line, Lines(block), LineFacts);
  }

  lemma MoreBullets(facts: seq<Fact>)
    requires |facts| > 1 && facts[0].Shaped()
    requires Collected(Lines(Bullets(facts[1..])), LineFacts) == facts[1..]
    ensures Collected(Lines(Bullets(facts)), LineFacts) == facts
  {
    BulletStep(facts[0], Bullets(facts[1..]));
    assert [facts[0]] + facts[1..] == facts;
  }

  lemma {:induction false} BulletsRoundTrip(facts: seq<Fact>)
    requires forall f | f in facts :: f.Shaped()
    requires facts != []
    ensures Collected(Lines(Bullets(facts)), LineFacts) == facts
    decreases |facts|
  {
    if |facts| == 1 {
      LastBullet(facts[0]);
    } else {
      BulletsRoundTrip(facts[1..]);
      MoreBullets(facts);
    }
  }

  /** The block after the heading opens with an empty line and states exactly the facts it was written for. */
  lemma BlockIsReadBack(facts: seq<Fact>)
    requires facts != [] && forall f | f in facts :: f.Shaped()
    ensures Collected(Lines(Entries(facts)), LineFacts) == facts
  {
    EntriesAreBullets(facts);
    BulletsRoundTrip(facts);
    EmptyLineFirst(Bullets(facts));
  }

  lemma EmptyLineFirst(rest: string)
    ensures Collected(Lines("\n" + rest), LineFacts) == Collected(Lines(rest), LineFacts)
  {
    assert "" + "\n" + rest == "\n" + rest;
    LinesOf("", rest);
    CollectedStep("", Lines(rest), LineFacts);
    EmptyLineSaysNothing();
  }

  lemma EmptyLineSaysNothing()
    ensures LineFacts("") == []
  {
  }

  /** No heading starts before the one the block gets. */
  lemma HeadingIsFirst(summary: string, block: string)
    requires !Contains(summary, HEADING)
    ensures Index(Lead(summary) + HEADING + block, HEADING) == |Lead(summary)|
  {
    var lead := Lead(summary);
    var s := lead + HEADING + block;
    assert s[|lead|..|lead|+|HEADING|] == HEADING;
    IndexIsFirst(s, HEADING, |lead|);
    IndexOccurs(s, HEADING);
    var i := Index(s, HEADING);
    if i < |lead| {
      NoHeadingAcross(summary, block, i);
    }
  }

  lemma NoHeadingAcross(summary: string, block: string, i: nat)
    requires !Contains(summary, HEADING) && i < |Lead(summary)|
    ensures !OccursAt(Lead(summary) + HEADING + block, HEADING, i)
  {
    var trimmed, lead := TrimNewlines(summary), Lead(summary);
    var s := lead + HEADING + block;
    if OccursAt(s, HEADING, i) {
      if i + |HEADING| <= |trimmed| {
        assert s[i..i+|HEADING|] == summary[i..i+|HEADING|];
        IndexIsFirst(summary, HEADING, i);
      } else {
        var k := if i <= |trimmed| then |trimmed| else i;
        assert s[k] == '\n';
        OccursChar(s, HEADING, i, k - i);
      }
    }
  }

  lemma MissingAreFacts(summary: string, facts: seq<Fact>)
    ensures forall f | f in Missing(summary, facts) :: f in facts && !Contains(summary, f.value)
    ensures forall f | f in facts && !Contains(summary, f.value) :: f in Missing(summary, facts)
  {
  }

  /** Reading a summary back gives exactly the facts that had to be added to it, in order. */
  lemma BlockRoundTrip(summary: string, facts: seq<Fact>)
    requires !Contains(summary, HEADING)
    requires forall f | f in facts :: f.Shaped()
    ensures Parsed(Ensured(summary, facts)) == Missing(summary, facts)
  {
    var missing := Missing(summary, facts);
    if missing != [] {
      MissingAreFacts(summary, facts);
      HeadingIsFirst(summary, Entries(missing));
      BlockIsReadBack(missing);
      assert (Lead(summary) + HEADING + Entries(missing))[|Lead(summary)|+|HEADING|..] == Entries(missing);
    }
  }

  /**
   * A fact the model kept in its prose is not in the block, so only the facts it dropped reach the next summarization
   * verbatim.
   */
  lemma CarriedOnExactlyWhenDropped(summary: string, facts: seq<Fact>, f: Fact)
    requires !Contains(summary, HEADING)
    requires forall g | g in facts :: g.Shaped()
    requires f in facts
    ensures f in Parsed(Ensured(summary, facts)) <==> !Contains(summary, f.value)
  {
    BlockRoundTrip(summary, facts);
    MissingAreFacts(summary, facts);
  }

  // ---------------------------------------------------------------- nothing given is lost

  lemma ContainsInMiddle(a: string, b: string, c: string, part: string)
    requires Contains(b, part)
    ensures Contains(a + b + c, part)
  {
    var i := Index(b, part);
    IndexOccurs(b, part);
    assert (a + b + c)[|a|+i..|a|+i+|part|] == b[i..i+|part|];
    IndexIsFirst(a + b + c, part, |a| + i);
  }

  lemma RenderHoldsValue(f: Fact)
    ensures Contains(f.Render(), f.value)
  {
    var s := f.Render();
    assert s[|s|-|f.value|..|s|-|f.value|+|f.value|] == f.value;
    IndexIsFirst(s, f.value, |s| - |f.value|);
  }

  lemma {:induction false} EntriesHoldValues(facts: seq<Fact>, f: Fact)
    requires f in facts
    ensures Contains(Entries(facts), f.value)
    decreases |facts|
  {
    var line, rest := "\n- " + facts[0].Render(), Entries(facts[1..]);
    if f == facts[0] {
      RenderHoldsValue(f);
      ContainsInMiddle("\n- ", f.Render(), rest, f.value);
    } else {
      EntriesHoldValues(facts[1..], f);
      ContainsInMiddle(line, rest, "", f.value);
      assert line + rest + "" == Entries(facts);
    }
  }

  /** Trimming newlines off a summary never cuts into a value that does not end in one. */
  lemma TrimmingKeepsValue(summary: string, value: string)
    requires Contains(summary, value) && '\n' !in value
    ensures Contains(TrimNewlines(summary), value)
  {
    var i, trimmed := Index(summary, value), TrimNewlines(summary);
    if value != "" {
      IndexOccurs(summary, value);
      assert summary[i..i+|value|][|value|-1] == summary[i+|value|-1];
      assert trimmed[i..i+|value|] == summary[i..i+|value|];
      IndexIsFirst(trimmed, value, i);
    }
  }

  /** Every given fact's value is in the summary that comes out. */
  lemma EnsuredHoldsEveryValue(summary: string, facts: seq<Fact>, f: Fact)
    requires f in facts && '\n' !in f.value
    ensures Contains(Ensured(summary, facts), f.value)
  {
    var missing := Missing(summary, facts);
    MissingAreFacts(summary, facts);
    if missing != [] {
      if f in missing {
        EntriesHoldValues(missing, f);
        ContainsInMiddle(Lead(summary) + HEADING, Entries(missing), "", f.value);
        assert Lead(summary) + HEADING + Entries(missing) + "" == Ensured(summary, facts);
      } else {
        LeadHoldsValue(summary, f.value, HEADING + Entries(missing));
        Assoc(Lead(summary), HEADING, Entries(missing));
      }
    }
  }

  lemma LeadHoldsValue(summary: string, value: string, block: string)
    requires Contains(summary, value) && '\n' !in value
    ensures Contains(Lead(summary) + block, value)
  {
    var trimmed := TrimNewlines(summary);
    TrimmingKeepsValue(summary, value);
    var rest := (if trimmed == "" then "" else "\n\n") + block;
    ContainsInMiddle("", trimmed, rest, value);
    assert "" + trimmed + rest == Lead(summary) + block;
  }

  // ---------------------------------------------------------------- across summaries

  function NotSuperseded(carried: seq<Fact>, superseded: set<string>, lower: string -> string): seq<Fact> {
    if carried == [] then []
    else if carried[0].Key(lower) in superseded then NotSuperseded(carried[1..], superseded, lower)
    else [carried[0]] + NotSuperseded(carried[1..], superseded, lower)
  }

  function Keys(facts: seq<Fact>, lower: string -> string): set<string> {
    set f | f in facts :: f.Key(lower)
  }

  /** The newest facts, when there are more than a block may hold. */
  function Newest(facts: seq<Fact>): seq<Fact> {
    if |facts| > MAX_EXACT_FACTS then facts[|facts|-MAX_EXACT_FACTS..] else facts
  }

  function CarriedForward(previousSummary: string, recent: seq<Fact>, lower: string -> string): seq<Fact> {
    var carried := Parsed(previousSummary);
    if carried == [] then recent else Newest(NotSuperseded(carried, Keys(recent, lower), lower) + recent)
  }

  method CarryForwardExactFacts(previousSummary: string, recent: seq<Fact>, lower: string -> string)
    returns (merged: seq<Fact>)
    ensures merged == CarriedForward(previousSummary, recent, lower)
  {
    var carried := ParseExactFacts(previousSummary);
    if |carried| == 0 { return recent; }
    var superseded := Keys(recent, lower);
    merged := DropSuperseded(carried, superseded, lower);
    merged := TakeNewest(merged + recent);
  }

  method TakeNewest(all: seq<Fact>) returns (merged: seq<Fact>)
    ensures merged == Newest(all)
  {
    merged := all;
    if |merged| > MAX_EXACT_FACTS {
      merged := merged[|merged|-MAX_EXACT_FACTS..];
    }
  }

  method DropSuperseded(carried: seq<Fact>, superseded: set<string>, lower: string -> string)
    returns (merged: seq<Fact>)
    ensures merged == NotSuperseded(carried, superseded, lower)
  {
    merged := [];
    for n := 0 to |carried|
      invariant merged + NotSuperseded(carried[n..], superseded, lower) == NotSuperseded(carried, superseded, lower)
    {
      assert carried[n..][1..] == carried[n+1..];
      if carried[n].Key(lower) in superseded { continue; }
      Assoc(merged, [carried[n]], NotSuperseded(carried[n+1..], superseded, lower));
      merged := merged + [carried[n]];
    }
    assert carried[|carried|..] == [] && merged + [] == merged;
  }

  /** The summary that is stored: what the model wrote, with every literal restored that it dropped. */
  method RestoreFacts(finalSummary: string, previousSummary: string, candidates: seq<Fact>,
    acceptable: Fact -> bool, lower: string -> string) returns (saved: string)
    ensures saved == if finalSummary == "" then "" else
      Ensured(finalSummary, CarriedForward(previousSummary, Extracted(candidates, acceptable, lower), lower))
  {
    saved := finalSummary;
    if saved != "" {
      var recent := ExtractExactFacts(candidates, acceptable, lower);
      var facts := CarryForwardExactFacts(previousSummary, recent, lower);
      saved := EnsureExactFacts(saved, facts);
    }
  }

  /** Fact i of those kept is dropped exactly when it and all younger facts are too many. */
  predicate CarriedOrDropped(kept: seq<Fact>, recent: seq<Fact>, all: seq<Fact>, i: nat)
    requires i < |kept|
  {
    var place := |kept| - i + |recent|;
    && |all| <= MAX_EXACT_FACTS
    && if place > MAX_EXACT_FACTS then |all| < place else place <= |all| && all[|all| - place] == kept[i]
  }

  lemma NewestOf(kept: seq<Fact>, recent: seq<Fact>, i: nat)
    requires |recent| <= MAX_EXACT_FACTS && i < |kept|
    ensures CarriedOrDropped(kept, recent, Newest(kept + recent), i)
  {
  }

  lemma NewestEndWith(kept: seq<Fact>, recent: seq<Fact>)
    requires |recent| <= MAX_EXACT_FACTS
    ensures var all := Newest(kept + recent); |recent| <= |all| && all[|all|-|recent|..] == recent
  {
    assert (kept + recent)[|kept|..] == recent;
  }

  lemma FreshAreCarried(previousSummary: string, recent: seq<Fact>, lower: string -> string)
    requires |recent| <= MAX_EXACT_FACTS
    ensures var all := CarriedForward(previousSummary, recent, lower);
      |recent| <= |all| && all[|all|-|recent|..] == recent
  {
    NewestEndWith(NotSuperseded(Parsed(previousSummary), Keys(recent, lower), lower), recent);
    assert recent[0..] == recent;
  }

  lemma CarriedAreNewest(previousSummary: string, recent: seq<Fact>, lower: string -> string)
    requires NotSuperseded(Parsed(previousSummary), Keys(recent, lower), lower) != []
    ensures CarriedForward(previousSummary, recent, lower) ==
      Newest(NotSuperseded(Parsed(previousSummary), Keys(recent, lower), lower) + recent)
  {
  }

  /**
   * What carrying forward keeps: every recent fact, and the last of the earlier facts that no recent one supersedes,
   * as many as still fit.
   */
  lemma CarriedExactly(previousSummary: string, recent: seq<Fact>, lower: string -> string, i: nat)
    requires |recent| <= MAX_EXACT_FACTS
    requires i < |NotSuperseded(Parsed(previousSummary), Keys(recent, lower), lower)|
    ensures var kept := NotSuperseded(Parsed(previousSummary), Keys(recent, lower), lower);
      var all := CarriedForward(previousSummary, recent, lower);
      && CarriedOrDropped(kept, recent, all, i)
      && |recent| <= |all| && all[|all|-|recent|..] == recent
  {
    CarriedAreNewest(previousSummary, recent, lower);
    NewestEndWith(NotSuperseded(Parsed(previousSummary), Keys(recent, lower), lower), recent);
    NewestOf(NotSuperseded(Parsed(previousSummary), Keys(recent, lower), lower), recent, i);
  }

  lemma NotSupersededAre(carried: seq<Fact>, superseded: set<string>, lower: string -> string)
    ensures forall f :: f in NotSuperseded(carried, superseded, lower) <==> f in carried && f.Key(lower) !in superseded
  {
  }

  lemma ParsedHaveNoNewline(summary: string)
    ensures forall f | f in Parsed(summary) :: '\n' !in f.value
  {
    var index := Index(summary, HEADING);
    if index >= 0 {
      LinesHaveNoNewlineValues(Lines(summary[index+|HEADING|..]));
    }
  }

  lemma {:induction false} LinesHaveNoNewlineValues(lines: seq<string>)
    requires forall l | l in lines :: '\n' !in l
    ensures forall f | f in Collected(lines, LineFacts) :: '\n' !in f.value
    decreases |lines|
  {
    if lines != [] {
      LinesHaveNoNewlineValues(lines[1..]);
      LineHasNoNewlineValue(lines[0]);
    }
  }

  lemma EntryHasNoNewline(line: string)
    requires '\n' !in line
    ensures '\n' !in EntryOf(line)
  {
    var trimmed := TrimSpace(line);
    TrimSpaceIsPart(line);
    TrimSpaceIsPart(if "- " <= trimmed then trimmed[2..] else trimmed);
  }

  lemma FactHasNoNewline(entry: string)
    requires '\n' !in entry
    ensures '\n' !in FactOf(entry).value
  {
    var cut := Index(entry, ": ");
    if cut >= 0 {
      TrimSpaceIsPart(entry[cut+2..]);
    }
  }

  lemma LineHasNoNewlineValue(line: string)
    requires '\n' !in line
    ensures forall f | f in LineFacts(line) :: '\n' !in f.value
  {
    EntryHasNoNewline(line);
    FactHasNoNewline(EntryOf(line));
  }

  /**
   * The stored summary holds the value of every recent fact, and of every fact of the previous block that no recent
   * fact supersedes and that the cap, which drops the oldest first, does not push out.
   */
  lemma SavedSummaryKeepsFacts(finalSummary: string, previousSummary: string, candidates: seq<Fact>,
    acceptable: Fact -> bool, lower: string -> string)
    requires forall f | f in candidates && acceptable(f) :: '\n' !in f.value
    ensures var recent := Extracted(candidates, acceptable, lower);
      var kept := NotSuperseded(Parsed(previousSummary), Keys(recent, lower), lower);
      var saved := Ensured(finalSummary, CarriedForward(previousSummary, recent, lower));
      && (forall f | f in recent :: Contains(saved, f.value))
      && (forall i | 0 <= i < |kept| && |kept| - i + |recent| <= MAX_EXACT_FACTS :: Contains(saved, kept[i].value))
  {
    var recent := Extracted(candidates, acceptable, lower);
    var superseded := Keys(recent, lower);
    var kept := NotSuperseded(Parsed(previousSummary), superseded, lower);
    var all := CarriedForward(previousSummary, recent, lower);
    FreshAreCarried(previousSummary, recent, lower);
    forall f | f in recent ensures Contains(Ensured(finalSummary, all), f.value) {
      ExtractedAreAccepted(candidates, acceptable, lower, f);
      assert f in all[|all|-|recent|..];
      EnsuredHoldsEveryValue(finalSummary, all, f);
    }
    forall i | 0 <= i < |kept| && |kept| - i + |recent| <= MAX_EXACT_FACTS
      ensures Contains(Ensured(finalSummary, all), kept[i].value)
    {
      CarriedExactly(previousSummary, recent, lower, i);
      NotSupersededAre(Parsed(previousSummary), superseded, lower);
      ParsedHaveNoNewline(previousSummary);
      assert kept[i] in kept;
      EnsuredHoldsEveryValue(finalSummary, all, kept[i]);
    }
  }

  lemma ExtractedAreAccepted(candidates: seq<Fact>, acceptable: Fact -> bool, lower: string -> string, f: Fact)
    requires f in Extracted(candidates, acceptable, lower)
    ensures f in candidates && acceptable(f)
  {
    var fs := Accepted(candidates, acceptable);
    var keys := FirstMentions(fs, lower);
    var latest := LatestOf(fs, keys, lower);
    UncoveredAre(latest, LabelledValues(latest));
    assert f in latest;
    LatestAre(fs, keys, lower);
    AcceptedAre(candidates, acceptable);
  }

  lemma LatestAre(fs: seq<Fact>, keys: seq<string>, lower: string -> string)
    requires forall k | k in keys :: k in FirstMentions(fs, lower)
    ensures forall f | f in LatestOf(fs, keys, lower) :: f in fs
  {
  }

  lemma UncoveredAre(fs: seq<Fact>, covered: set<string>)
    ensures forall f | f in Uncovered(fs, covered) :: f in fs
  {
  }

  lemma AcceptedAre(candidates: seq<Fact>, acceptable: Fact -> bool)
    ensures forall f | f in Accepted(candidates, acceptable) :: f in candidates && acceptable(f)
  {
  }
}
