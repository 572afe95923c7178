/** What a summary states that holds a block of facts already when another one is added. */
module FactBlocks {
  import opened Seqs
  import opened Text
  import opened ExactFacts

  /** More text behind a string leaves the first occurrence where it was. */
  lemma {:induction false} IndexExtends(s: string, more: string, part: string)
    requires Contains(s, part)
    ensures Index(s + more, part) == Index(s, part)
    decreases |s|
  {
    if part <= s {
      assert part <= s + more;
    } else {
      IndexExtends(s[1..], more, part);
      assert (s + more)[1..] == s[1..] + more;
      assert s[..|part|] == (s + more)[..|part|];
    }
  }

  lemma {:induction false} LinesSplit(a: string, b: string)
    ensures Lines(a + "\n" + b) == Lines(a) + Lines(b)
    decreases |a|
  {
    var i := NewlineAt(a);
    if i == |a| {
      LinesOf(a, b);
    } else {
      var head, rest := a[..i], a[i+1..];
      assert a == head + "\n" + rest;
      assert a + "\n" + b == head + "\n" + (rest + "\n" + b);
      LinesOf(head, rest);
      LinesOf(head, rest + "\n" + b);
      LinesSplit(rest, b);
      Assoc([head], Lines(rest), Lines(b));
    }
  }

  lemma {:induction false} CollectedConcat(a: seq<string>, b: seq<string>)
    ensures Collected(a + b, LineFacts) == Collected(a, LineFacts) + Collected(b, LineFacts)
    decreases |a|
  {
    if a == [] {
      assert a + b == b;
    } else {
      CollectedConcat(a[1..], b);
      assert a + b == [a[0]] + (a[1..] + b) && a == [a[0]] + a[1..];
      CollectedStep(a[0], a[1..] + b, LineFacts);
      CollectedStep(a[0], a[1..], LineFacts);
      Assoc(LineFacts(a[0]), Collected(a[1..], LineFacts), Collected(b, LineFacts));
    }
  }

  /** The facts of two pieces of text on separate lines. */
  lemma FactsSplit(a: string, b: string)
    ensures Collected(Lines(a + ("\n" + b)), LineFacts) == Collected(Lines(a), LineFacts) + Collected(Lines(b), LineFacts)
  {
    Assoc(a, "\n", b);
    LinesSplit(a, b);
    CollectedConcat(Lines(a), Lines(b));
  }

  lemma BehindHeading(summary: string, more: string)
    requires Contains(summary, HEADING)
    ensures Parsed(summary + more) == Collected(Lines(summary[Index(summary, HEADING)+|HEADING|..] + more), LineFacts)
  {
    var i := Index(summary, HEADING) + |HEADING|;
    IndexExtends(summary, more, HEADING);
    assert (summary + more)[i..] == summary[i..] + more;
  }

  /** What a summary with a heading states, when something follows it. */
  lemma ParsedExtends(summary: string, more: string)
    requires Contains(summary, HEADING)
    ensures Parsed(summary + ("\n" + more)) == Parsed(summary) + Collected(Lines(more), LineFacts)
  {
    BehindHeading(summary, "\n" + more);
    FactsSplit(summary[Index(summary, HEADING)+|HEADING|..], more);
  }

  lemma NothingMore()
    ensures Collected(Lines(""), LineFacts) == []
  {
    LinesOf("", "");
    EmptyLineSaysNothing();
    assert Lines("") == [""];
  }

  /** Trailing newlines state nothing. */
  lemma {:induction false} TrimmingKeepsFacts(summary: string)
    requires Contains(summary, HEADING)
    ensures Contains(TrimNewlines(summary), HEADING) && Parsed(TrimNewlines(summary)) == Parsed(summary)
    decreases |summary|
  {
    TrimmingKeepsValue(summary, HEADING);
    if summary != "" && summary[|summary|-1] == '\n' {
      var shorter := summary[..|summary|-1];
      assert summary == shorter + "\n" == shorter + ("\n" + "");
      HeadingBeforeNewline(shorter);
      TrimmingKeepsFacts(shorter);
      ParsedExtends(shorter, "");
      NothingMore();
    }
  }

  lemma HeadingBeforeNewline(shorter: string)
    requires Contains(shorter + "\n", HEADING)
    ensures Contains(shorter, HEADING)
  {
    var s := shorter + "\n";
    var i := Index(s, HEADING);
    IndexOccurs(s, HEADING);
    OccursChar(s, HEADING, i, |HEADING| - 1);
    assert i + |HEADING| <= |shorter|;
    assert shorter[i..i+|HEADING|] == s[i..i+|HEADING|];
    IndexIsFirst(shorter, HEADING, i);
  }

  /** The heading of a later block, read as a line of the earlier one, is taken for a bare fact. */
  lemma HeadingIsTakenForFact()
    ensures LineFacts(HEADING) == [Fact("", HEADING)]
  {
    TrimmedIsFixed(HEADING);
    if Contains(HEADING, ": ") {
      var i := Index(HEADING, ": ");
      IndexOccurs(HEADING, ": ");
      OccursChar(HEADING, ": ", i, 0);
      OccursChar(HEADING, ": ", i, 1);
      assert false;
    }
  }

  lemma OneLine(line: string)
    requires '\n' !in line
    ensures Collected(Lines(line), LineFacts) == LineFacts(line)
  {
    LinesOf(line, "");
    CollectedStep(line, [], LineFacts);
    assert [line] + [] == [line];
  }

  lemma HeadingStates()
    ensures Collected(Lines(HEADING), LineFacts) == [Fact("", HEADING)]
  {
    HeadingIsTakenForFact();
    OneLine(HEADING);
  }

  /** A block states its heading, if that is read as a line, and its facts. */
  lemma BlockAsLines(facts: seq<Fact>, heading: string)
    requires facts != [] && forall f | f in facts :: f.Shaped()
    ensures Collected(Lines(heading + Entries(facts)), LineFacts) == Collected(Lines(heading), LineFacts) + facts
  {
    EntriesAreBullets(facts);
    BulletsRoundTrip(facts);
    FactsSplit(heading, Bullets(facts));
  }

  /**
   * Adding facts to a summary that holds a block already: it states what it stated, then, if any fact is missing, the
   * heading of the second block as a fact of its own, and then the missing facts.
   */
  lemma SecondBlockAddsItsHeading(summary: string, facts: seq<Fact>)
    requires Contains(summary, HEADING) && forall f | f in facts :: f.Shaped()
    ensures var missing := Missing(summary, facts);
      Parsed(Ensured(summary, facts)) == Parsed(summary) + if missing == [] then [] else [Fact("", HEADING)] + missing
  {
    var missing := Missing(summary, facts);
    if missing == [] {
      assert Parsed(summary) + [] == Parsed(summary);
    } else {
      MissingAreFacts(summary, facts);
      TrimmingKeepsFacts(summary);
      SecondBlock(summary, HEADING, missing);
      HeadingStates();
    }
  }

  /** Whatever text the block opens with, on a line of its own. */
  lemma SecondBlock(summary: string, heading: string, missing: seq<Fact>)
    requires Contains(TrimNewlines(summary), HEADING) && missing != [] && forall f | f in missing :: f.Shaped()
    ensures Parsed(Lead(summary) + heading + Entries(missing)) ==
      Parsed(TrimNewlines(summary)) + (Collected(Lines(heading), LineFacts) + missing)
  {
    var block := heading + Entries(missing);
    LeadThenBlock(summary, heading, Entries(missing));
    ParsedExtends(TrimNewlines(summary), "\n" + block);
    EmptyLineFirst(block);
    BlockAsLines(missing, heading);
  }

  lemma LeadThenBlock(summary: string, heading: string, entries: string)
    requires Contains(TrimNewlines(summary), HEADING)
    ensures Lead(summary) + heading + entries == TrimNewlines(summary) + ("\n" + ("\n" + (heading + entries)))
  {
    TrimmedIsNotEmpty(TrimNewlines(summary));
  }

  lemma TrimmedIsNotEmpty(s: string)
    requires Contains(s, HEADING)
    ensures s != ""
  {
  }
}
