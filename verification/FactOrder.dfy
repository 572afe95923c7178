/** The order of the extracted facts, and which of them a full block keeps, told by positions in the conversation. */
module FactOrder {
  import opened Text
  import opened ExactFacts

  /** Where the key is mentioned first; the length if nowhere. */
  function FirstAt(fs: seq<Fact>, key: string, lower: string -> string): (n: nat)
    ensures n <= |fs|
    ensures n < |fs| ==> fs[n].Key(lower) == key
    ensures forall i | 0 <= i < n :: fs[i].Key(lower) != key
  {
    if fs == [] || fs[0].Key(lower) == key then 0 else 1 + FirstAt(fs[1..], key, lower)
  }

  lemma FirstAtIsFirst(fs: seq<Fact>, key: string, lower: string -> string, n: nat)
    requires n < |fs| && fs[n].Key(lower) == key && forall i | 0 <= i < n :: fs[i].Key(lower) != key
    ensures FirstAt(fs, key, lower) == n
  {
  }

  lemma FirstAtStays(fs: seq<Fact>, n: nat, key: string, lower: string -> string)
    requires n <= |fs| && FirstAt(fs[..n], key, lower) < n
    ensures FirstAt(fs, key, lower) == FirstAt(fs[..n], key, lower)
  {
    var i := FirstAt(fs[..n], key, lower);
    assert forall m | 0 <= m < i :: fs[m] == fs[..n][m];
    FirstAtIsFirst(fs, key, lower, i);
  }

  predicate InOrderOfMention(some: seq<Fact>, fs: seq<Fact>, lower: string -> string) {
    forall i, j | 0 <= i < j < |some| ::
      FirstAt(fs, some[i].Key(lower), lower) < FirstAt(fs, some[j].Key(lower), lower)
  }

  lemma {:induction false} MentionsAreInOrder(fs: seq<Fact>, lower: string -> string)
    ensures var keys := FirstMentions(fs, lower);
      && (forall k | k in keys :: FirstAt(fs, k, lower) < |fs|)
      && (forall i, j | 0 <= i < j < |keys| :: FirstAt(fs, keys[i], lower) < FirstAt(fs, keys[j], lower))
    decreases |fs|
  {
    if fs != [] {
      var n := |fs| - 1;
      var earlier, key := FirstMentions(fs[..n], lower), fs[n].Key(lower);
      MentionsAreInOrder(fs[..n], lower);
      MentionsAreDistinct(fs[..n], lower);
      forall k | k in earlier ensures FirstAt(fs, k, lower) == FirstAt(fs[..n], k, lower) {
        FirstAtStays(fs, n, k, lower);
      }
      if key !in earlier {
        forall i | 0 <= i < n ensures fs[i].Key(lower) != key {
          assert fs[i] == fs[..n][i] && fs[..n][i] in fs[..n];
        }
        FirstAtIsFirst(fs, key, lower, n);
      }
    }
  }

  lemma LatestAreInOrder(fs: seq<Fact>, lower: string -> string)
    ensures InOrderOfMention(LatestOf(fs, FirstMentions(fs, lower), lower), fs, lower)
  {
    MentionsAreInOrder(fs, lower);
  }

  lemma {:induction false} UncoveredAreInOrder(some: seq<Fact>, covered: set<string>, fs: seq<Fact>,
      lower: string -> string)
    requires InOrderOfMention(some, fs, lower)
    ensures InOrderOfMention(Uncovered(some, covered), fs, lower)
    decreases |some|
  {
    if some != [] {
      var rest := Uncovered(some[1..], covered);
      UncoveredAreInOrder(some[1..], covered, fs, lower);
      UncoveredAre(some[1..], covered);
      forall j | 0 <= j < |rest| ensures FirstAt(fs, some[0].Key(lower), lower) < FirstAt(fs, rest[j].Key(lower), lower) {
        assert rest[j] in some[1..];
        var i :| 0 < i < |some| && some[i] == rest[j];
      }
    }
  }

  lemma AllLatestAreInOrder(fs: seq<Fact>, lower: string -> string)
    ensures InOrderOfMention(AllLatest(fs, lower), fs, lower)
  {
    LatestAreInOrder(fs, lower);
    UncoveredAreInOrder(LatestOf(fs, FirstMentions(fs, lower), lower), CoveredValues(fs, lower), fs, lower);
  }

  lemma FirstOnesAreInOrder(some: seq<Fact>, n: nat, fs: seq<Fact>, lower: string -> string)
    requires InOrderOfMention(some, fs, lower)
    ensures InOrderOfMention(AtMost(some, n), fs, lower)
  {
  }

  lemma ExtractedAreFirst(candidates: seq<Fact>, acceptable: Fact -> bool, lower: string -> string)
    ensures Extracted(candidates, acceptable, lower) == AtMost(AllLatest(Accepted(candidates, acceptable), lower), 24)
  {
  }

  lemma BehindTheFirst<T>(all: seq<T>, n: nat, x: T) returns (i: nat)
    requires x in all && x !in AtMost(all, n)
    ensures n <= i < |all| && all[i] == x
  {
    i :| 0 <= i < |all| && all[i] == x;
    assert forall k | 0 <= k < |AtMost(all, n)| :: AtMost(all, n)[k] == all[k];
  }

  /** The facts come in the order in which their keys were first mentioned. */
  lemma ExtractedAreInOrder(candidates: seq<Fact>, acceptable: Fact -> bool, lower: string -> string)
    ensures InOrderOfMention(Extracted(candidates, acceptable, lower), Accepted(candidates, acceptable), lower)
  {
    var fs := Accepted(candidates, acceptable);
    AllLatestAreInOrder(fs, lower);
    ExtractedAreFirst(candidates, acceptable, lower);
    FirstOnesAreInOrder(AllLatest(fs, lower), 24, fs, lower);
  }

  /** A fact that is left out although it is the last of its key and not covered comes behind the 24 that are kept. */
  lemma FirstMentionedAreKept(candidates: seq<Fact>, acceptable: Fact -> bool, lower: string -> string, p: nat)
    requires p < |Accepted(candidates, acceptable)| && LastOfItsKey(Accepted(candidates, acceptable), p, lower)
    ensures var fs, facts := Accepted(candidates, acceptable), Extracted(candidates, acceptable, lower);
      fs[p] in facts || IsCovered(fs, fs[p], lower) ||
      (|facts| == 24 && forall f | f in facts ::
         FirstAt(fs, f.Key(lower), lower) < FirstAt(fs, fs[p].Key(lower), lower))
  {
    var fs, facts := Accepted(candidates, acceptable), Extracted(candidates, acceptable, lower);
    var all := AllLatest(fs, lower);
    ExtractedAreFirst(candidates, acceptable, lower);
    if fs[p] !in facts && !IsCovered(fs, fs[p], lower) {
      LastIsAmongAll(fs, p, lower);
      AllLatestAreInOrder(fs, lower);
      var i := BehindTheFirst(all, 24, fs[p]);
    }
  }

  lemma LastIsAmongAll(fs: seq<Fact>, p: nat, lower: string -> string)
    requires p < |fs| && LastOfItsKey(fs, p, lower) && !IsCovered(fs, fs[p], lower)
    ensures fs[p] in AllLatest(fs, lower)
  {
    var keys := FirstMentions(fs, lower);
    LastIsLatest(fs, p, lower);
    AllLatestAre(fs, lower);
  }

  /** A value is covered exactly if the last fact of some label has it. */
  lemma CoveredExactlyByLabels(fs: seq<Fact>, f: Fact, lower: string -> string)
    ensures IsCovered(fs, f, lower) <==>
      f.name == "" && exists q | 0 <= q < |fs| :: LastOfItsKey(fs, q, lower) && fs[q].name != "" && fs[q].value == f.value
  {
    var keys := FirstMentions(fs, lower);
    var latest := LatestOf(fs, keys, lower);
    if IsCovered(fs, f, lower) {
      var g :| g in latest && g.name != "" && g.value == f.value;
      var i :| 0 <= i < |keys| && latest[i] == g;
      var q := LatestIsLast(fs, keys[i], lower);
    }
    if q :| 0 <= q < |fs| && LastOfItsKey(fs, q, lower) && fs[q].name != "" && fs[q].value == f.value {
      LastIsLatest(fs, q, lower);
    }
  }

  lemma LastIsLatest(fs: seq<Fact>, p: nat, lower: string -> string)
    requires p < |fs| && LastOfItsKey(fs, p, lower)
    ensures fs[p] in LatestOf(fs, FirstMentions(fs, lower), lower)
  {
    var keys, key := FirstMentions(fs, lower), fs[p].Key(lower);
    MentionsAreDistinct(fs, lower);
    assert fs[p] in fs;
    var q := LatestIsLast(fs, key, lower);
    assert p == q;
    var i :| 0 <= i < |keys| && keys[i] == key;
    assert LatestOf(fs, keys, lower)[i] == fs[p];
  }

  /** Two facts share a key exactly if their labels are the same in lower case, or both are bare and of one value. */
  lemma WhatSharesAKey(f: Fact, g: Fact, lower: string -> string)
    ensures f.name != "" && g.name != "" ==> (f.Key(lower) == g.Key(lower) <==> lower(f.name) == lower(g.name))
    ensures f.name == "" && g.name == "" ==> (f.Key(lower) == g.Key(lower) <==> f.value == g.value)
    ensures f.name == "" && g.name != "" && '=' !in lower(g.name) ==> f.Key(lower) != g.Key(lower)
  {
    if f.name == "" && g.name == "" && f.Key(lower) == g.Key(lower) {
      assert f.Key(lower)[1..] == f.value && g.Key(lower)[1..] == g.value;
    }
    if f.name == "" && g.name != "" {
      assert f.Key(lower)[0] in f.Key(lower);
    }
  }

  /** However a line is spaced, with a bullet in front, it states the label and the value. */
  lemma SpacedLineIsRead(a: string, b: string, c: string, d: string, e: string, f: Fact)
    requires f.Shaped() && f.name != ""
    requires AllSpace(a) && AllSpace(b) && AllSpace(c) && AllSpace(d) && AllSpace(e)
    ensures LineFacts(a + ("- " + (b + (f.name + c + ": " + d + f.value)) + e)) == [f]
  {
    var entry := f.name + c + ": " + d + f.value;
    ShapedTrims(f);
    EntryIsTrimmed(f, c, d);
    TrimmingRemovesSpace(a, "- " + (b + entry), e);
    assert a + ("- " + (b + entry) + e) == a + ("- " + (b + entry)) + e;
    assert ("- " + (b + entry))[2..] == b + entry + "";
    TrimmingRemovesSpace(b, entry, "");
    SpacedEntryIsRead(f, c, d);
  }

  lemma EntryIsTrimmed(f: Fact, c: string, d: string)
    requires f.Shaped() && f.name != ""
    ensures var entry := f.name + c + ": " + d + f.value;
      Trimmed(entry) && entry != "" && forall b :: Trimmed("- " + (b + entry))
  {
    var entry := f.name + c + ": " + d + f.value;
    assert entry[0] == f.name[0] && entry[|entry|-1] == f.value[|f.value|-1] && f.value[|f.value|-1] in f.value;
    forall b ensures Trimmed("- " + (b + entry)) {
      var s := "- " + (b + entry);
      assert s[|s|-1] == entry[|entry|-1];
    }
  }

  lemma FirstColon(head: string, rest: string)
    requires ':' !in head
    ensures Index(head + ": " + rest, ": ") == |head|
  {
    var s := head + ": " + rest;
    assert forall k | 0 <= k < |head| :: s[k] == head[k] && head[k] in head;
    assert s[|head|..|head|+2] == ": ";
    IndexIsFirst(s, ": ", |head|);
    IndexOccurs(s, ": ");
    OccursChar(s, ": ", Index(s, ": "), 0);
  }

  lemma SpacedEntryIsRead(f: Fact, c: string, d: string)
    requires f.Shaped() && f.name != "" && AllSpace(c) && AllSpace(d)
    ensures FactOf(f.name + c + ": " + d + f.value) == f
  {
    var entry, head := f.name + c + ": " + d + f.value, f.name + c;
    assert entry == head + ": " + (d + f.value);
    FirstColon(head, d + f.value);
    assert entry[..|head|] == "" + f.name + c && entry[|head|+2..] == d + f.value + "";
    ShapedTrims(f);
    TrimmingRemovesSpace("", f.name, c);
    TrimmingRemovesSpace(d, f.value, "");
  }

  /** How a block is written, letter by letter. */
  lemma BlockIsWrittenSo(summary: string, f: Fact)
    requires !Contains(summary, f.value)
    ensures Ensured(summary, [f]) ==
      (if TrimNewlines(summary) == "" then "" else TrimNewlines(summary) + "\n\n")
      + "EXACT FACTS:" + ("\n- " + if f.name == "" then f.value else f.name + ": " + f.value)
  {
    var rendered := f.Render();
    assert [f][1..] == [];
    assert Missing(summary, [f]) == [f];
    assert Entries([f]) == "\n- " + rendered + "";
    assert "\n- " + rendered + "" == "\n- " + rendered;
  }
}
