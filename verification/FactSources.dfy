/** Which messages facts are taken from: what the user said, and nothing said next to a secret. */
module FactSources {
  import opened Messages
  import opened Text
  import opened ExactFacts

  /** What the patterns match in a text, and whether it carries or assigns a credential. */
  datatype Reading = Reading(matches: string -> seq<Fact>, isSecret: string -> bool)

  predicate IsQuotable(reading: Reading, m: Message) {
    m.role == User && TrimSpace(m.content) != "" && !reading.isSecret(m.content)
  }

  function Candidates(reading: Reading, batch: seq<Message>): seq<Fact> {
    if batch == [] then []
    else
      var m := batch[|batch|-1];
      Candidates(reading, batch[..|batch|-1]) + if IsQuotable(reading, m) then reading.matches(m.content) else []
  }

  method ExtractFromBatch(reading: Reading, batch: seq<Message>, acceptable: Fact -> bool, lower: string -> string)
    returns (facts: seq<Fact>)
    ensures facts == Extracted(Candidates(reading, batch), acceptable, lower)
  {
    var candidates: seq<Fact> := [];
    for n := 0 to |batch|
      invariant candidates == Candidates(reading, batch[..n])
    {
      var msg := batch[n];
      assert batch[..n+1][..n] == batch[..n];
      if msg.role != User || TrimSpace(msg.content) == "" { continue; }
      if reading.isSecret(msg.content) { continue; }
      candidates := candidates + reading.matches(msg.content);
    }
    assert batch[..|batch|] == batch;
    facts := ExtractExactFacts(candidates, acceptable, lower);
  }

  lemma {:induction false} CandidatesAreQuoted(reading: Reading, batch: seq<Message>, f: Fact) returns (i: nat)
    requires f in Candidates(reading, batch)
    ensures i < |batch| && batch[i].role == User && !reading.isSecret(batch[i].content)
    ensures f in reading.matches(batch[i].content)
    decreases |batch|
  {
    if f in Candidates(reading, batch[..|batch|-1]) {
      i := CandidatesAreQuoted(reading, batch[..|batch|-1], f);
    } else {
      i := |batch| - 1;
    }
  }

  /** Whatever is extracted was matched in a message of the user that holds no secret, and was found acceptable. */
  lemma OnlyTheUserIsQuoted(reading: Reading, batch: seq<Message>, acceptable: Fact -> bool, lower: string -> string,
      f: Fact) returns (i: nat)
    requires f in Extracted(Candidates(reading, batch), acceptable, lower)
    ensures i < |batch| && batch[i].role == User && !reading.isSecret(batch[i].content)
    ensures f in reading.matches(batch[i].content) && acceptable(f)
  {
    ExtractedAreAccepted(Candidates(reading, batch), acceptable, lower, f);
    i := CandidatesAreQuoted(reading, batch, f);
  }
}
