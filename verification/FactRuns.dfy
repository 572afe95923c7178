/** How long a fact lives when a conversation is summarized again and again. */
module FactRuns {
  import opened Seqs
  import opened Text
  import opened ExactFacts

  /** One summarization: what the model wrote, and the facts of the messages it summarized. */
  datatype Round = Round(prose: string, recent: seq<Fact>)
  {
    /** The model wrote no heading of its own, and the facts are as extraction leaves them. */
    predicate Proper() {
      !Contains(prose, HEADING) && |recent| <= MAX_EXACT_FACTS && forall f | f in recent :: f.Shaped()
    }
  }

  /** The stored summary after one more round; nothing is stored if the model wrote nothing. */
  function StoredNext(stored: string, round: Round, lower: string -> string): string {
    if round.prose == "" then stored else Ensured(round.prose, CarriedForward(stored, round.recent, lower))
  }

  function StoredAfter(stored: string, rounds: seq<Round>, lower: string -> string): string
    decreases |rounds|
  {
    if rounds == [] then stored else StoredAfter(StoredNext(stored, rounds[0], lower), rounds[1..], lower)
  }

  /** What a block states behind a fact once a round is over, before the round's prose is looked at. */
  function Behind(after: seq<Fact>, round: Round, lower: string -> string): seq<Fact> {
    NotSuperseded(after, Keys(round.recent, lower), lower) + round.recent
  }

  /** The fact is not superseded, it fits with all that comes behind it, and the prose does not state its value. */
  predicate LastsOneRound(f: Fact, after: seq<Fact>, round: Round, lower: string -> string) {
    && f.Key(lower) !in Keys(round.recent, lower)
    && 1 + |Behind(after, round, lower)| <= MAX_EXACT_FACTS
    && !Contains(round.prose, f.value)
  }

  /** The same for each of the rounds that stores a summary. */
  predicate Lasts(f: Fact, after: seq<Fact>, rounds: seq<Round>, lower: string -> string)
    decreases |rounds|
  {
    rounds != [] ==>
      if rounds[0].prose == "" then Lasts(f, after, rounds[1..], lower)
      else
        && LastsOneRound(f, after, rounds[0], lower)
        && Lasts(f, Missing(rounds[0].prose, Behind(after, rounds[0], lower)), rounds[1..], lower)
  }

  /** The block ends with the fact and what follows its last statement. */
  ghost predicate EndsIn(block: seq<Fact>, f: Fact, after: seq<Fact>) {
    f !in after && exists before :: block == before + [f] + after
  }

  // ---------------------------------------------------------------- parts of a block

  lemma {:induction false} NotSupersededConcat(a: seq<Fact>, b: seq<Fact>, keys: set<string>, lower: string -> string)
    ensures NotSuperseded(a + b, keys, lower) == NotSuperseded(a, keys, lower) + NotSuperseded(b, keys, lower)
    decreases |a|
  {
    if a == [] {
      assert a + b == b;
    } else {
      assert (a + b)[1..] == a[1..] + b;
      NotSupersededConcat(a[1..], b, keys, lower);
    }
  }

  lemma {:induction false} MissingConcat(summary: string, a: seq<Fact>, b: seq<Fact>)
    ensures Missing(summary, a + b) == Missing(summary, a) + Missing(summary, b)
    decreases |a|
  {
    if a == [] {
      assert a + b == b;
    } else {
      assert (a + b)[1..] == a[1..] + b;
      MissingConcat(summary, a[1..], b);
    }
  }

  lemma OneNotSuperseded(f: Fact, keys: set<string>, lower: string -> string)
    ensures NotSuperseded([f], keys, lower) == if f.Key(lower) in keys then [] else [f]
  {
  }

  lemma OneMissing(summary: string, f: Fact)
    ensures Missing(summary, [f]) == if Contains(summary, f.value) then [] else [f]
  {
  }

  lemma NewestAroundFact(before: seq<Fact>, f: Fact, behind: seq<Fact>)
    requires f !in behind
    ensures 1 + |behind| <= MAX_EXACT_FACTS ==> EndsIn(Newest(before + [f] + behind), f, behind)
    ensures 1 + |behind| > MAX_EXACT_FACTS ==> f !in Newest(before + [f] + behind)
  {
    var all := before + [f] + behind;
    if |all| <= MAX_EXACT_FACTS {
      assert Newest(all) == before + [f] + behind;
    } else if 1 + |behind| <= MAX_EXACT_FACTS {
      assert Newest(all) == before[|all|-MAX_EXACT_FACTS..] + [f] + behind;
    } else {
      assert Newest(all) == behind[|behind|-MAX_EXACT_FACTS..];
    }
  }

  lemma MissingAroundFact(summary: string, block: seq<Fact>, f: Fact, behind: seq<Fact>)
    requires EndsIn(block, f, behind)
    ensures !Contains(summary, f.value) ==> EndsIn(Missing(summary, block), f, Missing(summary, behind))
    ensures Contains(summary, f.value) ==> f !in Missing(summary, block)
  {
    var before :| block == before + [f] + behind;
    MissingConcat(summary, before + [f], behind);
    MissingConcat(summary, before, [f]);
    OneMissing(summary, f);
    MissingAreFacts(summary, block);
    MissingAreFacts(summary, behind);
  }

  // ---------------------------------------------------------------- one round

  predicate AllShaped(facts: seq<Fact>) {
    forall f | f in facts :: f.Shaped()
  }

  lemma CarriedAre(stored: string, round: Round, lower: string -> string)
    ensures forall f | f in CarriedForward(stored, round.recent, lower) :: f in Parsed(stored) || f in round.recent
  {
    NotSupersededAre(Parsed(stored), Keys(round.recent, lower), lower);
  }

  lemma ParsedNext(stored: string, round: Round, lower: string -> string)
    requires round.Proper() && round.prose != "" && AllShaped(Parsed(stored))
    ensures var next := Parsed(StoredNext(stored, round, lower));
      next == Missing(round.prose, CarriedForward(stored, round.recent, lower)) && AllShaped(next)
  {
    var facts := CarriedForward(stored, round.recent, lower);
    CarriedAre(stored, round, lower);
    BlockRoundTrip(round.prose, facts);
    MissingAreFacts(round.prose, facts);
  }

  lemma SupersededIsDropped(stored: string, round: Round, lower: string -> string, f: Fact)
    requires Parsed(stored) != [] && f.Key(lower) in Keys(round.recent, lower) && f !in round.recent
    ensures f !in CarriedForward(stored, round.recent, lower)
  {
    NotSupersededAre(Parsed(stored), Keys(round.recent, lower), lower);
  }

  lemma CarriedAroundFact(stored: string, round: Round, lower: string -> string, f: Fact, after: seq<Fact>)
    requires EndsIn(Parsed(stored), f, after) && f !in round.recent && f.Key(lower) !in Keys(round.recent, lower)
    ensures var facts, behind := CarriedForward(stored, round.recent, lower), Behind(after, round, lower);
      if 1 + |behind| <= MAX_EXACT_FACTS then EndsIn(facts, f, behind) else f !in facts
  {
    var keys, behind := Keys(round.recent, lower), Behind(after, round, lower);
    var before :| Parsed(stored) == before + [f] + after;
    NotSupersededConcat(before + [f], after, keys, lower);
    NotSupersededConcat(before, [f], keys, lower);
    OneNotSuperseded(f, keys, lower);
    NotSupersededAre(after, keys, lower);
    var kept := NotSuperseded(before, keys, lower);
    Assoc(kept + [f], NotSuperseded(after, keys, lower), round.recent);
    NewestAroundFact(kept, f, behind);
  }

  lemma OneRound(stored: string, round: Round, lower: string -> string, f: Fact, after: seq<Fact>)
    requires round.Proper() && round.prose != "" && AllShaped(Parsed(stored))
    requires EndsIn(Parsed(stored), f, after) && f !in round.recent
    ensures var next := Parsed(StoredNext(stored, round, lower));
      if LastsOneRound(f, after, round, lower) then EndsIn(next, f, Missing(round.prose, Behind(after, round, lower)))
      else f !in next
  {
    var facts, behind := CarriedForward(stored, round.recent, lower), Behind(after, round, lower);
    ParsedNext(stored, round, lower);
    MissingAreFacts(round.prose, facts);
    if f.Key(lower) in Keys(round.recent, lower) {
      SupersededIsDropped(stored, round, lower, f);
    } else {
      CarriedAroundFact(stored, round, lower, f, after);
      if 1 + |behind| <= MAX_EXACT_FACTS {
        MissingAroundFact(round.prose, facts, f, behind);
      }
    }
  }

  // ---------------------------------------------------------------- any number of rounds

  lemma ShapedStays(stored: string, round: Round, lower: string -> string)
    requires round.Proper() && AllShaped(Parsed(stored))
    ensures AllShaped(Parsed(StoredNext(stored, round, lower)))
  {
    if round.prose != "" {
      ParsedNext(stored, round, lower);
    }
  }

  lemma {:induction false} LostStaysLost(stored: string, rounds: seq<Round>, lower: string -> string, f: Fact)
    requires AllShaped(Parsed(stored)) && f !in Parsed(stored)
    requires forall round | round in rounds :: round.Proper() && f !in round.recent
    ensures f !in Parsed(StoredAfter(stored, rounds, lower))
    decreases |rounds|
  {
    if rounds != [] {
      var round := rounds[0];
      assert round in rounds;
      ShapedStays(stored, round, lower);
      if round.prose != "" {
        ParsedNext(stored, round, lower);
        CarriedAre(stored, round, lower);
        MissingAreFacts(round.prose, CarriedForward(stored, round.recent, lower));
      }
      LostStaysLost(StoredNext(stored, round, lower), rounds[1..], lower, f);
    }
  }

  /**
   * A fact that is not stated again is in the block after any number of summarizations if and only if none of them
   * supersedes it, states its value in the prose, or, with what is newer than the fact, leaves no room for it.
   */
  lemma {:induction false} FactLastsExactlyWhen(stored: string, rounds: seq<Round>, lower: string -> string,
    f: Fact, after: seq<Fact>)
    requires AllShaped(Parsed(stored)) && EndsIn(Parsed(stored), f, after)
    requires forall round | round in rounds :: round.Proper() && f !in round.recent
    ensures f in Parsed(StoredAfter(stored, rounds, lower)) <==> Lasts(f, after, rounds, lower)
    decreases |rounds|
  {
    if rounds != [] {
      var round := rounds[0];
      assert round in rounds;
      var next := StoredNext(stored, round, lower);
      ShapedStays(stored, round, lower);
      if round.prose == "" {
        FactLastsExactlyWhen(next, rounds[1..], lower, f, after);
      } else {
        OneRound(stored, round, lower, f, after);
        if LastsOneRound(f, after, round, lower) {
          FactLastsExactlyWhen(next, rounds[1..], lower, f, Missing(round.prose, Behind(after, round, lower)));
        } else {
          LostStaysLost(next, rounds[1..], lower, f);
        }
      }
    }
  }
}
