/** Which average is which: each is the mean of a list of scores, or a weighted mean of other averages. */
module MetricsMeans {
  import opened Metrics

  function Sum(xs: seq<real>): real {
    if xs == [] then 0.0 else Sum(xs[..|xs|-1]) + xs[|xs|-1]
  }

  /** The mean of some scores, zero for none. */
  predicate IsMean(mean: real, xs: seq<real>) {
    if xs == [] then mean == 0.0 else mean * |xs| as real == Sum(xs)
  }

  /** The F1 scores of the answers that could be judged. */
  function ValidScores(qs: seq<QAResult>): seq<real> {
    if qs == [] then []
    else
      var q := qs[|qs|-1];
      ValidScores(qs[..|qs|-1]) + if q.tokenF1 >= 0.0 then [q.tokenF1] else []
  }

  function HitRates(qs: seq<QAResult>): seq<real> {
    seq(|qs|, i requires 0 <= i < |qs| => qs[i].hitRate)
  }

  predicate AveragesAreOf(a: Averages, qs: seq<QAResult>) {
    && a.questionCount == |qs| && a.validF1Count == |ValidScores(qs)|
    && IsMean(a.f1, ValidScores(qs)) && IsMean(a.hitRate, HitRates(qs))
  }

  /** The questions of one category. */
  function Of(qs: seq<QAResult>, category: int): seq<QAResult> {
    if qs == [] then []
    else Of(qs[..|qs|-1], category) + if qs[|qs|-1].category == category then [qs[|qs|-1]] else []
  }

  lemma SumOneMore(xs: seq<real>, x: real)
    ensures Sum(xs + [x]) == Sum(xs) + x
  {
    assert (xs + [x])[..|xs|] == xs;
  }

  lemma ScoresOneMore(qs: seq<QAResult>, q: QAResult)
    ensures ValidScores(qs + [q]) == if q.tokenF1 >= 0.0 then ValidScores(qs) + [q.tokenF1] else ValidScores(qs)
    ensures HitRates(qs + [q]) == HitRates(qs) + [q.hitRate]
  {
    assert (qs + [q])[..|qs|] == qs;
    assert ValidScores(qs) + [] == ValidScores(qs);
    assert HitRates(qs + [q])[..|qs|] == HitRates(qs);
  }

  lemma {:induction false} TotalSumsUp(qs: seq<QAResult>)
    ensures var t := Total(qs);
      && t.f1 == Sum(ValidScores(qs)) && t.valid == |ValidScores(qs)|
      && t.hitRate == Sum(HitRates(qs)) && t.questions == |qs|
    decreases |qs|
  {
    if qs != [] {
      var init, q := qs[..|qs|-1], qs[|qs|-1];
      TotalSumsUp(init);
      TotalStep(init, q);
      ScoresOneMore(init, q);
      SumOneMore(HitRates(init), q.hitRate);
      SumOneMore(ValidScores(init), q.tokenF1);
      assert qs == init + [q];
    }
  }

  lemma MeanIsMean(xs: seq<real>)
    ensures IsMean(Mean(Sum(xs), |xs|), xs)
  {
    MeanTimesCount(Sum(xs), |xs|);
  }

  lemma AverageIsMean(qs: seq<QAResult>)
    ensures AveragesAreOf(Total(qs).Average(), qs)
  {
    TotalSumsUp(qs);
    MeanIsMean(ValidScores(qs));
    MeanIsMean(HitRates(qs));
  }

  lemma {:induction false} CategoriesAre(qs: seq<QAResult>, c: int)
    ensures InCategory(qs, c) == Of(qs, c) && (c in Categories(qs) <==> exists q :: q in qs && q.category == c)
    decreases |qs|
  {
    if qs != [] {
      CategoriesAre(qs[..|qs|-1], c);
      assert qs == qs[..|qs|-1] + [qs[|qs|-1]];
      assert Of(qs[..|qs|-1], c) + [] == Of(qs[..|qs|-1], c);
    }
  }

  /** Overall and for each category that occurs: the mean F1 of what could be judged, and the mean hit rate of all. */
  lemma AggregatesAreMeans(qs: seq<QAResult>)
    ensures AveragesAreOf(Aggregated(qs).overall, qs)
    ensures forall c :: c in Aggregated(qs).byCategory <==> exists q :: q in qs && q.category == c
    ensures forall c | c in Aggregated(qs).byCategory :: AveragesAreOf(Aggregated(qs).byCategory[c], Of(qs, c))
  {
    AverageIsMean(qs);
    forall c ensures c in Aggregated(qs).byCategory <==> exists q :: q in qs && q.category == c {
      CategoriesAre(qs, c);
    }
    forall c | c in Aggregated(qs).byCategory ensures AveragesAreOf(Aggregated(qs).byCategory[c], Of(qs, c)) {
      CategoriesAre(qs, c);
      AverageIsMean(InCategory(qs, c));
    }
  }

  // ---------------------------------------------------------------- across samples

  /** The averages of one sample, and the mode they were taken in. */
  datatype Part = Part(mode: string, averages: Averages)
  {
    predicate IsJudged() {
      |mode| >= 4 && mode[|mode|-4..] == "-llm"
    }

    /** How many scores the F1 average stands for; a token mode without a count has scored every question. */
    function Scores(): nat {
      if averages.validF1Count > 0 || IsJudged() then averages.validF1Count else averages.questionCount
    }
  }

  function ScoresOf(parts: seq<Part>): nat {
    if parts == [] then 0 else ScoresOf(parts[..|parts|-1]) + parts[|parts|-1].Scores()
  }

  function QuestionsOf(parts: seq<Part>): nat {
    if parts == [] then 0 else QuestionsOf(parts[..|parts|-1]) + parts[|parts|-1].averages.questionCount
  }

  function WeightedF1(parts: seq<Part>): real {
    if parts == [] then 0.0
    else WeightedF1(parts[..|parts|-1]) + parts[|parts|-1].averages.f1 * parts[|parts|-1].Scores() as real
  }

  function WeightedHits(parts: seq<Part>): real {
    if parts == [] then 0.0
    else
      var a := parts[|parts|-1].averages;
      WeightedHits(parts[..|parts|-1]) + a.hitRate * a.questionCount as real
  }

  /** Each average is the weighted mean of the parts' averages, zero when there is nothing to weigh. */
  predicate CombinesParts(a: Averages, parts: seq<Part>) {
    && a.questionCount == QuestionsOf(parts) && a.validF1Count == ScoresOf(parts)
    && (if ScoresOf(parts) == 0 then a.f1 == 0.0 else a.f1 * ScoresOf(parts) as real == WeightedF1(parts))
    && (if QuestionsOf(parts) == 0 then a.hitRate == 0.0
        else a.hitRate * QuestionsOf(parts) as real == WeightedHits(parts))
  }

  function OverallParts(results: seq<EvalResult>): seq<Part> {
    if results == [] then []
    else
      var r := results[|results|-1];
      OverallParts(results[..|results|-1]) + [Part(r.mode, r.agg.overall)]
  }

  /** Of the samples that have the category. */
  function CategoryParts(results: seq<EvalResult>, c: int): seq<Part> {
    if results == [] then []
    else
      var r := results[|results|-1];
      CategoryParts(results[..|results|-1], c)
      + if c in r.agg.byCategory then [Part(r.mode, r.agg.byCategory[c])] else []
  }

  function SumsOfParts(parts: seq<Part>): Sums {
    Sums(WeightedF1(parts), WeightedHits(parts), QuestionsOf(parts), ScoresOf(parts))
  }

  lemma OneMorePart(parts: seq<Part>, p: Part)
    ensures SumsOfParts(parts + [p]) == SumsOfParts(parts).Plus(Weighted(p.mode, p.averages))
  {
    assert (parts + [p])[..|parts|] == parts;
  }

  lemma {:induction false} OverallAddsUp(results: seq<EvalResult>)
    ensures SumAll(OverallWeights(results)) == SumsOfParts(OverallParts(results))
    decreases |results|
  {
    if results != [] {
      var n := |results| - 1;
      OverallAddsUp(results[..n]);
      assert OverallWeights(results)[..n] == OverallWeights(results[..n]);
      OneMorePart(OverallParts(results[..n]), Part(results[n].mode, results[n].agg.overall));
    }
  }

  /** One more sample, of which a category may have a part. */
  lemma JoinOnePart(all: map<int, Sums>, more: map<int, Sums>, c: int, parts: seq<Part>, last: seq<Part>)
    requires (c in all <==> parts != []) && (c in all ==> all[c] == SumsOfParts(parts))
    requires c !in more ==> last == []
    requires c in more ==> |last| == 1 && more[c] == Weighted(last[0].mode, last[0].averages)
    ensures var joined := Joined(all, more);
      && (c in joined <==> parts + last != [])
      && (c in joined ==> joined[c] == SumsOfParts(parts + last))
  {
    if c in more {
      OneMorePart(parts, last[0]);
      assert parts + last == parts + [last[0]];
      assert parts == [] ==> SumsOfParts(parts) == NONE;
    } else {
      assert parts + last == parts;
    }
  }

  lemma {:induction false} CategoryAddsUp(results: seq<EvalResult>, c: int)
    ensures var all := JoinAll(CategoryWeights(results));
      && (c in all <==> CategoryParts(results, c) != [])
      && (c in all ==> all[c] == SumsOfParts(CategoryParts(results, c)))
    decreases |results|
  {
    if results != [] {
      var n := |results| - 1;
      var r := results[n];
      CategoryAddsUp(results[..n], c);
      assert CategoryWeights(results)[..n] == CategoryWeights(results[..n]);
      JoinOnePart(JoinAll(CategoryWeights(results[..n])), WeightedAll(r), c, CategoryParts(results[..n], c),
                  if c in r.agg.byCategory then [Part(r.mode, r.agg.byCategory[c])] else []);
    }
  }

  lemma AverageCombines(parts: seq<Part>)
    ensures CombinesParts(SumsOfParts(parts).Average(), parts)
  {
    var s := SumsOfParts(parts);
    if s.valid > 0 {
      MeanTimesCount(s.f1, s.valid);
    }
    if s.questions > 0 {
      MeanTimesCount(s.hitRate, s.questions);
    }
  }

  /** Overall and per category, over the samples that have it, whatever the stored averages are. */
  lemma CombinedAreWeightedMeans(results: seq<EvalResult>)
    ensures var agg := ModeAggregated(results);
      && CombinesParts(agg.overall, OverallParts(results))
      && (forall c :: c in agg.byCategory <==> exists r :: r in results && c in r.agg.byCategory)
      && (forall c | c in agg.byCategory :: CombinesParts(agg.byCategory[c], CategoryParts(results, c)))
  {
    var agg := ModeAggregated(results);
    OverallAddsUp(results);
    AverageCombines(OverallParts(results));
    forall c ensures c in agg.byCategory <==> exists r :: r in results && c in r.agg.byCategory {
      CategoryAddsUp(results, c);
      SomePart(results, c);
    }
    forall c | c in agg.byCategory ensures CombinesParts(agg.byCategory[c], CategoryParts(results, c)) {
      CategoryAddsUp(results, c);
      AverageCombines(CategoryParts(results, c));
    }
  }

  lemma {:induction false} SomePart(results: seq<EvalResult>, c: int)
    ensures CategoryParts(results, c) != [] <==> exists r :: r in results && c in r.agg.byCategory
    decreases |results|
  {
    if results != [] {
      SomePart(results[..|results|-1], c);
      assert results == results[..|results|-1] + [results[|results|-1]];
    }
  }
}
