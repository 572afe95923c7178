/** Aggregating benchmark scores, per sample and across samples, over exact reals. */
module Metrics {
  import opened Seqs

  datatype QAResult = QAResult(category: int, tokenF1: real, hitRate: real)

  /** Averages over some questions; a negative F1 marks a failed judgement and does not count towards the F1 average. */
  datatype Averages = Averages(f1: real, hitRate: real, questionCount: nat, validF1Count: nat)

  datatype AggMetrics = AggMetrics(overall: Averages, byCategory: map<int, Averages>)

  datatype EvalResult = EvalResult(mode: string, agg: AggMetrics)

  /** What averages are computed from. */
  datatype Sums = Sums(f1: real, hitRate: real, questions: nat, valid: nat)
  {
    function Plus(other: Sums): Sums {
      Sums(f1 + other.f1, hitRate + other.hitRate, questions + other.questions, valid + other.valid)
    }

    function Average(): Averages {
      Averages(Mean(f1, valid), Mean(hitRate, questions), questions, valid)
    }

    /** Nothing is summed up over no questions. */
    predicate Consistent() {
      (valid == 0 ==> f1 == 0.0) && (questions == 0 ==> hitRate == 0.0 && valid == 0)
    }
  }

  const NONE := Sums(0.0, 0.0, 0, 0)

  function Mean(sum: real, count: nat): real {
    if count == 0 then 0.0 else sum / count as real
  }

  function SumsOf(q: QAResult): Sums {
    if q.tokenF1 >= 0.0 then Sums(q.tokenF1, q.hitRate, 1, 1) else Sums(0.0, q.hitRate, 1, 0)
  }

  function Total(qs: seq<QAResult>): (s: Sums)
    ensures s.Consistent() && s.questions == |qs| && s.valid <= |qs|
  {
    if qs == [] then NONE else Total(qs[..|qs|-1]).Plus(SumsOf(qs[|qs|-1]))
  }

  function InCategory(qs: seq<QAResult>, category: int): (cs: seq<QAResult>)
    ensures cs != [] <==> category in Categories(qs)
  {
    if qs == [] then []
    else
      var cs, last := InCategory(qs[..|qs|-1], category), qs[|qs|-1];
      if last.category == category then cs + [last] else cs
  }

  function Categories(qs: seq<QAResult>): set<int> {
    if qs == [] then {} else Categories(qs[..|qs|-1]) + {qs[|qs|-1].category}
  }

  function CategoryTotals(qs: seq<QAResult>): map<int, Sums> {
    map c | c in Categories(qs) :: Total(InCategory(qs, c))
  }

  function AverageAll(totals: map<int, Sums>): map<int, Averages> {
    map c | c in totals :: totals[c].Average()
  }

  /** The averages of some questions, overall and for each category that occurs among them. */
  function Aggregated(qs: seq<QAResult>): AggMetrics {
    AggMetrics(Total(qs).Average(), AverageAll(CategoryTotals(qs)))
  }

  function AddTo(totals: map<int, Sums>, c: int, s: Sums): map<int, Sums> {
    totals[c := (if c in totals then totals[c] else NONE).Plus(s)]
  }

  lemma TotalStep(qs: seq<QAResult>, q: QAResult)
    ensures Total(qs + [q]) == Total(qs).Plus(SumsOf(q))
    ensures Categories(qs + [q]) == Categories(qs) + {q.category}
  {
    assert (qs + [q])[..|qs|] == qs;
  }

  lemma InCategoryStep(qs: seq<QAResult>, q: QAResult, c: int)
    ensures InCategory(qs + [q], c) == InCategory(qs, c) + if q.category == c then [q] else []
  {
    assert (qs + [q])[..|qs|] == qs;
  }

  lemma CategoryTotalStep(qs: seq<QAResult>, q: QAResult, c: int)
    requires c in Categories(qs + [q])
    ensures Total(InCategory(qs + [q], c)) ==
      if q.category == c then (if c in Categories(qs) then Total(InCategory(qs, c)) else NONE).Plus(SumsOf(q))
      else Total(InCategory(qs, c))
  {
    InCategoryStep(qs, q, c);
    if q.category == c {
      TotalStep(InCategory(qs, c), q);
    } else {
      assert InCategory(qs, c) + [] == InCategory(qs, c);
    }
  }

  /** The category totals as they are added up, question by question. */
  function Tally(qs: seq<QAResult>): map<int, Sums> {
    if qs == [] then map[]
    else AddTo(Tally(qs[..|qs|-1]), qs[|qs|-1].category, SumsOf(qs[|qs|-1]))
  }

  lemma TallyStep(qs: seq<QAResult>, q: QAResult)
    ensures Tally(qs + [q]) == AddTo(Tally(qs), q.category, SumsOf(q))
  {
    assert (qs + [q])[..|qs|] == qs;
  }

  lemma {:induction false} TallyKeys(qs: seq<QAResult>)
    ensures Tally(qs).Keys == Categories(qs)
    decreases |qs|
  {
    if qs != [] {
      TallyKeys(qs[..|qs|-1]);
    }
  }

  lemma {:induction false} TallyAt(qs: seq<QAResult>, c: int)
    requires c in Categories(qs)
    ensures c in Tally(qs) && Tally(qs)[c] == Total(InCategory(qs, c))
    decreases |qs|
  {
    var init, last := qs[..|qs|-1], qs[|qs|-1];
    assert qs == init + [last];
    TallyKeys(init);
    if c in Categories(init) {
      TallyAt(init, c);
    }
    CategoryTotalStep(init, last, c);
  }

  lemma TallyIsTotals(qs: seq<QAResult>)
    ensures Tally(qs) == CategoryTotals(qs)
  {
    TallyKeys(qs);
    forall c | c in Categories(qs) ensures Tally(qs)[c] == Total(InCategory(qs, c)) {
      TallyAt(qs, c);
    }
  }

  method AddScore(acc: Sums, qr: QAResult) returns (next: Sums)
    ensures next == acc.Plus(SumsOf(qr))
  {
    next := acc;
    // A negative score stands for a failed judgement.
    if qr.tokenF1 >= 0.0 {
      next := next.(f1 := next.f1 + qr.tokenF1, valid := next.valid + 1);
    }
    next := next.(hitRate := next.hitRate + qr.hitRate, questions := next.questions + 1);
  }

  method Accumulate(qaResults: seq<QAResult>) returns (total: Sums, byCatAcc: map<int, Sums>)
    ensures total == Total(qaResults) && byCatAcc == CategoryTotals(qaResults)
  {
    total, byCatAcc := NONE, map[];
    for n := 0 to |qaResults|
      invariant total == Total(qaResults[..n]) && byCatAcc == Tally(qaResults[..n])
    {
      var qr := qaResults[n];
      TakeNext(qaResults, n);
      TotalStep(qaResults[..n], qr);
      TallyStep(qaResults[..n], qr);
      total := AddScore(total, qr);
      var acc := AddScore(if qr.category in byCatAcc then byCatAcc[qr.category] else NONE, qr);
      byCatAcc := byCatAcc[qr.category := acc];
    }
    assert qaResults[..|qaResults|] == qaResults;
    TallyIsTotals(qaResults);
  }

  method AggregateMetrics(qaResults: seq<QAResult>) returns (agg: AggMetrics)
    ensures agg == Aggregated(qaResults)
  {
    var total, byCatAcc := Accumulate(qaResults);
    var nHit := if |qaResults| == 0 then 1 else |qaResults|;
    var overallF1 := 0.0;
    if total.valid > 0 {
      overallF1 := total.f1 / total.valid as real;
    }
    var overall := Averages(overallF1, total.hitRate / nHit as real, |qaResults|, total.valid);
    agg := AggMetrics(overall, AverageAll(byCatAcc));
  }

  // ---------------------------------------------------------------- across samples

  const LLM_SUFFIX := "-llm"

  predicate IsLLM(mode: string) {
    |mode| >= |LLM_SUFFIX| && mode[|mode|-|LLM_SUFFIX|..] == LLM_SUFFIX
  }

  /** The weight of an F1 average: old token-mode results carry no count of valid scores, so none counts as all. */
  function ValidWeight(mode: string, a: Averages): nat {
    if a.validF1Count == 0 && a.questionCount > 0 && !IsLLM(mode) then a.questionCount else a.validF1Count
  }

  function Weighted(mode: string, a: Averages): Sums {
    var v := ValidWeight(mode, a);
    Sums(a.f1 * v as real, a.hitRate * a.questionCount as real, a.questionCount, v)
  }

  function WeightedAll(r: EvalResult): map<int, Sums> {
    map c | c in r.agg.byCategory :: Weighted(r.mode, r.agg.byCategory[c])
  }

  /** Category by category, both sides added up. */
  function Joined(a: map<int, Sums>, b: map<int, Sums>): map<int, Sums> {
    map c | c in a.Keys + b.Keys :: (if c in a then a[c] else NONE).Plus(if c in b then b[c] else NONE)
  }

  function SumAll(sums: seq<Sums>): Sums {
    if sums == [] then NONE else SumAll(sums[..|sums|-1]).Plus(sums[|sums|-1])
  }

  function JoinAll(totals: seq<map<int, Sums>>): map<int, Sums> {
    if totals == [] then map[] else Joined(JoinAll(totals[..|totals|-1]), totals[|totals|-1])
  }

  function OverallWeights(results: seq<EvalResult>): (ws: seq<Sums>)
    ensures |ws| == |results|
    ensures forall i | 0 <= i < |ws| :: ws[i] == Weighted(results[i].mode, results[i].agg.overall)
  {
    seq(|results|, i requires 0 <= i < |results| => Weighted(results[i].mode, results[i].agg.overall))
  }

  function CategoryWeights(results: seq<EvalResult>): (ws: seq<map<int, Sums>>)
    ensures |ws| == |results|
    ensures forall i | 0 <= i < |ws| :: ws[i] == WeightedAll(results[i])
  {
    seq(|results|, i requires 0 <= i < |results| => WeightedAll(results[i]))
  }

  /** The results of several samples, each average weighted by what it was taken over. */
  function ModeAggregated(results: seq<EvalResult>): AggMetrics {
    AggMetrics(SumAll(OverallWeights(results)).Average(), AverageAll(JoinAll(CategoryWeights(results))))
  }

  method AddWeighted(sums: Sums, mode: string, a: Averages) returns (next: Sums)
    ensures next == sums.Plus(Weighted(mode, a))
  {
    var vf1 := a.validF1Count;
    if vf1 == 0 && a.questionCount > 0 && !IsLLM(mode) {
      vf1 := a.questionCount;
    }
    assert vf1 == ValidWeight(mode, a);
    var f1, hitRate := a.f1 * vf1 as real, a.hitRate * a.questionCount as real;
    assert Sums(f1, hitRate, a.questionCount, vf1) == Weighted(mode, a);
    next := Sums(sums.f1 + f1, sums.hitRate + hitRate, sums.questions + a.questionCount, sums.valid + vf1);
  }

  /** Adding to one side of a join adds to the join. */
  lemma JoinedAddTo(a: map<int, Sums>, b: map<int, Sums>, c: int, s: Sums)
    ensures Joined(a, AddTo(b, c, s)) == AddTo(Joined(a, b), c, s)
    ensures c !in b ==> AddTo(b, c, s) == b[c := s]
  {
  }

  method AddCategory(byCategory: map<int, Sums>, cat: int, r: EvalResult) returns (next: map<int, Sums>)
    requires cat in r.agg.byCategory
    ensures next == AddTo(byCategory, cat, WeightedAll(r)[cat])
  {
    var existing := if cat in byCategory then byCategory[cat] else NONE;
    var sums := AddWeighted(existing, r.mode, r.agg.byCategory[cat]);
    next := byCategory[cat := sums];
  }

  lemma HasElement(s: set<int>)
    ensures s == {} || exists c :: c in s
  {
    if forall c :: c !in s {
      assert s == {};
    }
  }

  /** Joined with all categories except those left. */
  predicate JoinedExcept(byCategory: map<int, Sums>, all: map<int, Sums>, left: set<int>, next: map<int, Sums>) {
    left <= all.Keys && next == Joined(byCategory, all - left)
  }

  lemma JoinOneMore(byCategory: map<int, Sums>, all: map<int, Sums>, left: set<int>, next: map<int, Sums>, cat: int)
    requires JoinedExcept(byCategory, all, left, next) && cat in left
    ensures JoinedExcept(byCategory, all, left - {cat}, AddTo(next, cat, all[cat]))
  {
    JoinedAddTo(byCategory, all - left, cat, all[cat]);
    assert all - (left - {cat}) == (all - left)[cat := all[cat]];
  }

  lemma JoinStartsAndEnds(byCategory: map<int, Sums>, all: map<int, Sums>)
    ensures JoinedExcept(byCategory, all, all.Keys, byCategory)
    ensures all - {} == all
  {
    var none: map<int, Sums> := all - all.Keys;
    assert none.Keys == {};
    assert Joined(byCategory, none).Keys == byCategory.Keys;
    forall c | c in byCategory ensures Joined(byCategory, none)[c] == byCategory[c] {
    }
  }

  method AddCategories(byCategory: map<int, Sums>, r: EvalResult) returns (next: map<int, Sums>)
    ensures next == Joined(byCategory, WeightedAll(r))
  {
    next := byCategory;
    var left: set<int> := r.agg.byCategory.Keys;
    JoinStartsAndEnds(byCategory, WeightedAll(r));
    while left != {}
      invariant left <= r.agg.byCategory.Keys
      invariant JoinedExcept(byCategory, WeightedAll(r), left, next)
      decreases |left|
    {
      HasElement(left);
      var cat :| cat in left;
      JoinOneMore(byCategory, WeightedAll(r), left, next, cat);
      next := AddCategory(next, cat, r);
      left := left - {cat};
    }
  }

  method ComputeModeAgg(results: seq<EvalResult>) returns (agg: AggMetrics)
    ensures agg == ModeAggregated(results)
  {
    var sums: Sums, byCategory: map<int, Sums> := NONE, map[];
    ghost var overall, categories := OverallWeights(results), CategoryWeights(results);
    for n := 0 to |results|
      invariant sums == SumAll(overall[..n]) && byCategory == JoinAll(categories[..n])
    {
      var r := results[n];
      assert overall[..n+1][..n] == overall[..n] && categories[..n+1][..n] == categories[..n];
      sums := AddWeighted(sums, r.mode, r.agg.overall);
      byCategory := AddCategories(byCategory, r);
    }
    assert overall[..|results|] == overall && categories[..|results|] == categories;
    agg := AggMetrics(sums.Average(), AverageAll(byCategory));
  }

  // ---------------------------------------------------------------- aggregating twice

  function AllQuestions(samples: seq<seq<QAResult>>): seq<QAResult> {
    if samples == [] then [] else AllQuestions(samples[..|samples|-1]) + samples[|samples|-1]
  }

  /** The result the benchmark stores for each sample. */
  function PerSample(mode: string, samples: seq<seq<QAResult>>): (rs: seq<EvalResult>)
    ensures |rs| == |samples|
    ensures forall i | 0 <= i < |rs| :: rs[i] == EvalResult(mode, Aggregated(samples[i]))
  {
    seq(|samples|, i requires 0 <= i < |samples| => EvalResult(mode, Aggregated(samples[i])))
  }

  function Totals(samples: seq<seq<QAResult>>): (ts: seq<Sums>)
    ensures |ts| == |samples| && forall i | 0 <= i < |ts| :: ts[i] == Total(samples[i])
  {
    seq(|samples|, i requires 0 <= i < |samples| => Total(samples[i]))
  }

  function TotalsByCategory(samples: seq<seq<QAResult>>): (ts: seq<map<int, Sums>>)
    ensures |ts| == |samples| && forall i | 0 <= i < |ts| :: ts[i] == CategoryTotals(samples[i])
  {
    seq(|samples|, i requires 0 <= i < |samples| => CategoryTotals(samples[i]))
  }

  /** The sums over all questions are those over the samples, added up. */
  lemma {:induction false} TotalsAddUp(samples: seq<seq<QAResult>>)
    ensures SumAll(Totals(samples)) == Total(AllQuestions(samples))
    ensures JoinAll(TotalsByCategory(samples)) == CategoryTotals(AllQuestions(samples))
    decreases |samples|
  {
    if samples != [] {
      var init := samples[..|samples|-1];
      assert Totals(samples)[..|init|] == Totals(init);
      assert TotalsByCategory(samples)[..|init|] == TotalsByCategory(init);
      TotalsAddUp(init);
      TotalConcat(AllQuestions(init), samples[|init|]);
    }
  }

  /** No category of a sample has only failed judgements, unless the mode admits that. */
  predicate EveryCategoryScored(mode: string, qs: seq<QAResult>) {
    IsLLM(mode) || forall c | c in Categories(qs) :: Total(InCategory(qs, c)).valid > 0
  }

  lemma MeanTimesCount(sum: real, count: nat)
    requires count == 0 ==> sum == 0.0
    ensures Mean(sum, count) * count as real == sum
  {
  }

  /** Weighting an average recovers the sums, except that valid scores are made up where there are none. */
  lemma WeightedAverage(mode: string, s: Sums)
    requires s.Consistent()
    ensures var w := Weighted(mode, s.Average());
      && w.f1 == s.f1 && w.hitRate == s.hitRate && w.questions == s.questions
      && w.valid == if s.valid == 0 && !IsLLM(mode) then s.questions else s.valid
  {
    MeanTimesCount(s.f1, s.valid);
    MeanTimesCount(s.hitRate, s.questions);
  }

  lemma TotalConcat(a: seq<QAResult>, b: seq<QAResult>)
    ensures Total(a + b) == Total(a).Plus(Total(b))
    ensures CategoryTotals(a + b) == Joined(CategoryTotals(a), CategoryTotals(b))
  {
    TotalsOverConcat(a, b);
    TallyConcat(a, b);
    TallyIsTotals(a + b);
    TallyIsTotals(a);
    TallyIsTotals(b);
  }

  lemma {:induction false} TotalsOverConcat(a: seq<QAResult>, b: seq<QAResult>)
    ensures Total(a + b) == Total(a).Plus(Total(b))
    decreases |b|
  {
    if b == [] {
      assert a + b == a;
    } else {
      var n := |b| - 1;
      TotalsOverConcat(a, b[..n]);
      TotalStep(a + b[..n], b[n]);
      SplitLast(a, b);
    }
  }

  lemma {:induction false} TallyConcat(a: seq<QAResult>, b: seq<QAResult>)
    ensures Tally(a + b) == Joined(Tally(a), Tally(b))
    decreases |b|
  {
    if b == [] {
      assert a + b == a;
      JoinedNone(Tally(a));
    } else {
      var n := |b| - 1;
      TallyConcat(a, b[..n]);
      SplitLast(a, b);
      TallyStep(a + b[..n], b[n]);
      JoinedStep(Tally(a + b[..n]), Tally(a), Tally(b[..n]), b[n].category, SumsOf(b[n]));
    }
  }

  lemma SplitLast(a: seq<QAResult>, b: seq<QAResult>)
    requires b != []
    ensures var n := |b| - 1; a + b[..n] + [b[n]] == a + b && b[..n] + [b[n]] == b
  {
  }

  lemma JoinedNone(totals: map<int, Sums>)
    ensures Joined(totals, map[]) == totals
  {
    assert Joined(totals, map[]).Keys == totals.Keys;
    forall c | c in totals ensures Joined(totals, map[])[c] == totals[c] {
    }
  }

  lemma JoinedStep(ab: map<int, Sums>, a: map<int, Sums>, b: map<int, Sums>, c: int, s: Sums)
    requires ab == Joined(a, b)
    ensures AddTo(ab, c, s) == Joined(a, AddTo(b, c, s))
  {
    JoinedAddTo(a, b, c, s);
  }

  /** A category of failed judgements only makes the recovered count of valid scores too large. */
  lemma CategoriesAreRecovered(mode: string, qs: seq<QAResult>)
    ensures var w, t := WeightedAll(EvalResult(mode, Aggregated(qs))), CategoryTotals(qs);
      && w.Keys == t.Keys
      && forall c | c in t ::
           && w[c].valid >= t[c].valid
           && (w[c] == t[c] <==> IsLLM(mode) || t[c].valid > 0)
           && (w[c] == t[c] <==> w[c].valid == t[c].valid)
  {
    forall c | c in CategoryTotals(qs)
      ensures var w, t := WeightedAll(EvalResult(mode, Aggregated(qs))), CategoryTotals(qs);
        && w[c].valid >= t[c].valid
        && (w[c] == t[c] <==> IsLLM(mode) || t[c].valid > 0)
        && (w[c] == t[c] <==> w[c].valid == t[c].valid)
    {
      WeightedAverage(mode, Total(InCategory(qs, c)));
      assert InCategory(qs, c) != [];
    }
  }

  lemma OverallIsRecovered(mode: string, qs: seq<QAResult>)
    requires EveryCategoryScored(mode, qs)
    ensures Weighted(mode, Aggregated(qs).overall) == Total(qs)
  {
    WeightedAverage(mode, Total(qs));
    if qs != [] {
      var c := qs[|qs|-1].category;
      assert c in Categories(qs);
      CategoryValidIsPart(qs, c);
    }
  }

  lemma CategoryValidIsPart(qs: seq<QAResult>, c: int)
    ensures Total(InCategory(qs, c)).valid <= Total(qs).valid
  {
    if qs != [] {
      var init, last := qs[..|qs|-1], qs[|qs|-1];
      CategoryValidIsPart(init, c);
      var cs := InCategory(init, c);
      assert (cs + [last])[..|cs|] == cs;
    }
  }

  /** The valid scores counted for a category. */
  function ValidIn(totals: map<int, Sums>, c: int): nat {
    if c in totals then totals[c].valid else 0
  }

  lemma SampleIsNotUndercounted(mode: string, qs: seq<QAResult>, c: int)
    ensures ValidIn(WeightedAll(EvalResult(mode, Aggregated(qs))), c) >= ValidIn(CategoryTotals(qs), c)
    ensures c in Categories(qs) && !IsLLM(mode) && Total(InCategory(qs, c)).valid == 0 ==>
      ValidIn(WeightedAll(EvalResult(mode, Aggregated(qs))), c) > ValidIn(CategoryTotals(qs), c)
  {
    CategoriesAreRecovered(mode, qs);
  }

  lemma ValidInJoined(a: map<int, Sums>, b: map<int, Sums>, c: int)
    ensures ValidIn(Joined(a, b), c) == ValidIn(a, c) + ValidIn(b, c)
  {
  }

  /** Joining keeps no category undercounted, and an overcount anywhere remains one. */
  lemma {:induction false} JoiningKeepsOvercount(ws: seq<map<int, Sums>>, ts: seq<map<int, Sums>>, c: int)
    requires |ws| == |ts| && forall i | 0 <= i < |ws| :: ValidIn(ws[i], c) >= ValidIn(ts[i], c)
    ensures ValidIn(JoinAll(ws), c) >= ValidIn(JoinAll(ts), c)
    ensures (exists i :: 0 <= i < |ws| && ValidIn(ws[i], c) > ValidIn(ts[i], c)) ==>
      ValidIn(JoinAll(ws), c) > ValidIn(JoinAll(ts), c)
    decreases |ws|
  {
    if ws != [] {
      var n := |ws| - 1;
      JoiningKeepsOvercount(ws[..n], ts[..n], c);
      ValidInJoined(JoinAll(ws[..n]), ws[n], c);
      ValidInJoined(JoinAll(ts[..n]), ts[n], c);
      if i :| 0 <= i < n && ValidIn(ws[i], c) > ValidIn(ts[i], c) {
        assert ValidIn(ws[..n][i], c) > ValidIn(ts[..n][i], c);
      }
    }
  }

  /**
   * Combining the per-sample averages of a mode gives the averages of all questions, overall and per category,
   * exactly when no sample has a category without any valid score, or the mode is an LLM mode.
   */
  lemma CombiningIsExactWhenScored(mode: string, samples: seq<seq<QAResult>>)
    ensures ModeAggregated(PerSample(mode, samples)) == Aggregated(AllQuestions(samples)) <==>
      forall s | s in samples :: EveryCategoryScored(mode, s)
  {
    if forall s | s in samples :: EveryCategoryScored(mode, s) {
      ScoredSamplesCombine(mode, samples);
    } else {
      var s :| s in samples && !EveryCategoryScored(mode, s);
      UnscoredSampleDistorts(mode, samples, s);
    }
  }

  lemma ScoredSamplesCombine(mode: string, samples: seq<seq<QAResult>>)
    requires forall s | s in samples :: EveryCategoryScored(mode, s)
    ensures ModeAggregated(PerSample(mode, samples)) == Aggregated(AllQuestions(samples))
  {
    var rs := PerSample(mode, samples);
    forall i | 0 <= i < |samples|
      ensures OverallWeights(rs)[i] == Totals(samples)[i]
      ensures CategoryWeights(rs)[i] == TotalsByCategory(samples)[i]
    {
      assert samples[i] in samples;
      OverallIsRecovered(mode, samples[i]);
      CategoriesAreRecovered(mode, samples[i]);
    }
    assert OverallWeights(rs) == Totals(samples) && CategoryWeights(rs) == TotalsByCategory(samples);
    TotalsAddUp(samples);
  }

  lemma UnscoredSampleDistorts(mode: string, samples: seq<seq<QAResult>>, s: seq<QAResult>)
    requires s in samples && !EveryCategoryScored(mode, s)
    ensures ModeAggregated(PerSample(mode, samples)) != Aggregated(AllQuestions(samples))
  {
    var c :| c in Categories(s) && Total(InCategory(s, c)).valid == 0;
    UnscoredIsOvercounted(mode, samples, s, c);
    TotalsAddUp(samples);
    AveragesKeepCounts(JoinAll(CategoryWeights(PerSample(mode, samples))), c);
    AveragesKeepCounts(CategoryTotals(AllQuestions(samples)), c);
  }

  lemma UnscoredIsOvercounted(mode: string, samples: seq<seq<QAResult>>, s: seq<QAResult>, c: int)
    requires s in samples && !IsLLM(mode) && c in Categories(s) && Total(InCategory(s, c)).valid == 0
    ensures ValidIn(JoinAll(CategoryWeights(PerSample(mode, samples))), c) > ValidIn(JoinAll(TotalsByCategory(samples)), c)
  {
    var ws, ts := CategoryWeights(PerSample(mode, samples)), TotalsByCategory(samples);
    forall i | 0 <= i < |samples| ensures ValidIn(ws[i], c) >= ValidIn(ts[i], c) {
      SampleIsNotUndercounted(mode, samples[i], c);
    }
    var i :| 0 <= i < |samples| && samples[i] == s;
    SampleIsNotUndercounted(mode, samples[i], c);
    JoiningKeepsOvercount(ws, ts, c);
  }

  lemma AveragesKeepCounts(totals: map<int, Sums>, c: int)
    ensures ValidIn(totals, c) == if c in AverageAll(totals) then AverageAll(totals)[c].validF1Count else 0
  {
  }

  /** Scores that are never negative leave every category scored. */
  lemma NonNegativeScoresAreExact(mode: string, samples: seq<seq<QAResult>>)
    requires forall s, q | s in samples && q in s :: q.tokenF1 >= 0.0
    ensures ModeAggregated(PerSample(mode, samples)) == Aggregated(AllQuestions(samples))
  {
    forall s | s in samples ensures EveryCategoryScored(mode, s) {
      forall c | c in Categories(s) ensures Total(InCategory(s, c)).valid > 0 {
        AllValid(s, c);
      }
    }
    CombiningIsExactWhenScored(mode, samples);
  }

  lemma AllValid(qs: seq<QAResult>, c: int)
    requires forall q | q in qs :: q.tokenF1 >= 0.0
    ensures Total(InCategory(qs, c)).valid == |InCategory(qs, c)|
  {
    if qs != [] {
      var init, last := qs[..|qs|-1], qs[|qs|-1];
      AllValid(init, c);
      var cs := InCategory(init, c);
      assert (cs + [last])[..|cs|] == cs;
    }
  }
}
