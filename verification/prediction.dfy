/** `getPrediction`: the mean rate of the trailing window, the net news
    sentiment of the same window, and their blend into tomorrow's rate and a
    confidence percentage. Arithmetic is exact (real numbers). */
module Prediction {

  import opened Wrappers
  import opened Calendar
  import opened ChartSeries
  import opened RateStore
  import opened Sentiment
  import opened NewsIngestion

  /** How strongly a fully polarised sentiment moves the forecast. */
  const Sensitivity: real := 0.001
  /** The number of counted articles at which sentiment gets full weight. */
  const ArticleQuota: nat := 30
  /** Both queries look back this many days. */
  const LookbackDays: nat := 30

  const NoRateData: string := "No exchange rate data available"
  const RateQueryError: string := "Error fetching exchange rates"
  const SentimentQueryError: string := "Error fetching news sentiment"

  /** What a database query handed back: its rows, or an error. */
  datatype QueryResult<T> = Rows(rows: seq<T>) | QueryFailed

  /** The prediction before its two-decimal formatting. */
  datatype Forecast = Forecast(predictedRate: real, confidence: real)

  /** The running total of the rates, accumulated left to right. */
  function TotalRate(rates: seq<real>): real {
    if |rates| == 0 then 0.0 else TotalRate(rates[..|rates| - 1]) + rates[|rates| - 1]
  }

  /** Rates all above `v` total more than `v` per rate. */
  lemma {:induction false} TotalAbove(rates: seq<real>, v: real)
    requires |rates| > 0
    requires forall i :: 0 <= i < |rates| ==> v < rates[i]
    ensures (|rates| as real) * v < TotalRate(rates)
  {
    if |rates| > 1 {
      TotalAbove(rates[..|rates| - 1], v);
    }
  }

  /** Rates all below `v` total less than `v` per rate. */
  lemma {:induction false} TotalBelow(rates: seq<real>, v: real)
    requires |rates| > 0
    requires forall i :: 0 <= i < |rates| ==> rates[i] < v
    ensures TotalRate(rates) < (|rates| as real) * v
  {
    if |rates| > 1 {
      TotalBelow(rates[..|rates| - 1], v);
    }
  }

  /** The mean of a non-empty window times its size gives back the total,
      and the mean lies between the window's least and greatest rate. */
  lemma MeanBetween(rates: seq<real>)
    requires |rates| > 0
    ensures (TotalRate(rates) / (|rates| as real)) * (|rates| as real) == TotalRate(rates)
    ensures exists i :: 0 <= i < |rates| && rates[i] <= TotalRate(rates) / (|rates| as real)
    ensures exists j :: 0 <= j < |rates| && TotalRate(rates) / (|rates| as real) <= rates[j]
  {
    var n := |rates| as real;
    var mean := TotalRate(rates) / n;
    assert mean * n == TotalRate(rates);
    if forall i :: 0 <= i < |rates| ==> mean < rates[i] {
      TotalAbove(rates, mean);
      assert false;
    }
    if forall j :: 0 <= j < |rates| ==> rates[j] < mean {
      TotalBelow(rates, mean);
      assert false;
    }
  }

  /** The mean rate of the window; an empty window is an error, never a
      default average. */
  function AverageRate(rates: seq<real>): (r: Result<real, string>)
    ensures r.Failure? <==> |rates| == 0
    ensures r.Failure? ==> r.error == NoRateData
    ensures r.Success? ==> r.value * (|rates| as real) == TotalRate(rates)
    ensures r.Success? ==> exists i :: 0 <= i < |rates| && rates[i] <= r.value
    ensures r.Success? ==> exists j :: 0 <= j < |rates| && r.value <= rates[j]
  {
    if |rates| == 0 then Failure(NoRateData)
    else
      MeanBetween(rates);
      Success(TotalRate(rates) / (|rates| as real))
  }

  /** A window whose rates are all equal averages to that rate. */
  lemma ConstantWindowAverage(rates: seq<real>, rate: real)
    requires |rates| > 0
    requires forall i :: 0 <= i < |rates| ==> rates[i] == rate
    ensures AverageRate(rates) == Success(rate)
  {
    MeanBetween(rates);
  }

  function Abs(x: real): real {
    if x < 0.0 then -x else x
  }

  /** How much of the 30-article quota was seen, capped at the whole quota. */
  function SentimentFactor(count: nat): (f: real)
    ensures 0.0 <= f <= 1.0
    ensures count >= ArticleQuota ==> f == 1.0
    ensures count < ArticleQuota ==> f * (ArticleQuota as real) == count as real
  {
    var ratio := (count as real) / (ArticleQuota as real);
    if ratio < 1.0 then ratio else 1.0
  }

  lemma SentimentFactorMonotone(c1: nat, c2: nat)
    requires c1 <= c2
    ensures SentimentFactor(c1) <= SentimentFactor(c2)
  {
  }

  /** The product of two fractions is a fraction, and is whole only when
      both are. */
  lemma UnitProduct(a: real, f: real)
    requires 0.0 <= a <= 1.0 && 0.0 <= f <= 1.0
    ensures a * 50.0 * f <= 50.0
    ensures a * 50.0 * f == 50.0 <==> a == 1.0 && f == 1.0
  {
    assert a * f <= f;
    assert a * 50.0 * f == 50.0 * (a * f);
    if a * f == 1.0 {
      assert f == 1.0;
      assert a == a * f;
    }
  }

  /** The confidence percentage: 50 plus up to 50 more as the sentiment is
      more polarised and more articles back it. */
  function Confidence(avgSentiment: real, count: nat): (c: real)
    ensures c >= 50.0
    ensures -1.0 <= avgSentiment <= 1.0 ==> c <= 100.0
    ensures avgSentiment == 0.0 || count == 0 ==> c == 50.0
    ensures -1.0 <= avgSentiment <= 1.0 ==>
      (c == 100.0 <==> Abs(avgSentiment) == 1.0 && count >= ArticleQuota)
  {
    var f := SentimentFactor(count);
    var a := Abs(avgSentiment);
    assert 0.0 <= a * 50.0 * f;
    if a <= 1.0 then
      UnitProduct(a, f);
      50.0 + a * 50.0 * f
    else
      50.0 + a * 50.0 * f
  }

  lemma ProductNonNegative(x: real, y: real)
    requires x >= 0.0 && y >= 0.0
    ensures x * y >= 0.0
  {
  }

  /** Confidence never drops as the sentiment grows more polarised. */
  lemma ConfidenceMonotoneInSentiment(a1: real, a2: real, count: nat)
    requires Abs(a1) <= Abs(a2)
    ensures Confidence(a1, count) <= Confidence(a2, count)
  {
    var f := SentimentFactor(count);
    ProductNonNegative(Abs(a2) * 50.0 - Abs(a1) * 50.0, f);
  }

  /** Confidence never drops as more articles are counted. */
  lemma ConfidenceMonotoneInCount(a: real, c1: nat, c2: nat)
    requires c1 <= c2
    ensures Confidence(a, c1) <= Confidence(a, c2)
  {
    SentimentFactorMonotone(c1, c2);
    ProductNonNegative(Abs(a) * 50.0, SentimentFactor(c2) - SentimentFactor(c1));
  }

  /** Tomorrow's rate: the mean rate nudged by at most `Sensitivity` of
      itself, in the direction of the sentiment. */
  function PredictedRate(avgRate: real, avgSentiment: real): (p: real)
    ensures avgSentiment == 0.0 ==> p == avgRate
    ensures avgRate > 0.0 ==> (p > avgRate <==> avgSentiment > 0.0) && (p < avgRate <==> avgSentiment < 0.0)
    ensures avgRate >= 0.0 && -1.0 <= avgSentiment <= 1.0 ==>
      avgRate * (1.0 - Sensitivity) <= p <= avgRate * (1.0 + Sensitivity)
  {
    var p := avgRate * (1.0 + avgSentiment * Sensitivity);
    assert p == avgRate + avgRate * avgSentiment * Sensitivity;
    assert avgRate >= 0.0 && -1.0 <= avgSentiment <= 1.0 ==>
      -avgRate <= avgRate * avgSentiment <= avgRate;
    p
  }

  /** The body of `getPrediction` once both queries have answered. */
  function Predict(rateRows: QueryResult<real>, sentimentRows: QueryResult<string>): (r: Result<Forecast, string>)
    ensures rateRows.QueryFailed? ==> r == Failure(RateQueryError)
    ensures rateRows.Rows? && |rateRows.rows| == 0 ==> r == Failure(NoRateData)
    ensures rateRows.Rows? && |rateRows.rows| > 0 && sentimentRows.QueryFailed? ==> r == Failure(SentimentQueryError)
    ensures r.Success? <==> rateRows.Rows? && |rateRows.rows| > 0 && sentimentRows.Rows?
    ensures r.Success? ==> 50.0 <= r.value.confidence <= 100.0
    ensures r.Success? ==> AverageRate(rateRows.rows).Success?
    ensures r.Success? && AverageRate(rateRows.rows).value >= 0.0 ==>
      var avgRate := AverageRate(rateRows.rows).value;
      avgRate * (1.0 - Sensitivity) <= r.value.predictedRate <= avgRate * (1.0 + Sensitivity)
    ensures r.Success? && (forall i :: 0 <= i < |rateRows.rows| ==> rateRows.rows[i] >= 0.0) ==>
      AverageRate(rateRows.rows).value >= 0.0
    ensures r.Success? && CountedRows(sentimentRows.rows) == 0 ==>
      Success(r.value.predictedRate) == AverageRate(rateRows.rows) && r.value.confidence == 50.0
  {
    match rateRows
    case QueryFailed => Failure(RateQueryError)
    case Rows(rates) =>
      match AverageRate(rates)
      case Failure(e) => Failure(e)
      case Success(avgRate) =>
        match sentimentRows
        case QueryFailed => Failure(SentimentQueryError)
        case Rows(sentiments) =>
          var avgSentiment := AvgSentiment(sentiments);
          var p := PredictedRate(avgRate, avgSentiment);
          Success(Forecast(p, Confidence(avgSentiment, CountedRows(sentiments))))
  }

  /** The stored articles published on or after `from`, every stored copy
      of a row included: the article table has no key, so a row inserted
      twice is read, and counted, twice. */
  function ArticlesSince(recs: seq<ArticleRecord>, from: Day): (sel: seq<ArticleRecord>)
    ensures |sel| <= |recs|
    ensures forall r :: r in sel <==> r in recs && r.publishedAt >= from
    ensures forall r :: multiset(sel)[r] == if r.publishedAt >= from then multiset(recs)[r] else 0
  {
    if |recs| == 0 then []
    else
      var rest := ArticlesSince(recs[1..], from);
      assert recs == [recs[0]] + recs[1..];
      assert multiset(recs) == multiset{recs[0]} + multiset(recs[1..]);
      assert forall r :: r in recs <==> r == recs[0] || r in recs[1..];
      if recs[0].publishedAt >= from then
        assert multiset([recs[0]] + rest) == multiset{recs[0]} + multiset(rest);
        [recs[0]] + rest
      else rest
  }

  /** No stored article of the window has a counted label: the sentiment
      query's rows are all skipped by the tally. */
  lemma NoCountedArticles(articles: seq<ArticleRecord>, from: Day)
    requires forall a :: a in articles && a.publishedAt >= from ==> a.sentiment == Error
    ensures CountedRows(SentimentColumn(ArticlesSince(articles, from))) == 0
  {
    var picked := ArticlesSince(articles, from);
    assert forall k :: 0 <= k < |picked| ==> picked[k] in picked;
    NothingRecognisedNothingCounted(SentimentColumn(picked));
  }

  /** A forecast over rows read from the rate table relates to stored rates
      of the window: within 0.1% of them for non-negative rates, and between
      two of them when no sentiment row is counted. */
  lemma ForecastNearStoredRates(store: Store, from: Day, rows: seq<RateRow>, sentiments: seq<string>, f: Forecast)
    requires forall i :: 0 <= i < |rows| ==>
      rows[i].date in store && rows[i].date >= from && rows[i].rate == store[rows[i].date]
    requires Predict(Rows(Rates(rows)), Rows(sentiments)) == Success(f)
    ensures (forall d :: d in store ==> store[d] >= 0.0) ==>
      && (exists d :: d in store && d >= from && store[d] * (1.0 - Sensitivity) <= f.predictedRate)
      && (exists d :: d in store && d >= from && f.predictedRate <= store[d] * (1.0 + Sensitivity))
    ensures CountedRows(sentiments) == 0 ==>
      && f.confidence == 50.0
      && (exists d :: d in store && d >= from && store[d] <= f.predictedRate)
      && (exists d :: d in store && d >= from && f.predictedRate <= store[d])
  {
    var rates := Rates(rows);
    var avgRate := AverageRate(rates).value;
    var i :| 0 <= i < |rates| && rates[i] <= avgRate;
    var j :| 0 <= j < |rates| && avgRate <= rates[j];
    var lo, hi := rows[i].date, rows[j].date;
    assert lo in store && lo >= from && store[lo] <= avgRate;
    assert hi in store && hi >= from && avgRate <= store[hi];
    if forall d :: d in store ==> store[d] >= 0.0 {
      assert forall k :: 0 <= k < |rates| ==> rates[k] >= 0.0;
      assert store[lo] * (1.0 - Sensitivity) <= avgRate * (1.0 - Sensitivity);
      assert avgRate * (1.0 + Sensitivity) <= store[hi] * (1.0 + Sensitivity);
    }
  }

  /** The whole endpoint over the two tables: the rates dated from 30 days
      ago on, and the sentiments of the articles published since then. */
  method PredictFromStores(store: Store, articles: seq<ArticleRecord>, today: Day) returns (r: Result<Forecast, string>)
    ensures r.Failure? <==> forall d :: d in store ==> d < today - LookbackDays
    ensures r.Failure? ==> r.error == NoRateData
    ensures r.Success? ==> 50.0 <= r.value.confidence <= 100.0
    ensures r.Success? && (forall a :: a in articles && a.publishedAt >= today - LookbackDays ==> a.sentiment == Error) ==>
      && r.value.confidence == 50.0
      && (exists d :: d in store && d >= today - LookbackDays && store[d] <= r.value.predictedRate)
      && (exists d :: d in store && d >= today - LookbackDays && r.value.predictedRate <= store[d])
    ensures r.Success? && (forall d :: d in store ==> store[d] >= 0.0) ==>
      && (exists d :: d in store && d >= today - LookbackDays && store[d] * (1.0 - Sensitivity) <= r.value.predictedRate)
      && (exists d :: d in store && d >= today - LookbackDays && r.value.predictedRate <= store[d] * (1.0 + Sensitivity))
  {
    var from := today - LookbackDays;
    var rows := SelectWindow(store, SinceWindow(today, LookbackDays));
    var sentiments := SentimentColumn(ArticlesSince(articles, from));
    r := Predict(Rows(Rates(rows)), Rows(sentiments));
    if |rows| > 0 {
      assert rows[0].date in store && rows[0].date >= from;
    }
    if r.Success? {
      ForecastNearStoredRates(store, from, rows, sentiments, r.value);
      if forall a :: a in articles && a.publishedAt >= from ==> a.sentiment == Error {
        NoCountedArticles(articles, from);
      }
    }
  }

  /** n copies of one value. */
  function Repeat<T>(x: T, n: nat): (s: seq<T>)
    ensures |s| == n
    ensures forall i :: 0 <= i < n ==> s[i] == x
  {
    seq(n, _ => x)
  }

  lemma {:induction false} RepeatMultiset<T>(x: T, n: nat)
    ensures multiset(Repeat(x, n))[x] == n
    ensures forall y :: y != x ==> multiset(Repeat(x, n))[y] == 0
  {
    if n > 0 {
      RepeatMultiset(x, n - 1);
      assert Repeat(x, n) == Repeat(x, n - 1) + [x];
    }
  }

  /** Thirty days at 50000 and ten articles of each label: the sentiments
      cancel, so the forecast is the mean rate at the base confidence. */
  lemma BalancedNewsScenario()
    ensures var sentiments := Repeat("positive", 10) + Repeat("negative", 10) + Repeat("neutral", 10);
            Predict(Rows(Repeat(50000.0, 30)), Rows(sentiments)) == Success(Forecast(50000.0, 50.0))
  {
    var sentiments := Repeat("positive", 10) + Repeat("negative", 10) + Repeat("neutral", 10);
    RepeatMultiset("positive", 10);
    RepeatMultiset("negative", 10);
    RepeatMultiset("neutral", 10);
    TallyByLabelCounts(sentiments);
    assert multiset(sentiments) == multiset(Repeat("positive", 10)) + multiset(Repeat("negative", 10)) + multiset(Repeat("neutral", 10));
    assert CountedRows(sentiments) == 30 && SentimentSum(sentiments) == 0;
    ConstantWindowAverage(Repeat(50000.0, 30), 50000.0);
  }

  /** Fifteen positive articles and nothing else: full polarity at half the
      quota gives 75% confidence. */
  lemma HalfQuotaPositiveScenario(rates: seq<real>)
    requires |rates| > 0
    ensures Predict(Rows(rates), Rows(Repeat("positive", 15))).value.confidence == 75.0
  {
    var sentiments := Repeat("positive", 15);
    RepeatMultiset("positive", 15);
    TallyByLabelCounts(sentiments);
    assert CountedRows(sentiments) == 15 && SentimentSum(sentiments) == 15;
    assert AvgSentiment(sentiments) == 1.0;
    assert SentimentFactor(15) == 0.5;
  }
}
